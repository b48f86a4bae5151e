/**
 Splitting a command of the control tool's shell into arguments with strtok
 (iralarm/iralarmctl.c:123-144).
 */
module ShellArgs {
  import opened Wrappers

  const DELIM := ' '
  const SHELL_ARGLEN := 128

  /** The length of the word at the start of s. */
  function WordLength(s: string): (n: nat)
    ensures n <= |s|
    ensures DELIM !in s[..n] && (n < |s| ==> s[n] == DELIM)
  {
    if s == "" || s[0] == DELIM then 0 else 1 + WordLength(s[1..])
  }

  /** The words of s, in order. */
  function Tokens(s: string): seq<string> {
    if s == "" then []
    else if s[0] == DELIM then Tokens(s[1..])
    else [s[..WordLength(s)]] + Tokens(s[WordLength(s)..])
  }

  /** Nothing but spaces. */
  predicate Blank(s: string) {
    forall i :: 0 <= i < |s| ==> s[i] == ' '
  }

  predicate Word(s: string) {
    s != "" && ' ' !in s
  }

  /** The words with gaps[0] in front, gaps[i] after the i-th of them. */
  function Join(gaps: seq<string>, words: seq<string>): string
    requires |gaps| == |words| + 1
  {
    if words == [] then gaps[0] else gaps[0] + words[0] + Join(gaps[1..], words[1..])
  }

  /** The gaps are spaces, and none between two words is empty. */
  predicate Separates(gaps: seq<string>, words: seq<string>) {
    && |gaps| == |words| + 1
    && (forall i :: 0 <= i < |gaps| ==> Blank(gaps[i]))
    && (forall i :: 0 < i < |words| ==> gaps[i] != "")
  }

  lemma {:induction false} WordThenDelim(w: string, rest: string)
    requires DELIM !in w && (rest == "" || rest[0] == DELIM)
    ensures WordLength(w + rest) == |w|
  {
    if w == "" {
      assert w + rest == rest;
    } else {
      WordThenDelim(w[1..], rest);
      assert (w + rest)[1..] == w[1..] + rest;
    }
  }

  lemma {:induction false} BlankIsSkipped(blank: string, rest: string)
    requires Blank(blank)
    ensures Tokens(blank + rest) == Tokens(rest)
  {
    if blank == "" {
      assert blank + rest == rest;
    } else {
      BlankIsSkipped(blank[1..], rest);
      assert (blank + rest)[1..] == blank[1..] + rest;
    }
  }

  lemma WordIsTaken(w: string, rest: string)
    requires Word(w) && (rest == "" || rest[0] == ' ')
    ensures Tokens(w + rest) == [w] + Tokens(rest)
  {
    WordThenDelim(w, rest);
    var s := w + rest;
    assert s[0] == w[0] && s[0] in w;
    assert s[..|w|] == w && s[|w|..] == rest;
  }

  /** Splitting undoes joining, whatever spaces are around and between the words. */
  lemma {:induction false} TokensOfJoin(gaps: seq<string>, words: seq<string>)
    requires Separates(gaps, words) && forall i :: 0 <= i < |words| ==> Word(words[i])
    ensures Tokens(Join(gaps, words)) == words
    decreases |words|
  {
    if words == [] {
      BlankIsSkipped(gaps[0], "");
      assert gaps[0] + "" == gaps[0];
    } else {
      var rest := Join(gaps[1..], words[1..]);
      TokensOfJoin(gaps[1..], words[1..]);
      WordIsTaken(words[0], rest);
      BlankIsSkipped(gaps[0], words[0] + rest);
      assert gaps[0] + words[0] + rest == gaps[0] + (words[0] + rest);
    }
  }

  lemma NoGapInFront(gaps: seq<string>, words: seq<string>)
    requires |gaps| == |words| + 1 && words != [] && Word(words[0])
    ensures gaps[0] == "" ==> Join(gaps, words) != "" && Join(gaps, words)[0] != ' '
  {
    assert words[0][0] in words[0];
  }

  lemma JoinAfterBlank(blank: string, gaps: seq<string>, words: seq<string>) returns (all: seq<string>)
    requires Separates(gaps, words) && Blank(blank)
    ensures Separates(all, words) && Join(all, words) == blank + Join(gaps, words)
  {
    all := [blank + gaps[0]] + gaps[1..];
    assert all[1..] == gaps[1..];
    if words != [] {
      assert blank + gaps[0] + words[0] + Join(gaps[1..], words[1..])
          == blank + (gaps[0] + words[0] + Join(gaps[1..], words[1..]));
    }
  }

  lemma JoinAfterWord(w: string, gaps: seq<string>, words: seq<string>) returns (all: seq<string>)
    requires Separates(gaps, words) && (words == [] || gaps[0] != "")
    ensures Separates(all, [w] + words) && Join(all, [w] + words) == w + Join(gaps, words)
  {
    all := [""] + gaps;
    assert all[1..] == gaps && ([w] + words)[1..] == words;
    assert "" + w + Join(gaps, words) == w + Join(gaps, words);
  }

  /** And joining undoes splitting: every string is its words with some spaces around and between them. */
  lemma {:induction false} JoinOfTokens(s: string) returns (gaps: seq<string>)
    ensures forall i :: 0 <= i < |Tokens(s)| ==> Word(Tokens(s)[i])
    ensures Separates(gaps, Tokens(s)) && Join(gaps, Tokens(s)) == s
    decreases |s|
  {
    if s == "" {
      gaps := [""];
    } else if s[0] == ' ' {
      var later := JoinOfTokens(s[1..]);
      gaps := JoinAfterBlank(" ", later, Tokens(s[1..]));
      assert s == " " + s[1..];
    } else {
      var n := WordLength(s);
      var w, rest := s[..n], s[n..];
      assert n > 0 && s == w + rest;
      var later := JoinOfTokens(rest);
      if Tokens(rest) != [] {
        NoGapInFront(later, Tokens(rest));
      }
      gaps := JoinAfterWord(w, later, Tokens(rest));
    }
  }

  /** The static state of strtok: what is left of the string. */
  class Tokenizer {
    var rest: string

    constructor (s: string)
      ensures rest == s
    {
      rest := s;
    }

    method Next() returns (w: Option<string>)
      modifies this
      ensures if Tokens(old(rest)) == [] then w == None && Tokens(rest) == []
              else w == Some(Tokens(old(rest))[0]) && Tokens(rest) == Tokens(old(rest))[1..]
    {
      while rest != "" && rest[0] == DELIM
        invariant Tokens(rest) == Tokens(old(rest))
        decreases |rest|
      {
        rest := rest[1..];
      }
      if rest == "" {
        return None;
      }
      var n := WordLength(rest);
      w := Some(rest[..n]);
      rest := if n < |rest| then rest[n + 1..] else "";
    }
  }

  /** A cleared buffer after strncpy: the word cut to the buffer, padded with zeros. */
  function Padded(w: string): (r: string)
    ensures |r| == 128 && if |w| < 128 then w <= r else r == w[..128]
    ensures forall i :: |w| <= i < 128 ==> r[i] == '\0'
  {
    seq(SHELL_ARGLEN, i requires 0 <= i < SHELL_ARGLEN => if i < |w| then w[i] else '\0')
  }

  /**
   shell_getarg: succeeds, returning 0, exactly when the command word is followed by nargs words,
   and stores as many of them as there is room for.
   */
  method ShellGetArg(buf: string, args: array<string>, nargs: int) returns (r: int)
    requires 0 < nargs <= args.Length
    modifies args
    ensures r == if |Tokens(buf)| == nargs + 1 then 0 else -1
    ensures forall i :: 0 <= i < args.Length ==>
              args[i] == if i < nargs && i + 1 < |Tokens(buf)| then Padded(Tokens(buf)[i + 1]) else old(args[i])
  {
    ghost var words := Tokens(buf);
    var t := new Tokenizer(buf);
    var s := t.Next();
    var argidx, left := 0, nargs;
    while s.Some?
      invariant 0 <= argidx && left == nargs - argidx && left > 0
      invariant s == None ==> words == [] && argidx == 0
      invariant s.Some? ==> argidx < |words| && Tokens(t.rest) == words[argidx + 1..]
      invariant forall i :: 0 <= i < args.Length ==>
                  args[i] == if i < argidx then Padded(words[i + 1]) else old(args[i])
      decreases left, s.Some?
    {
      s := t.Next();
      if s.None? {
        break;
      }
      args[argidx] := Padded(s.value);
      argidx := argidx + 1;
      left := left - 1;
      if left == 0 {
        s := t.Next();
        return if s.None? then left else -1;
      }
    }
    return -1;
  }
}
