/** Origin patterns of the CORS policy. NewCORS quotes every configured origin
    for literal matching, turns the quoted `*` into `.*` and the quoted `?`
    into `.`, and anchors the result between `^` and `$`. This module states
    that translation as a list of tokens and the anchored match as a recursive
    predicate. As in Go's regular expressions without the `s` flag, a
    wildcard never matches a newline. */
module Glob {

  /** One position of a compiled origin pattern. */
  datatype Token = AnyRun | AnyChar | Literal(c: char)

  type Pattern = seq<Token>

  function TokenOf(c: char): Token
  {
    if c == '*' then AnyRun else if c == '?' then AnyChar else Literal(c)
  }

  function CharOf(t: Token): char
  {
    match t
    case AnyRun => '*'
    case AnyChar => '?'
    case Literal(c) => c
  }

  /** The configured origin a pattern was compiled from. */
  function Source(g: Pattern): string
  {
    if |g| == 0 then "" else [CharOf(g[0])] + Source(g[1..])
  }

  /** The translation of one configured origin; nothing is lost, since
      Source reads the origin back. */
  function Compile(origin: string): (g: Pattern)
    ensures |g| == |origin|
    ensures Source(g) == origin
    decreases |origin|
  {
    if |origin| == 0 then []
    else
      var g := [TokenOf(origin[0])] + Compile(origin[1..]);
      assert g[1..] == Compile(origin[1..]);
      assert origin == [origin[0]] + origin[1..];
      g
  }

  /** Compile works position by position: `*` becomes a run of any
      characters, `?` any one character, and every other character stands
      for itself. */
  lemma {:induction false} CompilePositions(origin: string)
    ensures forall i :: 0 <= i < |origin| ==>
      && (Compile(origin)[i] == AnyRun <==> origin[i] == '*')
      && (Compile(origin)[i] == AnyChar <==> origin[i] == '?')
      && (Compile(origin)[i].Literal? ==> Compile(origin)[i].c == origin[i])
    decreases |origin|
  {
    if |origin| > 0 {
      CompilePositions(origin[1..]);
      var g := Compile(origin);
      assert g[0] == TokenOf(origin[0]);
      assert forall i :: 1 <= i < |g| ==> g[i] == Compile(origin[1..])[i - 1] && origin[i] == origin[1..][i - 1];
    }
  }

  /** What `.` matches: any character but a newline. */
  predicate Wild(c: char)
  {
    c != '\n'
  }

  /** The anchored match of `^pattern$` against the whole of `s`. */
  predicate Matches(g: Pattern, s: string)
    decreases |g| + |s|
  {
    if |g| == 0 then |s| == 0
    else
      match g[0]
      case AnyRun => Matches(g[1..], s) || (|s| > 0 && Wild(s[0]) && Matches(g, s[1..]))
      case AnyChar => |s| > 0 && Wild(s[0]) && Matches(g[1..], s[1..])
      case Literal(c) => |s| > 0 && s[0] == c && Matches(g[1..], s[1..])
  }

  /** No character of s[lo..hi] is a newline. */
  predicate NoNewline(s: string, lo: int, hi: int)
    requires 0 <= lo && hi <= |s|
  {
    forall k :: lo <= k < hi ==> Wild(s[k])
  }

  /** An origin with neither wildcard character. */
  predicate NoWildcards(o: string)
  {
    '*' !in o && '?' !in o
  }

  lemma {:induction false} CompileAppend(a: string, b: string)
    ensures Compile(a + b) == Compile(a) + Compile(b)
    decreases |a|
  {
    if |a| > 0 {
      assert (a + b)[1..] == a[1..] + b;
      CompileAppend(a[1..], b);
    } else {
      assert a + b == b;
    }
  }

  /** A literal prefix of the pattern must be matched character by character
      at the start of the origin. */
  lemma {:induction false} LiteralPrefix(pre: string, rest: Pattern, s: string)
    requires NoWildcards(pre)
    ensures Matches(Compile(pre) + rest, s)
      <==> |s| >= |pre| && s[..|pre|] == pre && Matches(rest, s[|pre|..])
    decreases |pre|
  {
    if |pre| == 0 {
      assert Compile(pre) + rest == rest;
    } else {
      var g := Compile(pre) + rest;
      assert g[0] == Literal(pre[0]);
      assert g[1..] == Compile(pre[1..]) + rest;
      assert Matches(g, s) <==> |s| > 0 && s[0] == pre[0] && Matches(g[1..], s[1..]);
      if |s| > 0 {
        LiteralPrefix(pre[1..], rest, s[1..]);
        PeelFirst(pre, s);
      }
    }
  }

  /** Comparing a non-empty prefix is comparing the first character and then
      the rest, one position further on. */
  lemma PeelFirst(pre: string, s: string)
    requires |pre| > 0 && |s| > 0
    ensures (|s| >= |pre| && s[..|pre|] == pre)
      <==> (s[0] == pre[0] && |s[1..]| >= |pre[1..]| && s[1..][..|pre[1..]|] == pre[1..])
    ensures |s| >= |pre| ==> s[1..][|pre[1..]|..] == s[|pre|..]
  {
    if |s| >= |pre| {
      assert s[..|pre|] == [s[0]] + s[1..][..|pre| - 1];
      assert pre == [pre[0]] + pre[1..];
    }
  }

  /** An origin without wildcards accepts exactly itself. */
  lemma LiteralMatch(o: string, s: string)
    requires NoWildcards(o)
    ensures Matches(Compile(o), s) <==> s == o
  {
    LiteralPrefix(o, [], s);
    assert Compile(o) + [] == Compile(o);
  }

  /** `*suffix` accepts exactly the strings that end in the suffix and have no
      newline before it: the anchor at the end cannot be skipped. */
  lemma {:induction false} StarSuffix(suf: string, s: string)
    requires NoWildcards(suf)
    ensures Matches([AnyRun] + Compile(suf), s)
      <==> (&& |s| >= |suf|
            && s[|s| - |suf|..] == suf
            && NoNewline(s, 0, |s| - |suf|))
    decreases |s|
  {
    var g := [AnyRun] + Compile(suf);
    assert g[1..] == Compile(suf);
    LiteralMatch(suf, s);
    if |s| > 0 {
      StarSuffix(suf, s[1..]);
      if |s| > |suf| {
        assert s[1..][|s| - 1 - |suf|..] == s[|s| - |suf|..];
        assert forall k :: 1 <= k < |s| - |suf| ==> s[k] == s[1..][k - 1];
      }
    }
  }

  /** The origins `prefix*suffix` accepts when both ends are literal: they
      start with the prefix, end with the suffix, are at least as long as
      both together, and hold no newline in between. */
  predicate Bracketed(pre: string, suf: string, s: string)
  {
    && |s| >= |pre| + |suf|
    && s[..|pre|] == pre
    && s[|s| - |suf|..] == suf
    && NoNewline(s, |pre|, |s| - |suf|)
  }

  /** A pattern `prefix*suffix` with literal ends, such as the subdomain
      wildcard of SubdomainWildcardExamples, accepts exactly the Bracketed
      origins. */
  lemma WildcardBetweenLiterals(pre: string, suf: string, s: string)
    requires NoWildcards(pre) && NoWildcards(suf)
    ensures Matches(Compile(pre + "*" + suf), s) <==> Bracketed(pre, suf, s)
  {
    CompileStar(pre, suf);
    PrefixStarSuffix(pre, suf, s);
  }

  lemma PrefixStarSuffix(pre: string, suf: string, s: string)
    requires NoWildcards(pre) && NoWildcards(suf)
    ensures Matches(Compile(pre) + ([AnyRun] + Compile(suf)), s) <==> Bracketed(pre, suf, s)
  {
    var tail := [AnyRun] + Compile(suf);
    LiteralPrefix(pre, tail, s);
    if |s| >= |pre| {
      var t := s[|pre|..];
      StarSuffix(suf, t);
      if |s| >= |pre| + |suf| {
        ShiftWindow(pre, suf, s);
      }
    }
  }

  /** Dropping a prefix of length |pre| shifts the window between the ends. */
  lemma ShiftWindow(pre: string, suf: string, s: string)
    requires |s| >= |pre| + |suf|
    ensures var t := s[|pre|..];
      && (t[|t| - |suf|..] == suf <==> s[|s| - |suf|..] == suf)
      && (NoNewline(t, 0, |t| - |suf|) <==> NoNewline(s, |pre|, |s| - |suf|))
  {
    var t := s[|pre|..];
    assert t[|t| - |suf|..] == s[|s| - |suf|..];
    assert forall k :: 0 <= k < |t| ==> t[k] == s[k + |pre|];
  }

  /** A pattern `prefix?suffix` with literal ends accepts exactly the origins
      that spell the prefix, then one character other than a newline, then
      the suffix. */
  lemma QuestionBetweenLiterals(pre: string, suf: string, s: string)
    requires NoWildcards(pre) && NoWildcards(suf)
    ensures Matches(Compile(pre + "?" + suf), s) <==> OneBetween(pre, suf, s)
  {
    CompileQuestion(pre, suf);
    PrefixQuestionSuffix(pre, suf, s);
  }

  /** The origins `prefix?suffix` accepts when both ends are literal. */
  predicate OneBetween(pre: string, suf: string, s: string)
  {
    && |s| == |pre| + 1 + |suf|
    && s[..|pre|] == pre
    && Wild(s[|pre|])
    && s[|pre| + 1..] == suf
  }

  lemma PrefixQuestionSuffix(pre: string, suf: string, s: string)
    requires NoWildcards(pre) && NoWildcards(suf)
    ensures Matches(Compile(pre) + ([AnyChar] + Compile(suf)), s) <==> OneBetween(pre, suf, s)
  {
    LiteralPrefix(pre, [AnyChar] + Compile(suf), s);
    if |s| >= |pre| {
      var t := s[|pre|..];
      AnyCharThenLiteral(suf, t);
      if |t| > 0 {
        assert t[0] == s[|pre|] && t[1..] == s[|pre| + 1..];
      }
    }
  }

  /** `?suffix` accepts one character other than a newline followed by the
      literal suffix. */
  lemma AnyCharThenLiteral(suf: string, t: string)
    requires NoWildcards(suf)
    ensures Matches([AnyChar] + Compile(suf), t)
      <==> |t| == 1 + |suf| && Wild(t[0]) && t[1..] == suf
  {
    var g := [AnyChar] + Compile(suf);
    assert g[0] == AnyChar && g[1..] == Compile(suf);
    if |t| > 0 {
      LiteralMatch(suf, t[1..]);
    }
  }

  lemma CompileQuestion(pre: string, suf: string)
    ensures Compile(pre + "?" + suf) == Compile(pre) + ([AnyChar] + Compile(suf))
  {
    CompileAppend(pre + "?", suf);
    CompileAppend(pre, "?");
    CompileOne('?');
  }

  /** A one-character origin compiles to that character's token. */
  lemma CompileOne(c: char)
    ensures Compile([c]) == [TokenOf(c)]
  {
    assert [c][1..] == [];
  }

  lemma CompileStar(pre: string, suf: string)
    ensures Compile(pre + "*" + suf) == Compile(pre) + ([AnyRun] + Compile(suf))
  {
    CompileAppend(pre + "*", suf);
    CompileAppend(pre, "*");
    assert Compile("*") == [AnyRun];
  }

  /** The subdomain wildcard origin of the CORS tests, spelled as its literal
      prefix, a star and its literal suffix. */
  const SubdomainPrefix := "https://"
  const SubdomainSuffix := ".cs.com"
  const SubdomainOrigin := SubdomainPrefix + "*" + SubdomainSuffix

  /** The origin examples of the CORS tests: a subdomain wildcard accepts a
      subdomain and rejects look-alike hosts that only contain the suffix. */
  lemma SubdomainWildcardExamples()
    ensures Matches(Compile(SubdomainOrigin), "https://bar.cs.com")
    ensures !Matches(Compile(SubdomainOrigin), "https://ww.boese.com.evil.com")
    ensures !Matches(Compile(SubdomainOrigin), "https://evil.com.cs.com.attacker.com")
  {
    AcceptsBracketed(SubdomainPrefix, SubdomainSuffix, "https://bar.cs.com");
    LookalikeRefused("https://ww.boese.com.evil.com");
    LookalikeRefused("https://evil.com.cs.com.attacker.com");
  }

  /** A host whose seventh-last character is not the '.' of ".cs.com". */
  lemma LookalikeRefused(s: string)
    requires |s| >= 7 && s[|s| - 7] != '.'
    ensures !Matches(Compile(SubdomainOrigin), s)
  {
    RefusesWrongEnd(SubdomainPrefix, SubdomainSuffix, s);
  }

  lemma AcceptsBracketed(pre: string, suf: string, s: string)
    requires NoWildcards(pre) && NoWildcards(suf)
    requires |s| >= |pre| + |suf| && s[..|pre|] == pre && s[|s| - |suf|..] == suf
    requires NoNewline(s, |pre|, |s| - |suf|)
    ensures Matches(Compile(pre + "*" + suf), s)
  {
    WildcardBetweenLiterals(pre, suf, s);
  }

  /** A string whose end differs from the suffix is refused. */
  lemma RefusesWrongEnd(pre: string, suf: string, s: string)
    requires NoWildcards(pre) && NoWildcards(suf) && |suf| > 0
    requires |s| >= |suf| ==> s[|s| - |suf|] != suf[0]
    ensures !Matches(Compile(pre + "*" + suf), s)
  {
    WildcardBetweenLiterals(pre, suf, s);
    if |s| >= |suf| {
      assert s[|s| - |suf|..][0] != suf[0];
    }
  }
}
