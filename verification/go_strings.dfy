/** The Go `strings` helpers the router relies on: `Join` and `Split` with a
    one-character separator, `TrimSpace`, `TrimRight` with a one-character
    cutset, and the case folding used to compare header names.
    A string is a sequence of Unicode code points. */
module GoStrings {

  /** strings.Join(xs, string(sep)). */
  function Join(xs: seq<string>, sep: char): string
  {
    if |xs| == 0 then ""
    else if |xs| == 1 then xs[0]
    else xs[0] + [sep] + Join(xs[1..], sep)
  }

  /** strings.Split(s, string(sep)): the pieces between separators, so there is
      always at least one piece, and "" splits into [""]. The two ensures
      clauses pin the result down completely (see SplitJoin). */
  function Split(s: string, sep: char): (r: seq<string>)
    ensures |r| >= 1
    ensures Join(r, sep) == s
    ensures forall i :: 0 <= i < |r| ==> sep !in r[i]
    decreases |s|
  {
    if |s| == 0 then [""]
    else
      var rest := Split(s[1..], sep);
      if s[0] == sep then
        assert ([""] + rest)[1..] == rest;
        [""] + rest
      else
        var r := [[s[0]] + rest[0]] + rest[1..];
        assert r[1..] == rest[1..];
        assert s == [s[0]] + s[1..];
        r
  }

  /** Splitting a piece that holds no separator gives that piece back. */
  lemma {:induction false} SplitNoSeparator(x: string, sep: char)
    requires sep !in x
    ensures Split(x, sep) == [x]
    decreases |x|
  {
    if |x| > 0 {
      SplitNoSeparator(x[1..], sep);
      assert [x[0]] + x[1..] == x;
    }
  }

  /** Splitting `x + sep + rest` peels `x` off the front. */
  lemma {:induction false} SplitCons(x: string, sep: char, rest: string)
    requires sep !in x
    ensures Split(x + [sep] + rest, sep) == [x] + Split(rest, sep)
    decreases |x|
  {
    var s := x + [sep] + rest;
    if |x| == 0 {
      assert s[1..] == rest;
    } else {
      assert s[1..] == x[1..] + [sep] + rest;
      SplitCons(x[1..], sep, rest);
      assert [x[0]] + x[1..] == x;
    }
  }

  /** Split is the inverse of Join whenever no piece holds the separator. */
  lemma {:induction false} SplitJoin(xs: seq<string>, sep: char)
    requires |xs| >= 1
    requires forall i :: 0 <= i < |xs| ==> sep !in xs[i]
    ensures Split(Join(xs, sep), sep) == xs
  {
    if |xs| == 1 {
      SplitNoSeparator(xs[0], sep);
    } else {
      SplitJoin(xs[1..], sep);
      SplitCons(xs[0], sep, Join(xs[1..], sep));
      assert [xs[0]] + xs[1..] == xs;
    }
  }

  /** Joining distributes over concatenation of non-empty lists. */
  lemma {:induction false} JoinAppend(xs: seq<string>, ys: seq<string>, sep: char)
    requires |xs| >= 1 && |ys| >= 1
    ensures Join(xs + ys, sep) == Join(xs, sep) + [sep] + Join(ys, sep)
    decreases |xs|
  {
    if |xs| == 1 {
      assert (xs + ys)[1..] == ys;
    } else {
      assert (xs + ys)[1..] == xs[1..] + ys;
      JoinAppend(xs[1..], ys, sep);
    }
  }

  /** unicode.IsSpace: the Latin-1 spaces and the other White_Space code points. */
  predicate IsSpace(c: char)
  {
    var u := c as int;
    || u == 0x09 || u == 0x0A || u == 0x0B || u == 0x0C || u == 0x0D || u == 0x20
    || u == 0x85 || u == 0xA0 || u == 0x1680
    || (0x2000 <= u <= 0x200A)
    || u == 0x2028 || u == 0x2029 || u == 0x202F || u == 0x205F || u == 0x3000
  }

  /** strings.TrimLeftFunc: drops the longest prefix whose characters satisfy `p`. */
  function TrimLeftFunc(s: string, p: char -> bool): (r: string)
    ensures |r| <= |s| && r == s[|s| - |r|..]
    ensures forall k :: 0 <= k < |s| - |r| ==> p(s[k])
    ensures |r| > 0 ==> !p(r[0])
    decreases |s|
  {
    if |s| > 0 && p(s[0]) then TrimLeftFunc(s[1..], p) else s
  }

  /** strings.TrimRightFunc: drops the longest suffix whose characters satisfy `p`. */
  function TrimRightFunc(s: string, p: char -> bool): (r: string)
    ensures |r| <= |s| && r == s[..|r|]
    ensures forall k :: |r| <= k < |s| ==> p(s[k])
    ensures |r| > 0 ==> !p(r[|r| - 1])
    decreases |s|
  {
    if |s| > 0 && p(s[|s| - 1]) then TrimRightFunc(s[..|s| - 1], p) else s
  }

  /** Every character of `s` is a space. */
  predicate AllSpace(s: string)
  {
    forall k :: 0 <= k < |s| ==> IsSpace(s[k])
  }

  /** strings.TrimSpace: neither end of the result is a space; TrimSpaceSlice
      states what it keeps of `s`. */
  function TrimSpace(s: string): (r: string)
    ensures |r| <= |s|
    ensures |r| > 0 ==> !IsSpace(r[0]) && !IsSpace(r[|r| - 1])
  {
    TrimRightFunc(TrimLeftFunc(s, IsSpace), IsSpace)
  }

  /** TrimSpace keeps a slice of `s` and cuts only spaces from either end. */
  lemma TrimSpaceSlice(s: string)
    ensures exists i, j :: SpaceCut(s, i, j, TrimSpace(s))
  {
    var i := |s| - |TrimLeftFunc(s, IsSpace)|;
    var j := i + |TrimSpace(s)|;
    TrimSpaceCut(s, i, j);
  }

  /** The window TrimSpace keeps starts where TrimLeftFunc stops. */
  lemma TrimSpaceCut(s: string, i: int, j: int)
    requires i == |s| - |TrimLeftFunc(s, IsSpace)| && j == i + |TrimSpace(s)|
    ensures SpaceCut(s, i, j, TrimSpace(s))
  {
    var l := TrimLeftFunc(s, IsSpace);
    var r := TrimRightFunc(l, IsSpace);
    LeadingSpaces(s);
    TrailingSpaces(l);
    CutCompose(s, l, r, i, j);
  }

  /** Cutting spaces off the front and then off the back is one cut. */
  lemma CutCompose(s: string, l: string, r: string, i: int, j: int)
    requires 0 <= i <= |s| && l == s[i..] && AllSpace(s[..i])
    requires |r| <= |l| && r == l[..|r|] && AllSpace(l[|r|..])
    requires j == i + |r|
    ensures SpaceCut(s, i, j, r)
  {
    SuffixPrefix(s, l, r);
  }

  /** `r` is `s` with the spaces before `i` and from `j` on cut off. */
  predicate SpaceCut(s: string, i: int, j: int, r: string)
  {
    0 <= i <= j <= |s| && r == s[i..j] && AllSpace(s[..i]) && AllSpace(s[j..])
  }

  /** A prefix `r` of a suffix `l` of `s` is a window of `s`, and what follows
      it in `l` is what follows the window in `s`. */
  lemma SuffixPrefix(s: string, l: string, r: string)
    requires |l| <= |s| && l == s[|s| - |l|..]
    requires |r| <= |l| && r == l[..|r|]
    ensures r == s[|s| - |l|..|s| - |l| + |r|]
    ensures s[|s| - |l| + |r|..] == l[|r|..]
  {
  }

  /** TrimLeftFunc with IsSpace cuts a prefix of spaces. */
  lemma LeadingSpaces(s: string)
    ensures var l := TrimLeftFunc(s, IsSpace);
      l == s[|s| - |l|..] && AllSpace(s[..|s| - |l|])
  {
    var l := TrimLeftFunc(s, IsSpace);
    SpacesBetween(s, 0, |s| - |l|);
  }

  /** TrimRightFunc with IsSpace cuts a suffix of spaces. */
  lemma TrailingSpaces(l: string)
    ensures var r := TrimRightFunc(l, IsSpace);
      r == l[..|r|] && AllSpace(l[|r|..])
  {
    var r := TrimRightFunc(l, IsSpace);
    SpacesBetween(l, |r|, |l|);
  }

  /** A window of spaces is a string of spaces. */
  lemma SpacesBetween(s: string, lo: nat, hi: nat)
    requires lo <= hi <= |s|
    requires forall k :: lo <= k < hi ==> IsSpace(s[k])
    ensures AllSpace(s[lo..hi])
  {
    forall k | 0 <= k < hi - lo ensures IsSpace(s[lo..hi][k]) {
      assert s[lo..hi][k] == s[lo + k];
    }
  }

  /** A string with non-space ends is its own trim. */
  lemma TrimSpaceKeeps(s: string)
    requires |s| > 0 && !IsSpace(s[0]) && !IsSpace(s[|s| - 1])
    ensures TrimSpace(s) == s
  {
    assert TrimLeftFunc(s, IsSpace) == s;
  }

  /** A leading space in front of such a string is dropped. */
  lemma TrimSpaceDropsLead(c: char, s: string)
    requires IsSpace(c) && |s| > 0 && !IsSpace(s[0]) && !IsSpace(s[|s| - 1])
    ensures TrimSpace([c] + s) == s
  {
    assert ([c] + s)[1..] == s;
    assert TrimLeftFunc([c] + s, IsSpace) == TrimLeftFunc(s, IsSpace) == s;
  }

  /** strings.TrimRight(s, string(c)) for a one-character cutset. */
  function TrimRight(s: string, c: char): string
  {
    TrimRightFunc(s, x => x == c)
  }

  /** Lower-casing of one character; only ASCII letters are mapped. */
  function LowerAscii(c: char): char
  {
    if 'A' <= c <= 'Z' then (c as int + 32) as char else c
  }

  /** strings.ToLower restricted to ASCII letters. */
  function ToLower(s: string): (r: string)
    ensures |r| == |s|
  {
    if |s| == 0 then "" else [LowerAscii(s[0])] + ToLower(s[1..])
  }

  /** `strings.ToLower(a) == strings.ToLower(b)`: equality up to ASCII case. */
  predicate SameLower(a: string, b: string)
  {
    ToLower(a) == ToLower(b)
  }
}
