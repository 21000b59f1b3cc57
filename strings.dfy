/**
 * The functions of Go's `strings` package that the transcript core relies on.
 * A string is a sequence of `char`, one `char` per byte of the Go string.
 */
module Strings {
  import opened Wrappers

  predicate HasPrefix(s: string, prefix: string) {
    |prefix| <= |s| && s[..|prefix|] == prefix
  }

  /** `pat` occurs in `s` starting at position `i`. */
  predicate OccursAt(s: string, pat: string, i: int) {
    0 <= i && i + |pat| <= |s| && s[i..i + |pat|] == pat
  }

  /** strings.Index: the position of the first occurrence of `pat`. */
  function IndexOf(s: string, pat: string): (r: Option<nat>)
    ensures r.Some? ==> OccursAt(s, pat, r.value)
    ensures r.Some? ==> forall j :: 0 <= j < r.value ==> !OccursAt(s, pat, j)
    ensures r.None? ==> forall j :: !OccursAt(s, pat, j)
    decreases |s|
  {
    if HasPrefix(s, pat) then
      Some(0)
    else if s == [] then
      None
    else
      OccursShift(s, pat);
      match IndexOf(s[1..], pat)
      case None => None
      case Some(i) => Some(i + 1)
  }

  /** An occurrence in `s[1..]` is an occurrence in `s` one position later. */
  lemma {:induction false} OccursShift(s: string, pat: string)
    requires s != []
    ensures forall j :: 1 <= j ==> (OccursAt(s, pat, j) <==> OccursAt(s[1..], pat, j - 1))
    ensures OccursAt(s, pat, 0) <==> HasPrefix(s, pat)
  {
    forall j | 1 <= j
      ensures OccursAt(s, pat, j) <==> OccursAt(s[1..], pat, j - 1)
    {
      if j + |pat| <= |s| {
        assert s[1..][j - 1..j - 1 + |pat|] == s[j..j + |pat|];
      }
    }
  }

  predicate Contains(s: string, pat: string) {
    IndexOf(s, pat).Some?
  }

  /** A witnessed occurrence makes `Contains` true. */
  lemma {:induction false} ContainsAt(s: string, pat: string, i: nat)
    requires OccursAt(s, pat, i)
    ensures Contains(s, pat)
  {
  }

  /** A one-character pattern occurs exactly where that character is. */
  lemma {:induction false} OccursChar(s: string, c: char, i: int)
    ensures OccursAt(s, [c], i) <==> 0 <= i < |s| && s[i] == c
  {
    if 0 <= i < |s| {
      assert s[i..i + 1] == [s[i]];
    }
  }

  /** The first `c` of `a + [c] + b` is at `|a|` when `a` holds no `c`. */
  lemma {:induction false} IndexOfFirstChar(a: string, c: char, b: string)
    requires c !in a
    ensures IndexOf(a + [c] + b, [c]) == Some(|a|)
  {
    var s := a + [c] + b;
    OccursChar(s, c, |a|);
    forall j | 0 <= j < |a|
      ensures !OccursAt(s, [c], j)
    {
      OccursChar(s, c, j);
    }
    match IndexOf(s, [c])
    case None =>
    case Some(i) =>
      OccursChar(s, c, i);
  }

  /** A one-character pattern that is absent is not found. */
  lemma {:induction false} IndexOfAbsentChar(s: string, c: char)
    requires c !in s
    ensures IndexOf(s, [c]) == None
  {
    forall j
      ensures !OccursAt(s, [c], j)
    {
      OccursChar(s, c, j);
    }
  }

  /** A character that is not found is absent. */
  lemma {:induction false} IndexOfNoChar(s: string, c: char)
    requires IndexOf(s, [c]) == None
    ensures c !in s
  {
    forall j | 0 <= j < |s|
      ensures s[j] != c
    {
      OccursChar(s, c, j);
    }
  }

  /** The position found for a character holds it, and no earlier position does. */
  lemma {:induction false} IndexOfFirst(s: string, c: char, i: nat)
    requires IndexOf(s, [c]) == Some(i)
    ensures i < |s| && s[i] == c && c !in s[..i]
  {
    OccursChar(s, c, i);
    forall j | 0 <= j < i
      ensures s[..i][j] != c
    {
      OccursChar(s, c, j);
    }
  }

  /** A pattern with a character that `s` lacks is not found. */
  lemma {:induction false} IndexOfMissingChar(s: string, pat: string, k: nat)
    requires k < |pat| && pat[k] !in s
    ensures IndexOf(s, pat) == None
  {
    forall i | 0 <= i && i + |pat| <= |s|
      ensures !OccursAt(s, pat, i)
    {
      assert s[i..i + |pat|][k] == s[i + k];
    }
  }

  /** The pattern is found at `|a|` in `a + b` when `b` starts with it and `a` lacks its first character. */
  lemma {:induction false} IndexOfAfter(a: string, b: string, pat: string)
    requires pat != [] && HasPrefix(b, pat) && pat[0] !in a
    ensures IndexOf(a + b, pat) == Some(|a|)
  {
    var s := a + b;
    assert s[|a|..|a| + |pat|] == b[..|pat|];
    assert OccursAt(s, pat, |a|);
    forall j | 0 <= j < |a|
      ensures !OccursAt(s, pat, j)
    {
      assert s[j] == a[j];
      assert j + |pat| <= |s| ==> s[j..j + |pat|][0] == s[j];
    }
    var r := IndexOf(s, pat);
    assert r.Some? && r.value <= |a|;
  }

  /** The first occurrence in `p`, when it lies wholly inside `p`, is still the first in any extension of `p`. */
  lemma {:induction false} IndexOfExtend(p: string, q: string, pat: string, i: nat)
    requires IndexOf(p, pat) == Some(i)
    ensures IndexOf(p + q, pat) == Some(i)
  {
    var s := p + q;
    assert OccursAt(p, pat, i);
    assert s[i..i + |pat|] == p[i..i + |pat|];
    assert OccursAt(s, pat, i);
    forall j | 0 <= j < i
      ensures !OccursAt(s, pat, j)
    {
      assert !OccursAt(p, pat, j) && j + |pat| <= |p|;
      assert s[j..j + |pat|] == p[j..j + |pat|];
    }
    var r := IndexOf(s, pat);
    assert r.Some? && r.value <= i;
  }

  /**
   * strings.Count for a non-empty separator: the number of non-overlapping
   * occurrences, found from left to right.
   */
  function CountOf(s: string, sep: string): nat
    requires sep != []
    decreases |s|
  {
    match IndexOf(s, sep)
    case None => 0
    case Some(i) => 1 + CountOf(s[i + |sep|..], sep)
  }

  /** strings.Cut: the text before and after the first occurrence of `sep`. */
  function Cut(s: string, sep: string): (r: (string, string, bool))
    requires sep != []
    ensures r.2 ==> s == r.0 + sep + r.1 && !Contains(r.0, sep)
    ensures !r.2 ==> r.0 == s && r.1 == [] && !Contains(s, sep)
  {
    match IndexOf(s, sep)
    case None => (s, [], false)
    case Some(i) =>
      assert s == s[..i] + sep + s[i + |sep|..];
      PrefixBeforeFirst(s, sep, i);
      (s[..i], s[i + |sep|..], true)
  }

  /** The text before the first occurrence holds no occurrence. */
  lemma {:induction false} PrefixBeforeFirst(s: string, sep: string, i: nat)
    requires sep != [] && IndexOf(s, sep) == Some(i)
    ensures !Contains(s[..i], sep)
  {
    var p := s[..i];
    forall j | OccursAt(p, sep, j)
      ensures OccursAt(s, sep, j) && j < i
    {
      assert p[j..j + |sep|] == s[j..j + |sep|];
    }
  }

  /** strings.Split for a non-empty separator. */
  function SplitOn(s: string, sep: string): (parts: seq<string>)
    requires sep != []
    ensures |parts| == CountOf(s, sep) + 1
    decreases |s|
  {
    match IndexOf(s, sep)
    case None => [s]
    case Some(i) => [s[..i]] + SplitOn(s[i + |sep|..], sep)
  }

  /** The first part of a split is the text before the first occurrence, or all of `s`. */
  lemma {:induction false} SplitFirst(s: string, sep: string)
    requires sep != []
    ensures IndexOf(s, sep).None? ==> SplitOn(s, sep) == [s]
    ensures IndexOf(s, sep).Some? ==> SplitOn(s, sep)[0] == s[..IndexOf(s, sep).value]
    ensures IndexOf(s, sep).Some? ==> SplitOn(s, sep)[1..] == SplitOn(s[IndexOf(s, sep).value + |sep|..], sep)
  {
    match IndexOf(s, sep)
    case None =>
    case Some(i) => SplitAtFirst(s, sep, i);
  }

  /** Splitting at the first occurrence `i`: the text before it, then the parts of the rest. */
  lemma {:induction false} SplitAtFirst(s: string, sep: string, i: nat)
    requires sep != [] && IndexOf(s, sep) == Some(i)
    ensures SplitOn(s, sep)[0] == s[..i]
    ensures SplitOn(s, sep)[1..] == SplitOn(s[i + |sep|..], sep)
  {
    var parts := SplitOn(s, sep);
    var tail := SplitOn(s[i + |sep|..], sep);
    assert parts == [s[..i]] + tail;
  }

  /** No part of a split holds the separator. */
  lemma {:induction false} SplitPartsLackSeparator(s: string, sep: string)
    requires sep != []
    ensures forall k :: 0 <= k < |SplitOn(s, sep)| ==> !Contains(SplitOn(s, sep)[k], sep)
    decreases |s|
  {
    var parts := SplitOn(s, sep);
    match IndexOf(s, sep)
    case None =>
      assert parts == [s];
      assert !Contains(s, sep);
    case Some(i) =>
      var rest := s[i + |sep|..];
      var tail := SplitOn(rest, sep);
      SplitPartsLackSeparator(rest, sep);
      PrefixBeforeFirst(s, sep, i);
      assert parts == [s[..i]] + tail;
      forall k | 0 <= k < |parts|
        ensures !Contains(parts[k], sep)
      {
        if k > 0 {
          assert parts[k] == tail[k - 1];
        }
      }
  }

  /** Joining the parts of a split with the separator gives the input back. */
  lemma {:induction false} SplitJoin(s: string, sep: string)
    requires sep != []
    ensures Join(SplitOn(s, sep), sep) == s
    decreases |s|
  {
    match IndexOf(s, sep)
    case None =>
    case Some(i) =>
      assert OccursAt(s, sep, i);
      var pre, rest := s[..i], s[i + |sep|..];
      assert s == pre + s[i..i + |sep|] + rest;
      var tail := SplitOn(rest, sep);
      assert SplitOn(s, sep) == [pre] + tail;
      SplitJoin(rest, sep);
      JoinCons(pre, tail, sep);
  }

  /** strings.Join. */
  function Join(parts: seq<string>, sep: string): string
    decreases |parts|
  {
    if |parts| == 0 then []
    else if |parts| == 1 then parts[0]
    else Join(parts[..|parts| - 1], sep) + sep + parts[|parts| - 1]
  }

  /** Joining unfolds from the front as well as from the back. */
  lemma {:induction false} JoinCons(first: string, rest: seq<string>, sep: string)
    requires rest != []
    ensures Join([first] + rest, sep) == first + sep + Join(rest, sep)
    decreases |rest|
  {
    var parts := [first] + rest;
    if |rest| == 1 {
      assert parts[..1] == [first];
    } else {
      assert parts[..|parts| - 1] == [first] + rest[..|rest| - 1];
      JoinCons(first, rest[..|rest| - 1], sep);
    }
  }

  /** Splitting a join on a one-character separator that no part holds gives the parts back. */
  lemma {:induction false} SplitJoinRoundTrip(parts: seq<string>, c: char)
    requires parts != []
    requires forall k :: 0 <= k < |parts| ==> c !in parts[k]
    ensures SplitOn(Join(parts, [c]), [c]) == parts
    decreases |parts|
  {
    if |parts| == 1 {
      IndexOfAbsentChar(parts[0], c);
    } else {
      var rest := parts[1..];
      assert parts == [parts[0]] + rest;
      JoinCons(parts[0], rest, [c]);
      var joined := Join(parts, [c]);
      assert joined == parts[0] + [c] + Join(rest, [c]);
      IndexOfFirstChar(parts[0], c, Join(rest, [c]));
      assert joined[..|parts[0]|] == parts[0];
      assert joined[|parts[0]| + 1..] == Join(rest, [c]);
      assert SplitOn(joined, [c]) == [parts[0]] + SplitOn(Join(rest, [c]), [c]);
      SplitJoinRoundTrip(rest, c);
    }
  }

  /** Every occurrence of a non-empty separator is counted, so a count of one means a split into two parts. */
  lemma {:induction false} SplitInTwo(s: string, sep: string)
    requires sep != []
    ensures |SplitOn(s, sep)| == 2 <==> CountOf(s, sep) == 1
  {
  }

  /** unicode.IsSpace restricted to single bytes that are valid UTF-8: tab, newline, vertical tab, form feed, carriage return, space. */
  predicate IsSpace(c: char) {
    c == ' ' || ('\t' <= c <= '\r')
  }

  /** Every character is white space (vacuously so for the empty string). */
  predicate Blank(s: string) {
    forall i :: 0 <= i < |s| ==> IsSpace(s[i])
  }

  function TrimLeft(s: string): (r: string)
    ensures |r| <= |s| && r == s[|s| - |r|..]
    ensures r != [] ==> !IsSpace(r[0])
    ensures Blank(s[..|s| - |r|])
    decreases |s|
  {
    if s != [] && IsSpace(s[0]) then
      var r := TrimLeft(s[1..]);
      assert s[..|s| - |r|] == [s[0]] + s[1..][..|s| - 1 - |r|];
      r
    else
      s
  }

  function TrimRight(s: string): (r: string)
    ensures |r| <= |s| && r == s[..|r|]
    ensures r != [] ==> !IsSpace(r[|r| - 1])
    ensures Blank(s[|r|..])
    decreases |s|
  {
    if s != [] && IsSpace(s[|s| - 1]) then
      var r := TrimRight(s[..|s| - 1]);
      assert s[|r|..] == s[..|s| - 1][|r|..] + [s[|s| - 1]];
      r
    else
      s
  }

  /**
   * strings.TrimSpace: drop leading and trailing white space. The result is
   * a slice of `s` that neither starts nor ends with white space, and what
   * it leaves out on either side is blank.
   */
  function TrimSpace(s: string): (r: string)
    ensures r != [] ==> !IsSpace(r[0]) && !IsSpace(r[|r| - 1])
    ensures exists i :: BlankMargins(s, r, i)
  {
    var l := TrimLeft(s);
    var r := TrimRight(l);
    TrimmedSlice(s, l, r);
    r
  }

  /** Cutting blank text off both ends of `s` leaves a slice with blank text on both sides. */
  lemma {:induction false} TrimmedSlice(s: string, l: string, r: string)
    requires |l| <= |s| && l == s[|s| - |l|..] && Blank(s[..|s| - |l|])
    requires l != [] ==> !IsSpace(l[0])
    requires |r| <= |l| && r == l[..|r|] && Blank(l[|r|..])
    requires r != [] ==> !IsSpace(r[|r| - 1])
    ensures r != [] ==> !IsSpace(r[0]) && !IsSpace(r[|r| - 1])
    ensures BlankMargins(s, r, |s| - |l|)
  {
    var i := |s| - |l|;
    assert s[i..i + |r|] == l[..|r|];
    assert s[i + |r|..] == l[|r|..];
  }

  /** `r` is the slice of `s` at `i`, and what lies before and after it is blank. */
  predicate BlankMargins(s: string, r: string, i: int) {
    0 <= i <= |s| - |r| && r == s[i..i + |r|] && Blank(s[..i]) && Blank(s[i + |r|..])
  }

  /** Trimming blank input on the left leaves nothing. */
  lemma {:induction false} BlankTrimsLeftToEmpty(s: string)
    requires Blank(s)
    ensures TrimLeft(s) == []
    decreases |s|
  {
    if s != [] {
      BlankTrimsLeftToEmpty(s[1..]);
    }
  }

  /** TrimSpace yields the empty string exactly for blank input. */
  lemma {:induction false} TrimSpaceEmptyIffBlank(s: string)
    ensures TrimSpace(s) == [] <==> Blank(s)
  {
    if Blank(s) {
      BlankTrimsLeftToEmpty(s);
    }
    if TrimSpace(s) == [] {
      var l := TrimLeft(s);
      var n := |s| - |l|;
      assert l[0..] == l;
      forall i | 0 <= i < |s|
        ensures IsSpace(s[i])
      {
        if i < n {
          assert s[i] == s[..n][i];
        } else {
          assert s[i] == l[i - n];
        }
      }
    }
  }
}
