/**
 * Python's argument-less `str.split()`: the string is cut at every run of
 * whitespace, and leading and trailing whitespace yields no empty segment.
 *
 * `Split` follows the algorithm (skip a whitespace run, take a non-whitespace
 * run, repeat). Its independent partner is `Weave`, which lays segments out
 * between whitespace gaps; `SplitWeave` and `WeaveSplit` prove that every
 * string is exactly one such layout of its own segments.
 */
module Segments {

  /** The characters `str.isspace()` accepts, which `str.split()` cuts at. */
  predicate IsSpace(c: char) {
    || '\U{0009}' <= c <= '\U{000D}'
    || '\U{001C}' <= c <= '\U{0020}'
    || c == '\U{0085}'
    || c == '\U{00A0}'
    || c == '\U{1680}'
    || '\U{2000}' <= c <= '\U{200A}'
    || c == '\U{2028}'
    || c == '\U{2029}'
    || c == '\U{202F}'
    || c == '\U{205F}'
    || c == '\U{3000}'
  }

  predicate AllSpace(s: string) {
    forall i :: 0 <= i < |s| ==> IsSpace(s[i])
  }

  /** A segment: what `str.split()` can return as one element. */
  predicate IsSegment(w: string) {
    |w| > 0 && forall i :: 0 <= i < |w| ==> !IsSpace(w[i])
  }

  predicate AllSegments(parts: seq<string>) {
    forall i :: 0 <= i < |parts| ==> IsSegment(parts[i])
  }

  /** Length of the longest prefix of `s` whose characters are whitespace
      exactly when `space` holds. */
  function RunLength(s: string, space: bool): (n: nat)
    ensures n <= |s|
    ensures n == |s| || IsSpace(s[n]) != space
    decreases |s|
  {
    if s == [] || IsSpace(s[0]) != space then 0 else 1 + RunLength(s[1..], space)
  }

  /** Every character of the run has the run's kind. */
  lemma {:induction false} RunLengthPrefix(s: string, space: bool)
    ensures forall i :: 0 <= i < RunLength(s, space) ==> IsSpace(s[i]) == space
    decreases |s|
  {
    if s != [] && IsSpace(s[0]) == space {
      RunLengthPrefix(s[1..], space);
      forall i | 0 < i < RunLength(s, space) ensures IsSpace(s[i]) == space {
        assert s[i] == s[1..][i - 1];
      }
    }
  }

  /** A whitespace prefix lengthens the whitespace run by its length. */
  lemma {:induction false} SpaceRunAppend(g: string, x: string)
    requires AllSpace(g)
    ensures RunLength(g + x, true) == |g| + RunLength(x, true)
    decreases |g|
  {
    if g == [] {
      assert g + x == x;
    } else {
      assert (g + x)[0] == g[0] && (g + x)[1..] == g[1..] + x;
      SpaceRunAppend(g[1..], x);
    }
  }

  /** A segment prefix lengthens the non-whitespace run by its length. */
  lemma {:induction false} WordRunAppend(w: string, x: string)
    requires forall i :: 0 <= i < |w| ==> !IsSpace(w[i])
    ensures RunLength(w + x, false) == |w| + RunLength(x, false)
    decreases |w|
  {
    if w == [] {
      assert w + x == x;
    } else {
      assert (w + x)[0] == w[0] && (w + x)[1..] == w[1..] + x;
      WordRunAppend(w[1..], x);
    }
  }

  /** `str.split()` with no separator. */
  function Split(s: string): (parts: seq<string>)
    decreases |s|
  {
    var k := RunLength(s, true);
    if k == |s| then []
    else
      var n := RunLength(s[k..], false);
      assert s[k..][0] == s[k];
      [s[k..k + n]] + Split(s[k + n..])
  }

  /** The whitespace gaps `Split` cuts away, in order: one before each
      segment and one after the last. */
  function GapsOf(s: string): (gaps: seq<string>)
    decreases |s|
  {
    var k := RunLength(s, true);
    if k == |s| then [s]
    else
      var n := RunLength(s[k..], false);
      assert s[k..][0] == s[k];
      [s[..k]] + GapsOf(s[k + n..])
  }

  /** Segments laid out between gaps: gaps[0] parts[0] gaps[1] ... gaps[n]. */
  function Weave(gaps: seq<string>, parts: seq<string>): (s: string)
    requires |gaps| == |parts| + 1
    decreases parts
  {
    if parts == [] then gaps[0] else gaps[0] + parts[0] + Weave(gaps[1..], parts[1..])
  }

  /** Gaps fit for `n` segments: all whitespace, the inner ones non-empty. */
  predicate IsGaps(gaps: seq<string>, n: nat) {
    && |gaps| == n + 1
    && (forall i :: 0 <= i < |gaps| ==> AllSpace(gaps[i]))
    && (forall i :: 0 < i < n ==> gaps[i] != [])
  }

  /** `s` is the segments `parts` separated by the whitespace `gaps`. */
  predicate Spells(s: string, gaps: seq<string>, parts: seq<string>) {
    AllSegments(parts) && IsGaps(gaps, |parts|) && s == Weave(gaps, parts)
  }

  lemma {:induction false} WeaveStart(gaps: seq<string>, parts: seq<string>)
    requires AllSegments(parts) && IsGaps(gaps, |parts|)
    requires gaps[0] != [] || parts != []
    ensures |Weave(gaps, parts)| > 0
    ensures Weave(gaps, parts)[0] == if gaps[0] != [] then gaps[0][0] else parts[0][0]
  {
    if parts != [] {
      assert Weave(gaps, parts) == gaps[0] + parts[0] + Weave(gaps[1..], parts[1..]);
    }
  }

  /** A whitespace-only string has no segments. */
  lemma SplitAllSpace(s: string)
    requires AllSpace(s)
    ensures Split(s) == []
  {
    SpaceRunAppend(s, "");
    assert s + "" == s;
  }

  /** One step of `Split`: leading whitespace, then a whole segment. */
  lemma SplitStep(g: string, w: string, rest: string)
    requires AllSpace(g) && IsSegment(w)
    requires rest == [] || IsSpace(rest[0])
    ensures Split(g + w + rest) == [w] + Split(rest)
  {
    var s := g + w + rest;
    assert s == g + (w + rest);
    assert (w + rest)[0] == w[0];
    SpaceRunAppend(g, w + rest);
    assert RunLength(w + rest, true) == 0;
    assert s[|g|..] == w + rest;
    WordRunAppend(w, rest);
    assert RunLength(rest, false) == 0;
    assert s[|g|..|g| + |w|] == w;
    assert s[|g| + |w|..] == rest;
    UnfoldSplit(s, |g|, |w|);
  }

  /** Dropping the first segment and its leading gap leaves a layout that
      is empty or starts with whitespace. */
  lemma WeaveTail(gaps: seq<string>, parts: seq<string>)
    requires AllSegments(parts) && IsGaps(gaps, |parts|) && parts != []
    ensures AllSegments(parts[1..]) && IsGaps(gaps[1..], |parts| - 1)
    ensures Weave(gaps, parts) == gaps[0] + parts[0] + Weave(gaps[1..], parts[1..])
    ensures var rest := Weave(gaps[1..], parts[1..]); rest == [] || IsSpace(rest[0])
  {
    forall i | 0 < i < |parts| - 1 ensures gaps[1..][i] != [] {
      assert gaps[1..][i] == gaps[i + 1];
    }
    var rest := Weave(gaps[1..], parts[1..]);
    if rest != [] {
      if parts[1..] == [] {
        assert rest == gaps[1];
      } else {
        assert gaps[1] != [];
        WeaveStart(gaps[1..], parts[1..]);
      }
    }
  }

  /** Splitting a layout gives back its segments. */
  lemma {:induction false} SplitWeave(gaps: seq<string>, parts: seq<string>)
    requires AllSegments(parts) && IsGaps(gaps, |parts|)
    ensures Split(Weave(gaps, parts)) == parts
    decreases parts
  {
    if parts == [] {
      SplitAllSpace(gaps[0]);
    } else {
      WeaveTail(gaps, parts);
      SplitStep(gaps[0], parts[0], Weave(gaps[1..], parts[1..]));
      SplitWeave(gaps[1..], parts[1..]);
    }
  }

  /** Where the first segment of `s` starts (`k`) and how long it is (`n`). */
  lemma FirstSegment(s: string) returns (k: nat, n: nat)
    requires !AllSpace(s)
    ensures k == RunLength(s, true) && n == RunLength(s[k..], false)
    ensures k < k + n <= |s|
    ensures AllSpace(s[..k]) && IsSegment(s[k..k + n])
    ensures k + n < |s| ==> IsSpace(s[k + n])
  {
    k := RunLength(s, true);
    RunLengthPrefix(s, true);
    var t := s[k..];
    assert t[0] == s[k];
    n := RunLength(t, false);
    RunLengthPrefix(t, false);
    assert s[k..k + n] == t[..n];
    assert k + n < |s| ==> s[k + n] == t[n];
  }

  /** The first step of `Split` and `GapsOf`, taken apart. */
  lemma SplitUnfold(s: string) returns (k: nat, n: nat)
    requires !AllSpace(s)
    ensures k < k + n <= |s|
    ensures AllSpace(s[..k]) && IsSegment(s[k..k + n])
    ensures k + n < |s| ==> IsSpace(s[k + n])
    ensures Split(s) == [s[k..k + n]] + Split(s[k + n..])
    ensures GapsOf(s) == [s[..k]] + GapsOf(s[k + n..])
    ensures s == s[..k] + s[k..k + n] + s[k + n..]
  {
    k, n := FirstSegment(s);
    UnfoldSplit(s, k, n);
    UnfoldGaps(s, k, n);
    Rejoin(s, k, n);
  }

  lemma UnfoldSplit(s: string, k: nat, n: nat)
    requires k == RunLength(s, true) && k < |s| && n == RunLength(s[k..], false)
    ensures Split(s) == [s[k..k + n]] + Split(s[k + n..])
  {
  }

  lemma UnfoldGaps(s: string, k: nat, n: nat)
    requires k == RunLength(s, true) && k < |s| && n == RunLength(s[k..], false)
    ensures GapsOf(s) == [s[..k]] + GapsOf(s[k + n..])
  {
  }

  lemma Rejoin(s: string, k: nat, n: nat)
    requires k <= k + n <= |s|
    ensures s == s[..k] + s[k..k + n] + s[k + n..]
  {
  }

  lemma WeaveCons(g: string, w: string, gaps: seq<string>, parts: seq<string>)
    requires |gaps| == |parts| + 1
    ensures Weave([g] + gaps, [w] + parts) == g + w + Weave(gaps, parts)
  {
    assert ([g] + gaps)[1..] == gaps && ([w] + parts)[1..] == parts;
  }

  /** Every string is the layout of its own segments between its own gaps. */
  lemma {:induction false} WeaveSplit(s: string)
    ensures Spells(s, GapsOf(s), Split(s))
    decreases |s|
  {
    if AllSpace(s) {
      SplitAllSpace(s);
      SpaceRunAppend(s, "");
      assert s + "" == s;
    } else {
      var k, n := SplitUnfold(s);
      var r := s[k + n..];
      WeaveSplit(r);
      WeaveCons(s[..k], s[k..k + n], GapsOf(r), Split(r));
      WeaveSplitGaps(s, k, n);
    }
  }

  /** The gap after the first segment is non-empty when a segment follows. */
  lemma WeaveSplitGaps(s: string, k: nat, n: nat)
    requires k < k + n <= |s|
    requires AllSpace(s[..k]) && IsSegment(s[k..k + n])
    requires k + n < |s| ==> IsSpace(s[k + n])
    requires Spells(s[k + n..], GapsOf(s[k + n..]), Split(s[k + n..]))
    ensures IsGaps([s[..k]] + GapsOf(s[k + n..]), |Split(s[k + n..])| + 1)
    ensures AllSegments([s[k..k + n]] + Split(s[k + n..]))
  {
    var r := s[k + n..];
    if Split(r) != [] {
      assert r != [] && IsSpace(r[0]);
      assert RunLength(r, true) > 0;
    }
    GapsCons(s[..k], GapsOf(r), |Split(r)|);
    SegmentsCons(s[k..k + n], Split(r));
  }

  lemma GapsCons(g: string, gaps: seq<string>, n: nat)
    requires AllSpace(g) && IsGaps(gaps, n)
    requires n > 0 ==> gaps[0] != []
    ensures IsGaps([g] + gaps, n + 1)
  {
    var all := [g] + gaps;
    forall i | 0 < i < |all| ensures all[i] == gaps[i - 1] {
    }
  }

  lemma SegmentsCons(w: string, parts: seq<string>)
    requires IsSegment(w) && AllSegments(parts)
    ensures AllSegments([w] + parts)
  {
    var all := [w] + parts;
    forall i | 0 < i < |all| ensures all[i] == parts[i - 1] {
    }
  }

  /** A string spells exactly one list of segments: its own. */
  lemma SpellsIff(s: string)
    ensures Spells(s, GapsOf(s), Split(s))
    ensures forall gaps, parts :: Spells(s, gaps, parts) ==> parts == Split(s)
  {
    WeaveSplit(s);
    forall gaps, parts | Spells(s, gaps, parts) ensures parts == Split(s) {
      SplitWeave(gaps, parts);
    }
  }

  /** `str.split()` yields no segment exactly on all-whitespace strings. */
  lemma SplitEmpty(s: string)
    ensures Split(s) == [] <==> AllSpace(s)
  {
    RunLengthPrefix(s, true);
    if AllSpace(s) {
      SplitAllSpace(s);
    }
  }
}
