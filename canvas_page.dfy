/**
 * The canvas page's payload shaping and coach panel: stroke point lists
 * (flat `x, y, x, y, ...` arrays) are downsampled before analysis, and the
 * coach lists the issues that overlap a region of confusion first.
 */
module CanvasPage {
  import opened Wrappers
  import opened JsonModel
  import Numbers
  import Sorting

  /** An entry of a point list: a finite number, or anything `Number.isFinite` rejects. */
  datatype Num = Finite(v: real) | NotFinite

  /** `points[i]`, `undefined` (not finite) outside the list. */
  function At(points: seq<Num>, i: int): Num {
    if 0 <= i < |points| then points[i] else NotFinite
  }

  /** `Math.max(2, Math.round(points.length / 240))`. */
  function Stride(n: nat): (f: nat)
    ensures f >= 2
    ensures f == 2 || Numbers.Round(n as real / 240.0) == f
    ensures Numbers.Round(n as real / 240.0) > 2 ==> f == Numbers.Round(n as real / 240.0)
  {
    var r := Numbers.Round(n as real / 240.0);
    if r > 2 then r else 2
  }

  /** The entries a pair at `k` contributes: both values, when both are finite. */
  function PairAt(points: seq<Num>, k: nat): (r: seq<Num>)
    ensures r == [] || (k + 1 < |points| && r == [points[k], points[k + 1]] && r[0].Finite? && r[1].Finite?)
  {
    if At(points, k).Finite? && At(points, k + 1).Finite? then [points[k], points[k + 1]] else []
  }

  /** The x of the `j`-th pair of a flat list. */
  function X(r: seq<Num>, j: nat): Num
    requires 2 * j + 1 < |r|
  {
    r[2 * j]
  }

  /** The y of the `j`-th pair of a flat list. */
  function Y(r: seq<Num>, j: nat): Num
    requires 2 * j + 1 < |r|
  {
    r[2 * j + 1]
  }

  ghost predicate IsInputPair(points: seq<Num>, x: Num, y: Num, from: nat, stride: nat) {
    exists m: nat :: from + m * stride < |points| - 1 && points[from + m * stride] == x && points[from + m * stride + 1] == y
  }

  /** A flat list of whole pairs, each a pair of the input at `from` plus a multiple of `stride`. */
  ghost predicate SampledPairs(r: seq<Num>, points: seq<Num>, from: nat, stride: nat) {
    && |r| % 2 == 0
    && (forall j :: 0 <= j < |r| / 2 ==> IsInputPair(points, X(r, j), Y(r, j), from, stride))
  }

  predicate AllFinite(r: seq<Num>) {
    forall i :: 0 <= i < |r| ==> r[i].Finite?
  }

  /** How many of the indices `i, i + stride, ...` fall below `n`. */
  function Positions(n: nat, stride: nat, i: nat): (c: nat)
    requires stride >= 1
    decreases n - i
  {
    if i >= n then 0 else 1 + Positions(n, stride, i + stride)
  }

  /** 1 when the pair at `k` is kept, else 0. */
  function Found(points: seq<Num>, k: nat): (c: nat)
    ensures |PairAt(points, k)| == 2 * c
  {
    if PairAt(points, k) == [] then 0 else 1
  }

  /** How many finite pairs the loop meets at `i, i + stride, ...` from index `i` on. */
  function FinitePairCount(points: seq<Num>, stride: nat, i: nat): nat
    requires stride >= 1
    decreases |points| - i
  {
    if i >= |points| then 0 else Found(points, i) + FinitePairCount(points, stride, i + stride)
  }

  /** How many finite pairs the loop meets in its first `m` steps from index `i`. */
  function PairsBefore(points: seq<Num>, stride: nat, i: nat, m: nat): nat
    requires stride >= 1
    decreases m
  {
    if m == 0 || i >= |points| then 0 else Found(points, i) + PairsBefore(points, stride, i + stride, m - 1)
  }

  /** The strided sampling loop from index `i` on. */
  function Sampled(points: seq<Num>, stride: nat, i: nat): (r: seq<Num>)
    requires stride >= 1
    ensures AllFinite(r)
    ensures |r| == 2 * FinitePairCount(points, stride, i)
    ensures |r| <= 2 * Positions(|points|, stride, i)
    decreases |points| - i
  {
    if i >= |points| then []
    else PairAt(points, i) + Sampled(points, stride, i + stride)
  }

  /** Every pair the loop keeps is an input pair at `i` plus a multiple of the stride. */
  lemma {:induction false} SampledSound(points: seq<Num>, stride: nat, i: nat)
    requires stride >= 1
    ensures SampledPairs(Sampled(points, stride, i), points, i, stride)
    decreases |points| - i
  {
    if i < |points| {
      SampledSound(points, stride, i + stride);
      SampledCons(points, stride, i, PairAt(points, i), Sampled(points, stride, i + stride));
    }
  }

  lemma SampledCons(points: seq<Num>, stride: nat, i: nat, head: seq<Num>, rest: seq<Num>)
    requires stride >= 1 && i < |points|
    requires head == PairAt(points, i)
    requires SampledPairs(rest, points, i + stride, stride)
    requires AllFinite(rest)
    requires |rest| <= 2 * Positions(|points|, stride, i + stride)
    ensures SampledPairs(head + rest, points, i, stride)
    ensures AllFinite(head + rest)
    ensures |head + rest| <= 2 * Positions(|points|, stride, i)
  {
    var r := head + rest;
    forall j | 0 <= j < |r| / 2
      ensures IsInputPair(points, X(r, j), Y(r, j), i, stride)
    {
      if head != [] && j == 0 {
        assert X(r, j) == points[i + 0 * stride] && Y(r, j) == points[i + 0 * stride + 1];
      } else {
        var j' := if head == [] then j else j - 1;
        assert X(r, j) == X(rest, j') && Y(r, j) == Y(rest, j');
        var m: nat :| i + stride + m * stride < |points| - 1
          && points[i + stride + m * stride] == X(rest, j') && points[i + stride + m * stride + 1] == Y(rest, j');
        assert i + stride + m * stride == i + (m + 1) * stride;
      }
    }
  }

  /**
   * No finite pair is lost: the pair at step `m` of the loop is the pair at
   * index `PairsBefore(.., m)` of the result, that is, right after the finite
   * pairs of the earlier steps.
   */
  lemma {:induction false} SampledComplete(points: seq<Num>, stride: nat, i: nat, m: nat, pos: nat)
    requires stride >= 1 && pos == StepPos(i, stride, m)
    requires pos + 1 < |points| && points[pos].Finite? && points[pos + 1].Finite?
    ensures var r := Sampled(points, stride, i);
      var j := PairsBefore(points, stride, i, m);
      2 * j + 1 < |r| && X(r, j) == points[pos] && Y(r, j) == points[pos + 1]
    decreases m
  {
    var head := PairAt(points, i);
    var h := Found(points, i);
    assert |head| == 2 * h;
    var rest := Sampled(points, stride, i + stride);
    var r := Sampled(points, stride, i);
    assert r == head + rest;
    var j := PairsBefore(points, stride, i, m);
    if m == 0 {
      assert head == [points[pos], points[pos + 1]];
      assert j == 0;
      FirstPair(head, rest, r);
      assert X(r, j) == points[pos] && Y(r, j) == points[pos + 1];
    } else {
      SampledComplete(points, stride, i + stride, m - 1, pos);
      var j' := PairsBefore(points, stride, i + stride, m - 1);
      assert j == h + j';
      assert 2 * j' + 1 < |rest|;
      ShiftPair(head, rest, r, h, j');
      assert X(r, j) == X(rest, j') && Y(r, j) == Y(rest, j');
    }
  }

  /** The index the loop reads at its `m`-th step from `i`. */
  function StepPos(i: nat, stride: nat, m: nat): (pos: nat)
    ensures pos >= i
    decreases m
  {
    if m == 0 then i else StepPos(i + stride, stride, m - 1)
  }

  /**
   * The loop sends pairs in step order: the finite pair met at step `m1`
   * comes (by `SampledComplete`, at index `PairsBefore(.., m1)`) before the
   * pair of any later step.
   */
  lemma {:induction false} PairsBeforeOrder(points: seq<Num>, stride: nat, i: nat, m1: nat, m2: nat)
    requires stride >= 1 && m1 < m2
    requires PairAt(points, StepPos(i, stride, m1)) != []
    ensures PairsBefore(points, stride, i, m1) < PairsBefore(points, stride, i, m2)
    decreases m1
  {
    assert i < |points|;
    if m1 > 0 {
      PairsBeforeOrder(points, stride, i + stride, m1 - 1, m2 - 1);
    }
  }

  lemma {:induction false} StepPosIsMultiple(i: nat, stride: nat, m: nat)
    ensures StepPos(i, stride, m) == i + m * stride
    decreases m
  {
    if m > 0 {
      StepPosIsMultiple(i + stride, stride, m - 1);
      assert (i + stride) + (m - 1) * stride == i + m * stride;
    }
  }

  /** The `j`-th pair of `rest` is pair `h + j` of `head + rest` when `head` holds whole pairs. */
  lemma ShiftPair(head: seq<Num>, rest: seq<Num>, r: seq<Num>, h: nat, j: nat)
    requires r == head + rest && |head| == 2 * h && 2 * j + 1 < |rest|
    ensures 2 * (h + j) + 1 < |r| && X(r, h + j) == X(rest, j) && Y(r, h + j) == Y(rest, j)
  {
  }

  /** The first pair of `head + rest` is `head` when that is one pair. */
  lemma FirstPair(head: seq<Num>, rest: seq<Num>, r: seq<Num>)
    requires r == head + rest && |head| == 2
    ensures 1 < |r| && X(r, 0) == head[0] && Y(r, 0) == head[1]
  {
  }

  /** The "ensure last point" step as written: only the end pair's x is checked. */
  function WithEndAsWritten(result: seq<Num>, points: seq<Num>): (r: seq<Num>)
    requires |points| >= 2
    ensures r == result || r == result + points[|points| - 2..]
    ensures r != result ==> points[|points| - 2].Finite?
  {
    var end := |points| - 2;
    if points[end].Finite? && (|result| < 2 || result[|result| - 2] != points[end]) then result + [points[end], points[end + 1]]
    else result
  }

  /** The "ensure last point" step with both coordinates of the end pair checked. */
  function WithEnd(result: seq<Num>, points: seq<Num>): (r: seq<Num>)
    requires |points| >= 2
    ensures r == result || r == result + points[|points| - 2..]
    ensures r != result ==> points[|points| - 2].Finite? && points[|points| - 1].Finite?
  {
    var end := |points| - 2;
    if points[end].Finite? && points[end + 1].Finite? && (|result| < 2 || result[|result| - 2] != points[end]) then
      result + [points[end], points[end + 1]]
    else result
  }

  /** `compressPoints(points)` as written; `None` is a value that is not an array. */
  function CompressedAsWritten(points: Option<seq<Num>>): (r: seq<Num>)
    ensures points.None? ==> r == []
    ensures points.Some? && |points.value| <= 60 ==> r == points.value
  {
    if points.None? then []
    else if |points.value| <= 60 then points.value
    else WithEndAsWritten(Sampled(points.value, Stride(|points.value|), 0), points.value)
  }

  /** `compressPoints(points)` with the end pair checked like every other pair. */
  function Compressed(points: Option<seq<Num>>): (r: seq<Num>)
    ensures points.None? ==> r == []
    ensures points.Some? && |points.value| <= 60 ==> r == points.value
  {
    if points.None? then []
    else if |points.value| <= 60 then points.value
    else WithEnd(Sampled(points.value, Stride(|points.value|), 0), points.value)
  }

  /**
   * As written, the end pair is appended even when its y is not finite: an
   * end pair whose x occurs nowhere earlier and whose y is not finite is
   * sent, so the payload ends with a value that is not a finite number.
   */
  lemma EndPairUnchecked(p: seq<Num>)
    requires |p| > 60
    requires p[|p| - 2].Finite? && p[|p| - 1] == NotFinite
    requires forall k :: 0 <= k < |p| - 2 ==> p[k] != p[|p| - 2]
    ensures var r := CompressedAsWritten(Some(p));
      r != [] && r[|r| - 1] == NotFinite
  {
    var f := Stride(|p|);
    var s := Sampled(p, f, 0);
    SampledSound(p, f, 0);
    if |s| >= 2 {
      var j := |s| / 2 - 1;
      assert X(s, j) == s[|s| - 2] && Y(s, j) == s[|s| - 1];
      var m: nat :| 0 + m * f < |p| - 1 && p[0 + m * f] == X(s, j) && p[0 + m * f + 1] == Y(s, j);
      assert s[|s| - 1].Finite?;
      assert m * f < |p| - 2;
    }
    AppendsEnd(s, p);
  }

  lemma AppendsEnd(s: seq<Num>, p: seq<Num>)
    requires |p| >= 2 && p[|p| - 2].Finite?
    requires |s| < 2 || s[|s| - 2] != p[|p| - 2]
    ensures var r := WithEndAsWritten(s, p); r != [] && r[|r| - 1] == p[|p| - 1]
  {
  }

  /**
   * Downsampling keeps whole pairs of finite values, each an input pair at a
   * multiple of the stride or the end pair, and the end pair's x when it is
   * finite is the last x sent.
   */
  lemma CompressedPairs(points: seq<Num>)
    requires |points| > 60
    ensures var r := Compressed(Some(points));
      var end := |points| - 2;
      && |r| % 2 == 0
      && AllFinite(r)
      && (forall j :: 0 <= j < |r| / 2 ==>
            IsInputPair(points, X(r, j), Y(r, j), 0, Stride(|points|)) || (X(r, j) == points[end] && Y(r, j) == points[end + 1]))
      && (points[end].Finite? && points[end + 1].Finite? ==> r[|r| - 2] == points[end])
  {
    var s := Sampled(points, Stride(|points|), 0);
    SampledSound(points, Stride(|points|), 0);
    assert Compressed(Some(points)) == WithEnd(s, points);
    WithEndPairs(s, points, Stride(|points|));
  }

  /** Every finite pair at a multiple of the stride is sent, at its place in loop order. */
  lemma CompressedComplete(points: seq<Num>, m: nat)
    requires |points| > 60
    requires m * Stride(|points|) + 1 < |points|
    requires points[m * Stride(|points|)].Finite? && points[m * Stride(|points|) + 1].Finite?
    ensures var r := Compressed(Some(points));
      var f := Stride(|points|);
      var j := PairsBefore(points, f, 0, m);
      2 * j + 1 < |r| && X(r, j) == points[m * f] && Y(r, j) == points[m * f + 1]
  {
    var f := Stride(|points|);
    var s := Sampled(points, f, 0);
    StepPosIsMultiple(0, f, m);
    SampledComplete(points, f, 0, m, m * f);
    var r := Compressed(Some(points));
    assert r == WithEnd(s, points);
    var j := PairsBefore(points, f, 0, m);
    assert r[2 * j] == s[2 * j] && r[2 * j + 1] == s[2 * j + 1];
  }

  /** Appending the end pair to sampled pairs keeps whole pairs of finite values. */
  lemma WithEndPairs(s: seq<Num>, points: seq<Num>, stride: nat)
    requires |points| >= 2 && SampledPairs(s, points, 0, stride) && AllFinite(s)
    ensures var r := WithEnd(s, points);
      var end := |points| - 2;
      && |r| % 2 == 0
      && AllFinite(r)
      && (forall j :: 0 <= j < |r| / 2 ==>
            IsInputPair(points, X(r, j), Y(r, j), 0, stride) || (X(r, j) == points[end] && Y(r, j) == points[end + 1]))
      && (points[end].Finite? && points[end + 1].Finite? ==> r[|r| - 2] == points[end])
  {
    var r := WithEnd(s, points);
    var end := |points| - 2;
    if r != s {
      assert r == s + [points[end], points[end + 1]];
      assert forall i :: 0 <= i < |s| ==> r[i] == s[i];
      forall j | 0 <= j < |r| / 2
        ensures IsInputPair(points, X(r, j), Y(r, j), 0, stride) || (X(r, j) == points[end] && Y(r, j) == points[end + 1])
      {
        if j < |s| / 2 {
          assert X(r, j) == X(s, j) && Y(r, j) == Y(s, j);
        } else {
          assert j == |s| / 2;
        }
      }
    }
  }

  /** One turn of the sampling loop: the pair at `i` joins what was collected. */
  lemma SampledStep(p: seq<Num>, factor: nat, i: nat, before: seq<Num>, after: seq<Num>, all: seq<Num>)
    requires factor >= 1 && i < |p|
    requires before + Sampled(p, factor, i) == all
    requires after == if At(p, i).Finite? && At(p, i + 1).Finite? then before + [p[i], p[i + 1]] else before
    ensures after + Sampled(p, factor, i + factor) == all
  {
    assert after == before + PairAt(p, i);
    assert Sampled(p, factor, i) == PairAt(p, i) + Sampled(p, factor, i + factor);
    Sorting.Regroup2(before, PairAt(p, i), Sampled(p, factor, i + factor));
  }

  /** The sampling loop of `compressPoints`, with the end step checked like every other pair. */
  method CompressPoints(points: Option<seq<Num>>) returns (result: seq<Num>)
    ensures result == Compressed(points)
  {
    if points.None? || |points.value| <= 60 {
      return if points.None? then [] else points.value;
    }
    var p := points.value;
    result := SampleLoop(p, Stride(|p|));
    var end := |p| - 2;
    if p[end].Finite? && p[end + 1].Finite? && (|result| < 2 || result[|result| - 2] != p[end]) {
      result := result + [p[end], p[end + 1]];
    }
  }

  /** `for (let i = 0; i < points.length; i += factor)`: the finite pairs at the stride positions. */
  method SampleLoop(p: seq<Num>, factor: nat) returns (result: seq<Num>)
    requires factor >= 1
    ensures result == Sampled(p, factor, 0)
  {
    result := [];
    var i := 0;
    ghost var all := Sampled(p, factor, 0);
    while i < |p|
      invariant result + Sampled(p, factor, i) == all
      decreases |p| - i
    {
      ghost var before := result;
      if At(p, i).Finite? && At(p, i + 1).Finite? {
        result := result + [p[i], p[i + 1]];
      }
      SampledStep(p, factor, i, before, result, all);
      i := i + factor;
    }
    assert Sampled(p, factor, i) == [];
  }

  /** A stroke: its point list and every other field, which travels along unchanged. */
  datatype Line = Line(points: Option<seq<Num>>, otherFields: seq<(string, Json)>)

  /** `compressStrokes(lines)`: each stroke with its points compressed. */
  function CompressStrokes(lines: Option<seq<Line>>): (r: seq<Line>)
    ensures |r| == (if lines.Some? then |lines.value| else 0)
    ensures lines.Some? ==> forall k :: 0 <= k < |r| ==>
      r[k].otherFields == lines.value[k].otherFields && r[k].points == Some(Compressed(lines.value[k].points))
  {
    var ls := if lines.Some? then lines.value else [];
    seq(|ls|, k requires 0 <= k < |ls| => Line(Some(Compressed(ls[k].points)), ls[k].otherFields))
  }

  // ---------------------------------------------------------------------------
  // Issue ordering in the coach panel

  /** A box in normalised coordinates; a missing field reads as 0 (`?? 0`). */
  datatype Box = Box(x: Option<real>, y: Option<real>, w: Option<real>, h: Option<real>)

  datatype Issue = Issue(region: Option<Box>, otherFields: seq<(string, Json)>)

  datatype ConfusionRegion = ConfusionRegion(normalized: Option<Box>)

  function Coord(v: Option<real>): real {
    if v.Some? then v.value else 0.0
  }

  /** Strict intersection of the two boxes. */
  predicate Intersects(a: Box, b: Box) {
    && Coord(a.x) < Coord(b.x) + Coord(b.w) && Coord(a.x) + Coord(a.w) > Coord(b.x)
    && Coord(a.y) < Coord(b.y) + Coord(b.h) && Coord(a.y) + Coord(a.h) > Coord(b.y)
  }

  /** `overlaps(issue)`: it has a region that intersects some confusion region's box (a missing box is all zeros). */
  predicate Overlaps(issue: Issue, regions: seq<ConfusionRegion>) {
    issue.region.Some? &&
    exists k :: 0 <= k < |regions| && Intersects(issue.region.value, regions[k].normalized.GetOr(Box(None, None, None, None)))
  }

  function OverlapKey(regions: seq<ConfusionRegion>): Issue -> real {
    (issue: Issue) => if Overlaps(issue, regions) then 1.0 else 0.0
  }

  /** The `issues` memo: no issues gives none, no confusion regions keeps their order, else overlapping issues first. */
  function OrderedIssues(issues: Option<seq<Issue>>, regions: Option<seq<ConfusionRegion>>): (r: seq<Issue>)
    ensures |r| == (if issues.Some? then |issues.value| else 0)
    ensures issues.Some? && (regions.None? || regions.value == []) ==> r == issues.value
    ensures issues.Some? ==> multiset(r) == multiset(issues.value)
  {
    var base := if issues.Some? then issues.value else [];
    if base == [] then []
    else if regions.None? || regions.value == [] then base
    else Sorting.SortDesc(base, OverlapKey(regions.value))
  }

  /**
   * With confusion regions, the overlapping issues come first and the others
   * after them, each group in the order the analysis returned them.
   */
  lemma OverlappingFirst(issues: seq<Issue>, regions: seq<ConfusionRegion>)
    requires regions != []
    ensures var key := OverlapKey(regions);
      OrderedIssues(Some(issues), Some(regions)) == Sorting.WithKey(issues, key, 1.0) + Sorting.WithKey(issues, key, 0.0)
  {
    Sorting.StablePartition(issues, OverlapKey(regions));
  }

  /** Boxes that only touch along an edge do not overlap. */
  lemma TouchingIsNotOverlapping(x: real, y: real, w: real, h: real)
    ensures !Intersects(Box(Some(x), Some(y), Some(w), Some(h)), Box(Some(x + w), Some(y), Some(w), Some(h)))
  {
  }
}
