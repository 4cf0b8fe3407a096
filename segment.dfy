/** Segment building: candidate segment points from the strokes
    (`KlineAnalyze._update_xd_list_v1`) and their re-validation with the
    standardised characteristic sequence (`KlineAnalyze._xd_after_process`). */
module Segment {
  import opened ChanTypes
  import opened Compare
  import opened Stroke

  /** Stroke points with timestamps in [lo, hi]. */
  function StrokesWithin(bi: seq<Point>, lo: int, hi: int): seq<Point>
  {
    Filter(bi, PointWithin(lo, hi))
  }

  /** One iteration of the construction loop over a potential point `p`: a
      same-mark point replaces the last segment point when it is more extreme;
      an opposite-mark point that does not run against the last one is
      appended when at least four strokes lie between them, ends included. */
  function XdStep(xd: seq<Point>, p: Point, rightBi: seq<Point>): (r: seq<Point>)
    requires |xd| > 0
    ensures |r| >= |xd| && r[..|xd| - 1] == xd[..|xd| - 1]
    ensures var last := xd[|xd| - 1];
      (p.mark == last.mark && Beyond(last, p.price) ==> r == xd[..|xd| - 1] + [p]) &&
      (p.mark == last.mark && !Beyond(last, p.price) ==> r == xd) &&
      (p.mark != last.mark ==>
        (r == xd + [p] <==> !Beyond(last, p.price) && |StrokesWithin(rightBi, last.dt, p.dt)| >= 4) &&
        (r == xd || r == xd + [p]))
  {
    var last := xd[|xd| - 1];
    if last.mark == p.mark then
      if Beyond(last, p.price) then xd[..|xd| - 1] + [p] else xd
    else if Beyond(last, p.price) then xd
    else if |StrokesWithin(rightBi, last.dt, p.dt)| < 4 then xd
    else
      assert xd + [p] != xd by { assert |xd + [p]| != |xd|; }
      xd + [p]
  }

  function XdScan(xd: seq<Point>, ps: seq<Point>, rightBi: seq<Point>): (r: seq<Point>)
    requires |xd| > 0
    ensures |r| >= |xd|
    decreases |ps|
  {
    if ps == [] then xd else XdScan(XdStep(xd, ps[0], rightBi), ps[1..], rightBi)
  }

  /** Strokes from the third stroke point on, the ones the construction
      looks at. */
  function RightBi(bi: seq<Point>): seq<Point>
    requires |bi| >= 3
  {
    Filter(bi, PointFrom(bi[2].dt))
  }

  /** The candidate segment list of `_update_xd_list_v1`: seeded with the first
      three stroke points, then the potential points in time order. */
  function XdListV1(bi: seq<Point>): (r: seq<Point>)
    requires |bi| >= 4
    ensures |r| >= 3 && r[..2] == bi[..2]
  {
    var right := RightBi(bi);
    var r := XdScan(bi[..3], GetPotentialXd(right), right);
    XdScanKeepsPrefix(bi[..3], GetPotentialXd(right), right);
    assert r[..2] == r[..|bi[..3]| - 1];
    r
  }

  lemma {:induction false} XdScanKeepsPrefix(xd: seq<Point>, ps: seq<Point>, rightBi: seq<Point>)
    requires |xd| > 0
    ensures XdScan(xd, ps, rightBi)[..|xd| - 1] == xd[..|xd| - 1]
    decreases |ps|
  {
    if ps != [] {
      var next := XdStep(xd, ps[0], rightBi);
      XdScanKeepsPrefix(next, ps[1..], rightBi);
      assert XdScan(xd, ps, rightBi)[..|next| - 1][..|xd| - 1] == XdScan(xd, ps, rightBi)[..|xd| - 1];
    }
  }

  lemma XdStepAlternates(xd: seq<Point>, p: Point, rightBi: seq<Point>)
    requires |xd| > 0 && Alternates(xd)
    ensures Alternates(XdStep(xd, p, rightBi))
  {
    var r := XdStep(xd, p, rightBi);
    forall i | 1 <= i < |r| ensures r[i - 1].mark != r[i].mark {
      if i < |xd| - 1 {
        assert r[i - 1] == xd[i - 1] && r[i] == xd[i];
      } else if i == |xd| - 1 {
        assert r[i - 1] == xd[i - 1];
      }
    }
  }

  lemma {:induction false} XdScanAlternates(xd: seq<Point>, ps: seq<Point>, rightBi: seq<Point>)
    requires |xd| > 0 && Alternates(xd)
    ensures Alternates(XdScan(xd, ps, rightBi))
    decreases |ps|
  {
    if ps != [] {
      XdStepAlternates(xd, ps[0], rightBi);
      XdScanAlternates(XdStep(xd, ps[0], rightBi), ps[1..], rightBi);
    }
  }

  /** A candidate list built from alternating strokes alternates too. */
  lemma XdListV1Alternates(bi: seq<Point>)
    requires |bi| >= 4 && Alternates(bi)
    ensures Alternates(XdListV1(bi))
  {
    var seed := bi[..3];
    assert Alternates(seed) by {
      forall i | 1 <= i < 3 ensures seed[i - 1].mark != seed[i].mark {
        assert seed[i - 1] == bi[i - 1] && seed[i] == bi[i];
      }
    }
    var right := RightBi(bi);
    XdScanAlternates(seed, GetPotentialXd(right), right);
  }

  lemma {:induction false} XdScanMembers(xd: seq<Point>, ps: seq<Point>, rightBi: seq<Point>, q: Point)
    requires |xd| > 0 && q in XdScan(xd, ps, rightBi)
    ensures q in xd || q in ps
    decreases |ps|
  {
    if ps != [] {
      var next := XdStep(xd, ps[0], rightBi);
      XdScanMembers(next, ps[1..], rightBi, q);
      if q in next && q !in xd {
        assert q == ps[0];
      }
    }
  }

  /** Every candidate segment point is a stroke point: one of the first three,
      or a local extreme among the same-mark strokes from the third on. */
  lemma XdListV1FromStrokes(bi: seq<Point>, q: Point)
    requires |bi| >= 4 && q in XdListV1(bi)
    ensures q in bi
    ensures q !in bi[..3] ==> q in GetPotentialXd(RightBi(bi))
  {
    var right := RightBi(bi);
    XdScanMembers(bi[..3], GetPotentialXd(right), right, q);
    FilterMembers(bi, PointFrom(bi[2].dt));
    if q !in bi[..3] {
      PotentialXdAreExtremes(right, q);
    }
  }

  /** A step over a point later than the last segment point (or that point
      itself) keeps the list in time order; the new last point is one of the
      two. */
  lemma XdStepOrdered(xd: seq<Point>, p: Point, rightBi: seq<Point>)
    requires |xd| > 0 && PointsOrdered(xd)
    requires xd[|xd| - 1].dt < p.dt || p == xd[|xd| - 1]
    ensures var r := XdStep(xd, p, rightBi);
      PointsOrdered(r) && (r[|r| - 1] == xd[|xd| - 1] || r[|r| - 1] == p)
  {
    var last := xd[|xd| - 1];
    var r := XdStep(xd, p, rightBi);
    if p.mark == last.mark && Beyond(last, p.price) {
      ReplaceLastOrdered(xd, p);
    } else if p.mark != last.mark && r == xd + [p] {
      AppendOrdered(xd, p);
    } else {
      assert r == xd;
    }
  }

  /** The construction loop over time-sorted stroke points, none earlier than
      the last segment point, keeps the segment list in time order. */
  lemma {:induction false} XdScanOrdered(xd: seq<Point>, ps: seq<Point>, rightBi: seq<Point>, bi: seq<Point>)
    requires |xd| > 0 && PointsOrdered(xd) && PointsOrdered(bi) && xd[|xd| - 1] in bi
    requires SortedByDt(ps) && (forall q :: q in ps ==> q in bi)
    requires ps != [] ==> xd[|xd| - 1].dt <= ps[0].dt
    ensures PointsOrdered(XdScan(xd, ps, rightBi))
    decreases |ps|
  {
    if ps != [] {
      var p := ps[0];
      var last := xd[|xd| - 1];
      if p.dt == last.dt {
        SameDtSamePoint(bi, p, last);
      }
      XdStepOrdered(xd, p, rightBi);
      var next := XdStep(xd, p, rightBi);
      var rest := ps[1..];
      assert SortedByDt(rest) by {
        forall i | 1 <= i < |rest| ensures rest[i - 1].dt <= rest[i].dt {
          assert rest[i - 1] == ps[i] && rest[i] == ps[i + 1];
        }
      }
      assert forall q :: q in rest ==> q in ps;
      if rest != [] {
        assert rest[0] == ps[1];
      }
      XdScanOrdered(next, rest, rightBi, bi);
    }
  }

  /** Time-ordered strokes give a time-ordered candidate segment list. */
  lemma XdListV1Ordered(bi: seq<Point>)
    requires |bi| >= 4 && PointsOrdered(bi)
    ensures PointsOrdered(XdListV1(bi))
  {
    var seed := bi[..3];
    OrderedSlice(bi, 0, 3);
    var right := RightBi(bi);
    var ps := GetPotentialXd(right);
    FilterMembers(bi, PointFrom(bi[2].dt));
    forall q | q in ps ensures q in bi && q.dt >= bi[2].dt {
      PotentialXdAreExtremes(right, q);
    }
    if ps != [] {
      assert ps[0] in ps;
    }
    assert seed[2] == bi[2];
    XdScanOrdered(seed, ps, right, bi);
  }

  // ---- post-processing -------------------------------------------------

  /** The three stroke runs around the interior segment point `i`: between
      xd[i-1] and xd[i], between xd[i] and xd[i+1], between xd[i+1] and
      xd[i+2], ends included. */
  function RunsAround(xd: seq<Point>, bi: seq<Point>, i: int): (seq<Point>, seq<Point>, seq<Point>)
    requires 1 <= i && i + 2 < |xd|
  {
    (StrokesWithin(bi, xd[i - 1].dt, xd[i].dt),
     StrokesWithin(bi, xd[i].dt, xd[i + 1].dt),
     StrokesWithin(bi, xd[i + 1].dt, xd[i + 2].dt))
  }

  /** The assertion at the top of `is_valid_xd`: consecutive runs share their
      boundary stroke point. */
  predicate RunsJoin(s1: seq<Point>, s2: seq<Point>, s3: seq<Point>)
  {
    |s1| > 0 && |s2| > 0 && |s3| > 0 &&
    s2[0].dt == s1[|s1| - 1].dt && s3[0].dt == s2[|s2| - 1].dt
  }

  /** The verdict on three runs: skipped (false) when one is empty, an
      AssertionError when they do not join, `is_valid_xd` otherwise. */
  function Verdict(s1: seq<Point>, s2: seq<Point>, s3: seq<Point>): Result<bool>
  {
    if |s1| == 0 || |s2| == 0 || |s3| == 0 then Ok(false)
    else if !RunsJoin(s1, s2, s3) then Fail(AssertionError)
    else Ok(IsValidXd(s1, s2, s3))
  }

  /** The verdict raises exactly when three non-empty runs do not join, and
      accepts only joined runs that `is_valid_xd` accepts. */
  lemma VerdictCases(s1: seq<Point>, s2: seq<Point>, s3: seq<Point>)
    ensures Verdict(s1, s2, s3).Fail? <==> (|s1| > 0 && |s2| > 0 && |s3| > 0 && !RunsJoin(s1, s2, s3))
    ensures Verdict(s1, s2, s3) == Ok(true) ==> RunsJoin(s1, s2, s3) && IsValidXd(s1, s2, s3)
  {
  }

  /** Interior point `i` passes: its runs join and `is_valid_xd` accepts them. */
  predicate PassesAt(xd: seq<Point>, bi: seq<Point>, i: int)
    requires 1 <= i && i + 2 < |xd|
  {
    var runs := RunsAround(xd, bi, i);
    Verdict(runs.0, runs.1, runs.2) == Ok(true)
  }

  /** The runs around interior point `i` do not join: the source raises. */
  predicate FailsAt(xd: seq<Point>, bi: seq<Point>, i: int)
    requires 1 <= i && i + 2 < |xd|
  {
    var runs := RunsAround(xd, bi, i);
    Verdict(runs.0, runs.1, runs.2).Fail?
  }

  /** Indices among 1 .. n-1 of the interior points that pass the test. */
  function KeepInterior(xd: seq<Point>, bi: seq<Point>, n: int): Result<seq<int>>
    requires n + 2 <= |xd|
    decreases n
  {
    if n <= 1 then Ok([])
    else
      var prev := KeepInterior(xd, bi, n - 1);
      if prev.Fail? then prev
      else if FailsAt(xd, bi, n - 1) then Fail(AssertionError)
      else if PassesAt(xd, bi, n - 1) then Ok(prev.value + [n - 1])
      else prev
  }

  /** One more interior point: a point whose runs join is appended exactly
      when it passes. */
  lemma KeepInteriorNext(xd: seq<Point>, bi: seq<Point>, n: int, keep: seq<int>)
    requires 1 <= n && n + 3 <= |xd|
    requires KeepInterior(xd, bi, n) == Ok(keep) && !FailsAt(xd, bi, n)
    ensures KeepInterior(xd, bi, n + 1) == Ok(if PassesAt(xd, bi, n) then keep + [n] else keep)
  {
  }

  /** `ks` holds increasing indices among 1 .. n-1. */
  predicate IncreasingBelow(ks: seq<int>, n: int)
  {
    (forall j :: 0 <= j < |ks| ==> 1 <= ks[j] < n) &&
    (forall j :: 1 <= j < |ks| ==> ks[j - 1] < ks[j])
  }

  /** The interior survivors are increasing indices among 1 .. n-1. */
  lemma {:induction false} KeepInteriorIncreasing(xd: seq<Point>, bi: seq<Point>, n: int)
    requires n + 2 <= |xd|
    ensures KeepInterior(xd, bi, n).Ok? ==> IncreasingBelow(KeepInterior(xd, bi, n).value, n)
    decreases n
  {
    if n > 1 {
      KeepInteriorIncreasing(xd, bi, n - 1);
      var prev := KeepInterior(xd, bi, n - 1);
      if prev.Fail? {
        assert KeepInterior(xd, bi, n) == prev;
      } else if FailsAt(xd, bi, n - 1) {
        assert KeepInterior(xd, bi, n).Fail?;
      } else if PassesAt(xd, bi, n - 1) {
        var r := prev.value + [n - 1];
        assert KeepInterior(xd, bi, n) == Ok(r);
        assert forall j :: 0 <= j < |prev.value| ==> r[j] == prev.value[j];
        assert IncreasingBelow(r, n);
      } else {
        assert KeepInterior(xd, bi, n) == prev;
        assert IncreasingBelow(prev.value, n - 1);
        assert IncreasingBelow(prev.value, n);
      }
    }
  }

  /** Every index in `ks` is an interior point below `n` that passes. */
  predicate AllPass(xd: seq<Point>, bi: seq<Point>, ks: seq<int>, n: int)
    requires n + 2 <= |xd|
  {
    forall j :: 0 <= j < |ks| ==> 1 <= ks[j] < n && PassesAt(xd, bi, ks[j])
  }

  /** Every interior survivor passes its test. */
  lemma {:induction false} KeepInteriorPasses(xd: seq<Point>, bi: seq<Point>, n: int)
    requires n + 2 <= |xd|
    ensures KeepInterior(xd, bi, n).Ok? ==> AllPass(xd, bi, KeepInterior(xd, bi, n).value, n)
    decreases n
  {
    if n > 1 {
      KeepInteriorPasses(xd, bi, n - 1);
      var prev := KeepInterior(xd, bi, n - 1);
      if prev.Fail? {
        assert KeepInterior(xd, bi, n) == prev;
      } else if FailsAt(xd, bi, n - 1) {
        assert KeepInterior(xd, bi, n).Fail?;
      } else if PassesAt(xd, bi, n - 1) {
        var r := prev.value + [n - 1];
        assert KeepInterior(xd, bi, n) == Ok(r);
        assert forall j :: 0 <= j < |prev.value| ==> r[j] == prev.value[j];
        assert AllPass(xd, bi, r, n);
      } else {
        assert KeepInterior(xd, bi, n) == prev;
        assert AllPass(xd, bi, prev.value, n - 1);
        assert AllPass(xd, bi, prev.value, n);
      }
    }
  }

  /** An interior point that passes its test survives every scan that
      reaches past it without raising. */
  lemma {:induction false} KeepInteriorComplete(xd: seq<Point>, bi: seq<Point>, i: int, n: int)
    requires 1 <= i < n && n + 2 <= |xd|
    requires KeepInterior(xd, bi, n).Ok? && PassesAt(xd, bi, i)
    ensures i in KeepInterior(xd, bi, n).value
    decreases n
  {
    var prev := KeepInterior(xd, bi, n - 1);
    assert prev.Ok? && !FailsAt(xd, bi, n - 1);
    if n == i + 1 {
      assert KeepInterior(xd, bi, n) == Ok(prev.value + [i]);
    } else {
      KeepInteriorComplete(xd, bi, i, n - 1);
      assert KeepInterior(xd, bi, n).value == prev.value + (if PassesAt(xd, bi, n - 1) then [n - 1] else []);
    }
  }

  /** Once the runs around an interior point fail to join, every longer
      interior scan raises. */
  lemma {:induction false} KeepInteriorFailsFrom(xd: seq<Point>, bi: seq<Point>, i: int, n: int)
    requires 1 <= i < n && n + 2 <= |xd|
    requires FailsAt(xd, bi, i)
    ensures KeepInterior(xd, bi, n).Fail?
    decreases n
  {
    if n > i + 1 {
      KeepInteriorFailsFrom(xd, bi, i, n - 1);
    }
  }

  /** The interior scan raises exactly when the runs around some interior
      point below `n` do not join. */
  lemma {:induction false} KeepInteriorFails(xd: seq<Point>, bi: seq<Point>, n: int)
    requires n + 2 <= |xd|
    ensures KeepInterior(xd, bi, n).Fail? <==> exists i :: 1 <= i < n && FailsAt(xd, bi, i)
    decreases n
  {
    if n > 1 {
      KeepInteriorFails(xd, bi, n - 1);
      var prev := KeepInterior(xd, bi, n - 1);
      if prev.Fail? {
        assert KeepInterior(xd, bi, n) == prev;
        var i :| 1 <= i < n - 1 && FailsAt(xd, bi, i);
        assert 1 <= i < n && FailsAt(xd, bi, i);
      } else if FailsAt(xd, bi, n - 1) {
        assert KeepInterior(xd, bi, n).Fail?;
        assert 1 <= n - 1 < n && FailsAt(xd, bi, n - 1);
      } else {
        assert KeepInterior(xd, bi, n).Ok?;
        forall i | 1 <= i < n ensures !FailsAt(xd, bi, i) {
          if i < n - 1 {
            assert !(1 <= i < n - 1 && FailsAt(xd, bi, i));
          }
        }
      }
    }
  }

  /** The runs around the last confirmed point xd[-2]: the third run is every
      stroke from xd[-1] on. */
  function LastRuns(xd: seq<Point>, bi: seq<Point>): (seq<Point>, seq<Point>, seq<Point>)
    requires |xd| >= 3
  {
    var n := |xd|;
    (StrokesWithin(bi, xd[n - 3].dt, xd[n - 2].dt),
     StrokesWithin(bi, xd[n - 2].dt, xd[n - 1].dt),
     Filter(bi, PointFrom(xd[n - 1].dt)))
  }

  /** The last confirmed point xd[-2] passes its test. */
  predicate LastPasses(xd: seq<Point>, bi: seq<Point>)
    requires |xd| >= 3
  {
    var runs := LastRuns(xd, bi);
    Verdict(runs.0, runs.1, runs.2) == Ok(true)
  }

  /** The runs around xd[-2] do not join: the source raises. */
  predicate LastFails(xd: seq<Point>, bi: seq<Point>)
    requires |xd| >= 3
  {
    var runs := LastRuns(xd, bi);
    Verdict(runs.0, runs.1, runs.2).Fail?
  }

  /** At least four strokes from the newest point xd[-1] on. */
  predicate NewestHolds(xd: seq<Point>, bi: seq<Point>)
    requires |xd| >= 3
  {
    |LastRuns(xd, bi).2| >= 4
  }

  /** Appends xd[-2] (index n-2) and xd[-1] (index n-1) to the interior
      survivors as their tests decide. */
  function WithLastTwo(interior: seq<int>, n: int, lastPasses: bool, newestHolds: bool): seq<int>
  {
    interior + (if lastPasses then [n - 2] else []) + (if newestHolds then [n - 1] else [])
  }

  /** Appending the last two keeps the indices increasing and in range,
      and keeps xd[-2] and xd[-1] exactly as their tests decide. */
  lemma WithLastTwoSound(interior: seq<int>, n: int, lastPasses: bool, newestHolds: bool)
    requires n >= 3 && IncreasingBelow(interior, n - 2)
    ensures var r := WithLastTwo(interior, n, lastPasses, newestHolds);
      IncreasingBelow(r, n) &&
      (forall j :: 0 <= j < |r| && r[j] < n - 2 ==> r[j] in interior) &&
      (n - 2 in r <==> lastPasses) &&
      (n - 1 in r <==> newestHolds)
  {
    var ks := interior + (if lastPasses then [n - 2] else []);
    assert forall j :: 0 <= j < |ks| ==> ks[j] < n - 1;
    assert WithLastTwo(interior, n, lastPasses, newestHolds) == ks + (if newestHolds then [n - 1] else []);
  }

  /** Indices of the segment points that survive: the interior points that
      pass the test, then xd[-2] when it passes, then xd[-1] when at least four
      strokes follow it. */
  function KeepIndices(xd: seq<Point>, bi: seq<Point>): Result<seq<int>>
    requires |xd| > 4
  {
    var interior := KeepInterior(xd, bi, |xd| - 2);
    if interior.Fail? then interior
    else if LastFails(xd, bi) then Fail(AssertionError)
    else Ok(WithLastTwo(interior.value, |xd|, LastPasses(xd, bi), NewestHolds(xd, bi)))
  }

  /** The survivor list raises exactly when some tested runs do not join;
      otherwise it holds increasing indices of points, each kept exactly as
      its own test decides. */
  lemma KeepIndicesSound(xd: seq<Point>, bi: seq<Point>)
    requires |xd| > 4
    ensures var r := KeepIndices(xd, bi);
      (r.Fail? <==> LastFails(xd, bi) || exists i :: 1 <= i < |xd| - 2 && FailsAt(xd, bi, i)) &&
      (r.Ok? ==> IncreasingBelow(r.value, |xd|)) &&
      (r.Ok? ==> forall j :: 0 <= j < |r.value| && r.value[j] < |xd| - 2 ==> PassesAt(xd, bi, r.value[j])) &&
      (r.Ok? ==> forall i :: 1 <= i < |xd| - 2 && PassesAt(xd, bi, i) ==> i in r.value) &&
      (r.Ok? ==> (|xd| - 2 in r.value <==> LastPasses(xd, bi))) &&
      (r.Ok? ==> (|xd| - 1 in r.value <==> NewestHolds(xd, bi)))
  {
    KeepInteriorIncreasing(xd, bi, |xd| - 2);
    KeepInteriorPasses(xd, bi, |xd| - 2);
    KeepInteriorFails(xd, bi, |xd| - 2);
    var interior := KeepInterior(xd, bi, |xd| - 2);
    if interior.Ok? && !LastFails(xd, bi) {
      WithLastTwoSound(interior.value, |xd|, LastPasses(xd, bi), NewestHolds(xd, bi));
      forall i | 1 <= i < |xd| - 2 && PassesAt(xd, bi, i) ensures i in KeepIndices(xd, bi).value {
        KeepInteriorComplete(xd, bi, i, |xd| - 2);
      }
    }
  }

  /** The survivors index points of the segment list. */
  lemma KeepIndicesInRange(xd: seq<Point>, bi: seq<Point>)
    requires |xd| > 4
    ensures KeepIndices(xd, bi).Ok? ==> forall j :: 0 <= j < |KeepIndices(xd, bi).value| ==> 0 <= KeepIndices(xd, bi).value[j] < |xd|
  {
    KeepIndicesSound(xd, bi);
  }

  /** One step of re-merging the survivors: the same rule as for strokes, but
      an opposite-mark point is always appended. */
  function KeptStep(acc: seq<Point>, p: Point): (r: seq<Point>)
    ensures acc == [] ==> r == [p]
    ensures acc != [] ==> var last := acc[|acc| - 1];
      (p.mark == last.mark && Beyond(last, p.price) ==> r == acc[..|acc| - 1] + [p]) &&
      (p.mark == last.mark && !Beyond(last, p.price) ==> r == acc) &&
      (p.mark != last.mark ==> r == acc + [p])
  {
    if acc == [] then [p]
    else
      var last := acc[|acc| - 1];
      if last.mark == p.mark then
        if Beyond(last, p.price) then acc[..|acc| - 1] + [p] else acc
      else acc + [p]
  }

  function KeptMerge(acc: seq<Point>, xd: seq<Point>, keep: seq<int>): seq<Point>
    requires forall j :: 0 <= j < |keep| ==> 0 <= keep[j] < |xd|
    decreases |keep|
  {
    if keep == [] then acc else KeptMerge(KeptStep(acc, xd[keep[0]]), xd, keep[1..])
  }

  lemma KeptStepAlternates(acc: seq<Point>, p: Point)
    requires Alternates(acc)
    ensures Alternates(KeptStep(acc, p))
  {
    var r := KeptStep(acc, p);
    forall i | 1 <= i < |r| ensures r[i - 1].mark != r[i].mark {
      if i < |acc| - 1 {
        assert r[i - 1] == acc[i - 1] && r[i] == acc[i];
      } else if i == |acc| - 1 {
        assert r[i - 1] == acc[i - 1];
      }
    }
  }

  /** Re-merging produces an alternating list whatever the survivors are. */
  lemma {:induction false} KeptMergeAlternates(acc: seq<Point>, xd: seq<Point>, keep: seq<int>)
    requires forall j :: 0 <= j < |keep| ==> 0 <= keep[j] < |xd|
    requires Alternates(acc)
    ensures Alternates(KeptMerge(acc, xd, keep))
    decreases |keep|
  {
    if keep != [] {
      KeptStepAlternates(acc, xd[keep[0]]);
      KeptMergeAlternates(KeptStep(acc, xd[keep[0]]), xd, keep[1..]);
    }
  }

  /** Every point of the re-merged list is one of the surviving candidates. */
  lemma {:induction false} KeptMergeFromSurvivors(acc: seq<Point>, xd: seq<Point>, keep: seq<int>, q: Point)
    requires forall j :: 0 <= j < |keep| ==> 0 <= keep[j] < |xd|
    requires q in KeptMerge(acc, xd, keep)
    ensures q in acc || exists j :: 0 <= j < |keep| && xd[keep[j]] == q
    decreases |keep|
  {
    if keep != [] {
      var next := KeptStep(acc, xd[keep[0]]);
      KeptMergeFromSurvivors(next, xd, keep[1..], q);
      if q in next && q !in acc {
        assert xd[keep[0]] == q;
      }
      if exists j :: 0 <= j < |keep[1..]| && xd[keep[1..][j]] == q {
        var j :| 0 <= j < |keep[1..]| && xd[keep[1..][j]] == q;
        assert xd[keep[j + 1]] == q;
      }
    }
  }

  /** A re-merge step over a point later than the last keeps the list in
      time order; the new last point is no later than that point. */
  lemma KeptStepOrdered(acc: seq<Point>, p: Point)
    requires PointsOrdered(acc) && (acc != [] ==> acc[|acc| - 1].dt < p.dt)
    ensures var r := KeptStep(acc, p); r != [] && PointsOrdered(r) && r[|r| - 1].dt <= p.dt
  {
    if acc != [] {
      var last := acc[|acc| - 1];
      if p.mark == last.mark && Beyond(last, p.price) {
        ReplaceLastOrdered(acc, p);
      } else if p.mark != last.mark {
        AppendOrdered(acc, p);
      }
    }
  }

  /** Re-merging the survivors of a time-ordered list, taken in index order,
      gives a time-ordered list. */
  lemma {:induction false} KeptMergeOrdered(acc: seq<Point>, xd: seq<Point>, keep: seq<int>)
    requires IncreasingBelow(keep, |xd|) && PointsOrdered(acc) && PointsOrdered(xd)
    requires acc != [] && keep != [] ==> acc[|acc| - 1].dt < xd[keep[0]].dt
    ensures PointsOrdered(KeptMerge(acc, xd, keep))
    decreases |keep|
  {
    if keep != [] {
      var p := xd[keep[0]];
      KeptStepOrdered(acc, p);
      var next := KeptStep(acc, p);
      var rest := keep[1..];
      assert IncreasingBelow(rest, |xd|) by {
        forall j | 0 <= j < |rest| ensures 1 <= rest[j] < |xd| {
          assert rest[j] == keep[j + 1];
        }
        forall j | 1 <= j < |rest| ensures rest[j - 1] < rest[j] {
          assert rest[j - 1] == keep[j] && rest[j] == keep[j + 1];
        }
      }
      if rest != [] {
        assert rest[0] == keep[1] && keep[0] < keep[1];
        OrderedBelow(xd, keep[0], keep[1]);
      }
      KeptMergeOrdered(next, xd, rest);
    }
  }

  /** The last segment point is dropped when the last stroke point lies
      beyond it; with no stroke point the source raises IndexError. */
  function DropBreached(xd: seq<Point>, bi: seq<Point>): (r: seq<Point>)
    requires bi != []
    ensures r == xd || (xd != [] && r == xd[..|xd| - 1] && Beyond(xd[|xd| - 1], bi[|bi| - 1].price))
    ensures xd != [] && Beyond(xd[|xd| - 1], bi[|bi| - 1].price) ==> r == xd[..|xd| - 1]
  {
    if xd != [] && Beyond(xd[|xd| - 1], bi[|bi| - 1].price) then xd[..|xd| - 1] else xd
  }

  /** `_xd_after_process` raises (before the list is replaced) when the runs
      around a tested point do not join. */
  predicate AfterProcessFails(xd: seq<Point>, bi: seq<Point>)
  {
    |xd| > 4 && KeepIndices(xd, bi).Fail?
  }

  /** The segment list after `_xd_after_process`. With no stroke point every
      run is empty, nothing survives and the final check is skipped. */
  function XdAfterProcess(xd: seq<Point>, bi: seq<Point>): seq<Point>
  {
    if |xd| <= 4 then xd
    else
      var keep := KeepIndices(xd, bi);
      if keep.Fail? then xd
      else
        KeepIndicesInRange(xd, bi);
        var merged := KeptMerge([], xd, keep.value);
        if bi == [] then merged else DropBreached(merged, bi)
  }

  /** Post-processing always yields an alternating list when it runs. */
  lemma XdAfterProcessAlternates(xd: seq<Point>, bi: seq<Point>)
    requires |xd| > 4 && !AfterProcessFails(xd, bi)
    ensures Alternates(XdAfterProcess(xd, bi))
  {
    KeepIndicesSound(xd, bi);
    var keep := KeepIndices(xd, bi).value;
    KeptMergeAlternates([], xd, keep);
    var merged := KeptMerge([], xd, keep);
    var r := XdAfterProcess(xd, bi);
    assert r == merged || (merged != [] && r == merged[..|merged| - 1]);
    if r != merged {
      forall i | 1 <= i < |r| ensures r[i - 1].mark != r[i].mark {
        assert r[i - 1] == merged[i - 1] && r[i] == merged[i];
      }
    }
  }

  /** Post-processing keeps a time-ordered segment list in time order. */
  lemma XdAfterProcessOrdered(xd: seq<Point>, bi: seq<Point>)
    requires PointsOrdered(xd)
    ensures PointsOrdered(XdAfterProcess(xd, bi))
  {
    if |xd| > 4 && KeepIndices(xd, bi).Ok? {
      KeepIndicesSound(xd, bi);
      var keep := KeepIndices(xd, bi).value;
      KeptMergeOrdered([], xd, keep);
      var merged := KeptMerge([], xd, keep);
      if bi != [] && merged != [] {
        OrderedSlice(merged, 0, |merged| - 1);
      }
    }
  }

  /** Every surviving segment point is a candidate that passed its test:
      an interior or last-confirmed point whose runs passed `is_valid_xd`, or
      the newest point with at least four strokes after it. */
  lemma XdAfterProcessSurvivors(xd: seq<Point>, bi: seq<Point>, q: Point)
    requires |xd| > 4 && !AfterProcessFails(xd, bi)
    requires q in XdAfterProcess(xd, bi)
    ensures exists i :: (1 <= i < |xd| && xd[i] == q &&
      (i < |xd| - 2 ==> PassesAt(xd, bi, i)) &&
      (i == |xd| - 2 ==> LastPasses(xd, bi)) &&
      (i == |xd| - 1 ==> NewestHolds(xd, bi)))
  {
    KeepIndicesSound(xd, bi);
    var keep := KeepIndices(xd, bi).value;
    var merged := KeptMerge([], xd, keep);
    var r := XdAfterProcess(xd, bi);
    assert r == merged || (merged != [] && r == merged[..|merged| - 1]);
    assert q in merged;
    KeptMergeFromSurvivors([], xd, keep, q);
    var j :| 0 <= j < |keep| && xd[keep[j]] == q;
    var i := keep[j];
    assert 1 <= i < |xd|;
    if i == |xd| - 2 {
      assert LastPasses(xd, bi);
    } else if i == |xd| - 1 {
      assert NewestHolds(xd, bi);
    }
  }
}
