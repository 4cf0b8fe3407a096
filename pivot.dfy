/** Pivot (zhongshu) detection over segment or stroke points
    (`KlineAnalyze._update_zs_list` and its nested helpers). */
module Pivots {
  import opened ChanTypes

  /** Which points the pivots are built from: segment points or stroke
      points. */
  datatype ZsMode = ZsXd | ZsBi

  /** Prices of the points with mark `m`. */
  function MarkedPrices(w: seq<Point>, m: Mark): seq<real>
  {
    Prices(Filter(w, PointMarked(m)))
  }

  predicate HasMark(w: seq<Point>, m: Mark)
  {
    exists i :: 0 <= i < |w| && w[i].mark == m
  }

  lemma MarkedPricesNonEmpty(w: seq<Point>, m: Mark)
    ensures MarkedPrices(w, m) != [] <==> HasMark(w, m)
  {
    var f := Filter(w, PointMarked(m));
    FilterMembers(w, PointMarked(m));
    if HasMark(w, m) {
      var i :| 0 <= i < |w| && w[i].mark == m;
      assert w[i] in f;
    }
    if f != [] {
      assert f[0] in w;
    }
  }

  /** Every price of a marked point in `w` is in `MarkedPrices(w, m)`. */
  lemma MarkedPriceIn(w: seq<Point>, m: Mark, i: int)
    requires 0 <= i < |w| && w[i].mark == m
    ensures w[i].price in MarkedPrices(w, m)
  {
    var f := Filter(w, PointMarked(m));
    FilterMembers(w, PointMarked(m));
    assert w[i] in f;
    var j :| 0 <= j < |f| && f[j] == w[i];
    assert Prices(f)[j] == w[i].price;
  }

  /** Each price in `MarkedPrices(w, m)` is the price of some point of `w`
      with mark `m`. */
  lemma MarkedPriceFrom(w: seq<Point>, m: Mark, x: real)
    requires x in MarkedPrices(w, m)
    ensures exists i :: 0 <= i < |w| && w[i].mark == m && w[i].price == x
  {
    var f := Filter(w, PointMarked(m));
    FilterMembers(w, PointMarked(m));
    var j :| 0 <= j < |f| && Prices(f)[j] == x;
    assert f[j] in w;
  }

  /** `__get_zg_zd`: over the first four points, ZD is the highest trough and
      ZG the lowest peak; `max`/`min` of an empty list raise ValueError. */
  function ZgZd(w: seq<Point>): (r: Result<(real, real)>)
    requires |w| >= 4
    ensures r.Fail? <==> !HasMark(w[..4], D) || !HasMark(w[..4], G)
    ensures r.Fail? ==> r.failure == ValueError
    ensures r.Ok? ==> HasMark(w, D) && HasMark(w, G)
    ensures r.Ok? ==> r.value.0 in MarkedPrices(w[..4], D)
    ensures r.Ok? ==> forall i :: 0 <= i < 4 && w[i].mark == D ==> w[i].price <= r.value.0
    ensures r.Ok? ==> r.value.1 in MarkedPrices(w[..4], G)
    ensures r.Ok? ==> forall i :: 0 <= i < 4 && w[i].mark == G ==> r.value.1 <= w[i].price
  {
    var head := w[..4];
    MarkedPricesNonEmpty(head, D);
    MarkedPricesNonEmpty(head, G);
    if MarkedPrices(head, D) == [] || MarkedPrices(head, G) == [] then Fail(ValueError)
    else
      var zd := SeqMax(MarkedPrices(head, D));
      var zg := SeqMin(MarkedPrices(head, G));
      assert forall i :: 0 <= i < 4 && w[i].mark == D ==> w[i].price <= zd by {
        forall i | 0 <= i < 4 && w[i].mark == D ensures w[i].price <= zd {
          assert head[i] == w[i];
          MarkedPriceIn(head, D, i);
        }
      }
      assert forall i :: 0 <= i < 4 && w[i].mark == G ==> zg <= w[i].price by {
        forall i | 0 <= i < 4 && w[i].mark == G ensures zg <= w[i].price {
          assert head[i] == w[i];
          MarkedPriceIn(head, G, i);
        }
      }
      assert HasMark(w, D) by {
        var i :| 0 <= i < 4 && head[i].mark == D;
        assert w[i] == head[i];
      }
      assert HasMark(w, G) by {
        var i :| 0 <= i < 4 && head[i].mark == G;
        assert w[i] == head[i];
      }
      Ok((zd, zg))
  }

  /** One Z-leg from a pair of consecutive points. */
  function Leg(a: Point, b: Point, dir: Direction): (z: Zn)
    ensures z.startDt == a.dt && z.endDt == b.dt && z.direction == dir
    ensures z.high == Max(a.price, b.price) && z.low == Min(a.price, b.price)
    ensures z.low <= z.mid <= z.high
  {
    var hi := Max(a.price, b.price);
    var lo := Min(a.price, b.price);
    Zn(a.dt, b.dt, hi, lo, lo + (hi - lo) / 2.0, dir)
  }

  /** Legs from the pairs (0,1), (2,3), ... of `pts`; an odd last point is
      dropped. */
  function Legs(pts: seq<Point>, dir: Direction): (r: seq<Zn>)
    ensures |r| == |pts| / 2
    ensures forall j :: 0 <= j < |r| ==> 2 * j + 1 < |pts| && r[j] == Leg(pts[2 * j], pts[2 * j + 1], dir)
  {
    seq(|pts| / 2, (j: int) requires 0 <= j < |pts| / 2 => Leg(pts[2 * j], pts[2 * j + 1], dir))
  }

  /** `__get_zn`: the legs of a pivot, all in the direction its first point
      opens (up from a trough, down from a peak). */
  function ZnOf(pts: seq<Point>): (r: seq<Zn>)
    requires |pts| > 0
    ensures |r| == |pts| / 2
    ensures forall j :: 0 <= j < |r| ==>
      r[j].startDt == pts[2 * j].dt && r[j].endDt == pts[2 * j + 1].dt &&
      r[j].low <= r[j].mid <= r[j].high &&
      (r[j].direction == Up <==> pts[0].mark == D)
  {
    Legs(pts, if pts[0].mark == D then Up else Down)
  }

  /** `__get_zs` with ZD, ZG, the extension flag and the breakout filled in
      as the scan does: G/GG are the lowest/highest peak prices and D/DD the
      highest/lowest trough prices over all points of the pivot. */
  function MakePivot(w: seq<Point>, zd: real, zg: real, extend: bool, finished: bool, breakout: Breakout): (z: Pivot)
    requires |w| >= 2 && HasMark(w, G) && HasMark(w, D)
    ensures z.points == w && z.startPoint == w[0] && z.zd == zd && z.zg == zg
    ensures z.g <= z.gg && z.dd <= z.d
    ensures forall i :: 0 <= i < |w| && w[i].mark == G ==> z.g <= w[i].price <= z.gg
    ensures forall i :: 0 <= i < |w| && w[i].mark == D ==> z.dd <= w[i].price <= z.d
    ensures z.g in MarkedPrices(w, G) && z.gg in MarkedPrices(w, G)
    ensures z.d in MarkedPrices(w, D) && z.dd in MarkedPrices(w, D)
    ensures z.endPoint == (if finished then Some(w[|w| - 1]) else None)
    ensures z.zsFinished == finished && z.zsExtend == extend && z.breakout == breakout
    ensures z.zn == ZnOf(w[1..])
  {
    MarkedPricesNonEmpty(w, G);
    MarkedPricesNonEmpty(w, D);
    var gs := MarkedPrices(w, G);
    var ds := MarkedPrices(w, D);
    assert forall i :: 0 <= i < |w| && w[i].mark == G ==> w[i].price in gs by {
      forall i | 0 <= i < |w| && w[i].mark == G ensures w[i].price in gs { MarkedPriceIn(w, G, i); }
    }
    assert forall i :: 0 <= i < |w| && w[i].mark == D ==> w[i].price in ds by {
      forall i | 0 <= i < |w| && w[i].mark == D ensures w[i].price in ds { MarkedPriceIn(w, D, i); }
    }
    Pivot(zd, zg, SeqMin(gs), SeqMax(gs), SeqMax(ds), SeqMin(ds),
          w[0], if finished then Some(w[|w| - 1]) else None, ZnOf(w[1..]),
          w, extend, finished, breakout)
  }

  /** The scan's variables: the points of the pivot being built, the last
      ZD/ZG computed, the extension flag, the pivots completed so far and
      whether a ValueError stopped the scan. */
  datatype ZsScan = ZsScan(window: seq<Point>, zd: real, zg: real, extend: bool,
                           found: seq<Pivot>, failed: bool)

  /** One iteration of the scan over a point `p`. */
  function ZsStep(st: ZsScan, p: Point): (r: ZsScan)
    requires !st.failed
    ensures r.failed <==> |st.window| >= 4 && ZgZd(st.window).Fail?
    ensures r.failed ==> r == st.(failed := true)
    ensures |st.found| <= |r.found| <= |st.found| + 1 && r.found[..|st.found|] == st.found
    ensures |st.window| < 4 ==> r == st.(window := st.window + [p])
    ensures !r.failed && |st.window| >= 4 ==>
      var zd := ZgZd(st.window).value.0;
      var zg := ZgZd(st.window).value.1;
      var breakout := (p.mark == D && p.price > zg) || (p.mark == G && p.price < zd);
      r.zd == zd && r.zg == zg &&
      (zg <= zd ==> r.window == st.window[1..] + [p] && |r.window| == |st.window| &&
                    r.extend == st.extend && r.found == st.found) &&
      (zg > zd && breakout ==> r.window == [] && !r.extend) &&
      (zg > zd && !breakout ==> r.window == st.window + [p] && r.extend && r.found == st.found)
  {
    var w := st.window;
    if |w| < 4 then st.(window := w + [p])
    else
      var zz := ZgZd(w);
      if zz.Fail? then st.(failed := true)
      else
        var zd := zz.value.0;
        var zg := zz.value.1;
        if zg <= zd then st.(window := w[1..] + [p], zd := zd, zg := zg)
        else if p.mark == D && p.price > zg then
          ZsScan([], zd, zg, false, st.found + [MakePivot(w, zd, zg, st.extend, true, Buy3(p))], false)
        else if p.mark == G && p.price < zd then
          ZsScan([], zd, zg, false, st.found + [MakePivot(w, zd, zg, st.extend, true, Sell3(p))], false)
        else st.(window := w + [p], zd := zd, zg := zg, extend := true)
  }

  /** A pivot is completed exactly when the window overlaps and the new point
      breaks out of [ZD, ZG]: a trough above ZG (third buy point) or a peak
      below ZD (third sell point). The window then restarts empty. */
  lemma ZsStepCompletes(st: ZsScan, p: Point)
    requires !st.failed
    ensures var r := ZsStep(st, p);
      |r.found| > |st.found| <==>
        (|st.window| >= 4 && ZgZd(st.window).Ok? &&
         var zd := ZgZd(st.window).value.0;
         var zg := ZgZd(st.window).value.1;
         zd < zg && ((p.mark == D && p.price > zg) || (p.mark == G && p.price < zd)))
    ensures var r := ZsStep(st, p);
      |r.found| > |st.found| ==>
        var z := r.found[|st.found|];
        r.window == [] && z.points == st.window && z.zsFinished && z.zsExtend == st.extend &&
        ZgZd(st.window) == Ok((z.zd, z.zg)) &&
        (z.breakout == if p.mark == D then Buy3(p) else Sell3(p))
  {
  }

  /** The scan over `ps`, stopping at the first failure. */
  function ZsRun(st: ZsScan, ps: seq<Point>): (r: ZsScan)
    ensures |r.found| >= |st.found| && r.found[..|st.found|] == st.found
    ensures st.failed ==> r == st
    decreases |ps|
  {
    if ps == [] || st.failed then st
    else
      var next := ZsStep(st, ps[0]);
      var r := ZsRun(next, ps[1..]);
      assert r.found[..|next.found|][..|st.found|] == r.found[..|st.found|];
      r
  }

  const ZsStart := ZsScan([], 0.0, 0.0, false, [], false)

  /** The scan keeps ZD/ZG in step with a window of five or more points:
      such a window was last extended, so its first four points are the ones
      ZD/ZG were computed from and they overlap. */
  predicate WindowInvariant(st: ZsScan)
  {
    |st.window| >= 5 ==> ZgZd(st.window) == Ok((st.zd, st.zg)) && st.zg > st.zd
  }

  lemma ZsStepInvariant(st: ZsScan, p: Point)
    requires !st.failed && WindowInvariant(st)
    ensures WindowInvariant(ZsStep(st, p))
  {
    var w := st.window;
    if |w| >= 4 && ZgZd(w).Ok? {
      assert (w + [p])[..4] == w[..4];
    }
  }

  lemma {:induction false} ZsRunInvariant(st: ZsScan, ps: seq<Point>)
    requires WindowInvariant(st)
    ensures WindowInvariant(ZsRun(st, ps))
    decreases |ps|
  {
    if ps != [] && !st.failed {
      ZsStepInvariant(st, ps[0]);
      ZsRunInvariant(ZsStep(st, ps[0]), ps[1..]);
    }
  }

  /** The pivot list after one `_update_zs_list` call over `points` and
      whether it completed: pivots are appended to the existing list (which
      is never cleared); after a ValueError the pivots completed before it
      are kept. A trailing window of five or more points becomes an
      unfinished pivot. */
  function ZsListAfter(zs: seq<Pivot>, points: seq<Point>): (r: (seq<Pivot>, bool))
    ensures |r.0| >= |zs| && r.0[..|zs|] == zs
    ensures |points| < 3 ==> r == (zs, true)
  {
    if |points| < 3 then (zs, true)
    else
      var st := ZsRun(ZsStart, points);
      if st.failed then (zs + st.found, false)
      else if |st.window| >= 5 && st.zg > st.zd then
        ZsRunInvariant(ZsStart, points);
        (zs + st.found + [MakePivot(st.window, st.zd, st.zg, st.extend, false, Unbroken)], true)
      else (zs + st.found, true)
  }

  /** A scan that ends without error and without a window of five points
      appends exactly the pivots it completed. */
  lemma ZsListAfterComplete(zs: seq<Pivot>, points: seq<Point>)
    requires |points| >= 3
    requires !ZsRun(ZsStart, points).failed && |ZsRun(ZsStart, points).window| < 5
    ensures ZsListAfter(zs, points) == (zs + ZsRun(ZsStart, points).found, true)
  {
  }

  /** What every pivot the scan produces satisfies: its overlap [ZD, ZG] is
      non-empty and computed from its first four points, ZD/ZG lie within
      the trough and peak ranges, every peak lies in [G, GG] and every trough
      in [DD, D], and a third buy (sell) point is a trough above ZG (a peak
      below ZD). */
  predicate PivotSound(z: Pivot)
  {
    |z.points| >= 4 && z.startPoint == z.points[0] &&
    ZgZd(z.points) == Ok((z.zd, z.zg)) && z.zd < z.zg &&
    z.g <= z.zg && z.zd <= z.d && z.dd <= z.d && z.g <= z.gg &&
    (forall i :: 0 <= i < |z.points| && z.points[i].mark == G ==> z.g <= z.points[i].price <= z.gg) &&
    (forall i :: 0 <= i < |z.points| && z.points[i].mark == D ==> z.dd <= z.points[i].price <= z.d) &&
    (z.zsFinished <==> z.endPoint.Some?) &&
    (z.breakout.Buy3? ==> z.breakout.point.mark == D && z.breakout.point.price > z.zg) &&
    (z.breakout.Sell3? ==> z.breakout.point.mark == G && z.breakout.point.price < z.zd) &&
    (z.breakout.Unbroken? <==> !z.zsFinished)
  }

  lemma MakePivotSound(w: seq<Point>, zd: real, zg: real, extend: bool, finished: bool, breakout: Breakout)
    requires |w| >= 4 && ZgZd(w) == Ok((zd, zg)) && zd < zg
    requires breakout.Buy3? ==> breakout.point.mark == D && breakout.point.price > zg
    requires breakout.Sell3? ==> breakout.point.mark == G && breakout.point.price < zd
    requires breakout.Unbroken? <==> !finished
    ensures PivotSound(MakePivot(w, zd, zg, extend, finished, breakout))
  {
    var z := MakePivot(w, zd, zg, extend, finished, breakout);
    MarkedPriceFrom(w[..4], G, zg);
    MarkedPriceFrom(w[..4], D, zd);
  }

  lemma ZsStepSound(st: ZsScan, p: Point)
    requires !st.failed
    requires forall j :: 0 <= j < |st.found| ==> PivotSound(st.found[j])
    ensures forall j :: 0 <= j < |ZsStep(st, p).found| ==> PivotSound(ZsStep(st, p).found[j])
  {
    var w := st.window;
    if |w| >= 4 && ZgZd(w).Ok? {
      var zd := ZgZd(w).value.0;
      var zg := ZgZd(w).value.1;
      if zg > zd {
        if (p.mark == D && p.price > zg) || (p.mark == G && p.price < zd) {
          var z := MakePivot(w, zd, zg, st.extend, true, if p.mark == D then Buy3(p) else Sell3(p));
          MakePivotSound(w, zd, zg, st.extend, true, if p.mark == D then Buy3(p) else Sell3(p));
          assert ZsStep(st, p).found == st.found + [z];
          return;
        }
      }
    }
    assert ZsStep(st, p).found == st.found;
  }

  lemma {:induction false} ZsRunSound(st: ZsScan, ps: seq<Point>)
    requires forall j :: 0 <= j < |st.found| ==> PivotSound(st.found[j])
    ensures forall j :: 0 <= j < |ZsRun(st, ps).found| ==> PivotSound(ZsRun(st, ps).found[j])
    decreases |ps|
  {
    if ps != [] && !st.failed {
      ZsStepSound(st, ps[0]);
      ZsRunSound(ZsStep(st, ps[0]), ps[1..]);
    }
  }

  /** Every pivot a call appends is sound. */
  lemma ZsListAfterSound(zs: seq<Pivot>, points: seq<Point>)
    ensures var r := ZsListAfter(zs, points).0;
      forall j :: |zs| <= j < |r| ==> PivotSound(r[j])
  {
    if |points| >= 3 {
      var st := ZsRun(ZsStart, points);
      ZsRunSound(ZsStart, points);
      ZsRunInvariant(ZsStart, points);
      var r := ZsListAfter(zs, points).0;
      if !st.failed && |st.window| >= 5 && st.zg > st.zd {
        MakePivotSound(st.window, st.zd, st.zg, st.extend, false, Unbroken);
        assert r == zs + st.found + [MakePivot(st.window, st.zd, st.zg, st.extend, false, Unbroken)];
        forall j | |zs| <= j < |r| ensures PivotSound(r[j]) {
          if j < |zs| + |st.found| {
            assert r[j] == st.found[j - |zs|];
          }
        }
      } else {
        forall j | |zs| <= j < |r| ensures PivotSound(r[j]) {
          assert r[j] == st.found[j - |zs|];
        }
      }
    }
  }

  /** The overlap test of the trailing pivot never fails: a window of five
      or more points always overlaps. */
  lemma TrailingWindowOverlaps(points: seq<Point>)
    ensures var st := ZsRun(ZsStart, points);
      !st.failed && |st.window| >= 5 ==> st.zg > st.zd
  {
    ZsRunInvariant(ZsStart, points);
  }

  lemma AlternatesSlice(s: seq<Point>, a: int, b: int)
    requires Alternates(s) && 0 <= a <= b <= |s|
    ensures Alternates(s[a..b])
  {
    forall i | 1 <= i < |s[a..b]| ensures s[a..b][i - 1].mark != s[a..b][i].mark {
      assert s[a..b][i - 1] == s[a + i - 1] && s[a..b][i] == s[a + i];
    }
  }

  /** Four alternating points hold a peak and a trough, so ZD/ZG exist. */
  lemma AlternatingOverlapDefined(w: seq<Point>)
    requires |w| >= 4 && Alternates(w)
    ensures ZgZd(w).Ok?
  {
    var head := w[..4];
    assert head[0] == w[0] && head[1] == w[1];
    assert w[0].mark != w[1].mark;
    assert HasMark(head, w[0].mark) && HasMark(head, w[1].mark);
    if w[0].mark == D {
      assert HasMark(head, D) && HasMark(head, G);
    } else {
      assert HasMark(head, G) && HasMark(head, D);
    }
  }

  lemma ZsStepAlternatingOk(st: ZsScan, p: Point, rest: seq<Point>)
    requires !st.failed && Alternates(st.window + [p] + rest)
    ensures !ZsStep(st, p).failed
  {
    var w := st.window;
    var all := w + [p] + rest;
    if |w| >= 4 {
      AlternatesSlice(all, 0, |w|);
      assert all[0..|w|] == w;
      AlternatingOverlapDefined(w);
    }
  }

  /** The scan's window is always a run of consecutive points: appending,
      sliding and restarting keep it followed by the points still to come. */
  lemma WindowShapeAlternates(w: seq<Point>, p: Point, rest: seq<Point>, nw: seq<Point>)
    requires Alternates(w + [p] + rest)
    requires nw == [] || nw == w + [p] || (|w| >= 1 && nw == w[1..] + [p])
    ensures Alternates(nw + rest)
  {
    var all := w + [p] + rest;
    if nw == [] {
      assert nw + rest == all[|w| + 1..|all|];
      AlternatesSlice(all, |w| + 1, |all|);
    } else if nw == w + [p] {
      assert nw + rest == all;
    } else {
      assert nw + rest == all[1..|all|];
      AlternatesSlice(all, 1, |all|);
    }
  }

  lemma ZsStepAlternating(st: ZsScan, p: Point, rest: seq<Point>)
    requires !st.failed && !ZsStep(st, p).failed && Alternates(st.window + [p] + rest)
    ensures Alternates(ZsStep(st, p).window + rest)
  {
    WindowShapeAlternates(st.window, p, rest, ZsStep(st, p).window);
  }

  /** With alternating points the scan never raises: every four consecutive
      points hold a peak and a trough. */
  lemma {:induction false} ZsRunAlternating(st: ZsScan, ps: seq<Point>)
    requires !st.failed && Alternates(st.window + ps)
    ensures !ZsRun(st, ps).failed
    decreases |ps|
  {
    if ps != [] {
      assert st.window + ps == st.window + [ps[0]] + ps[1..];
      ZsStepAlternatingOk(st, ps[0], ps[1..]);
      ZsStepAlternating(st, ps[0], ps[1..]);
      ZsRunAlternating(ZsStep(st, ps[0]), ps[1..]);
    }
  }

  /** An update over alternating points always completes. */
  lemma ZsListAfterAlternating(zs: seq<Pivot>, points: seq<Point>)
    requires Alternates(points)
    ensures ZsListAfter(zs, points).1
  {
    if |points| >= 3 {
      assert ZsStart.window + points == points;
      ZsRunAlternating(ZsStart, points);
    }
  }

  function ScenarioPoints(): seq<Point>
  {
    [Point(1, D, 50.0, 0, 2, 60.0, 50.0), Point(2, G, 70.0, 1, 3, 70.0, 60.0),
     Point(3, D, 55.0, 2, 4, 66.0, 55.0), Point(4, G, 65.0, 3, 5, 65.0, 60.0),
     Point(5, D, 70.0, 4, 6, 80.0, 70.0)]
  }

  /** Troughs at 50 and 55 and peaks at 70 and 65 overlap on [55, 65]. */
  lemma ScenarioOverlap()
    ensures ZgZd(ScenarioPoints()[..4]) == Ok((55.0, 65.0))
  {
    var w := ScenarioPoints()[..4];
    assert w[..4] == w;
    assert HasMark(w, D) by { assert w[0].mark == D; }
    assert HasMark(w, G) by { assert w[1].mark == G; }
    var z := ZgZd(w).value;
    MarkedPriceFrom(w, D, z.0);
    MarkedPriceFrom(w, G, z.1);
    assert w[2].mark == D && w[3].mark == G;
  }

  /** A window of fewer than four points takes the next point in. */
  lemma ZsRunGrow(st: ZsScan, ps: seq<Point>)
    requires !st.failed && |st.window| < 4 && ps != []
    ensures ZsRun(st, ps) == ZsRun(st.(window := st.window + [ps[0]]), ps[1..])
  {
    assert ZsStep(st, ps[0]) == st.(window := st.window + [ps[0]]);
  }

  /** While the window holds fewer than four points, each point is only
      appended to it. */
  lemma {:induction false} ZsRunFill(st: ZsScan, ps: seq<Point>, k: nat)
    requires !st.failed && |st.window| + k <= 4 && k <= |ps|
    ensures ZsRun(st, ps) == ZsRun(st.(window := st.window + ps[..k]), ps[k..])
    decreases k
  {
    if k > 0 {
      var next := st.(window := st.window + [ps[0]]);
      ZsRunGrow(st, ps);
      ZsRunFill(next, ps[1..], k - 1);
      assert ps[..k] == [ps[0]] + ps[1..][..k - 1];
      assert st.window + [ps[0]] + ps[1..][..k - 1] == st.window + ps[..k];
      assert ps[1..][k - 1..] == ps[k..];
    } else {
      assert st.window + ps[..0] == st.window;
    }
  }

  /** A trough above ZG of an overlapping window completes the pivot. */
  lemma ZsRunBuy3(st: ZsScan, p: Point, zd: real, zg: real)
    requires !st.failed && |st.window| >= 4 && ZgZd(st.window) == Ok((zd, zg)) && zd < zg
    requires p.mark == D && p.price > zg
    ensures ZsRun(st, [p]) ==
      ZsScan([], zd, zg, false, st.found + [MakePivot(st.window, zd, zg, st.extend, true, Buy3(p))], false)
  {
    var next := ZsStep(st, p);
    assert next == ZsScan([], zd, zg, false, st.found + [MakePivot(st.window, zd, zg, st.extend, true, Buy3(p))], false);
    assert [p][1..] == [];
    assert ZsRun(st, [p]) == ZsRun(next, []);
  }

  /** ... and a trough at 70, above ZG, then completes the pivot with a
      third buy point. */
  lemma PivotScenario()
    ensures var pts := ScenarioPoints();
      var r := ZsListAfter([], pts);
      r.1 && |r.0| == 1 && r.0[0].zd == 55.0 && r.0[0].zg == 65.0 &&
      r.0[0].breakout == Buy3(pts[4]) && r.0[0].points == pts[..4]
  {
    var pts := ScenarioPoints();
    var filled := ZsScan(pts[..4], 0.0, 0.0, false, [], false);
    ZsRunFill(ZsStart, pts, 4);
    assert ZsStart.(window := ZsStart.window + pts[..4]) == filled;
    ScenarioOverlap();
    assert pts[4..] == [pts[4]];
    ZsRunBuy3(filled, pts[4], 55.0, 65.0);
    var z := MakePivot(pts[..4], 55.0, 65.0, false, true, Buy3(pts[4]));
    assert ZsRun(filled, pts[4..]) == ZsScan([], 55.0, 65.0, false, [z], false);
    ZsListAfterComplete([], pts);
  }
}
