/** Stroke building (`KlineAnalyze._update_bi_list`): linking fractals into
    an alternating list of stroke points. */
module Stroke {
  import opened ChanTypes
  import opened Fractal

  /** Which bars are inspected for the "a bar lies between" rule: merged bars
      ("old" strokes) or raw bars ("new" strokes). */
  datatype BiMode = BiOld | BiNew

  /** `price` lies beyond `last` in its own direction: above a peak, below a
      trough. */
  predicate Beyond(last: Point, price: real)
  {
    (last.mark == G && price > last.price) || (last.mark == D && price < last.price)
  }

  /** The new fractal's envelope lies wholly on the far side of the last
      one's: both bounds lower after a peak, both higher after a trough, so
      neither envelope contains the other. */
  predicate Separated(last: Point, p: Point)
  {
    (last.mark == G && p.fxLow < last.fxLow && p.fxHigh < last.fxHigh) ||
    (last.mark == D && p.fxHigh > last.fxHigh && p.fxLow > last.fxLow)
  }

  /** Some inspected bar lies strictly between the end of the last fractal's
      window and the start of the new one's. */
  predicate BarBetween(kn: seq<Bar>, last: Point, p: Point)
  {
    Filter(kn, BarStrictlyBetween(last.endDt, p.startDt)) != []
  }

  /** One iteration of the stroke loop over a fractal `p`. */
  function BiStep(bi: seq<Point>, p: Point, kn: seq<Bar>): (r: seq<Point>)
    requires |bi| > 0
    ensures |r| >= |bi| && r[..|bi| - 1] == bi[..|bi| - 1]
    ensures var last := bi[|bi| - 1];
      (p.mark == last.mark && Beyond(last, p.price) ==> r == bi[..|bi| - 1] + [p]) &&
      (p.mark != last.mark && BarBetween(kn, last, p) && Separated(last, p) ==> r == bi + [p]) &&
      ((!(p.mark == last.mark && Beyond(last, p.price)) &&
        !(p.mark != last.mark && BarBetween(kn, last, p) && Separated(last, p))) ==> r == bi)
  {
    var last := bi[|bi| - 1];
    if last.mark == p.mark then
      if Beyond(last, p.price) then bi[..|bi| - 1] + [p] else bi
    else if !BarBetween(kn, last, p) then bi
    else if Separated(last, p) then bi + [p]
    else bi
  }

  /** The stroke loop over the fractals `fxs`, in order. */
  function BiScan(bi: seq<Point>, fxs: seq<Point>, kn: seq<Bar>): (r: seq<Point>)
    requires |bi| > 0
    ensures |r| >= |bi|
    decreases |fxs|
  {
    if fxs == [] then bi else BiScan(BiStep(bi, fxs[0], kn), fxs[1..], kn)
  }

  /** Drops the last stroke point when the newest merged bar has already gone
      beyond it (a lower low than a trough, a higher high than a peak). */
  function BiInvalidate(bi: seq<Point>, newest: Bar): seq<Point>
    requires |bi| > 0
  {
    var last := bi[|bi| - 1];
    if (last.mark == D && newest.low < last.price) || (last.mark == G && newest.high > last.price)
    then bi[..|bi| - 1] else bi
  }

  /** A step keeps the stroke list alternating. */
  lemma BiStepAlternates(bi: seq<Point>, p: Point, kn: seq<Bar>)
    requires |bi| > 0 && Alternates(bi)
    ensures Alternates(BiStep(bi, p, kn))
  {
    var r := BiStep(bi, p, kn);
    var n := |bi|;
    forall i | 1 <= i < |r| ensures r[i - 1].mark != r[i].mark {
      if i < n - 1 {
        assert r[i - 1] == bi[i - 1] && r[i] == bi[i];
      } else if i == n - 1 {
        assert r[i - 1] == bi[i - 1];
      }
    }
  }

  /** The loop keeps the stroke list alternating. */
  lemma {:induction false} BiScanAlternates(bi: seq<Point>, fxs: seq<Point>, kn: seq<Bar>)
    requires |bi| > 0 && Alternates(bi)
    ensures Alternates(BiScan(bi, fxs, kn))
    decreases |fxs|
  {
    if fxs != [] {
      BiStepAlternates(bi, fxs[0], kn);
      BiScanAlternates(BiStep(bi, fxs[0], kn), fxs[1..], kn);
    }
  }

  /** Stroke points before the last one are confirmed: the loop never changes
      them. */
  lemma {:induction false} BiScanKeepsConfirmed(bi: seq<Point>, fxs: seq<Point>, kn: seq<Bar>)
    requires |bi| > 0
    ensures |BiScan(bi, fxs, kn)| >= |bi|
    ensures BiScan(bi, fxs, kn)[..|bi| - 1] == bi[..|bi| - 1]
    decreases |fxs|
  {
    if fxs != [] {
      var next := BiStep(bi, fxs[0], kn);
      BiScanKeepsConfirmed(next, fxs[1..], kn);
      assert |next| >= |bi|;
      assert BiScan(bi, fxs, kn)[..|next| - 1][..|bi| - 1] == BiScan(bi, fxs, kn)[..|bi| - 1];
    }
  }

  /** The loop only moves the last point further in its own direction: the
      point now in its place is at least as extreme, unless a later one was
      appended after it. */
  lemma {:induction false} BiScanSharpens(bi: seq<Point>, fxs: seq<Point>, kn: seq<Bar>)
    requires |bi| > 0
    ensures var r := BiScan(bi, fxs, kn);
      var last := bi[|bi| - 1];
      r[|bi| - 1] == last || (r[|bi| - 1].mark == last.mark && Beyond(last, r[|bi| - 1].price))
    decreases |fxs|
  {
    BiScanKeepsConfirmed(bi, fxs, kn);
    if fxs != [] {
      var next := BiStep(bi, fxs[0], kn);
      BiScanKeepsConfirmed(next, fxs[1..], kn);
      BiScanSharpens(next, fxs[1..], kn);
      var r := BiScan(bi, fxs, kn);
      if |next| > |bi| {
        assert next[|bi| - 1] == bi[|bi| - 1];
        assert r[..|next| - 1][|bi| - 1] == r[|bi| - 1];
      }
    }
  }

  /** A trough and the peak two merged bars later share their middle bar
      (no merged bar lies strictly between their windows), so the peak is
      skipped even though its envelope is separated from the trough's. */
  lemma StrokeScenario()
    ensures var kn := [Bar(9, 0.0, 0.0, 105.0, 102.0, 1.0), Bar(10, 0.0, 0.0, 103.0, 100.0, 1.0),
                       Bar(11, 0.0, 0.0, 104.0, 101.0, 1.0), Bar(12, 0.0, 0.0, 106.0, 103.0, 1.0),
                       Bar(13, 0.0, 0.0, 105.0, 102.0, 1.0)];
      var last := Point(10, D, 100.0, 9, 11, 105.0, 100.0);
      var cand := Point(12, G, 106.0, 11, 13, 106.0, 101.0);
      FractalAt(kn[0], kn[1], kn[2]) == Some(last) && FractalAt(kn[2], kn[3], kn[4]) == Some(cand) &&
      Separated(last, cand) && BiStep([last], cand, kn) == [last]
  {
    var kn := [Bar(9, 0.0, 0.0, 105.0, 102.0, 1.0), Bar(10, 0.0, 0.0, 103.0, 100.0, 1.0),
               Bar(11, 0.0, 0.0, 104.0, 101.0, 1.0), Bar(12, 0.0, 0.0, 106.0, 103.0, 1.0),
               Bar(13, 0.0, 0.0, 105.0, 102.0, 1.0)];
    var f := BarStrictlyBetween(11, 11);
    assert Filter(kn, f) == [] by {
      assert Filter(kn[4..], f) == Filter(kn[5..], f);
      assert Filter(kn[3..], f) == Filter(kn[4..], f);
      assert Filter(kn[2..], f) == Filter(kn[3..], f);
      assert Filter(kn[1..], f) == Filter(kn[2..], f);
      assert Filter(kn, f) == Filter(kn[1..], f);
    }
  }

  /** The stroke list a call starts from: the list less its last two points,
      or the first fractal when nothing is left. */
  function BiSeed(bi: seq<Point>, fx: seq<Point>): (r: seq<Point>)
    requires |fx| >= 2
    ensures |r| > 0
  {
    var b := DropLast(bi, 2);
    if b == [] then [fx[0]] else b
  }

  /** Fractals after the last seed point (the last 50 once the seed has two
      points or more). */
  function RightFx(b: seq<Point>, fx: seq<Point>): seq<Point>
    requires |b| > 0
  {
    Filter(if |b| <= 1 then fx else Tail(fx, 50), PointAfter(b[|b| - 1].dt))
  }

  /** Inspection bars from the last seed point on (the last 300 once the seed
      has two points or more). */
  function InspectBars(b: seq<Point>, kn: seq<Bar>, raw: seq<Bar>, mode: BiMode): seq<Bar>
    requires |b| > 0
  {
    var src := if mode == BiOld then kn else raw;
    Filter(if |b| <= 1 then src else Tail(src, 300), BarFrom(b[|b| - 1].dt))
  }

  /** The stroke loop's result before the final invalidation. */
  function BiScanned(bi: seq<Point>, fx: seq<Point>, kn: seq<Bar>, raw: seq<Bar>, mode: BiMode): (r: seq<Point>)
    requires |fx| >= 2
    ensures |r| > 0
  {
    var b := BiSeed(bi, fx);
    BiScan(b, RightFx(b, fx), InspectBars(b, kn, raw, mode))
  }

  /** The stroke list after one `_update_bi_list` call; with no merged bar
      the source raises IndexError at the final check, after the loop. */
  function BiListAfter(bi: seq<Point>, fx: seq<Point>, kn: seq<Bar>, raw: seq<Bar>, mode: BiMode): seq<Point>
  {
    if |fx| < 2 then bi
    else if kn == [] then BiScanned(bi, fx, kn, raw, mode)
    else BiInvalidate(BiScanned(bi, fx, kn, raw, mode), kn[|kn| - 1])
  }

  /** An update keeps an alternating stroke list alternating. */
  lemma BiListAfterAlternates(bi: seq<Point>, fx: seq<Point>, kn: seq<Bar>, raw: seq<Bar>, mode: BiMode)
    requires Alternates(bi)
    ensures Alternates(BiListAfter(bi, fx, kn, raw, mode))
  {
    if |fx| >= 2 {
      var b := BiSeed(bi, fx);
      assert Alternates(b) by {
        if DropLast(bi, 2) != [] {
          forall i | 1 <= i < |b| ensures b[i - 1].mark != b[i].mark {
            assert b[i - 1] == bi[i - 1] && b[i] == bi[i];
          }
        }
      }
      BiScanAlternates(b, RightFx(b, fx), InspectBars(b, kn, raw, mode));
    }
  }

  /** A step over a fractal later than the last stroke point keeps the list
      in time order, and the new last point is no later than that fractal. */
  lemma BiStepOrdered(bi: seq<Point>, p: Point, kn: seq<Bar>)
    requires |bi| > 0 && PointsOrdered(bi) && bi[|bi| - 1].dt < p.dt
    ensures var r := BiStep(bi, p, kn); PointsOrdered(r) && r[|r| - 1].dt <= p.dt
  {
    var last := bi[|bi| - 1];
    if p.mark == last.mark && Beyond(last, p.price) {
      ReplaceLastOrdered(bi, p);
    } else if p.mark != last.mark && BarBetween(kn, last, p) && Separated(last, p) {
      AppendOrdered(bi, p);
    }
  }

  /** The loop over time-ordered fractals, all later than the last stroke
      point, keeps the stroke list in time order. */
  lemma {:induction false} BiScanOrdered(bi: seq<Point>, fxs: seq<Point>, kn: seq<Bar>)
    requires |bi| > 0 && PointsOrdered(bi) && PointsOrdered(fxs)
    requires fxs != [] ==> bi[|bi| - 1].dt < fxs[0].dt
    ensures PointsOrdered(BiScan(bi, fxs, kn))
    decreases |fxs|
  {
    if fxs != [] {
      var next := BiStep(bi, fxs[0], kn);
      BiStepOrdered(bi, fxs[0], kn);
      OrderedSlice(fxs, 1, |fxs|);
      if |fxs| > 1 {
        OrderedBelow(fxs, 0, 1);
        assert fxs[1..][0] == fxs[1];
      }
      BiScanOrdered(next, fxs[1..], kn);
    }
  }

  /** The fractals a call scans are in time order and later than the last
      seed point. */
  lemma RightFxOrdered(b: seq<Point>, fx: seq<Point>)
    requires |b| > 0 && PointsOrdered(fx)
    ensures var right := RightFx(b, fx);
      PointsOrdered(right) && (right != [] ==> b[|b| - 1].dt < right[0].dt)
  {
    var src := if |b| <= 1 then fx else Tail(fx, 50);
    TailOrdered(fx, 50);
    FilterPointsOrdered(src, PointAfter(b[|b| - 1].dt));
    FilterMembers(src, PointAfter(b[|b| - 1].dt));
    var right := Filter(src, PointAfter(b[|b| - 1].dt));
    if right != [] {
      assert right[0] in right;
    }
  }

  /** The seed of a call is in time order when the strokes are. */
  lemma BiSeedOrdered(bi: seq<Point>, fx: seq<Point>)
    requires |fx| >= 2 && PointsOrdered(bi)
    ensures PointsOrdered(BiSeed(bi, fx))
  {
    if DropLast(bi, 2) != [] {
      OrderedSlice(bi, 0, |bi| - 2);
    }
  }

  /** The stroke loop of a call leaves the strokes in time order. */
  lemma BiScannedOrdered(bi: seq<Point>, fx: seq<Point>, kn: seq<Bar>, raw: seq<Bar>, mode: BiMode)
    requires |fx| >= 2 && PointsOrdered(bi) && PointsOrdered(fx)
    ensures PointsOrdered(BiScanned(bi, fx, kn, raw, mode))
  {
    var b := BiSeed(bi, fx);
    BiSeedOrdered(bi, fx);
    RightFxOrdered(b, fx);
    BiScanOrdered(b, RightFx(b, fx), InspectBars(b, kn, raw, mode));
  }

  /** An update keeps a time-ordered stroke list in time order, given
      time-ordered fractals. */
  lemma BiListAfterOrdered(bi: seq<Point>, fx: seq<Point>, kn: seq<Bar>, raw: seq<Bar>, mode: BiMode)
    requires PointsOrdered(bi) && PointsOrdered(fx)
    ensures PointsOrdered(BiListAfter(bi, fx, kn, raw, mode))
  {
    if |fx| >= 2 {
      BiScannedOrdered(bi, fx, kn, raw, mode);
      var s := BiScanned(bi, fx, kn, raw, mode);
      if kn != [] {
        OrderedSlice(s, 0, |s| - 1);
        assert BiInvalidate(s, kn[|kn| - 1]) == s || BiInvalidate(s, kn[|kn| - 1]) == s[..|s| - 1];
      }
    }
  }
}
