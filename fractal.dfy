/** Fractal detection over merged bars (`KlineAnalyze._update_fx_list`). */
module Fractal {
  import opened ChanTypes
  import opened Compare

  /** Lowest low of the fractal window, leaving out a neighbour that is
      separated from the middle bar by a gap. */
  function EnvelopeLow(k1: Bar, k2: Bar, k3: Bar): (lo: real)
    requires k1.dt < k2.dt < k3.dt
    ensures lo <= k2.low
    ensures !HasGap(k1, k2) ==> lo <= k1.low
    ensures !HasGap(k2, k3) ==> lo <= k3.low
    ensures lo == k2.low || (!HasGap(k1, k2) && lo == k1.low) || (!HasGap(k2, k3) && lo == k3.low)
  {
    var left := if HasGap(k1, k2) then k2.low else Min(k1.low, k2.low);
    if HasGap(k2, k3) then left else Min(left, k3.low)
  }

  /** Highest high of the fractal window, with the same exclusion. */
  function EnvelopeHigh(k1: Bar, k2: Bar, k3: Bar): (hi: real)
    requires k1.dt < k2.dt < k3.dt
    ensures hi >= k2.high
    ensures !HasGap(k1, k2) ==> hi >= k1.high
    ensures !HasGap(k2, k3) ==> hi >= k3.high
    ensures hi == k2.high || (!HasGap(k1, k2) && hi == k1.high) || (!HasGap(k2, k3) && hi == k3.high)
  {
    var left := if HasGap(k1, k2) then k2.high else Max(k1.high, k2.high);
    if HasGap(k2, k3) then left else Max(left, k3.high)
  }

  predicate IsPeak(k1: Bar, k2: Bar, k3: Bar) { k1.high < k2.high && k2.high > k3.high }
  predicate IsTrough(k1: Bar, k2: Bar, k3: Bar) { k1.low > k2.low && k2.low < k3.low }

  /** The fractal centred on `k2`, if any: a peak when `k2`'s high is above
      both neighbours', otherwise a trough when its low is below both. */
  function FractalAt(k1: Bar, k2: Bar, k3: Bar): (r: Option<Point>)
    requires k1.dt < k2.dt < k3.dt
    ensures r.Some? <==> IsPeak(k1, k2, k3) || IsTrough(k1, k2, k3)
    ensures r.Some? ==> r.value.dt == k2.dt && r.value.startDt == k1.dt && r.value.endDt == k3.dt
    ensures r.Some? ==> (r.value.mark == G <==> IsPeak(k1, k2, k3))
    ensures r.Some? && r.value.mark == G ==>
      r.value.price == r.value.fxHigh == k2.high && r.value.fxLow == EnvelopeLow(k1, k2, k3)
    ensures r.Some? && r.value.mark == D ==>
      r.value.price == r.value.fxLow == k2.low && r.value.fxHigh == EnvelopeHigh(k1, k2, k3)
  {
    if IsPeak(k1, k2, k3) then
      Some(Point(k2.dt, G, k2.high, k1.dt, k3.dt, k2.high, EnvelopeLow(k1, k2, k3)))
    else if IsTrough(k1, k2, k3) then
      Some(Point(k2.dt, D, k2.low, k1.dt, k3.dt, EnvelopeHigh(k1, k2, k3), k2.low))
    else None
  }

  function OptionToSeq(o: Option<Point>): (r: seq<Point>)
    ensures o.Some? ==> r == [o.value]
    ensures o.None? ==> r == []
  {
    if o.Some? then [o.value] else []
  }

  /** The detector's loop over the triples centred at `i`, `i + 1`, ...,
      `|kn| - 2`, front to back: the fractals it appends, and `false` when
      `has_gap` meets a pair out of time order (the fractals found before
      that pair are kept). */
  function FxScan(kn: seq<Bar>, i: int): (seq<Point>, bool)
    requires 1 <= i
    decreases |kn| - i
  {
    if i + 1 >= |kn| then ([], true)
    else if kn[i - 1].dt >= kn[i].dt || kn[i].dt >= kn[i + 1].dt then ([], false)
    else
      var rest := FxScan(kn, i + 1);
      (OptionToSeq(FractalAt(kn[i - 1], kn[i], kn[i + 1])) + rest.0, rest.1)
  }

  /** The fractals found are in time order, all later than the bar before
      the first triple. */
  lemma {:induction false} FxScanOrdered(kn: seq<Bar>, i: int)
    requires 1 <= i
    ensures PointsOrdered(FxScan(kn, i).0)
    ensures i < |kn| ==> forall j :: 0 <= j < |FxScan(kn, i).0| ==> kn[i - 1].dt < FxScan(kn, i).0[j].dt
    decreases |kn| - i
  {
    if i + 1 < |kn| && kn[i - 1].dt < kn[i].dt < kn[i + 1].dt {
      var here := OptionToSeq(FractalAt(kn[i - 1], kn[i], kn[i + 1]));
      var rest := FxScan(kn, i + 1).0;
      FxScanOrdered(kn, i + 1);
      assert FxScan(kn, i).0 == here + rest;
      assert forall j :: 0 <= j < |here| ==> here[j].dt == kn[i].dt;
    }
  }

  /** `f` is the fractal of the time-ordered triple centred on bar `c`. */
  predicate FractalCentredAt(kn: seq<Bar>, c: int, f: Point)
  {
    1 <= c < |kn| - 1 && kn[c - 1].dt < kn[c].dt < kn[c + 1].dt &&
    FractalAt(kn[c - 1], kn[c], kn[c + 1]) == Some(f)
  }

  /** Every fractal found is centred on a bar the loop reached. */
  lemma {:induction false} FxScanSound(kn: seq<Bar>, i: int, f: Point)
    requires 1 <= i && f in FxScan(kn, i).0
    ensures exists c :: i <= c && FractalCentredAt(kn, c, f)
    decreases |kn| - i
  {
    var here := OptionToSeq(FractalAt(kn[i - 1], kn[i], kn[i + 1]));
    if f in here {
      assert FractalCentredAt(kn, i, f);
    } else {
      FxScanSound(kn, i + 1, f);
    }
  }

  /** When the loop does not raise, every fractal centred on a bar it
      reaches is found. */
  lemma {:induction false} FxScanComplete(kn: seq<Bar>, i: int, c: int, f: Point)
    requires 1 <= i <= c && FxScan(kn, i).1 && FractalCentredAt(kn, c, f)
    ensures f in FxScan(kn, i).0
    decreases |kn| - i
  {
    var here := OptionToSeq(FractalAt(kn[i - 1], kn[i], kn[i + 1]));
    if i < c {
      FxScanComplete(kn, i + 1, c, f);
    } else {
      assert f in here;
    }
  }

  /** The loop from `i` raises exactly when the bars from `kn[i - 1]` on are
      not all in time order. */
  lemma {:induction false} FxScanOkFrom(kn: seq<Bar>, i: int)
    requires 1 <= i && i + 1 < |kn|
    ensures FxScan(kn, i).1 <==> BarsOrdered(kn[i - 1..])
    decreases |kn| - i
  {
    var s := kn[i - 1..];
    assert s[0] == kn[i - 1] && s[1] == kn[i] && s[2] == kn[i + 1];
    if i + 2 < |kn| && kn[i - 1].dt < kn[i].dt < kn[i + 1].dt {
      FxScanOkFrom(kn, i + 1);
      assert kn[i..] == s[1..];
      if BarsOrdered(s[1..]) {
        forall j | 1 <= j < |s| ensures s[j - 1].dt < s[j].dt {
          if j >= 2 { assert s[j - 1] == s[1..][j - 2] && s[j] == s[1..][j - 1]; }
        }
      }
      if BarsOrdered(s) {
        forall j | 1 <= j < |s| - 1 ensures s[1..][j - 1].dt < s[1..][j].dt {
          assert s[1..][j - 1] == s[j] && s[1..][j] == s[j + 1];
        }
      }
    }
  }

  /** A window of three or more bars is scanned without raising exactly
      when it is in time order. */
  lemma FxScanOkIffOrdered(kn: seq<Bar>)
    requires |kn| >= 3
    ensures FxScan(kn, 1).1 <==> BarsOrdered(kn)
  {
    FxScanOkFrom(kn, 1);
    assert kn[0..] == kn;
  }

  /** The bars the detector scans: all merged bars when no fractal is kept,
      otherwise the last 100 merged bars from the last kept fractal on. */
  function FxWindow(kn: seq<Bar>, kept: seq<Point>): seq<Bar>
  {
    if kept == [] then kn else Filter(Tail(kn, 100), BarFrom(kept[|kept| - 1].dt))
  }

  /** `has_gap` asserts that its bars are in time order: the loop raises
      AssertionError at the first triple that is not. */
  predicate FxScanFails(w: seq<Bar>)
  {
    !FxScan(w, 1).1
  }

  /** The fractal list after one `_update_fx_list` call: the newest fractal
      is dropped and the window rescanned. */
  function FxListAfter(kn: seq<Bar>, fx: seq<Point>): seq<Point>
  {
    if |kn| < 3 then fx
    else
      var kept := DropLast(fx, 1);
      kept + FxScan(FxWindow(kn, kept), 1).0
  }

  /** Fractals found in one call have strictly increasing timestamps, all
      later than the kept fractal the scan restarted from. */
  lemma FxListAfterOrdered(kn: seq<Bar>, fx: seq<Point>)
    requires |kn| >= 3
    ensures PointsOrdered(FxListAfter(kn, fx)[|DropLast(fx, 1)|..])
    ensures var kept := DropLast(fx, 1);
      kept != [] ==> forall j :: |kept| <= j < |FxListAfter(kn, fx)| ==>
        FxListAfter(kn, fx)[j].dt > kept[|kept| - 1].dt
  {
    var kept := DropLast(fx, 1);
    var w := FxWindow(kn, kept);
    var found := FxScan(w, 1).0;
    FxScanOrdered(w, 1);
    assert FxListAfter(kn, fx)[|kept|..] == found;
    if kept != [] && found != [] {
      assert |w| >= 2;
      FilterMembers(Tail(kn, 100), BarFrom(kept[|kept| - 1].dt));
      assert w[0] in Tail(kn, 100) && w[0].dt >= kept[|kept| - 1].dt;
    }
  }
  /** An update keeps a time-ordered fractal list in time order. */
  lemma FxListAfterKeepsOrder(kn: seq<Bar>, fx: seq<Point>)
    requires PointsOrdered(fx)
    ensures PointsOrdered(FxListAfter(kn, fx))
  {
    if |kn| >= 3 {
      var kept := DropLast(fx, 1);
      var r := FxListAfter(kn, fx);
      FxListAfterOrdered(kn, fx);
      OrderedSlice(fx, 0, |kept|);
      assert kept == fx[..|kept|];
      assert r == kept + r[|kept|..];
      if kept != [] && |r| > |kept| {
        assert r[|kept|..][0] == r[|kept|];
      }
      OrderedConcat(kept, r[|kept|..]);
    }
  }

}
