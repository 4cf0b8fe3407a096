/** Containment handling of K-line bars (`KlineAnalyze._update_kline_new`):
    the step that absorbs a bar into the last merged bar, the scan over the new
    raw bars, and the facts that make the merged sequence free of containment. */
module Merge {
  import opened ChanTypes
  import opened Compare

  predicate BarWellFormed(b: Bar) { b.low <= b.high }

  /** One of the two bars' [low, high] ranges lies inside the other's. */
  predicate BarsNested(last: Bar, k: Bar)
  {
    Nested(last.high, last.low, k.high, k.low)
  }

  /** "up" when the newest merged bar is higher than the one before it. */
  function MergeDirection(kn: seq<Bar>): (dir: Direction)
    requires |kn| >= 2
    ensures dir == Up <==> kn[|kn| - 1].high > kn[|kn| - 2].high
  {
    if kn[|kn| - 1].high > kn[|kn| - 2].high then Up else Down
  }

  /** The bar that replaces `last` when `k` nests with it: `k`'s timestamp and
      volume, both bounds by max going up and by min going down, and open/close
      set to those bounds so that the bar keeps `k`'s colour. */
  function MergeBars(last: Bar, k: Bar, dir: Direction): (m: Bar)
    ensures m.dt == k.dt && m.vol == k.vol
    ensures dir == Up ==> m.high == Max(last.high, k.high) && m.low == Max(last.low, k.low)
    ensures dir == Down ==> m.high == Min(last.high, k.high) && m.low == Min(last.low, k.low)
    ensures (m.open == m.high && m.close == m.low) || (m.open == m.low && m.close == m.high)
    ensures BarWellFormed(last) && BarWellFormed(k) ==>
      BarWellFormed(m) &&
      (k.open >= k.close ==> m.open >= m.close) &&
      (k.open < k.close ==> m.open <= m.close)
  {
    var h := if dir == Up then Max(last.high, k.high) else Min(last.high, k.high);
    var l := if dir == Up then Max(last.low, k.low) else Min(last.low, k.low);
    if k.open >= k.close then k.(high := h, low := l, open := h, close := l)
    else k.(high := h, low := l, open := l, close := h)
  }

  /** One iteration of the merge loop. */
  function MergeStep(kn: seq<Bar>, k: Bar): (r: seq<Bar>)
    requires |kn| >= 2
    ensures |r| >= |kn| && r[..|kn| - 1] == kn[..|kn| - 1]
    ensures BarsNested(kn[|kn| - 1], k) ==>
      |r| == |kn| && r[|kn| - 1] == MergeBars(kn[|kn| - 1], k, MergeDirection(kn))
    ensures !BarsNested(kn[|kn| - 1], k) ==> r == kn + [k]
  {
    var last := kn[|kn| - 1];
    if BarsNested(last, k) then kn[..|kn| - 1] + [MergeBars(last, k, MergeDirection(kn))]
    else kn + [k]
  }

  /** The merge loop over the bars `ks`, in order. */
  function MergeScan(kn: seq<Bar>, ks: seq<Bar>): (r: seq<Bar>)
    requires |kn| >= 2
    ensures |r| >= |kn|
    decreases |ks|
  {
    if ks == [] then kn else MergeScan(MergeStep(kn, ks[0]), ks[1..])
  }

  /** No two consecutive bars at or after index `j` contain one another. */
  predicate NoContainmentFrom(s: seq<Bar>, j: int)
  {
    forall i :: j <= i && 0 <= i && i + 1 < |s| ==> !BarsNested(s[i], s[i + 1])
  }

  /** The merged bar cannot contain, or lie inside, the bar before `last`
      when `last` did not: merging only pushes the range further in the
      direction that the two bars already moved. */
  lemma MergedBarStaysApart(prev: Bar, last: Bar, k: Bar)
    requires !BarsNested(prev, last)
    ensures !BarsNested(prev, MergeBars(last, k, if last.high > prev.high then Up else Down))
  {
  }

  /** A merge step keeps every pair from index `j` on free of containment, and
      the pair it may create is free of containment too. */
  lemma {:induction false} MergeStepNoContainment(kn: seq<Bar>, k: Bar, j: int)
    requires |kn| >= 2 && 0 <= j <= |kn| - 1
    requires NoContainmentFrom(kn, j)
    ensures NoContainmentFrom(MergeStep(kn, k), j)
  {
    var r := MergeStep(kn, k);
    var n := |kn|;
    if BarsNested(kn[n - 1], k) {
      if j <= n - 2 {
        MergedBarStaysApart(kn[n - 2], kn[n - 1], k);
      }
      forall i | j <= i && 0 <= i && i + 1 < |r| ensures !BarsNested(r[i], r[i + 1]) {
        if i + 1 < n - 1 {
          assert r[i] == kn[i] && r[i + 1] == kn[i + 1];
        } else {
          assert r[i] == kn[n - 2];
        }
      }
    } else {
      forall i | j <= i && 0 <= i && i + 1 < |r| ensures !BarsNested(r[i], r[i + 1]) {
        if i + 1 < n {
          assert r[i] == kn[i] && r[i + 1] == kn[i + 1];
        }
      }
    }
  }

  /** The merge loop leaves no containment between consecutive bars from index
      `j` on; taking `j = |kn| - 1` covers every bar the loop produced. */
  lemma {:induction false} MergeScanNoContainment(kn: seq<Bar>, ks: seq<Bar>, j: int)
    requires |kn| >= 2 && 0 <= j <= |kn| - 1
    requires NoContainmentFrom(kn, j)
    ensures NoContainmentFrom(MergeScan(kn, ks), j)
    decreases |ks|
  {
    if ks != [] {
      MergeStepNoContainment(kn, ks[0], j);
      MergeScanNoContainment(MergeStep(kn, ks[0]), ks[1..], j);
    }
  }

  /** Merging is idempotent: bars that already contain no containment pass
      through the loop unchanged. */
  lemma {:induction false} MergeScanIdempotent(kn: seq<Bar>, ks: seq<Bar>)
    requires |kn| >= 2
    requires NoContainmentFrom(kn + ks, |kn| - 1)
    ensures MergeScan(kn, ks) == kn + ks
    decreases |ks|
  {
    if ks != [] {
      assert (kn + ks)[|kn| - 1] == kn[|kn| - 1] && (kn + ks)[|kn|] == ks[0];
      var next := MergeStep(kn, ks[0]);
      assert next == kn + [ks[0]];
      assert next + ks[1..] == kn + ks;
      MergeScanIdempotent(next, ks[1..]);
    }
  }

  /** The merge loop keeps every bar well formed. */
  lemma {:induction false} MergeScanWellFormed(kn: seq<Bar>, ks: seq<Bar>)
    requires |kn| >= 2
    requires forall i :: 0 <= i < |kn| ==> BarWellFormed(kn[i])
    requires forall i :: 0 <= i < |ks| ==> BarWellFormed(ks[i])
    ensures forall i :: 0 <= i < |MergeScan(kn, ks)| ==> BarWellFormed(MergeScan(kn, ks)[i])
    decreases |ks|
  {
    if ks != [] {
      var next := MergeStep(kn, ks[0]);
      forall i | 0 <= i < |next| ensures BarWellFormed(next[i]) {
        if i < |kn| - 1 { assert next[i] == kn[i]; }
      }
      MergeScanWellFormed(next, ks[1..]);
    }
  }

  /** Python's `kline_raw[:4]`. */
  function FirstBars(raw: seq<Bar>): (r: seq<Bar>)
    ensures |r| == if |raw| < 4 then |raw| else 4
  {
    if |raw| < 4 then raw else raw[..4]
  }

  /** The merged sequence after reseeding a short one with the first raw bars
      and dropping its last two bars. */
  function SeedAndDrop(kn: seq<Bar>, raw: seq<Bar>): seq<Bar>
  {
    DropLast(if |kn| < 4 then kn + FirstBars(raw) else kn, 2)
  }

  /** Raw bars later than the last remaining merged bar (only the last 100 raw
      bars are looked at once more than four merged bars remain). */
  function RightBars(kn1: seq<Bar>, raw: seq<Bar>): seq<Bar>
    requires |kn1| > 0
  {
    Filter(if |kn1| <= 4 then raw else Tail(raw, 100), BarAfter(kn1[|kn1| - 1].dt))
  }

  /** The source raises IndexError when one merged bar remains and there are
      raw bars to merge: the direction needs the bar before it. */
  predicate KlineNewFails(kn: seq<Bar>, raw: seq<Bar>)
  {
    var kn1 := SeedAndDrop(kn, raw);
    |kn1| == 1 && RightBars(kn1, raw) != []
  }

  /** The merged sequence after one `_update_kline_new` call. */
  function KlineNewAfter(kn: seq<Bar>, raw: seq<Bar>): (r: seq<Bar>)
    ensures |SeedAndDrop(kn, raw)| >= 2 ==> |r| >= 2
  {
    var kn1 := SeedAndDrop(kn, raw);
    if |kn1| < 2 then kn1
    else
      var rk := RightBars(kn1, raw);
      if rk == [] then kn1 else MergeScan(kn1, rk)
  }

  /** What `_update_kline_new` promises: the bars it rebuilds carry no
      containment, every merged bar is well formed, and the bars before the
      last two kept ones are untouched. */
  lemma KlineNewAfterProperties(kn: seq<Bar>, raw: seq<Bar>)
    requires forall i :: 0 <= i < |kn| ==> BarWellFormed(kn[i])
    requires forall i :: 0 <= i < |raw| ==> BarWellFormed(raw[i])
    ensures var kn1 := SeedAndDrop(kn, raw);
      var r := KlineNewAfter(kn, raw);
      NoContainmentFrom(r, |kn1| - 1) &&
      (forall i :: 0 <= i < |r| ==> BarWellFormed(r[i])) &&
      |kn1| <= |r| && r[..if |kn1| > 0 then |kn1| - 1 else 0] == kn1[..if |kn1| > 0 then |kn1| - 1 else 0]
  {
    var kn1 := SeedAndDrop(kn, raw);
    SeedAndDropWellFormed(kn, raw);
    if |kn1| >= 2 {
      var rk := RightBars(kn1, raw);
      if rk != [] {
        RightBarsWellFormed(kn1, raw);
        MergeScanNoContainment(kn1, rk, |kn1| - 1);
        MergeScanWellFormed(kn1, rk);
        MergeScanKeepsPrefix(kn1, rk);
      }
    }
  }

  lemma SeedAndDropWellFormed(kn: seq<Bar>, raw: seq<Bar>)
    requires forall i :: 0 <= i < |kn| ==> BarWellFormed(kn[i])
    requires forall i :: 0 <= i < |raw| ==> BarWellFormed(raw[i])
    ensures forall i :: 0 <= i < |SeedAndDrop(kn, raw)| ==> BarWellFormed(SeedAndDrop(kn, raw)[i])
  {
    var seeded := if |kn| < 4 then kn + FirstBars(raw) else kn;
    forall i | 0 <= i < |SeedAndDrop(kn, raw)| ensures BarWellFormed(SeedAndDrop(kn, raw)[i]) {
      assert SeedAndDrop(kn, raw)[i] == seeded[i];
      if i >= |kn| { assert seeded[i] == raw[i - |kn|]; }
    }
  }

  lemma RightBarsWellFormed(kn1: seq<Bar>, raw: seq<Bar>)
    requires |kn1| > 0
    requires forall i :: 0 <= i < |raw| ==> BarWellFormed(raw[i])
    ensures forall i :: 0 <= i < |RightBars(kn1, raw)| ==> BarWellFormed(RightBars(kn1, raw)[i])
  {
    var src := if |kn1| <= 4 then raw else Tail(raw, 100);
    FilterMembers(src, BarAfter(kn1[|kn1| - 1].dt));
    forall i | 0 <= i < |RightBars(kn1, raw)| ensures BarWellFormed(RightBars(kn1, raw)[i]) {
      assert RightBars(kn1, raw)[i] in src;
    }
  }

  /** The merge loop only ever changes the last bar and appends after it. */
  lemma {:induction false} MergeScanKeepsPrefix(kn: seq<Bar>, ks: seq<Bar>)
    requires |kn| >= 2
    ensures |MergeScan(kn, ks)| >= |kn|
    ensures MergeScan(kn, ks)[..|kn| - 1] == kn[..|kn| - 1]
    decreases |ks|
  {
    if ks != [] {
      var next := MergeStep(kn, ks[0]);
      MergeScanKeepsPrefix(next, ks[1..]);
      assert MergeScan(kn, ks)[..|next| - 1][..|kn| - 1] == MergeScan(kn, ks)[..|kn| - 1];
    }
  }

  /** Bars [10, 20] and [12, 18] going up merge into [12, 20] (both bounds by
      max), and the disjoint [22, 30] is appended. */
  lemma MergeScenario()
    ensures var b0 := Bar(0, 6.0, 9.0, 15.0, 5.0, 1.0);
      var b1 := Bar(1, 10.0, 20.0, 20.0, 10.0, 1.0);
      var b2 := Bar(2, 12.0, 18.0, 18.0, 12.0, 1.0);
      var b3 := Bar(3, 22.0, 30.0, 30.0, 22.0, 1.0);
      MergeScan([b0, b1], [b2, b3]) == [b0, Bar(2, 12.0, 20.0, 20.0, 12.0, 1.0), b3]
  {
    var b0 := Bar(0, 6.0, 9.0, 15.0, 5.0, 1.0);
    var b1 := Bar(1, 10.0, 20.0, 20.0, 10.0, 1.0);
    var b2 := Bar(2, 12.0, 18.0, 18.0, 12.0, 1.0);
    var b3 := Bar(3, 22.0, 30.0, 30.0, 22.0, 1.0);
    var m := Bar(2, 12.0, 20.0, 20.0, 12.0, 1.0);
    assert MergeDirection([b0, b1]) == Up;
    assert BarsNested(b1, b2);
    assert MergeBars(b1, b2, Up) == m;
    assert MergeStep([b0, b1], b2) == [b0, m];
    assert !BarsNested(m, b3);
    assert MergeStep([b0, m], b3) == [b0, m, b3];
    assert [b2, b3][1..] == [b3];
    assert MergeScan([b0, m, b3], []) == [b0, m, b3];
    assert MergeScan([b0, m], [b3]) == MergeScan([b0, m, b3], []);
    assert MergeScan([b0, b1], [b2, b3]) == MergeScan([b0, m], [b3]);
  }
}
