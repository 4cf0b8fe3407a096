/** The analyser object (`KlineAnalyze`): its lists, the update stages that
    rebuild them in place after each bar, and `add_kline`, which appends or
    replaces the newest bar, runs the stages and trims old history. */
module Analyzer {
  import opened ChanTypes
  import opened Compare
  import opened Merge
  import opened Fractal
  import opened Stroke
  import opened Segment
  import opened Pivots

  /** The analyser's lists at one moment. Of the moving averages only their
      timestamps are kept (`ma`): the averages themselves are never read by
      the analysis. */
  datatype State = State(raw: seq<Bar>, ma: seq<int>, kn: seq<Bar>, macd: seq<MacdPoint>, fx: seq<Point>,
                         bi: seq<Point>, xd: seq<Point>, zs: seq<Pivot>, endDt: int, latestPrice: real)

  /** `add_kline`'s first step: a bar with the same open price as the newest
      raw bar replaces it (the bar is still forming); any other bar is
      appended. */
  function RawAfter(raw: seq<Bar>, k: Bar): (r: seq<Bar>)
    ensures |r| > 0 && r[|r| - 1] == k
    ensures r[..|r| - 1] == (if raw != [] && k.open == raw[|raw| - 1].open then raw[..|raw| - 1] else raw)
    ensures |r| == (if raw != [] && k.open == raw[|raw| - 1].open then |raw| else |raw| + 1)
  {
    if raw == [] || k.open != raw[|raw| - 1].open then raw + [k]
    else raw[..|raw| - 1] + [k]
  }

  /** The segment list that `_update_xd_list_v1` leaves: rebuilt from four or
      more strokes, otherwise untouched. */
  function XdCandidates(bi: seq<Point>, xd: seq<Point>): seq<Point>
  {
    if |bi| >= 4 then XdListV1(bi) else xd
  }

  /** The points pivots are built from. */
  function PivotPoints(s: State, mode: ZsMode): seq<Point>
  {
    if mode == ZsXd then s.xd else s.bi
  }

  /** `_update_kline_new` on the state, and whether it completed. */
  function KnStage(s: State): (State, bool)
  {
    (s.(kn := KlineNewAfter(s.kn, s.raw)), !KlineNewFails(s.kn, s.raw))
  }

  /** `_update_fx_list` on the state, and whether it completed. */
  function FxStage(s: State): (State, bool)
  {
    (s.(fx := FxListAfter(s.kn, s.fx)), !(|s.kn| >= 3 && FxScanFails(FxWindow(s.kn, DropLast(s.fx, 1)))))
  }

  /** `_update_bi_list` on the state, and whether it completed. */
  function BiStage(s: State, mode: BiMode): (State, bool)
  {
    (s.(bi := BiListAfter(s.bi, s.fx, s.kn, s.raw, mode)), !(|s.fx| >= 2 && s.kn == []))
  }

  /** `_update_xd_list` (construction, then post-processing) on the state,
      and whether it completed. */
  function XdStage(s: State): (State, bool)
  {
    var v1 := XdCandidates(s.bi, s.xd);
    (s.(xd := XdAfterProcess(v1, s.bi)), !AfterProcessFails(v1, s.bi))
  }

  /** `_update_zs_list` on the state, and whether it completed. */
  function ZsStage(s: State, mode: ZsMode): (State, bool)
  {
    var r := ZsListAfter(s.zs, PivotPoints(s, mode));
    (s.(zs := r.0), r.1)
  }

  /** The update stages in order, stopping at the first that raises; the
      state is the one left at that point and the flag says whether all
      completed. */
  function Stages(s: State, biMode: BiMode, zsMode: ZsMode): (State, bool)
  {
    var a := KnStage(s);
    if !a.1 then a
    else
      var b := FxStage(a.0);
      if !b.1 then b
      else
        var c := BiStage(b.0, biMode);
        if !c.1 then c
        else
          var d := XdStage(c.0);
          if !d.1 then d else ZsStage(d.0, zsMode)
  }

  /** The timestamp history is cut at: that of the `maxXdLen`-th newest
      segment point (the oldest one when `maxXdLen` is 0, as Python's
      `xd_list[-0:]` is the whole list). */
  function TrimCut(xd: seq<Point>, maxXdLen: nat): int
    requires |xd| > maxXdLen
  {
    if maxXdLen == 0 then xd[0].dt else xd[|xd| - maxXdLen].dt
  }

  /** History trimming at the end of `add_kline`: once there are more than
      `maxXdLen` segment points, every list but the pivots keeps only the
      entries later than the cut. */
  function Trim(s: State, maxXdLen: nat): State
  {
    if |s.xd| <= maxXdLen then s
    else
      var cut := TrimCut(s.xd, maxXdLen);
      s.(raw := Filter(s.raw, BarAfter(cut)), ma := Filter(s.ma, DtAfter(cut)),
         kn := Filter(s.kn, BarAfter(cut)), macd := Filter(s.macd, MacdAfter(cut)),
         fx := Filter(s.fx, PointAfter(cut)), bi := Filter(s.bi, PointAfter(cut)), xd := Filter(s.xd, PointAfter(cut)))
  }

  /** The timestamps of the raw bars, one per bar. */
  function BarDts(raw: seq<Bar>): (r: seq<int>)
    ensures |r| == |raw| && forall i :: 0 <= i < |raw| ==> r[i] == raw[i].dt
  {
    seq(|raw|, i requires 0 <= i < |raw| => raw[i].dt)
  }

  /** The moving-average timestamps after `_update_ta` refreshes them, and
      whether that refresh completed. An empty list is rebuilt with one entry
      per raw bar. Otherwise the entry for the newest raw bar is appended when
      the newest entry belongs to the bar before it, and replaces the newest
      entry when it does not; with a single raw bar there is no bar before
      it and the source raises IndexError. */
  function MaAfter(ma: seq<int>, raw: seq<Bar>): (r: (seq<int>, bool))
    ensures r.1 <==> ma == [] || |raw| >= 2
    ensures !r.1 ==> r.0 == ma
    ensures ma == [] ==> r.0 == BarDts(raw)
    ensures ma != [] && r.1 ==> |r.0| > 0 && r.0[|r.0| - 1] == raw[|raw| - 1].dt
  {
    if ma == [] then (BarDts(raw), true)
    else if |raw| < 2 then (ma, false)
    else if raw[|raw| - 2].dt == ma[|ma| - 1] then (ma + [raw[|raw| - 1].dt], true)
    else (ma[..|ma| - 1] + [raw[|raw| - 1].dt], true)
  }

  /** The moving-average check of `_update_ta`: the second newest entry
      belongs to the second newest raw bar. */
  predicate MaHolds(ma: seq<int>, raw: seq<Bar>)
  {
    |ma| >= 2 && |raw| >= 2 && ma[|ma| - 2] == raw[|raw| - 2].dt
  }

  predicate BarsOrdered(raw: seq<Bar>)
  {
    forall i :: 1 <= i < |raw| ==> raw[i - 1].dt < raw[i].dt
  }

  /** Moving averages in step with time-ordered raw bars stay in step after
      the next bar is appended or replaces the newest one, and the check
      then holds exactly when there are two raw bars. The one way out of
      step is a replacement while a single raw bar is held: the refresh
      raises and keeps the entry of the replaced bar. */
  lemma MaAfterKeepsStep(ma: seq<int>, raw: seq<Bar>, k: Bar)
    requires ma == BarDts(raw) && BarsOrdered(raw)
    ensures var raw2 := RawAfter(raw, k); var r := MaAfter(ma, raw2);
      (r.1 ==> r.0 == BarDts(raw2)) &&
      (r.1 && MaHolds(r.0, raw2) <==> |raw2| >= 2) &&
      (!r.1 <==> |raw| == 1 && k.open == raw[0].open)
  {
    var raw2 := RawAfter(raw, k);
    var r := MaAfter(ma, raw2);
    if ma != [] && |raw2| >= 2 {
      if raw2[|raw2| - 2].dt == ma[|ma| - 1] {
        assert raw2 == raw + [k];
      } else {
        assert raw2 == raw[..|raw| - 1] + [k];
      }
      assert r.0 == BarDts(raw2);
    }
  }

  /** The MACD check `_update_ta` ends with: the series has an entry for the
      second newest raw bar, at that bar's time. */
  predicate TaHolds(raw: seq<Bar>, macd: seq<MacdPoint>)
  {
    |raw| >= 2 && |macd| >= 2 && macd[|macd| - 2].dt == raw[|raw| - 2].dt
  }

  /** `add_kline` on state `s`, given the MACD series recomputed for the new
      raw bars. `_update_ta` first refreshes the moving averages; when that
      raises or their check fails, the call raises before the MACD series is
      touched. A MACD series out of step raises AssertionError. When those
      checks pass and every stage completes, the newest raw bar's time and
      close are recorded and history is trimmed. */
  function AddKlineAfter(s: State, k: Bar, macd: seq<MacdPoint>, biMode: BiMode, zsMode: ZsMode, maxXdLen: nat): (State, bool)
  {
    var raw := RawAfter(s.raw, k);
    var ma := MaAfter(s.ma, raw);
    if !ma.1 || !MaHolds(ma.0, raw) then (s.(raw := raw, ma := ma.0), false)
    else if !TaHolds(raw, macd) then (s.(raw := raw, ma := ma.0, macd := macd), false)
    else
      var st := Stages(s.(raw := raw, ma := ma.0, macd := macd), biMode, zsMode);
      if st.1 then (Trim(st.0.(endDt := k.dt, latestPrice := k.close), maxXdLen), true) else st
  }

  /** After trimming, an ordered segment list keeps exactly its newest
      `maxXdLen - 1` points (all but the oldest when `maxXdLen` is 0). */
  lemma TrimKeepsNewestSegments(s: State, maxXdLen: nat)
    requires PointsOrdered(s.xd) && |s.xd| > maxXdLen
    ensures maxXdLen > 0 ==> Trim(s, maxXdLen).xd == s.xd[|s.xd| - maxXdLen + 1..]
    ensures maxXdLen > 0 ==> |Trim(s, maxXdLen).xd| == maxXdLen - 1
    ensures maxXdLen == 0 ==> Trim(s, maxXdLen).xd == s.xd[1..]
  {
    var j := if maxXdLen == 0 then 0 else |s.xd| - maxXdLen;
    FilterAfterOrdered(s.xd, j);
  }

  /** Trimming keeps only entries later than the cut, in every list but the
      pivot list, and never adds any. */
  lemma TrimOnlyDrops(s: State, maxXdLen: nat)
    ensures var t := Trim(s, maxXdLen);
      t.zs == s.zs &&
      (forall x :: x in t.raw ==> x in s.raw) && (forall x :: x in t.kn ==> x in s.kn) &&
      (forall x :: x in t.fx ==> x in s.fx) && (forall x :: x in t.bi ==> x in s.bi) &&
      (forall x :: x in t.xd ==> x in s.xd) && (forall x :: x in t.macd ==> x in s.macd) &&
      (forall x :: x in t.ma ==> x in s.ma)
    ensures |s.xd| > maxXdLen ==> var t := Trim(s, maxXdLen); var cut := TrimCut(s.xd, maxXdLen);
      (forall x :: x in t.xd ==> x.dt > cut) && (forall x :: x in t.bi ==> x.dt > cut) &&
      (forall x :: x in t.raw ==> x.dt > cut)
    ensures |s.xd| <= maxXdLen ==> Trim(s, maxXdLen) == s
  {
    if |s.xd| > maxXdLen {
      var cut := TrimCut(s.xd, maxXdLen);
      FilterMembers(s.raw, BarAfter(cut));
      FilterMembers(s.ma, DtAfter(cut));
      FilterMembers(s.kn, BarAfter(cut));
      FilterMembers(s.macd, MacdAfter(cut));
      FilterMembers(s.fx, PointAfter(cut));
      FilterMembers(s.bi, PointAfter(cut));
      FilterMembers(s.xd, PointAfter(cut));
    }
  }

  /** Keeping the entries of an ordered list later than some time keeps a
      suffix of it. */
  lemma {:induction false} FilterAfterSuffix(s: seq<Point>, t: int) returns (j: nat)
    requires PointsOrdered(s)
    ensures j <= |s| && Filter(s, PointAfter(t)) == s[j..]
  {
    if s == [] {
      return 0;
    }
    if s[0].dt > t {
      forall i | 0 <= i < |s| ensures s[i].dt > t {
        if i > 0 { OrderedFirstBelow(s, i); }
      }
      AllAfter(s, t);
      return 0;
    }
    assert PointsOrdered(s[1..]) by {
      forall i | 1 <= i < |s[1..]| ensures s[1..][i - 1].dt < s[1..][i].dt {
        assert s[1..][i - 1] == s[i] && s[1..][i] == s[i + 1];
      }
    }
    var k := FilterAfterSuffix(s[1..], t);
    assert s[1..][k..] == s[k + 1..];
    return k + 1;
  }

  /** Trimming keeps ordered, alternating stroke and segment lists ordered
      and alternating: what is left of each is a suffix. */
  lemma TrimKeepsAlternation(s: State, maxXdLen: nat)
    requires PointsOrdered(s.bi) && Alternates(s.bi)
    requires PointsOrdered(s.xd) && Alternates(s.xd)
    ensures var t := Trim(s, maxXdLen);
      PointsOrdered(t.bi) && Alternates(t.bi) && PointsOrdered(t.xd) && Alternates(t.xd)
  {
    if |s.xd| > maxXdLen {
      var cut := TrimCut(s.xd, maxXdLen);
      var i := FilterAfterSuffix(s.bi, cut);
      var j := FilterAfterSuffix(s.xd, cut);
      AlternatesSlice(s.bi, i, |s.bi|);
      AlternatesSlice(s.xd, j, |s.xd|);
      FilterPointsOrdered(s.bi, PointAfter(cut));
      FilterPointsOrdered(s.xd, PointAfter(cut));
    }
  }

  /** The update stages only rebuild the derived lists: the raw bars, the
      MACD series and the recorded time and price are left as they were. */
  lemma StagesKeepInputs(s: State, biMode: BiMode, zsMode: ZsMode)
    ensures var r := Stages(s, biMode, zsMode).0;
      r.raw == s.raw && r.ma == s.ma && r.macd == s.macd && r.endDt == s.endDt && r.latestPrice == s.latestPrice
  {
    var a := KnStage(s);
    var b := FxStage(a.0);
    var c := BiStage(b.0, biMode);
    var d := XdStage(c.0);
    assert a.0.raw == s.raw && b.0.raw == s.raw && c.0.raw == s.raw && d.0.raw == s.raw;
  }

  /** The update stages keep the stroke and segment lists alternating. */
  lemma StagesAlternate(s: State, biMode: BiMode, zsMode: ZsMode)
    requires Alternates(s.bi) && Alternates(s.xd)
    ensures var r := Stages(s, biMode, zsMode).0; Alternates(r.bi) && Alternates(r.xd)
  {
    var a := KnStage(s);
    var b := FxStage(a.0);
    var bs := b.0;
    BiListAfterAlternates(bs.bi, bs.fx, bs.kn, bs.raw, biMode);
    var cs := BiStage(bs, biMode).0;
    var v1 := XdCandidates(cs.bi, cs.xd);
    if |cs.bi| >= 4 {
      XdListV1Alternates(cs.bi);
    }
    if |v1| > 4 && !AfterProcessFails(v1, cs.bi) {
      XdAfterProcessAlternates(v1, cs.bi);
    }
  }

  /** The pivot list only grows, by pivots that satisfy the pivot
      invariants. */
  lemma StagesAddSoundPivots(s: State, biMode: BiMode, zsMode: ZsMode)
    ensures var r := Stages(s, biMode, zsMode).0;
      |r.zs| >= |s.zs| && r.zs[..|s.zs|] == s.zs && forall j :: |s.zs| <= j < |r.zs| ==> PivotSound(r.zs[j])
  {
    var a := KnStage(s);
    var b := FxStage(a.0);
    var c := BiStage(b.0, biMode);
    var d := XdStage(c.0);
    assert a.0.zs == s.zs && b.0.zs == s.zs && c.0.zs == s.zs && d.0.zs == s.zs;
    ZsListAfterSound(d.0.zs, PivotPoints(d.0, zsMode));
  }

  /** With alternating lists the pivot stage never raises, so the stages
      complete as soon as the first four do. */
  lemma StagesCompleteAfterFour(s: State, biMode: BiMode, zsMode: ZsMode)
    requires Alternates(s.bi) && Alternates(s.xd)
    ensures var a := KnStage(s); var b := FxStage(a.0); var c := BiStage(b.0, biMode); var d := XdStage(c.0);
      a.1 && b.1 && c.1 && d.1 ==> Stages(s, biMode, zsMode).1
  {
    var a := KnStage(s);
    var b := FxStage(a.0);
    var c := BiStage(b.0, biMode);
    var d := XdStage(c.0);
    if a.1 && b.1 && c.1 && d.1 {
      StagesAlternate(s, biMode, zsMode);
      assert Stages(s, biMode, zsMode).0 == ZsStage(d.0, zsMode).0;
      assert d.0.bi == Stages(s, biMode, zsMode).0.bi && d.0.xd == Stages(s, biMode, zsMode).0.xd;
      ZsListAfterAlternating(d.0.zs, PivotPoints(d.0, zsMode));
    }
  }

  /** The update stages keep the fractal, stroke and segment lists in time
      order. */
  lemma StagesOrdered(s: State, biMode: BiMode, zsMode: ZsMode)
    requires PointsOrdered(s.fx) && PointsOrdered(s.bi) && PointsOrdered(s.xd)
    ensures var r := Stages(s, biMode, zsMode).0;
      PointsOrdered(r.fx) && PointsOrdered(r.bi) && PointsOrdered(r.xd)
  {
    var a := KnStage(s).0;
    FxListAfterKeepsOrder(a.kn, a.fx);
    var b := FxStage(a).0;
    assert PointsOrdered(b.fx) && b.bi == s.bi && b.xd == s.xd;
    BiListAfterOrdered(b.bi, b.fx, b.kn, b.raw, biMode);
    var c := BiStage(b, biMode).0;
    assert PointsOrdered(c.bi) && c.fx == b.fx && c.xd == s.xd;
    var v1 := XdCandidates(c.bi, c.xd);
    if |c.bi| >= 4 {
      XdListV1Ordered(c.bi);
    }
    assert PointsOrdered(v1);
    XdAfterProcessOrdered(v1, c.bi);
    var d := XdStage(c).0;
    assert d.fx == c.fx && d.bi == c.bi && PointsOrdered(d.xd);
    var e := ZsStage(d, zsMode).0;
    assert e.fx == d.fx && e.bi == d.bi && e.xd == d.xd;
  }

  /** Every `add_kline` call, completed or not, keeps the fractal list in
      time order and the stroke and segment lists in time order and
      alternating. */
  lemma AddKlineKeepsShape(s: State, k: Bar, macd: seq<MacdPoint>, biMode: BiMode, zsMode: ZsMode, maxXdLen: nat)
    requires PointsOrdered(s.fx) && PointsOrdered(s.bi) && PointsOrdered(s.xd)
    requires Alternates(s.bi) && Alternates(s.xd)
    ensures var r := AddKlineAfter(s, k, macd, biMode, zsMode, maxXdLen).0;
      PointsOrdered(r.fx) && PointsOrdered(r.bi) && PointsOrdered(r.xd) &&
      Alternates(r.bi) && Alternates(r.xd)
  {
    var raw := RawAfter(s.raw, k);
    var ma := MaAfter(s.ma, raw);
    var s0 := s.(raw := raw, ma := ma.0, macd := macd);
    if ma.1 && MaHolds(ma.0, raw) && TaHolds(raw, macd) {
      StagesOrdered(s0, biMode, zsMode);
      StagesAlternate(s0, biMode, zsMode);
      var st := Stages(s0, biMode, zsMode);
      if st.1 {
        var t := st.0.(endDt := k.dt, latestPrice := k.close);
        TrimKeepsAlternation(t, maxXdLen);
        if |t.xd| > maxXdLen {
          FilterPointsOrdered(t.fx, PointAfter(TrimCut(t.xd, maxXdLen)));
        }
      }
    }
  }

  /** What one `add_kline` call leaves, completed or not: pivots are never
      removed and every new one satisfies the pivot invariants; a completed
      call records the bar's time and close; a call whose indicator checks
      fail changes only the raw bars and the indicators refreshed so far, and
      one that raised later leaves the raw bars and indicators as installed
      before the stages ran. */
  lemma AddKlineRecords(s: State, k: Bar, macd: seq<MacdPoint>, biMode: BiMode, zsMode: ZsMode, maxXdLen: nat)
    ensures var raw := RawAfter(s.raw, k); var ma := MaAfter(s.ma, raw);
      var r := AddKlineAfter(s, k, macd, biMode, zsMode, maxXdLen);
      (!ma.1 || !MaHolds(ma.0, raw) ==> r == (s.(raw := raw, ma := ma.0), false)) &&
      (ma.1 && MaHolds(ma.0, raw) && !TaHolds(raw, macd) ==> r == (s.(raw := raw, ma := ma.0, macd := macd), false))
    ensures var r := AddKlineAfter(s, k, macd, biMode, zsMode, maxXdLen).0;
      |r.zs| >= |s.zs| && r.zs[..|s.zs|] == s.zs && forall j :: |s.zs| <= j < |r.zs| ==> PivotSound(r.zs[j])
    ensures var r := AddKlineAfter(s, k, macd, biMode, zsMode, maxXdLen);
      r.1 ==> r.0.endDt == k.dt && r.0.latestPrice == k.close
    ensures var raw := RawAfter(s.raw, k); var ma := MaAfter(s.ma, raw);
      var r := AddKlineAfter(s, k, macd, biMode, zsMode, maxXdLen);
      !r.1 ==> r.0.raw == raw && r.0.ma == ma.0 && r.0.macd == (if ma.1 && MaHolds(ma.0, raw) then macd else s.macd)
  {
    var raw := RawAfter(s.raw, k);
    var ma := MaAfter(s.ma, raw);
    var r := AddKlineAfter(s, k, macd, biMode, zsMode, maxXdLen);
    if !ma.1 || !MaHolds(ma.0, raw) {
      assert r == (s.(raw := raw, ma := ma.0), false);
      assert r.0.zs == s.zs;
    } else if !TaHolds(raw, macd) {
      assert r == (s.(raw := raw, ma := ma.0, macd := macd), false);
      assert r.0.zs == s.zs;
    } else {
      AddKlineStagesRecord(s, k, macd, biMode, zsMode, maxXdLen);
    }
  }

  /** `AddKlineRecords` once the indicator checks have passed. */
  /** When both indicator checks pass, `add_kline` is the run of the stages
      followed by the new end time, the latest price and the trimming. */
  lemma AddKlineAfterPasses(s: State, k: Bar, macd: seq<MacdPoint>, biMode: BiMode, zsMode: ZsMode, maxXdLen: nat)
    requires var raw := RawAfter(s.raw, k); var ma := MaAfter(s.ma, raw);
      ma.1 && MaHolds(ma.0, raw) && TaHolds(raw, macd)
    ensures var raw := RawAfter(s.raw, k);
      var st := Stages(s.(raw := raw, ma := MaAfter(s.ma, raw).0, macd := macd), biMode, zsMode);
      AddKlineAfter(s, k, macd, biMode, zsMode, maxXdLen) ==
        if st.1 then (Trim(st.0.(endDt := k.dt, latestPrice := k.close), maxXdLen), true) else st
  {
  }

  lemma AddKlineStagesRecord(s: State, k: Bar, macd: seq<MacdPoint>, biMode: BiMode, zsMode: ZsMode, maxXdLen: nat)
    requires var raw := RawAfter(s.raw, k); var ma := MaAfter(s.ma, raw);
      ma.1 && MaHolds(ma.0, raw) && TaHolds(raw, macd)
    ensures var r := AddKlineAfter(s, k, macd, biMode, zsMode, maxXdLen).0;
      |r.zs| >= |s.zs| && r.zs[..|s.zs|] == s.zs && forall j :: |s.zs| <= j < |r.zs| ==> PivotSound(r.zs[j])
    ensures var r := AddKlineAfter(s, k, macd, biMode, zsMode, maxXdLen);
      r.1 ==> r.0.endDt == k.dt && r.0.latestPrice == k.close
    ensures var r := AddKlineAfter(s, k, macd, biMode, zsMode, maxXdLen);
      !r.1 ==> r.0.raw == RawAfter(s.raw, k) && r.0.ma == MaAfter(s.ma, RawAfter(s.raw, k)).0 && r.0.macd == macd
  {
    var raw := RawAfter(s.raw, k);
    var s0 := s.(raw := raw, ma := MaAfter(s.ma, raw).0, macd := macd);
    StagesAddSoundPivots(s0, biMode, zsMode);
    StagesKeepInputs(s0, biMode, zsMode);
    var st := Stages(s0, biMode, zsMode);
    if st.1 {
      var t := st.0.(endDt := k.dt, latestPrice := k.close);
      assert Trim(t, maxXdLen).zs == t.zs;
      assert AddKlineAfter(s, k, macd, biMode, zsMode, maxXdLen) == (Trim(t, maxXdLen), true);
    } else {
      assert AddKlineAfter(s, k, macd, biMode, zsMode, maxXdLen) == st;
    }
  }

  /** The first bar given to a fresh analyser is stored and gets its moving
      average, but the check then finds no second newest entry and the call
      raises before the MACD series is installed. */
  lemma FirstBarScenario(k: Bar, m: MacdPoint, biMode: BiMode, zsMode: ZsMode, maxXdLen: nat)
    ensures AddKlineAfter(State([], [], [], [], [], [], [], [], 0, 0.0), k, [m], biMode, zsMode, maxXdLen) ==
      (State([k], [k.dt], [], [], [], [], [], [], 0, 0.0), false)
  {
    assert BarDts([k]) == [k.dt];
  }

  /** After that, a second, different bar with a MACD series in step
      completes the call: both bars are recorded and nothing else is built
      yet, since the merged list keeps no bar until there are three. */
  lemma SecondBarScenario(k1: Bar, k2: Bar, m1: MacdPoint, m2: MacdPoint, biMode: BiMode, zsMode: ZsMode, maxXdLen: nat)
    requires k2.open != k1.open && m1.dt == k1.dt
    ensures AddKlineAfter(State([k1], [k1.dt], [], [], [], [], [], [], 0, 0.0), k2, [m1, m2], biMode, zsMode, maxXdLen) ==
      (State([k1, k2], [k1.dt, k2.dt], [], [m1, m2], [], [], [], [], k2.dt, k2.close), true)
  {
    var s0 := State([k1, k2], [k1.dt, k2.dt], [], [m1, m2], [], [], [], [], 0, 0.0);
    assert RawAfter([k1], k2) == [k1, k2];
    assert [k1.dt] + [k2.dt] == [k1.dt, k2.dt];
    assert MaAfter([k1.dt], [k1, k2]) == ([k1.dt, k2.dt], true);
    assert TaHolds(s0.raw, s0.macd);
    assert DropLast([k1, k2], 2) == [];
    assert SeedAndDrop([], [k1, k2]) == [];
    assert KnStage(s0) == (s0, true);
    assert FxStage(s0) == (s0, true);
    assert BiStage(s0, biMode) == (s0, true);
    assert XdStage(s0) == (s0, true);
    assert ZsStage(s0, zsMode) == (s0, true);
  }

  /** A bar that replaces a single stored bar leaves the moving averages out
      of step with the raw bars: for b1, then b2 with b1's open price and a
      later time, then b3 with another open price, every call raises, the
      third at the moving-average check after replacing the average of b1
      by that of b3. */
  lemma ReplaceDesyncScenario(b1: Bar, b2: Bar, b3: Bar, macd: seq<MacdPoint>, biMode: BiMode, zsMode: ZsMode, maxXdLen: nat)
    requires b2.open == b1.open && b3.open != b2.open && b1.dt < b2.dt < b3.dt
    ensures AddKlineAfter(State([], [], [], [], [], [], [], [], 0, 0.0), b1, macd, biMode, zsMode, maxXdLen) ==
      (State([b1], [b1.dt], [], [], [], [], [], [], 0, 0.0), false)
    ensures AddKlineAfter(State([b1], [b1.dt], [], [], [], [], [], [], 0, 0.0), b2, macd, biMode, zsMode, maxXdLen) ==
      (State([b2], [b1.dt], [], [], [], [], [], [], 0, 0.0), false)
    ensures AddKlineAfter(State([b2], [b1.dt], [], [], [], [], [], [], 0, 0.0), b3, macd, biMode, zsMode, maxXdLen) ==
      (State([b2, b3], [b3.dt], [], [], [], [], [], [], 0, 0.0), false)
  {
    var s0 := State([], [], [], [], [], [], [], [], 0, 0.0);
    var s1 := State([b1], [b1.dt], [], [], [], [], [], [], 0, 0.0);
    var s2 := State([b2], [b1.dt], [], [], [], [], [], [], 0, 0.0);
    assert AddKlineAfter(s0, b1, macd, biMode, zsMode, maxXdLen) == (s1, false) by {
      assert RawAfter([], b1) == [b1] && BarDts([b1]) == [b1.dt];
      AddKlineRecords(s0, b1, macd, biMode, zsMode, maxXdLen);
    }
    assert AddKlineAfter(s1, b2, macd, biMode, zsMode, maxXdLen) == (s2, false) by {
      assert RawAfter([b1], b2) == [b2];
      AddKlineRecords(s1, b2, macd, biMode, zsMode, maxXdLen);
    }
    assert AddKlineAfter(s2, b3, macd, biMode, zsMode, maxXdLen) == (s2.(raw := [b2, b3], ma := [b3.dt]), false) by {
      assert RawAfter([b2], b3) == [b2, b3];
      assert [b1.dt][..0] + [b3.dt] == [b3.dt];
      assert MaAfter([b1.dt], [b2, b3]) == ([b3.dt], true);
      AddKlineRecords(s2, b3, macd, biMode, zsMode, maxXdLen);
    }
  }

  /** A second bar with the newest bar's open price replaces it; one with a
      different open price is appended. */
  lemma RawReplaceScenario(k1: Bar, k2: Bar)
    ensures k2.open == k1.open ==> RawAfter([k1], k2) == [k2]
    ensures k2.open != k1.open ==> RawAfter([k1], k2) == [k1, k2]
  {
  }

  class KlineAnalyze {
    var klineRaw: seq<Bar>
    var ma: seq<int>
    var klineNew: seq<Bar>
    var macd: seq<MacdPoint>
    var fxList: seq<Point>
    var biList: seq<Point>
    var xdList: seq<Point>
    var zsList: seq<Pivot>
    var endDt: int
    var latestPrice: real
    const biMode: BiMode
    const maxXdLen: nat
    const zsMode: ZsMode

    /** The lists as a value. */
    function Snapshot(): State
      reads this
    {
      State(klineRaw, ma, klineNew, macd, fxList, biList, xdList, zsList, endDt, latestPrice)
    }

    constructor(biMode: BiMode, maxXdLen: nat, zsMode: ZsMode)
      ensures Snapshot() == State([], [], [], [], [], [], [], [], 0, 0.0)
      ensures this.biMode == biMode && this.maxXdLen == maxXdLen && this.zsMode == zsMode
    {
      this.biMode := biMode;
      this.maxXdLen := maxXdLen;
      this.zsMode := zsMode;
      klineRaw := [];
      ma := [];
      klineNew := [];
      macd := [];
      fxList := [];
      biList := [];
      xdList := [];
      zsList := [];
      endDt := 0;
      latestPrice := 0.0;
    }

    /** `_update_kline_new`: reseeds a short merged list with the first raw
        bars, drops its last two bars and merges the later raw bars into it;
        `false` when the source raises IndexError. */
    method UpdateKlineNew() returns (ok: bool)
      modifies this
      ensures (Snapshot(), ok) == KnStage(old(Snapshot()))
    {
      var kn := klineNew;
      if |kn| < 4 {
        kn := kn + FirstBars(klineRaw);
      }
      kn := DropLast(kn, 2);
      if |kn| == 0 {
        klineNew := kn;
        return true;
      }
      var rightK := RightBars(kn, klineRaw);
      if |rightK| == 0 {
        klineNew := kn;
        return true;
      }
      if |kn| < 2 {
        klineNew := kn;
        return false;
      }
      kn := MergeLoop(kn, rightK);
      klineNew := kn;
      return true;
    }

    /** `_update_fx_list`: drops the newest fractal and rescans the merged
        bars from the one before it; `false` when `has_gap` meets two bars
        out of time order (the fractals found before that are kept). */
    method UpdateFxList() returns (ok: bool)
      modifies this
      ensures (Snapshot(), ok) == FxStage(old(Snapshot()))
    {
      if |klineNew| < 3 {
        return true;
      }
      var kept := DropLast(fxList, 1);
      var found;
      var w := FxWindow(klineNew, kept);
      found, ok := FractalLoop(w);
      fxList := kept + found;
    }

    /** `_update_bi_list`: drops the last two stroke points (seeding with the
        first fractal when none is left), runs the stroke loop over the
        later fractals, then drops the last point when the newest merged bar
        has gone beyond it; `false` when there is no merged bar for that
        check (IndexError, raised after the loop). */
    method UpdateBiList() returns (ok: bool)
      modifies this
      ensures (Snapshot(), ok) == BiStage(old(Snapshot()), biMode)
    {
      biList, ok := RebuildStrokes(biList, fxList, klineNew, klineRaw, biMode);
    }

    /** `_update_xd_list_v1`: with four or more stroke points, restarts the
        segment list from the first three and runs the segment loop over the
        potential segment points from the third stroke point on. */
    method UpdateXdListV1()
      modifies this
      ensures Snapshot() == old(Snapshot()).(xd := XdCandidates(biList, old(xdList)))
    {
      if |biList| < 4 {
        return;
      }
      var right := RightBi(biList);
      xdList := SegmentLoop(biList[..3], GetPotentialXd(right), right);
    }

    /** `_update_xd_list`: segment construction, then post-processing. */
    method UpdateXdList() returns (ok: bool)
      modifies this
      ensures (Snapshot(), ok) == XdStage(old(Snapshot()))
    {
      UpdateXdListV1();
      ok := XdAfterProcessUpdate();
    }

    /** `_xd_after_process`: with more than four segment points, keeps those
        whose stroke runs pass `is_valid_xd` (and the newest when four strokes
        follow it), re-merges them, then drops the last when the newest stroke
        point lies beyond it; `false` when `is_valid_xd`'s assertion fails,
        leaving the list as it was. */
    method XdAfterProcessUpdate() returns (ok: bool)
      modifies this
      ensures Snapshot() == old(Snapshot()).(xd := XdAfterProcess(old(xdList), biList))
      ensures ok <==> !AfterProcessFails(old(xdList), biList)
    {
      xdList, ok := PostProcessSegments(xdList, biList);
    }

    /** `_update_zs_list`: scans the segment points (or the stroke points)
        for pivots and appends each one it completes, then an unfinished
        pivot for a trailing window of five or more; `false` when ZD/ZG are
        taken from a window lacking a peak or a trough (ValueError), with
        the pivots completed before it kept. */
    method UpdateZsList() returns (ok: bool)
      modifies this
      ensures (Snapshot(), ok) == ZsStage(old(Snapshot()), zsMode)
    {
      var points := if zsMode == ZsXd then xdList else biList;
      zsList, ok := AppendPivots(zsList, points);
    }

    /** `add_kline`: records bar `k` (replacing the newest raw bar when it
        has the same open price), installs the MACD series computed for the
        new raw bars, runs the update stages in order and, when they all
        complete, records the newest bar's time and close and trims history
        to the last `maxXdLen` segment points; `false` when a stage raised,
        with the lists as they were at that point. */
    method AddKline(k: Bar, macdSeries: seq<MacdPoint>) returns (ok: bool)
      modifies this
      ensures var after := AddKlineAfter(old(Snapshot()), k, macdSeries, biMode, zsMode, maxXdLen);
        Snapshot() == after.0 && ok == after.1
    {
      if |klineRaw| == 0 || k.open != klineRaw[|klineRaw| - 1].open {
        klineRaw := klineRaw + [k];
      } else {
        klineRaw := klineRaw[..|klineRaw| - 1] + [k];
      }
      ghost var raw := klineRaw;
      assert raw == RawAfter(old(klineRaw), k);
      var maOk := UpdateMa();
      if !maOk || !MaHolds(ma, klineRaw) {
        return false;
      }
      macd := macdSeries;
      ghost var s0 := Snapshot();
      assert s0 == old(Snapshot()).(raw := raw, ma := MaAfter(old(ma), raw).0, macd := macdSeries);
      if !TaHolds(klineRaw, macd) {
        return false;
      }
      AddKlineAfterPasses(old(Snapshot()), k, macdSeries, biMode, zsMode, maxXdLen);
      ok := RunStages();
      if ok {
        StagesKeepInputs(s0, biMode, zsMode);
        assert klineRaw[|klineRaw| - 1] == k;
        Publish(k);
      }
    }

    /** Lines 245-247 and the trimming that follows: the end time and the
        latest price come from the bar just added. */
    method Publish(k: Bar)
      modifies this
      ensures Snapshot() == Trim(old(Snapshot()).(endDt := k.dt, latestPrice := k.close), maxXdLen)
    {
      endDt := k.dt;
      latestPrice := k.close;
      TrimHistory();
    }

    /** The moving-average half of `_update_ta`, on timestamps only: an empty
        list is rebuilt entry by entry, otherwise the newest entry is
        appended or replaced; `false` when the source raises IndexError. */
    method UpdateMa() returns (ok: bool)
      modifies this
      ensures Snapshot() == old(Snapshot()).(ma := MaAfter(old(ma), klineRaw).0)
      ensures ok == MaAfter(old(ma), klineRaw).1
    {
      if |ma| == 0 {
        var m: seq<int> := [];
        for i := 0 to |klineRaw|
          invariant |m| == i && forall j :: 0 <= j < i ==> m[j] == klineRaw[j].dt
        {
          m := m + [klineRaw[i].dt];
        }
        ma := m;
        return true;
      }
      if |klineRaw| < 2 {
        return false;
      }
      if klineRaw[|klineRaw| - 2].dt == ma[|ma| - 1] {
        ma := ma + [klineRaw[|klineRaw| - 1].dt];
      } else {
        ma := ma[..|ma| - 1] + [klineRaw[|klineRaw| - 1].dt];
      }
      return true;
    }

    /** The update stages `add_kline` runs, in order, stopping at the first
        that raises. */
    method RunStages() returns (ok: bool)
      modifies this
      ensures (Snapshot(), ok) == Stages(old(Snapshot()), biMode, zsMode)
    {
      ghost var s0 := Snapshot();
      ok := UpdateKlineNew();
      if !ok {
        assert Stages(s0, biMode, zsMode) == KnStage(s0);
        return;
      }
      ghost var s1 := Snapshot();
      ok := UpdateFxList();
      if !ok {
        assert Stages(s0, biMode, zsMode) == FxStage(s1);
        return;
      }
      ghost var s2 := Snapshot();
      ok := UpdateBiList();
      if !ok {
        assert Stages(s0, biMode, zsMode) == BiStage(s2, biMode);
        return;
      }
      ghost var s3 := Snapshot();
      ok := UpdateXdList();
      if !ok {
        assert Stages(s0, biMode, zsMode) == XdStage(s3);
        return;
      }
      ghost var s4 := Snapshot();
      ok := UpdateZsList();
      assert Stages(s0, biMode, zsMode) == ZsStage(s4, zsMode);
    }

    /** The end of `add_kline`: once there are more than `maxXdLen` segment
        points, drops from every list but the pivots the entries not later
        than the `maxXdLen`-th newest segment point. */
    method TrimHistory()
      modifies this
      ensures Snapshot() == Trim(old(Snapshot()), maxXdLen)
    {
      ghost var s0 := Snapshot();
      ghost var t := Trim(s0, maxXdLen);
      if |xdList| > maxXdLen {
        var cut := if maxXdLen == 0 then xdList[0].dt else xdList[|xdList| - maxXdLen].dt;
        assert cut == TrimCut(s0.xd, maxXdLen);
        klineRaw := Filter(klineRaw, BarAfter(cut));
        ma := Filter(ma, DtAfter(cut));
        klineNew := Filter(klineNew, BarAfter(cut));
        macd := Filter(macd, MacdAfter(cut));
        fxList := Filter(fxList, PointAfter(cut));
        biList := Filter(biList, PointAfter(cut));
        xdList := Filter(xdList, PointAfter(cut));
        assert klineRaw == t.raw && ma == t.ma && klineNew == t.kn && macd == t.macd;
        assert fxList == t.fx && biList == t.bi && xdList == t.xd;
      }
    }
  }

  /** The body of `_update_zs_list` on the points it scans. */
  method AppendPivots(zs: seq<Pivot>, points: seq<Point>) returns (r: seq<Pivot>, ok: bool)
    ensures (r, ok) == ZsListAfter(zs, points)
  {
    if |points| < 3 {
      return zs, true;
    }
    var found: seq<Pivot> := [];
    var window: seq<Point> := [];
    var zd, zg := 0.0, 0.0;
    var extend := false;
    for i := 0 to |points|
      invariant ZsRun(ZsScan(window, zd, zg, extend, found, false), points[i..]) == ZsRun(ZsStart, points)
      invariant WindowInvariant(ZsScan(window, zd, zg, extend, found, false))
    {
      var p := points[i];
      ghost var st := ZsScan(window, zd, zg, extend, found, false);
      ZsStepInvariant(st, p);
      assert points[i..][1..] == points[i + 1..];
      if |window| < 4 {
        window := window + [p];
        continue;
      }
      var zz := ZgZd(window);
      if zz.Fail? {
        return zs + found, false;
      }
      zd, zg := zz.value.0, zz.value.1;
      if zg <= zd {
        window := window[1..] + [p];
        continue;
      }
      if p.mark == D && p.price > zg {
        found := found + [MakePivot(window, zd, zg, extend, true, Buy3(p))];
        window := [];
        extend := false;
      } else if p.mark == G && p.price < zd {
        found := found + [MakePivot(window, zd, zg, extend, true, Sell3(p))];
        window := [];
        extend := false;
      } else {
        window := window + [p];
        extend := true;
      }
    }
    r := zs + found;
    if |window| >= 5 && zg > zd {
      r := r + [MakePivot(window, zd, zg, extend, false, Unbroken)];
    }
    return r, true;
  }

  /** The body of `_xd_after_process` on the lists it reads. */
  method PostProcessSegments(xd: seq<Point>, bi: seq<Point>) returns (r: seq<Point>, ok: bool)
    ensures r == XdAfterProcess(xd, bi)
    ensures ok <==> !AfterProcessFails(xd, bi)
  {
    if |xd| <= 4 {
      return xd, true;
    }
    var keep;
    keep, ok := SurvivingIndices(xd, bi);
    if !ok {
      return xd, false;
    }
    KeepIndicesInRange(xd, bi);
    r := Remerge(xd, keep);
    r := DropIfBreached(r, bi);
  }

  /** The final check of `_xd_after_process`: the last segment point goes
      when the newest stroke point lies beyond it. */
  method DropIfBreached(xd: seq<Point>, bi: seq<Point>) returns (r: seq<Point>)
    requires xd != [] ==> bi != []
    ensures r == (if bi == [] then xd else DropBreached(xd, bi))
  {
    r := xd;
    if r != [] {
      var last := r[|r| - 1];
      var newest := bi[|bi| - 1];
      if (last.mark == D && newest.price < last.price) || (last.mark == G && newest.price > last.price) {
        r := r[..|r| - 1];
      }
    }
  }

  /** The re-merge loop of `_xd_after_process` over the survivors. */
  method Remerge(xd: seq<Point>, keep: seq<int>) returns (r: seq<Point>)
    requires forall j :: 0 <= j < |keep| ==> 0 <= keep[j] < |xd|
    ensures r == KeptMerge([], xd, keep)
    ensures keep == [] ==> r == []
  {
    r := [];
    for t := 0 to |keep|
      invariant KeptMerge(r, xd, keep[t..]) == KeptMerge([], xd, keep)
    {
      var p := xd[keep[t]];
      assert keep[t..][1..] == keep[t + 1..];
      if r == [] {
        r := [p];
      } else if r[|r| - 1].mark == p.mark {
        if (r[|r| - 1].mark == D && r[|r| - 1].price > p.price) || (r[|r| - 1].mark == G && r[|r| - 1].price < p.price) {
          r := r[..|r| - 1] + [p];
        }
      } else {
        r := r + [p];
      }
    }
  }

  /** The survivor indices of `_xd_after_process`: the interior points that
      pass, then xd[-2] when its runs pass `is_valid_xd`, then xd[-1] when
      four strokes follow it; `false` at the first runs that do not join. */
  method SurvivingIndices(xd: seq<Point>, bi: seq<Point>) returns (keep: seq<int>, ok: bool)
    requires |xd| > 4
    ensures ok <==> KeepIndices(xd, bi).Ok?
    ensures ok ==> keep == KeepIndices(xd, bi).value
    ensures ok && bi == [] ==> keep == []
  {
    keep, ok := InteriorIndices(xd, bi);
    if !ok {
      return keep, false;
    }
    ghost var interior := keep;
    var n := |xd|;
    var s1 := Filter(bi, PointWithin(xd[n - 3].dt, xd[n - 2].dt));
    var s2 := Filter(bi, PointWithin(xd[n - 2].dt, xd[n - 1].dt));
    var s3 := Filter(bi, PointFrom(xd[n - 1].dt));
    assert (s1, s2, s3) == LastRuns(xd, bi);
    ghost var lastPasses := false;
    if !(|s1| == 0 || |s2| == 0 || |s3| == 0) {
      if !(s2[0].dt == s1[|s1| - 1].dt && s3[0].dt == s2[|s2| - 1].dt) {
        assert LastFails(xd, bi);
        return keep, false;
      }
      if IsValidXd(s1, s2, s3) {
        keep := keep + [n - 2];
        lastPasses := true;
      }
    }
    assert lastPasses == LastPasses(xd, bi) && !LastFails(xd, bi);
    if |s3| >= 4 {
      keep := keep + [n - 1];
    }
    assert keep == WithLastTwo(interior, n, LastPasses(xd, bi), NewestHolds(xd, bi));
    return keep, true;
  }

  /** The loop of `_xd_after_process` over the interior segment points. */
  method InteriorIndices(xd: seq<Point>, bi: seq<Point>) returns (keep: seq<int>, ok: bool)
    requires |xd| > 4
    ensures ok <==> KeepInterior(xd, bi, |xd| - 2).Ok?
    ensures ok ==> KeepInterior(xd, bi, |xd| - 2) == Ok(keep)
    ensures ok && bi == [] ==> keep == []
  {
    keep := [];
    for i := 1 to |xd| - 2
      invariant KeepInterior(xd, bi, i) == Ok(keep)
      invariant bi == [] ==> keep == []
    {
      var fails;
      keep, fails := InteriorStep(xd, bi, i, keep);
      if fails {
        return keep, false;
      }
    }
    return keep, true;
  }

  /** One pass of that loop over the interior point xd[i]: `true` when its
      runs do not join, so that the whole scan raises; otherwise `i` is
      appended when its runs pass `is_valid_xd`. */
  method InteriorStep(xd: seq<Point>, bi: seq<Point>, i: int, keep: seq<int>) returns (next: seq<int>, fails: bool)
    requires 1 <= i && i + 2 < |xd|
    requires KeepInterior(xd, bi, i) == Ok(keep)
    ensures fails ==> KeepInterior(xd, bi, |xd| - 2).Fail?
    ensures !fails ==> KeepInterior(xd, bi, i + 1) == Ok(next)
    ensures bi == [] ==> next == keep
  {
    var s1 := Filter(bi, PointWithin(xd[i - 1].dt, xd[i].dt));
    var s2 := Filter(bi, PointWithin(xd[i].dt, xd[i + 1].dt));
    var s3 := Filter(bi, PointWithin(xd[i + 1].dt, xd[i + 2].dt));
    assert (s1, s2, s3) == RunsAround(xd, bi, i);
    if |s1| == 0 || |s2| == 0 || |s3| == 0 {
      assert !FailsAt(xd, bi, i) && !PassesAt(xd, bi, i);
      KeepInteriorNext(xd, bi, i, keep);
      return keep, false;
    }
    if !(s2[0].dt == s1[|s1| - 1].dt && s3[0].dt == s2[|s2| - 1].dt) {
      assert FailsAt(xd, bi, i);
      KeepInteriorFailsFrom(xd, bi, i, |xd| - 2);
      return keep, true;
    }
    assert !FailsAt(xd, bi, i);
    KeepInteriorNext(xd, bi, i, keep);
    if IsValidXd(s1, s2, s3) {
      assert PassesAt(xd, bi, i);
      return keep + [i], false;
    }
    assert !PassesAt(xd, bi, i);
    return keep, false;
  }

  /** The body of `_update_bi_list` on the lists it reads. */
  method RebuildStrokes(bi: seq<Point>, fx: seq<Point>, kn: seq<Bar>, raw: seq<Bar>, mode: BiMode)
    returns (r: seq<Point>, ok: bool)
    ensures r == BiListAfter(bi, fx, kn, raw, mode)
    ensures ok <==> !(|fx| >= 2 && kn == [])
  {
    if |fx| < 2 {
      return bi, true;
    }
    r := DropLast(bi, 2);
    if |r| == 0 {
      r := [fx[0]];
    }
    assert r == BiSeed(bi, fx);
    r := StrokeLoop(r, RightFx(r, fx), InspectBars(r, kn, raw, mode));
    assert r == BiScanned(bi, fx, kn, raw, mode);
    if |kn| == 0 {
      return r, false;
    }
    r := InvalidateLast(r, kn[|kn| - 1]);
    return r, true;
  }

  /** The final check of `_update_bi_list`: the last stroke point goes when
      the newest merged bar reaches beyond it. */
  method InvalidateLast(bi: seq<Point>, newest: Bar) returns (r: seq<Point>)
    requires |bi| > 0
    ensures r == BiInvalidate(bi, newest)
  {
    r := bi;
    var last := bi[|bi| - 1];
    if (last.mark == D && newest.low < last.price) || (last.mark == G && newest.high > last.price) {
      r := bi[..|bi| - 1];
    }
  }

  /** The stroke loop of `_update_bi_list` over the fractals `rightFx`. */
  method StrokeLoop(start: seq<Point>, rightFx: seq<Point>, rightKn: seq<Bar>) returns (bi: seq<Point>)
    requires |start| > 0
    ensures bi == BiScan(start, rightFx, rightKn)
  {
    bi := start;
    for i := 0 to |rightFx|
      invariant |bi| > 0
      invariant BiScan(bi, rightFx[i..], rightKn) == BiScan(start, rightFx, rightKn)
    {
      assert rightFx[i..][1..] == rightFx[i + 1..];
      bi := StrokeStep(bi, rightFx[i], rightKn);
    }
  }

  /** One pass of the stroke loop over the fractal `p`. */
  method StrokeStep(bi: seq<Point>, p: Point, rightKn: seq<Bar>) returns (r: seq<Point>)
    requires |bi| > 0
    ensures r == BiStep(bi, p, rightKn)
  {
    r := bi;
    var last := bi[|bi| - 1];
    if last.mark == p.mark {
      if (last.mark == G && last.price < p.price) || (last.mark == D && last.price > p.price) {
        r := bi[..|bi| - 1] + [p];
      }
    } else {
      var inside := Filter(rightKn, BarStrictlyBetween(last.endDt, p.startDt));
      if |inside| <= 0 {
        return;
      }
      if (last.mark == G && p.fxLow < last.fxLow && p.fxHigh < last.fxHigh) ||
         (last.mark == D && p.fxHigh > last.fxHigh && p.fxLow > last.fxLow) {
        r := bi + [p];
      }
    }
  }

  /** The segment loop of `_update_xd_list_v1` over the potential segment
      points `xdP`; `rightBi` supplies the strokes counted between points. */
  method SegmentLoop(start: seq<Point>, xdP: seq<Point>, rightBi: seq<Point>) returns (xd: seq<Point>)
    requires |start| > 0
    ensures xd == XdScan(start, xdP, rightBi)
  {
    xd := start;
    for i := 0 to |xdP|
      invariant |xd| > 0
      invariant XdScan(xd, xdP[i..], rightBi) == XdScan(start, xdP, rightBi)
    {
      assert xdP[i..][1..] == xdP[i + 1..];
      xd := SegmentStep(xd, xdP[i], rightBi);
    }
  }

  /** One pass of the segment loop over the potential point `p`. */
  method SegmentStep(xd: seq<Point>, p: Point, rightBi: seq<Point>) returns (r: seq<Point>)
    requires |xd| > 0
    ensures r == XdStep(xd, p, rightBi)
  {
    r := xd;
    var last := xd[|xd| - 1];
    if last.mark == p.mark {
      if (last.mark == D && last.price > p.price) || (last.mark == G && last.price < p.price) {
        r := xd[..|xd| - 1] + [p];
      }
    } else {
      if (last.mark == D && last.price > p.price) || (last.mark == G && last.price < p.price) {
        return;
      }
      var inside := Filter(rightBi, PointWithin(last.dt, p.dt));
      if |inside| < 4 {
        return;
      }
      r := xd + [p];
    }
  }

  /** The merge loop of `_update_kline_new`: each raw bar either nests with
      the last merged bar and is absorbed into it, or is appended. */
  method MergeLoop(start: seq<Bar>, rightK: seq<Bar>) returns (kn: seq<Bar>)
    requires |start| >= 2
    ensures kn == MergeScan(start, rightK)
  {
    kn := start;
    var i := 0;
    while i < |rightK|
      invariant 0 <= i <= |rightK|
      invariant |kn| >= 2
      invariant MergeScan(kn, rightK[i..]) == MergeScan(start, rightK)
    {
      var k := rightK[i];
      var last := kn[|kn| - 1];
      var dir := if last.high > kn[|kn| - 2].high then Up else Down;
      if (k.high <= last.high && k.low >= last.low) || (k.high >= last.high && k.low <= last.low) {
        kn := kn[..|kn| - 1] + [MergeBars(last, k, dir)];
      } else {
        kn := kn + [k];
      }
      assert rightK[i..][1..] == rightK[i + 1..];
      i := i + 1;
    }
  }

  /** The scan of `_update_fx_list` over the window `kn`: a fractal at every
      bar higher (lower) than both neighbours; `ok` is false when `has_gap`
      raises on a pair out of time order, with the fractals found before it. */
  method FractalLoop(kn: seq<Bar>) returns (found: seq<Point>, ok: bool)
    ensures (found, ok) == FxScan(kn, 1)
  {
    found := [];
    var i := 1;
    while i + 1 < |kn|
      invariant 1 <= i
      invariant found + FxScan(kn, i).0 == FxScan(kn, 1).0
      invariant FxScan(kn, i).1 == FxScan(kn, 1).1
      decreases |kn| - i
    {
      var k1 := kn[i - 1];
      var k2 := kn[i];
      var k3 := kn[i + 1];
      if k1.dt >= k2.dt {
        assert FxScan(kn, i) == ([], false) && found + [] == found;
        return found, false;
      }
      var gapLeft := HasGap(k1, k2);
      if k2.dt >= k3.dt {
        assert FxScan(kn, i) == ([], false) && found + [] == found;
        return found, false;
      }
      var gapRight := HasGap(k2, k3);
      var here := DetectFractal(k1, k2, k3, gapLeft, gapRight);
      found := found + here;
      i := i + 1;
    }
    assert FxScan(kn, i) == ([], true) && found + [] == found;
    return found, true;
  }

  /** The fractal test on one triple, with the gap flags computed by the
      caller: a peak's low envelope and a trough's high envelope take in a
      neighbour only when no gap separates it. */
  method DetectFractal(k1: Bar, k2: Bar, k3: Bar, gapLeft: bool, gapRight: bool) returns (here: seq<Point>)
    requires k1.dt < k2.dt < k3.dt
    requires gapLeft == HasGap(k1, k2) && gapRight == HasGap(k2, k3)
    ensures here == OptionToSeq(FractalAt(k1, k2, k3))
  {
    if k1.high < k2.high && k2.high > k3.high {
      var low := k2.low;
      if !gapLeft { low := Min(k1.low, low); }
      if !gapRight { low := Min(low, k3.low); }
      assert low == EnvelopeLow(k1, k2, k3);
      here := [Point(k2.dt, G, k2.high, k1.dt, k3.dt, k2.high, low)];
    } else if k1.low > k2.low && k2.low < k3.low {
      var high := k2.high;
      if !gapLeft { high := Max(k1.high, high); }
      if !gapRight { high := Max(high, k3.high); }
      assert high == EnvelopeHigh(k1, k2, k3);
      here := [Point(k2.dt, D, k2.low, k1.dt, k3.dt, high, k2.low)];
    } else {
      here := [];
    }
  }
}
