/** Power and divergence queries over the MACD histogram
    (`KlineAnalyze.calculate_macd_power`, `is_bei_chi`, `get_sub_section`,
    `get_latest_fd`, `get_last_fd`). The MACD series is an input. */
module Divergence {
  import opened ChanTypes

  /** Which kind of move a power is measured for: a stroke counts the whole
      histogram, a segment only the bars on its own side of zero. */
  datatype PowerMode = PowerBi | PowerXd

  /** A move between two timestamps (the `zs1`/`zs2` arguments of
      `is_bei_chi`). */
  datatype Move = Move(startDt: int, endDt: int, direction: Direction)

  /** A move found by `get_latest_fd`/`get_last_fd`. */
  datatype Fd = Fd(startDt: int, endDt: int, power: real, direction: Direction,
                   high: real, low: real, mode: PowerMode)

  function Abs(x: real): real { if x < 0.0 then -x else x }

  /** What one histogram bar adds to a move's power. */
  function Contribution(x: MacdPoint, mode: PowerMode, dir: Direction): (c: real)
    ensures c >= 0.0
    ensures mode == PowerBi ==> c == Abs(x.macd)
    ensures mode == PowerXd && dir == Up ==> c == (if x.macd > 0.0 then x.macd else 0.0)
    ensures mode == PowerXd && dir == Down ==> c == (if x.macd < 0.0 then -x.macd else 0.0)
  {
    match mode
    case PowerBi => Abs(x.macd)
    case PowerXd =>
      if dir == Up then (if x.macd > 0.0 then x.macd else 0.0)
      else (if x.macd < 0.0 then -x.macd else 0.0)
  }

  function SumPower(s: seq<MacdPoint>, mode: PowerMode, dir: Direction): (r: real)
    ensures r >= 0.0
  {
    if s == [] then 0.0 else Contribution(s[0], mode, dir) + SumPower(s[1..], mode, dir)
  }

  /** `calculate_macd_power`: the power of the move between two timestamps,
      both ends included. */
  function MacdPower(macd: seq<MacdPoint>, startDt: int, endDt: int, mode: PowerMode, dir: Direction): (r: real)
    ensures r >= 0.0
  {
    SumPower(Filter(macd, MacdWithin(startDt, endDt)), mode, dir)
  }

  /** A stroke's power is the sum of the up and the down segment powers over
      the same bars. */
  lemma {:induction false} SumPowerSplit(s: seq<MacdPoint>, dir: Direction)
    ensures SumPower(s, PowerBi, dir) == SumPower(s, PowerXd, Up) + SumPower(s, PowerXd, Down)
  {
    if s != [] {
      SumPowerSplit(s[1..], dir);
    }
  }

  lemma MacdPowerSplit(macd: seq<MacdPoint>, startDt: int, endDt: int, dir: Direction)
    ensures MacdPower(macd, startDt, endDt, PowerBi, dir) ==
      MacdPower(macd, startDt, endDt, PowerXd, Up) + MacdPower(macd, startDt, endDt, PowerXd, Down)
    ensures MacdPower(macd, startDt, endDt, PowerXd, dir) <= MacdPower(macd, startDt, endDt, PowerBi, dir)
  {
    SumPowerSplit(Filter(macd, MacdWithin(startDt, endDt)), dir);
  }

  /** A longer move is at least as powerful: widening the window never lowers
      the power. */
  lemma {:induction false} MacdPowerMonotone(macd: seq<MacdPoint>, s1: int, e1: int, s2: int, e2: int,
                                             mode: PowerMode, dir: Direction)
    requires s2 <= s1 && e1 <= e2
    ensures MacdPower(macd, s1, e1, mode, dir) <= MacdPower(macd, s2, e2, mode, dir)
    decreases |macd|
  {
    if macd != [] {
      MacdPowerMonotone(macd[1..], s1, e1, s2, e2, mode, dir);
    }
  }

  // ---- is_bei_chi ------------------------------------------------------

  function MacdFrom(t: int): MacdPoint -> bool { (x: MacdPoint) => x.dt >= t }
  function MacdUpTo(t: int): MacdPoint -> bool { (x: MacdPoint) => t >= x.dt }

  /** The histogram bars `is_bei_chi` looks at: the last `lastIndex` ones, or
      all of them when it is 0 (Python's `None` or `0`). */
  function BeiChiSource(macd: seq<MacdPoint>, lastIndex: nat): seq<MacdPoint>
  {
    if lastIndex > 0 then Tail(macd, lastIndex) else macd
  }

  /** The power of move `m` within the pre-filtered bars `span`. */
  function MovePower(span: seq<MacdPoint>, m: Move, mode: PowerMode): real
  {
    SumPower(Filter(span, MacdWithin(m.startDt, m.endDt)), mode, m.direction)
  }

  /** The divergence test: power `p1` falls short of `adjust` times `p2`. */
  predicate Weaker(p1: real, p2: real, adjust: real)
  {
    p1 < p2 * adjust
  }

  /** The checks at the top of `is_bei_chi`: `zs1` is the later move and each
      move starts before it ends. */
  predicate MovesWellFormed(zs1: Move, zs2: Move)
  {
    zs1.startDt > zs2.endDt && zs1.startDt < zs1.endDt && zs2.startDt < zs2.endDt
  }

  /** `is_bei_chi`: `zs1` diverges from `zs2` when its power is below
      `adjust` times the power of `zs2`; AssertionError when the moves are
      not well formed. */
  function IsBeiChi(macd: seq<MacdPoint>, zs1: Move, zs2: Move, mode: PowerMode, adjust: real, lastIndex: nat): (r: Result<bool>)
    ensures r.Fail? <==> !MovesWellFormed(zs1, zs2)
    ensures r.Fail? ==> r.failure == AssertionError
  {
    if !MovesWellFormed(zs1, zs2) then Fail(AssertionError)
    else
      var lo := if zs1.startDt <= zs2.startDt then zs1.startDt else zs2.startDt;
      var hi := if zs1.endDt >= zs2.endDt then zs1.endDt else zs2.endDt;
      var span := Filter(Filter(BeiChiSource(macd, lastIndex), MacdFrom(lo)), MacdUpTo(hi));
      Ok(Weaker(MovePower(span, zs1, mode), MovePower(span, zs2, mode), adjust))
  }

  /** Narrowing to [lo, hi] first changes nothing for a move inside it. */
  lemma {:induction false} NarrowedWithin(s: seq<MacdPoint>, lo: int, hi: int, a: int, b: int)
    requires lo <= a && b <= hi
    ensures Filter(Filter(Filter(s, MacdFrom(lo)), MacdUpTo(hi)), MacdWithin(a, b)) == Filter(s, MacdWithin(a, b))
    decreases |s|
  {
    if s != [] {
      NarrowedWithin(s[1..], lo, hi, a, b);
      var f1 := Filter(s, MacdFrom(lo));
      var f2 := Filter(f1, MacdUpTo(hi));
      if lo <= s[0].dt <= hi {
        assert f1 == [s[0]] + Filter(s[1..], MacdFrom(lo));
        assert f1[1..] == Filter(s[1..], MacdFrom(lo));
        assert f2 == [s[0]] + Filter(Filter(s[1..], MacdFrom(lo)), MacdUpTo(hi));
      } else if s[0].dt >= lo {
        assert f1 == [s[0]] + Filter(s[1..], MacdFrom(lo));
        assert f1[1..] == Filter(s[1..], MacdFrom(lo));
        assert f2 == Filter(Filter(s[1..], MacdFrom(lo)), MacdUpTo(hi));
      }
    }
  }

  /** `is_bei_chi` compares exactly the two moves' powers as
      `calculate_macd_power` measures them (a segment's power taken on its
      own direction), over the bars it was given. */
  lemma IsBeiChiIsPowerComparison(macd: seq<MacdPoint>, zs1: Move, zs2: Move, mode: PowerMode, adjust: real, lastIndex: nat)
    requires MovesWellFormed(zs1, zs2)
    ensures var src := BeiChiSource(macd, lastIndex);
      IsBeiChi(macd, zs1, zs2, mode, adjust, lastIndex) ==
        Ok(Weaker(MacdPower(src, zs1.startDt, zs1.endDt, mode, zs1.direction),
                  MacdPower(src, zs2.startDt, zs2.endDt, mode, zs2.direction), adjust))
  {
    var src := BeiChiSource(macd, lastIndex);
    var lo := if zs1.startDt <= zs2.startDt then zs1.startDt else zs2.startDt;
    var hi := if zs1.endDt >= zs2.endDt then zs1.endDt else zs2.endDt;
    var span := Filter(Filter(src, MacdFrom(lo)), MacdUpTo(hi));
    assert IsBeiChi(macd, zs1, zs2, mode, adjust, lastIndex) ==
      Ok(Weaker(MovePower(span, zs1, mode), MovePower(span, zs2, mode), adjust));
    NarrowedWithin(src, lo, hi, zs1.startDt, zs1.endDt);
    NarrowedWithin(src, lo, hi, zs2.startDt, zs2.endDt);
    assert MovePower(span, zs1, mode) == MacdPower(src, zs1.startDt, zs1.endDt, mode, zs1.direction);
    assert MovePower(span, zs2, mode) == MacdPower(src, zs2.startDt, zs2.endDt, mode, zs2.direction);
  }

  /** With an adjustment of at most 1, the later move never diverges when it
      is at least as powerful as the earlier one. */
  lemma NoDivergenceFromWeakerMove(macd: seq<MacdPoint>, zs1: Move, zs2: Move, mode: PowerMode, adjust: real)
    requires MovesWellFormed(zs1, zs2) && 0.0 <= adjust <= 1.0
    requires MacdPower(macd, zs2.startDt, zs2.endDt, mode, zs2.direction) <=
             MacdPower(macd, zs1.startDt, zs1.endDt, mode, zs1.direction)
    ensures IsBeiChi(macd, zs1, zs2, mode, adjust, 0) == Ok(false)
  {
    IsBeiChiIsPowerComparison(macd, zs1, zs2, mode, adjust, 0);
    var p1 := MacdPower(macd, zs1.startDt, zs1.endDt, mode, zs1.direction);
    var p2 := MacdPower(macd, zs2.startDt, zs2.endDt, mode, zs2.direction);
    NotWeaker(p1, p2, adjust);
  }

  lemma NotWeaker(p1: real, p2: real, adjust: real)
    requires 0.0 <= p2 <= p1 && 0.0 <= adjust <= 1.0
    ensures !Weaker(p1, p2, adjust)
  {
    ScaledDown(p2, adjust);
  }

  lemma ScaledDown(p: real, adjust: real)
    requires p >= 0.0 && 0.0 <= adjust <= 1.0
    ensures p * adjust <= p
  {
    assert p - p * adjust == p * (1.0 - adjust);
    assert p * (1.0 - adjust) >= 0.0;
  }

  // ---- get_sub_section -------------------------------------------------

  /** Which list `get_sub_section` reads. */
  datatype SubMode = SubKn | SubFx | SubBi | SubXd

  datatype SubSection = Bars(bars: seq<Bar>) | Points(points: seq<Point>)

  /** How many of the newest entries a "last" sub-section looks at. */
  function RecentWindow(mode: SubMode): nat
  {
    match mode
    case SubKn => 200
    case SubFx => 100
    case SubBi => 50
    case SubXd => 30
  }

  function PointSource(fx: seq<Point>, bi: seq<Point>, xd: seq<Point>, mode: SubMode): seq<Point>
  {
    match mode
    case SubFx => fx
    case SubBi => bi
    case SubXd => xd
    case SubKn => []
  }

  /** `get_sub_section`: the entries of the chosen list (its newest ones when
      `isLast`) with timestamps in [startDt, endDt], in their order. */
  function GetSubSection(kn: seq<Bar>, fx: seq<Point>, bi: seq<Point>, xd: seq<Point>,
                         startDt: int, endDt: int, mode: SubMode, isLast: bool): (r: SubSection)
    ensures r.Bars? <==> mode == SubKn
    ensures r.Bars? ==> forall x :: x in r.bars <==>
      x in (if isLast then Tail(kn, 200) else kn) && startDt <= x.dt <= endDt
    ensures r.Points? ==> var src := PointSource(fx, bi, xd, mode);
      forall x :: x in r.points <==>
        x in (if isLast then Tail(src, RecentWindow(mode)) else src) && startDt <= x.dt <= endDt
  {
    if mode == SubKn then
      FilterMembers(if isLast then Tail(kn, 200) else kn, BarWithin(startDt, endDt));
      Bars(Filter(if isLast then Tail(kn, 200) else kn, BarWithin(startDt, endDt)))
    else
      var src := PointSource(fx, bi, xd, mode);
      FilterMembers(if isLast then Tail(src, RecentWindow(mode)) else src, PointWithin(startDt, endDt));
      Points(Filter(if isLast then Tail(src, RecentWindow(mode)) else src, PointWithin(startDt, endDt)))
  }

  lemma TailMember<T>(s: seq<T>, n: nat, x: T)
    requires x in Tail(s, n)
    ensures x in s
  {
    if |s| > n {
      var t := s[|s| - n..];
      assert Tail(s, n) == t;
      var i :| 0 <= i < |t| && t[i] == x;
      assert s[|s| - n + i] == x;
    }
  }

  /** The recent sub-section is part of the full one. */
  lemma SubSectionRecentIsPart(kn: seq<Bar>, fx: seq<Point>, bi: seq<Point>, xd: seq<Point>,
                               startDt: int, endDt: int, mode: SubMode)
    ensures var recent := GetSubSection(kn, fx, bi, xd, startDt, endDt, mode, true);
      var full := GetSubSection(kn, fx, bi, xd, startDt, endDt, mode, false);
      (recent.Bars? ==> forall x :: x in recent.bars ==> x in full.bars) &&
      (recent.Points? ==> forall x :: x in recent.points ==> x in full.points)
  {
    var recent := GetSubSection(kn, fx, bi, xd, startDt, endDt, mode, true);
    if recent.Bars? {
      forall x | x in recent.bars ensures x in kn {
        TailMember(kn, 200, x);
      }
    } else {
      var src := PointSource(fx, bi, xd, mode);
      forall x | x in recent.points ensures x in src {
        TailMember(src, RecentWindow(mode), x);
      }
    }
  }

  // ---- get_latest_fd ---------------------------------------------------

  /** The move from `p1` to `p2`: up when the price rises. */
  function MoveBetween(macd: seq<MacdPoint>, p1: Point, p2: Point, mode: PowerMode): (f: Fd)
    ensures f.startDt == p1.dt && f.endDt == p2.dt && f.mode == mode
    ensures f.direction == Up <==> p1.price < p2.price
    ensures f.low <= f.high && f.power >= 0.0
    ensures f.power == MacdPower(macd, p1.dt, p2.dt, mode, f.direction)
    ensures p1.price <= f.high && p2.price <= f.high && (f.high == p1.price || f.high == p2.price)
    ensures f.low <= p1.price && f.low <= p2.price && (f.low == p1.price || f.low == p2.price)
  {
    var dir := if p1.price < p2.price then Up else Down;
    Fd(p1.dt, p2.dt, MacdPower(macd, p1.dt, p2.dt, mode, dir), dir,
       Max(p1.price, p2.price), Min(p1.price, p2.price), mode)
  }

  /** The moves between consecutive points of `pts`. */
  function Moves(pts: seq<Point>, macd: seq<MacdPoint>, mode: PowerMode): (r: seq<Fd>)
    ensures |r| == (if |pts| == 0 then 0 else |pts| - 1)
    ensures forall i {:trigger r[i]} :: 0 <= i < |r| ==> r[i] == MoveBetween(macd, pts[i], pts[i + 1], mode)
    decreases |pts|
  {
    if |pts| < 2 then []
    else [MoveBetween(macd, pts[0], pts[1], mode)] + Moves(pts[1..], macd, mode)
  }

  /** `get_latest_fd`: the moves between consecutive points among the last
      `n + 1` stroke (or segment) points. */
  function GetLatestFd(points: seq<Point>, macd: seq<MacdPoint>, n: nat, mode: PowerMode): seq<Fd>
  {
    Moves(Tail(points, n + 1), macd, mode)
  }

  /** The loop of `get_latest_fd`: walks the last `n + 1` points and appends
      the move between each point and the next. */
  method LatestFdLoop(points: seq<Point>, macd: seq<MacdPoint>, n: nat, mode: PowerMode) returns (res: seq<Fd>)
    ensures res == GetLatestFd(points, macd, n, mode)
  {
    var pts := Tail(points, n + 1);
    res := [];
    var i := 0;
    while i + 1 < |pts|
      invariant i == 0 || i < |pts|
      invariant |res| == i
      invariant forall j {:trigger res[j]} :: 0 <= j < i ==> res[j] == MoveBetween(macd, pts[j], pts[j + 1], mode)
    {
      res := res + [MoveBetween(macd, pts[i], pts[i + 1], mode)];
      i := i + 1;
    }
  }

  /** Consecutive moves join, and the last one ends at the last point. */
  lemma MovesChained(pts: seq<Point>, macd: seq<MacdPoint>, mode: PowerMode)
    ensures var r := Moves(pts, macd, mode);
      (forall i :: 1 <= i < |r| ==> r[i - 1].endDt == r[i].startDt) &&
      (r != [] ==> r[|r| - 1].endDt == pts[|pts| - 1].dt)
  {
    var r := Moves(pts, macd, mode);
    forall i | 1 <= i < |r| ensures r[i - 1].endDt == r[i].startDt {
      assert r[i - 1] == MoveBetween(macd, pts[i - 1], pts[i], mode);
      assert r[i] == MoveBetween(macd, pts[i], pts[i + 1], mode);
    }
  }

  /** Consecutive moves join: each starts where the previous one ended, and
      they cover the last `n` points' moves (fewer when the list is short). */
  lemma LatestFdChained(points: seq<Point>, macd: seq<MacdPoint>, n: nat, mode: PowerMode)
    ensures var r := GetLatestFd(points, macd, n, mode);
      |r| <= n && (|points| > n ==> |r| == n) &&
      (forall i :: 1 <= i < |r| ==> r[i - 1].endDt == r[i].startDt) &&
      (r != [] ==> r[|r| - 1].endDt == points[|points| - 1].dt)
  {
    var pts := Tail(points, n + 1);
    var r := GetLatestFd(points, macd, n, mode);
    assert r == Moves(pts, macd, mode);
    assert |r| == if |pts| == 0 then 0 else |pts| - 1;
    assert |pts| <= n + 1 && (|points| > n ==> |pts| == n + 1);
    MovesChained(pts, macd, mode);
    if pts != [] {
      assert pts[|pts| - 1] == points[|points| - 1];
    }
  }

  // ---- get_last_fd -----------------------------------------------------

  /** The newest move from the last confirmed point `p1` to the extreme of
      the opposite-mark points after it among `cands`: the highest peak after
      a trough, the lowest trough after a peak; the end is the first
      candidate at that price, whatever its mark. `minCount` candidates are
      needed; ValueError when no opposite-mark candidate exists. */
  function LastMove(macd: seq<MacdPoint>, p1: Point, cands: seq<Point>, minCount: nat, mode: PowerMode): (r: Result<Option<Fd>>)
    ensures var pts := Filter(cands, PointFrom(p1.dt));
      var opp := if p1.mark == D then G else D;
      (r.Fail? <==> |pts| >= minCount && Filter(pts, PointMarked(opp)) == []) &&
      (r == Ok(None) <==> |pts| < minCount) &&
      (r.Fail? ==> r.failure == ValueError)
    ensures r.Ok? && r.value.Some? ==>
      var f := r.value.value;
      var pts := Filter(cands, PointFrom(p1.dt));
      f.startDt == p1.dt && (f.direction == Up <==> p1.mark == D) && f.mode == mode &&
      f.low <= f.high && f.power >= 0.0 &&
      exists j :: 0 <= j < |pts| && pts[j].dt == f.endDt &&
        (exists k :: 0 <= k < |pts| && pts[k].mark != p1.mark && pts[k].price == pts[j].price) &&
        (forall i :: 0 <= i < j ==> pts[i].price != pts[j].price) &&
        (p1.mark == D ==> forall x :: x in pts && x.mark == G ==> x.price <= pts[j].price) &&
        (p1.mark == G ==> forall x :: x in pts && x.mark == D ==> pts[j].price <= x.price) &&
        f.power == MacdPower(macd, p1.dt, pts[j].dt, mode, f.direction) &&
        f.high == Max(p1.price, pts[j].price) && f.low == Min(p1.price, pts[j].price)
  {
    var pts := Filter(cands, PointFrom(p1.dt));
    var opp := if p1.mark == D then G else D;
    var oppPts := Filter(pts, PointMarked(opp));
    if |pts| < minCount then Ok(None)
    else if oppPts == [] then Fail(ValueError)
    else
      var dir := if p1.mark == D then Up else Down;
      var ext := if p1.mark == D then SeqMax(Prices(oppPts)) else SeqMin(Prices(oppPts));
      ExtremeBounds(pts, oppPts, opp, ext, p1.mark == D);
      var j := FirstAtPrice(pts, ext);
      var p2 := pts[j];
      Ok(Some(Fd(p1.dt, p2.dt, MacdPower(macd, p1.dt, p2.dt, mode, dir), dir,
                 Max(p1.price, p2.price), Min(p1.price, p2.price), mode)))
  }

  lemma PriceIn(s: seq<Point>, x: Point)
    requires x in s
    ensures x.price in Prices(s)
  {
    var m :| 0 <= m < |s| && s[m] == x;
    assert Prices(s)[m] == x.price;
  }

  /** The extreme price is an opposite-mark candidate's price, and bounds all
      of them. */
  lemma ExtremeBounds(pts: seq<Point>, oppPts: seq<Point>, opp: Mark, ext: real, isMax: bool)
    requires oppPts == Filter(pts, PointMarked(opp)) && oppPts != []
    requires ext == (if isMax then SeqMax(Prices(oppPts)) else SeqMin(Prices(oppPts)))
    ensures exists i :: 0 <= i < |pts| && pts[i].price == ext && pts[i].mark == opp
    ensures isMax ==> forall x :: x in pts && x.mark == opp ==> x.price <= ext
    ensures !isMax ==> forall x :: x in pts && x.mark == opp ==> ext <= x.price
  {
    FilterMembers(pts, PointMarked(opp));
    var ps := Prices(oppPts);
    var k :| 0 <= k < |ps| && ps[k] == ext;
    assert oppPts[k] in pts && oppPts[k].mark == opp;
    var i :| 0 <= i < |pts| && pts[i] == oppPts[k];
    assert pts[i].price == ext && pts[i].mark == opp;
    forall x | x in pts && x.mark == opp ensures x.price in ps {
      PriceIn(oppPts, x);
    }
  }

  /** Index of the first point at price `v` (`[x for x in points if ...][0]`). */
  function FirstAtPrice(pts: seq<Point>, v: real): (j: nat)
    requires exists i :: 0 <= i < |pts| && pts[i].price == v
    ensures j < |pts| && pts[j].price == v
    ensures forall i :: 0 <= i < j ==> pts[i].price != v
  {
    if pts[0].price == v then 0
    else
      assert exists i :: 0 <= i < |pts[1..]| && pts[1..][i].price == v by {
        var i :| 0 <= i < |pts| && pts[i].price == v;
        assert pts[1..][i - 1] == pts[i];
      }
      1 + FirstAtPrice(pts[1..], v)
  }

  /** `get_last_fd`: for strokes, the move from the last stroke point over the
      newest 60 fractals (IndexError with no stroke point; none with fewer
      than two fractals from it); for segments, the move from the last
      segment point over the newest 60 stroke points (none with no segment
      point or fewer than four strokes from it). */
  function GetLastFd(fx: seq<Point>, bi: seq<Point>, xd: seq<Point>, macd: seq<MacdPoint>, mode: PowerMode): (r: Result<Option<Fd>>)
    ensures mode == PowerBi && bi == [] ==> r == Fail(IndexError)
    ensures mode == PowerXd && xd == [] ==> r == Ok(None)
    ensures mode == PowerBi && bi != [] ==> r == LastMove(macd, bi[|bi| - 1], Tail(fx, 60), 2, PowerBi)
    ensures mode == PowerXd && xd != [] ==> r == LastMove(macd, xd[|xd| - 1], Tail(bi, 60), 4, PowerXd)
  {
    match mode
    case PowerBi =>
      if bi == [] then Fail(IndexError)
      else LastMove(macd, bi[|bi| - 1], Tail(fx, 60), 2, PowerBi)
    case PowerXd =>
      if xd == [] then Ok(None)
      else LastMove(macd, xd[|xd| - 1], Tail(bi, 60), 4, PowerXd)
  }
}
