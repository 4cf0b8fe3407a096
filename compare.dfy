/** The free functions at the top of czsc/analyze.py: the gap test between two
    bars, the standardised characteristic sequence of a run of strokes, the
    validity test of a segment point, and the potential segment points. */
module Compare {
  import opened ChanTypes

  /** Gap threshold of `has_gap` (0.2%). */
  const MinGap: real := 0.002

  /** There is a price gap between `k1` and the later `k2`: one bar's high is
      below the other's low scaled down by the threshold. The source asserts
      that `k2` is later. */
  predicate HasGap(k1: Bar, k2: Bar)
    requires k1.dt < k2.dt
  {
    k1.high < k2.low * (1.0 - MinGap) || k2.high < k1.low * (1.0 - MinGap)
  }

  /** For non-negative prices a gap means the two price ranges are disjoint,
      so overlapping bars never have one. */
  lemma HasGapSeparates(k1: Bar, k2: Bar)
    requires k1.dt < k2.dt && k1.low >= 0.0 && k2.low >= 0.0
    ensures HasGap(k1, k2) ==> k1.high < k2.low || k2.high < k1.low
    ensures k1.low <= k2.high && k2.low <= k1.high ==> !HasGap(k1, k2)
  {
  }

  /** Either range nests inside the other ("left or right containment"). */
  predicate Nested(lastHigh: real, lastLow: real, curHigh: real, curLow: real)
  {
    (curHigh <= lastHigh && curLow >= lastLow) || (curHigh >= lastHigh && curLow <= lastLow)
  }

  /** Merge direction of a characteristic sequence: "up" after a trough. */
  function SeqDirection(first: Point): (dir: Direction)
    ensures dir == Up <==> first.mark == D
  {
    match first.mark
    case D => Up
    case G => Down
  }

  predicate RangeWellFormed(c: CharRange) { c.low <= c.high }

  /** The strokes `s[i], s[i+1]` for odd `i` with `i + 1 < |s|`, each as the
      price range it spans. */
  function RawPairs(s: seq<Point>): (r: seq<CharRange>)
    ensures |r| == if |s| < 3 then 0 else (|s| - 1) / 2
    ensures forall j :: 0 <= j < |r| ==> RangeWellFormed(r[j])
    ensures forall j :: 0 <= j < |r| ==>
      r[j].startDt == s[2 * j + 1].dt && r[j].endDt == s[2 * j + 2].dt &&
      r[j].high == Max(s[2 * j + 1].price, s[2 * j + 2].price) &&
      r[j].low == Min(s[2 * j + 1].price, s[2 * j + 2].price)
  {
    if |s| < 3 then []
    else
      var rest := RawPairs(s[2..]);
      assert forall j :: 0 <= j < |rest| ==> s[2..][2 * j + 1] == s[2 * (j + 1) + 1];
      [CharRange(s[1].dt, s[2].dt, Max(s[1].price, s[2].price), Min(s[1].price, s[2].price))] + rest
  }

  /** One step of the containment merge: `row` either replaces the last entry
      by their merge (both bounds by max going up, by min going down) or is
      appended. */
  function StdStep(acc: seq<CharRange>, row: CharRange, dir: Direction): (r: seq<CharRange>)
    ensures acc == [] ==> r == [row]
    ensures acc != [] && Nested(acc[|acc| - 1].high, acc[|acc| - 1].low, row.high, row.low) ==>
      var last := acc[|acc| - 1];
      |r| == |acc| && r[..|acc| - 1] == acc[..|acc| - 1] &&
      r[|acc| - 1] == CharRange(last.startDt, row.endDt,
                                if dir == Up then Max(last.high, row.high) else Min(last.high, row.high),
                                if dir == Up then Max(last.low, row.low) else Min(last.low, row.low))
    ensures acc != [] && !Nested(acc[|acc| - 1].high, acc[|acc| - 1].low, row.high, row.low) ==>
      r == acc + [row]
  {
    if acc == [] then [row]
    else
      var last := acc[|acc| - 1];
      if Nested(last.high, last.low, row.high, row.low) then
        var h := if dir == Up then Max(last.high, row.high) else Min(last.high, row.high);
        var l := if dir == Up then Max(last.low, row.low) else Min(last.low, row.low);
        acc[..|acc| - 1] + [CharRange(last.startDt, row.endDt, h, l)]
      else acc + [row]
  }

  function StdFold(acc: seq<CharRange>, rows: seq<CharRange>, dir: Direction): (r: seq<CharRange>)
    decreases |rows|
  {
    if rows == [] then acc else StdFold(StdStep(acc, rows[0], dir), rows[1..], dir)
  }

  /** The folded sequence is never longer than its inputs together, and keeps
      every range well formed. */
  lemma {:induction false} StdFoldShape(acc: seq<CharRange>, rows: seq<CharRange>, dir: Direction)
    requires forall j :: 0 <= j < |acc| ==> RangeWellFormed(acc[j])
    requires forall j :: 0 <= j < |rows| ==> RangeWellFormed(rows[j])
    ensures |StdFold(acc, rows, dir)| <= |acc| + |rows|
    ensures forall j :: 0 <= j < |StdFold(acc, rows, dir)| ==> RangeWellFormed(StdFold(acc, rows, dir)[j])
    decreases |rows|
  {
    if rows != [] {
      var next := StdStep(acc, rows[0], dir);
      forall j | 0 <= j < |next| ensures RangeWellFormed(next[j]) {
        if j < |acc| - 1 { assert next[j] == acc[j]; }
      }
      StdFoldShape(next, rows[1..], dir);
    }
  }

  /** `seq_standardized`: the standardised characteristic sequence of a run
      of stroke points. */
  function SeqStandardized(s: seq<Point>): (r: seq<CharRange>)
    requires |s| > 0
    ensures |r| <= (|s| - 1) / 2
    ensures forall j :: 0 <= j < |r| ==> r[j].low <= r[j].high
    ensures |s| >= 3 ==> |r| > 0
  {
    var rows := RawPairs(s);
    StdFoldShape([], rows, SeqDirection(s[0]));
    StdFoldNonEmpty(rows, SeqDirection(s[0]));
    StdFold([], rows, SeqDirection(s[0]))
  }

  lemma StdFoldNonEmpty(rows: seq<CharRange>, dir: Direction)
    ensures rows != [] ==> StdFold([], rows, dir) != []
  {
    if rows != [] { StdFoldKeepsNonEmpty(StdStep([], rows[0], dir), rows[1..], dir); }
  }

  lemma {:induction false} StdFoldKeepsNonEmpty(acc: seq<CharRange>, rows: seq<CharRange>, dir: Direction)
    requires acc != []
    ensures StdFold(acc, rows, dir) != []
    decreases |rows|
  {
    if rows != [] { StdFoldKeepsNonEmpty(StdStep(acc, rows[0], dir), rows[1..], dir); }
  }

  function Lows(c: seq<CharRange>): (r: seq<real>)
    ensures |r| == |c| && forall j :: 0 <= j < |c| ==> r[j] == c[j].low
  {
    if c == [] then [] else [c[0].low] + Lows(c[1..])
  }

  function Highs(c: seq<CharRange>): (r: seq<real>)
    ensures |r| == |c| && forall j :: 0 <= j < |c| ==> r[j] == c[j].high
  {
    if c == [] then [] else [c[0].high] + Highs(c[1..])
  }

  /** Entry `i` of a characteristic sequence is a top fractal. */
  predicate IsTop(c: seq<CharRange>, i: int)
  {
    1 <= i < |c| - 1 && c[i - 1].high < c[i].high && c[i].high > c[i + 1].high
  }

  /** Entry `i` of a characteristic sequence is a bottom fractal. */
  predicate IsBottom(c: seq<CharRange>, i: int)
  {
    1 <= i < |c| - 1 && c[i - 1].low > c[i].low && c[i].low < c[i + 1].low
  }

  /** The breach case of a downward segment: the standardised sequence of the
      extended middle span has a top fractal, and none of them reaches below the
      anchor price (the scan in the source returns False at the first one that
      does, and False when there is none). */
  predicate OpposingTopFound(c: seq<CharRange>, anchor: real)
  {
    (exists i :: 0 <= i < |c| && IsTop(c, i)) &&
    forall i :: 0 <= i < |c| && IsTop(c, i) ==> Min(c[i - 1].low, Min(c[i].low, c[i + 1].low)) >= anchor
  }

  /** The mirror case for an upward segment. */
  predicate OpposingBottomFound(c: seq<CharRange>, anchor: real)
  {
    (exists i :: 0 <= i < |c| && IsBottom(c, i)) &&
    forall i :: 0 <= i < |c| && IsBottom(c, i) ==> Max(c[i - 1].high, Max(c[i].high, c[i + 1].high)) <= anchor
  }

  /** Breach branch: the middle span extended by the strokes after it must
      standardise to at least three entries and contain an opposing fractal
      that stays on the anchor's side. */
  predicate BreachConfirmed(s2: seq<Point>, s3: seq<Point>)
    requires |s2| > 0 && |s3| > 0
  {
    var ext := s2 + s3[1..];
    var std2 := SeqStandardized(ext);
    |std2| >= 3 &&
    (if s2[0].mark == D then OpposingTopFound(std2, s2[0].price)
     else OpposingBottomFound(std2, s2[0].price))
  }

  /** `is_valid_xd`: whether the second of the segment points bracketing the
      stroke runs `s1`, `s2`, `s3` holds. The source asserts that consecutive
      runs share their boundary stroke point. */
  function IsValidXd(s1: seq<Point>, s2: seq<Point>, s3: seq<Point>): (valid: bool)
    requires |s1| > 0 && |s2| > 0 && |s3| > 0
    requires s2[0].dt == s1[|s1| - 1].dt && s3[0].dt == s2[|s2| - 1].dt
    ensures valid ==> |SeqStandardized(s1)| > 0 && |s2| >= 4
  {
    var std1 := SeqStandardized(s1);
    if |std1| == 0 || |s2| < 4 then false
    else
      var minLow := SeqMin(Lows(std1));
      var maxHigh := SeqMax(Highs(std1));
      var second := s2[1].price;
      var last := s2[|s2| - 1].price;
      if s2[0].mark == D && second >= minLow && last < second then false
      else if s2[0].mark == G && second <= maxHigh && last > second then false
      else if s2[0].mark == D && second < minLow then BreachConfirmed(s2, s3)
      else if s2[0].mark == G && second > maxHigh then BreachConfirmed(s2, s3)
      else true
  }

  /** The outcome of `is_valid_xd`, case by case. */
  lemma IsValidXdRejects(s1: seq<Point>, s2: seq<Point>, s3: seq<Point>)
    requires |s1| > 0 && |s2| > 0 && |s3| > 0
    requires s2[0].dt == s1[|s1| - 1].dt && s3[0].dt == s2[|s2| - 1].dt
    requires |SeqStandardized(s1)| > 0 && |s2| >= 4
    ensures var std1 := SeqStandardized(s1);
      var std2 := SeqStandardized(s2 + s3[1..]);
      // no breach: the point holds exactly when the span does not end beyond
      // its second stroke point (below it after a trough, above after a peak)
      (s2[0].mark == D && s2[1].price >= SeqMin(Lows(std1)) ==>
        (IsValidXd(s1, s2, s3) <==> s2[|s2| - 1].price >= s2[1].price)) &&
      (s2[0].mark == G && s2[1].price <= SeqMax(Highs(std1)) ==>
        (IsValidXd(s1, s2, s3) <==> s2[|s2| - 1].price <= s2[1].price)) &&
      // breach cases: too short an extended sequence, or no opposing fractal
      (s2[0].mark == D && s2[1].price < SeqMin(Lows(std1)) ==>
        (IsValidXd(s1, s2, s3) <==> |std2| >= 3 && OpposingTopFound(std2, s2[0].price))) &&
      (s2[0].mark == G && s2[1].price > SeqMax(Highs(std1)) ==>
        (IsValidXd(s1, s2, s3) <==> |std2| >= 3 && OpposingBottomFound(std2, s2[0].price)))
  {
  }

  /** Strict local minima (by price) of a sequence, in order. */
  function LocalMinima(s: seq<Point>): (r: seq<Point>)
    decreases |s|
  {
    if |s| < 3 then []
    else (if s[0].price > s[1].price && s[1].price < s[2].price then [s[1]] else []) + LocalMinima(s[1..])
  }

  /** Strict local maxima (by price) of a sequence, in order. */
  function LocalMaxima(s: seq<Point>): (r: seq<Point>)
    decreases |s|
  {
    if |s| < 3 then []
    else (if s[0].price < s[1].price && s[1].price > s[2].price then [s[1]] else []) + LocalMaxima(s[1..])
  }

  predicate IsLocalMin(s: seq<Point>, i: int)
  {
    1 <= i < |s| - 1 && s[i - 1].price > s[i].price && s[i].price < s[i + 1].price
  }

  predicate IsLocalMax(s: seq<Point>, i: int)
  {
    1 <= i < |s| - 1 && s[i - 1].price < s[i].price && s[i].price > s[i + 1].price
  }

  /** Exactly the strict local minima are kept. */
  lemma {:induction false} LocalMinimaExact(s: seq<Point>, x: Point)
    ensures x in LocalMinima(s) <==> exists i :: 0 <= i < |s| && IsLocalMin(s, i) && s[i] == x
    decreases |s|
  {
    if |s| >= 3 {
      LocalMinimaExact(s[1..], x);
      if exists i :: 0 <= i < |s| && IsLocalMin(s, i) && s[i] == x {
        var i :| 0 <= i < |s| && IsLocalMin(s, i) && s[i] == x;
        if i > 1 { assert IsLocalMin(s[1..], i - 1) && s[1..][i - 1] == x; }
      }
      if exists i :: 0 <= i < |s[1..]| && IsLocalMin(s[1..], i) && s[1..][i] == x {
        var i :| 0 <= i < |s[1..]| && IsLocalMin(s[1..], i) && s[1..][i] == x;
        assert IsLocalMin(s, i + 1) && s[i + 1] == x;
      }
    }
  }

  /** Exactly the strict local maxima are kept. */
  lemma {:induction false} LocalMaximaExact(s: seq<Point>, x: Point)
    ensures x in LocalMaxima(s) <==> exists i :: 0 <= i < |s| && IsLocalMax(s, i) && s[i] == x
    decreases |s|
  {
    if |s| >= 3 {
      LocalMaximaExact(s[1..], x);
      if exists i :: 0 <= i < |s| && IsLocalMax(s, i) && s[i] == x {
        var i :| 0 <= i < |s| && IsLocalMax(s, i) && s[i] == x;
        if i > 1 { assert IsLocalMax(s[1..], i - 1) && s[1..][i - 1] == x; }
      }
      if exists i :: 0 <= i < |s[1..]| && IsLocalMax(s[1..], i) && s[1..][i] == x {
        var i :| 0 <= i < |s[1..]| && IsLocalMax(s[1..], i) && s[1..][i] == x;
        assert IsLocalMax(s, i + 1) && s[i + 1] == x;
      }
    }
  }

  predicate SortedByDt(s: seq<Point>)
  {
    forall i :: 1 <= i < |s| ==> s[i - 1].dt <= s[i].dt
  }

  /** Inserts `x` before the first entry that is not earlier than it. */
  function InsertByDt(x: Point, s: seq<Point>): (r: seq<Point>)
    requires SortedByDt(s)
    ensures SortedByDt(r) && multiset(r) == multiset(s) + multiset{x}
    ensures |r| == |s| + 1
    ensures s != [] ==> r[0] == x || r[0] == s[0]
  {
    if s == [] || x.dt <= s[0].dt then [x] + s
    else
      var rest := InsertByDt(x, s[1..]);
      assert s == [s[0]] + s[1..];
      [s[0]] + rest
  }

  /** Python's stable `sorted(..., key=dt)`, as an insertion sort. */
  function SortByDt(s: seq<Point>): (r: seq<Point>)
    ensures SortedByDt(r) && multiset(r) == multiset(s)
  {
    if s == [] then []
    else
      assert s == [s[0]] + s[1..];
      InsertByDt(s[0], SortByDt(s[1..]))
  }

  /** `get_potential_xd`: the strict local minima among the trough points and
      the strict local maxima among the peak points, each kept as often as it
      occurs, ordered by time. */
  function GetPotentialXd(bi: seq<Point>): (r: seq<Point>)
    ensures SortedByDt(r)
    ensures multiset(r) == multiset(LocalMinima(Filter(bi, PointMarked(D))) + LocalMaxima(Filter(bi, PointMarked(G))))
    ensures forall x :: x in r ==>
      (x in LocalMinima(Filter(bi, PointMarked(D))) || x in LocalMaxima(Filter(bi, PointMarked(G))))
    ensures forall x :: x in LocalMinima(Filter(bi, PointMarked(D))) ==> x in r
    ensures forall x :: x in LocalMaxima(Filter(bi, PointMarked(G))) ==> x in r
  {
    var cands := LocalMinima(Filter(bi, PointMarked(D))) + LocalMaxima(Filter(bi, PointMarked(G)));
    var r := SortByDt(cands);
    assert forall x :: x in r <==> x in multiset(r);
    assert forall x :: x in cands <==> x in multiset(cands);
    r
  }

  /** Every potential segment point is a stroke point with the right mark, and
      is a strict local extreme among the stroke points of its mark. */
  lemma PotentialXdAreExtremes(bi: seq<Point>, x: Point)
    requires x in GetPotentialXd(bi)
    ensures x in bi
    ensures x.mark == D ==> exists i :: IsLocalMin(Filter(bi, PointMarked(D)), i) && Filter(bi, PointMarked(D))[i] == x
    ensures x.mark == G ==> exists i :: IsLocalMax(Filter(bi, PointMarked(G)), i) && Filter(bi, PointMarked(G))[i] == x
  {
    var ds := Filter(bi, PointMarked(D));
    var gs := Filter(bi, PointMarked(G));
    FilterMembers(bi, PointMarked(D));
    FilterMembers(bi, PointMarked(G));
    LocalMinimaExact(ds, x);
    LocalMaximaExact(gs, x);
    if x in LocalMinima(ds) {
      var i :| 0 <= i < |ds| && IsLocalMin(ds, i) && ds[i] == x;
      assert x in ds && PointMarked(D)(x);
    } else {
      assert x in LocalMaxima(gs);
      var i :| 0 <= i < |gs| && IsLocalMax(gs, i) && gs[i] == x;
      assert x in gs && PointMarked(G)(x);
      assert IsLocalMax(gs, i) && gs[i] == x;
    }
  }
}
