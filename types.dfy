/** Records shared by every stage of the market-structure pipeline of
    czsc/analyze.py, and the small sequence helpers (Python's list slices and
    comprehension filters) that every stage uses. */
module ChanTypes {

  /** Fractal mark: `G` is a peak ('g', top fractal), `D` a trough ('d'). */
  datatype Mark = G | D

  /** Direction of a move; also the merge direction of containment handling. */
  datatype Direction = Up | Down

  /** A raw or containment-merged K-line bar. Timestamps are integers. */
  datatype Bar = Bar(dt: int, open: real, close: real, high: real, low: real, vol: real)

  /** A fractal, stroke point or segment point. The source keeps the same dict
      and only renames its price key ('fx' -> 'bi' -> 'xd'); here that price is
      `price`. `startDt`/`endDt` are the outer bars of the fractal's window and
      [fxLow, fxHigh] its envelope. */
  datatype Point = Point(dt: int, mark: Mark, price: real, startDt: int, endDt: int,
                         fxHigh: real, fxLow: real)

  /** One entry of a (standardised) characteristic sequence. */
  datatype CharRange = CharRange(startDt: int, endDt: int, high: real, low: real)

  /** A Zn sub-range of a pivot. */
  datatype Zn = Zn(startDt: int, endDt: int, high: real, low: real, mid: real, direction: Direction)

  /** How a pivot was completed: third buy point, third sell point, or not yet. */
  datatype Breakout = Buy3(point: Point) | Sell3(point: Point) | Unbroken

  /** A pivot (zhongshu). */
  datatype Pivot = Pivot(zd: real, zg: real, g: real, gg: real, d: real, dd: real,
                         startPoint: Point, endPoint: Option<Point>, zn: seq<Zn>,
                         points: seq<Point>, zsExtend: bool, zsFinished: bool,
                         breakout: Breakout)

  /** One sample of the MACD series (diff, dea and the histogram `macd`). */
  datatype MacdPoint = MacdPoint(dt: int, diff: real, dea: real, macd: real)

  datatype Option<T> = None | Some(value: T)

  /** The Python exceptions the analysed code can raise on bad data. */
  datatype Failure = IndexError | ValueError | AssertionError

  datatype Result<T> = Ok(value: T) | Fail(failure: Failure)

  function Max(a: real, b: real): real { if a >= b then a else b }
  function Min(a: real, b: real): real { if a <= b then a else b }

  /** Consecutive entries carry different marks. */
  predicate Alternates(s: seq<Point>)
  {
    forall i :: 1 <= i < |s| ==> s[i - 1].mark != s[i].mark
  }

  /** Timestamps strictly increase along the sequence. */
  predicate PointsOrdered(s: seq<Point>)
  {
    forall i :: 1 <= i < |s| ==> s[i - 1].dt < s[i].dt
  }

  predicate BarsOrdered(s: seq<Bar>)
  {
    forall i :: 1 <= i < |s| ==> s[i - 1].dt < s[i].dt
  }

  /** Python's `s[:-n]`: everything but the last `n` entries (empty when
      fewer remain). */
  function DropLast<T>(s: seq<T>, n: nat): (r: seq<T>)
    ensures |r| == if |s| >= n then |s| - n else 0
    ensures r <= s
  {
    if |s| >= n then s[..|s| - n] else []
  }

  /** Python's `s[-n:]` for n > 0: the last `n` entries, or all of `s`. */
  function Tail<T>(s: seq<T>, n: nat): (r: seq<T>)
    ensures |r| == if |s| <= n then |s| else n
    ensures forall i :: 0 <= i < |r| ==> r[i] == s[|s| - |r| + i]
  {
    if |s| <= n then s else s[|s| - n..]
  }

  /** A list comprehension `[x for x in s if p(x)]`. */
  function Filter<T>(s: seq<T>, p: T -> bool): (r: seq<T>)
    ensures |r| <= |s|
  {
    if s == [] then []
    else if p(s[0]) then [s[0]] + Filter(s[1..], p)
    else Filter(s[1..], p)
  }

  /** The filtered sequence holds exactly the elements that satisfy `p`. */
  lemma {:induction false} FilterMembers<T>(s: seq<T>, p: T -> bool)
    ensures forall x :: x in Filter(s, p) <==> x in s && p(x)
  {
    if s != [] {
      FilterMembers(s[1..], p);
      assert s == [s[0]] + s[1..];
    }
  }

  lemma {:induction false} FilterConcat<T>(a: seq<T>, b: seq<T>, p: T -> bool)
    ensures Filter(a + b, p) == Filter(a, p) + Filter(b, p)
  {
    if a == [] {
      assert a + b == b;
    } else {
      assert (a + b)[1..] == a[1..] + b;
      FilterConcat(a[1..], b, p);
    }
  }

  /** Filtering an ordered sequence keeps it ordered. */
  lemma {:induction false} FilterPointsOrdered(s: seq<Point>, p: Point -> bool)
    requires PointsOrdered(s)
    ensures PointsOrdered(Filter(s, p))
  {
    if s != [] {
      var t := Filter(s[1..], p);
      assert PointsOrdered(s[1..]) by {
        forall i | 1 <= i < |s[1..]| ensures s[1..][i - 1].dt < s[1..][i].dt {
          assert s[1..][i - 1] == s[i] && s[1..][i] == s[i + 1];
        }
      }
      FilterPointsOrdered(s[1..], p);
      if p(s[0]) {
        var r := [s[0]] + t;
        assert Filter(s, p) == r;
        if t != [] {
          FilterMembers(s[1..], p);
          assert t[0] in s[1..];
          var k :| 0 <= k < |s[1..]| && s[1..][k] == t[0];
          OrderedFirstBelow(s, k + 1);
        }
        forall i | 1 <= i < |r| ensures r[i - 1].dt < r[i].dt {
          if i > 1 {
            assert r[i - 1] == t[i - 2] && r[i] == t[i - 1];
          }
        }
      }
    }
  }

  lemma {:induction false} OrderedFirstBelow(s: seq<Point>, k: nat)
    requires PointsOrdered(s) && 0 < k < |s|
    ensures s[0].dt < s[k].dt
  {
    if k > 1 { OrderedFirstBelow(s, k - 1); }
  }

  /** In an ordered sequence an earlier entry is strictly earlier in time. */
  lemma OrderedBelow(s: seq<Point>, i: nat, j: nat)
    requires PointsOrdered(s) && i < j < |s|
    ensures s[i].dt < s[j].dt
  {
    OrderedSlice(s, i, |s|);
    OrderedFirstBelow(s[i..], j - i);
  }

  /** Any slice of an ordered sequence is ordered. */
  lemma OrderedSlice(s: seq<Point>, i: nat, j: nat)
    requires PointsOrdered(s) && i <= j <= |s|
    ensures PointsOrdered(s[i..j])
  {
    forall k | 1 <= k < j - i ensures s[i..j][k - 1].dt < s[i..j][k].dt {
      assert s[i..j][k - 1] == s[i + k - 1] && s[i..j][k] == s[i + k];
    }
  }

  /** The last `n` entries of an ordered sequence are ordered. */
  lemma TailOrdered(s: seq<Point>, n: nat)
    requires PointsOrdered(s)
    ensures PointsOrdered(Tail(s, n))
  {
    if |s| > n {
      OrderedSlice(s, |s| - n, |s|);
    }
  }

  /** Two ordered sequences, the second starting after the first ends, join
      into an ordered sequence. */
  lemma OrderedConcat(a: seq<Point>, b: seq<Point>)
    requires PointsOrdered(a) && PointsOrdered(b)
    requires a != [] && b != [] ==> a[|a| - 1].dt < b[0].dt
    ensures PointsOrdered(a + b)
  {
    var c := a + b;
    forall k | 1 <= k < |c| ensures c[k - 1].dt < c[k].dt {
      if k < |a| {
        assert c[k - 1] == a[k - 1];
        assert c[k] == a[k];
      } else if k == |a| {
        assert c[k - 1] == a[|a| - 1];
        assert c[k] == b[0];
      } else {
        assert c[k - 1] == b[k - 1 - |a|];
        assert c[k] == b[k - |a|];
      }
    }
  }

  /** Appending an entry later than the last keeps a sequence ordered. */
  lemma AppendOrdered(s: seq<Point>, p: Point)
    requires PointsOrdered(s) && (s != [] ==> s[|s| - 1].dt < p.dt)
    ensures PointsOrdered(s + [p])
  {
    OrderedConcat(s, [p]);
  }

  /** Replacing the last entry by a later one keeps a sequence ordered. */
  lemma ReplaceLastOrdered(s: seq<Point>, p: Point)
    requires |s| > 0 && PointsOrdered(s) && s[|s| - 1].dt < p.dt
    ensures PointsOrdered(s[..|s| - 1] + [p])
  {
    var n := |s|;
    OrderedSlice(s, 0, n - 1);
    if n > 1 {
      OrderedBelow(s, n - 2, n - 1);
      assert s[..n - 1][n - 2] == s[n - 2];
    }
    OrderedConcat(s[..n - 1], [p]);
  }

  /** Two entries of an ordered sequence with the same time are the same
      entry. */
  lemma SameDtSamePoint(s: seq<Point>, x: Point, y: Point)
    requires PointsOrdered(s) && x in s && y in s && x.dt == y.dt
    ensures x == y
  {
    var i :| 0 <= i < |s| && s[i] == x;
    var j :| 0 <= j < |s| && s[j] == y;
    if i < j {
      OrderedBelow(s, i, j);
    } else if j < i {
      OrderedBelow(s, j, i);
    }
  }

  /** Keeping only the entries later than the one at index `j` of an ordered
      sequence keeps exactly the entries after index `j`. */
  lemma {:induction false} FilterAfterOrdered(s: seq<Point>, j: nat)
    requires PointsOrdered(s) && j < |s|
    ensures Filter(s, PointAfter(s[j].dt)) == s[j + 1..]
  {
    if j == 0 {
      forall i | 0 <= i < |s[1..]| ensures s[1..][i].dt > s[0].dt {
        OrderedFirstBelow(s, i + 1);
      }
      AllAfter(s[1..], s[0].dt);
    } else {
      assert s[1..][j - 1] == s[j];
      FilterAfterOrdered(s[1..], j - 1);
      OrderedFirstBelow(s, j);
      assert s[1..][j - 1 + 1..] == s[j + 1..];
    }
  }

  lemma {:induction false} AllAfter(s: seq<Point>, t: int)
    requires forall i :: 0 <= i < |s| ==> s[i].dt > t
    ensures Filter(s, PointAfter(t)) == s
  {
    if s != [] {
      AllAfter(s[1..], t);
    }
  }

  // Named filter predicates, so that the same comprehension written twice
  // denotes the same function.

  function PointAfter(t: int): Point -> bool { (x: Point) => x.dt > t }
  function PointFrom(t: int): Point -> bool { (x: Point) => x.dt >= t }
  function PointWithin(lo: int, hi: int): Point -> bool { (x: Point) => lo <= x.dt <= hi }
  function PointMarked(m: Mark): Point -> bool { (x: Point) => x.mark == m }
  function BarAfter(t: int): Bar -> bool { (x: Bar) => x.dt > t }
  function BarFrom(t: int): Bar -> bool { (x: Bar) => x.dt >= t }
  function BarWithin(lo: int, hi: int): Bar -> bool { (x: Bar) => lo <= x.dt <= hi }
  function BarStrictlyBetween(lo: int, hi: int): Bar -> bool { (x: Bar) => lo < x.dt < hi }
  function MacdAfter(t: int): MacdPoint -> bool { (x: MacdPoint) => x.dt > t }
  function DtAfter(t: int): int -> bool { (x: int) => x > t }
  function MacdWithin(lo: int, hi: int): MacdPoint -> bool { (x: MacdPoint) => lo <= x.dt <= hi }

  /** The prices of a point sequence. */
  function Prices(s: seq<Point>): (r: seq<real>)
    ensures |r| == |s| && forall i :: 0 <= i < |s| ==> r[i] == s[i].price
  {
    if s == [] then [] else [s[0].price] + Prices(s[1..])
  }

  function SeqMax(xs: seq<real>): (r: real)
    requires |xs| > 0
    ensures r in xs && forall x :: x in xs ==> x <= r
  {
    if |xs| == 1 then xs[0]
    else
      assert xs == [xs[0]] + xs[1..];
      Max(xs[0], SeqMax(xs[1..]))
  }

  function SeqMin(xs: seq<real>): (r: real)
    requires |xs| > 0
    ensures r in xs && forall x :: x in xs ==> r <= x
  {
    if |xs| == 1 then xs[0]
    else
      assert xs == [xs[0]] + xs[1..];
      Min(xs[0], SeqMin(xs[1..]))
  }
}
