/**
 Order statistics and the linear-interpolation quantile (numpy's default method,
 Hyndman and Fan type 7) over exact reals.

 Everything the admission policy and its calibrator promise about budgets and about the
 conservatism parameter rests on one fact proved here: replacing every draw by a larger
 one can only raise each order statistic, hence each quantile.
 */
module Quantiles {

  function Insert(x: real, s: seq<real>): (r: seq<real>)
    ensures |r| == |s| + 1
    ensures multiset(r) == multiset(s) + multiset{x}
  {
    if |s| == 0 || x <= s[0] then [x] + s
    else
      assert s == [s[0]] + s[1..];
      [s[0]] + Insert(x, s[1..])
  }

  /** Ascending sort. */
  function Sort(s: seq<real>): (r: seq<real>)
    ensures |r| == |s|
    ensures multiset(r) == multiset(s)
  {
    if s == [] then []
    else
      assert s == [s[0]] + s[1..];
      Insert(s[0], Sort(s[1..]))
  }

  ghost predicate Ascending(s: seq<real>) {
    forall i, j | 0 <= i <= j < |s| :: s[i] <= s[j]
  }

  lemma {:induction false} InsertAscending(x: real, s: seq<real>)
    requires Ascending(s)
    ensures Ascending(Insert(x, s))
  {
    if |s| == 0 || x <= s[0] {
    } else {
      var r := Insert(x, s[1..]);
      InsertAscending(x, s[1..]);
      forall j | 0 <= j < |r| ensures s[0] <= r[j] {
        assert r[j] in multiset(r);
        assert r[j] in multiset(s[1..]) || r[j] == x;
      }
    }
  }

  lemma {:induction false} SortAscending(s: seq<real>)
    ensures Ascending(Sort(s))
  {
    if s != [] {
      SortAscending(s[1..]);
      InsertAscending(s[0], Sort(s[1..]));
    }
  }

  /** How many members of `s` are at most `v`. */
  function CountAtMost(s: seq<real>, v: real): nat {
    if s == [] then 0 else (if s[0] <= v then 1 else 0) + CountAtMost(s[1..], v)
  }

  lemma {:induction false} CountInsert(x: real, s: seq<real>, v: real)
    ensures CountAtMost(Insert(x, s), v) == CountAtMost(s, v) + if x <= v then 1 else 0
  {
    if |s| == 0 || x <= s[0] {
      assert ([x] + s)[1..] == s;
    } else {
      CountInsert(x, s[1..], v);
      assert ([s[0]] + Insert(x, s[1..]))[1..] == Insert(x, s[1..]);
    }
  }

  lemma {:induction false} CountSort(s: seq<real>, v: real)
    ensures CountAtMost(Sort(s), v) == CountAtMost(s, v)
  {
    if s != [] {
      CountSort(s[1..], v);
      CountInsert(s[0], Sort(s[1..]), v);
    }
  }

  lemma {:induction false} CountAscending(s: seq<real>, k: nat, v: real)
    requires Ascending(s) && k < |s|
    ensures s[k] <= v <==> CountAtMost(s, v) >= k + 1
    ensures s[0] > v ==> CountAtMost(s, v) == 0
  {
    if |s| > 1 {
      CountAscending(s[1..], if k == 0 then 0 else k - 1, v);
    }
  }

  /** The k-th order statistic is characterised by counting, with no mention of sorting. */
  lemma OrderStatistic(s: seq<real>, k: nat, v: real)
    requires k < |s|
    ensures Sort(s)[k] <= v <==> CountAtMost(s, v) >= k + 1
  {
    SortAscending(s);
    CountSort(s, v);
    CountAscending(Sort(s), k, v);
  }

  ghost predicate Dominated(s: seq<real>, t: seq<real>) {
    |s| == |t| && forall i | 0 <= i < |s| :: s[i] <= t[i]
  }

  lemma {:induction false} CountDominated(s: seq<real>, t: seq<real>, v: real)
    requires Dominated(s, t)
    ensures CountAtMost(t, v) <= CountAtMost(s, v)
  {
    if s != [] {
      assert s[0] <= t[0];
      CountDominated(s[1..], t[1..], v);
    }
  }

  lemma OrderStatisticMonotone(s: seq<real>, t: seq<real>, k: nat)
    requires Dominated(s, t) && k < |s|
    ensures Sort(s)[k] <= Sort(t)[k]
  {
    var v := Sort(t)[k];
    OrderStatistic(t, k, v);
    CountDominated(s, t, v);
    OrderStatistic(s, k, v);
  }

  lemma SortDominated(s: seq<real>, t: seq<real>)
    requires Dominated(s, t)
    ensures Dominated(Sort(s), Sort(t))
  {
    forall k | 0 <= k < |s| ensures Sort(s)[k] <= Sort(t)[k] {
      OrderStatisticMonotone(s, t, k);
    }
  }

  function Lerp(a: real, b: real, t: real): real {
    a + t * (b - a)
  }

  lemma NonNegativeProduct(x: real, y: real)
    requires x >= 0.0 && y >= 0.0
    ensures x * y >= 0.0
  {
  }

  lemma LerpMonotone(a: real, b: real, c: real, d: real, t: real)
    requires a <= c && b <= d && 0.0 <= t <= 1.0
    ensures Lerp(a, b, t) <= Lerp(c, d, t)
  {
    NonNegativeProduct(1.0 - t, c - a);
    NonNegativeProduct(t, d - b);
    assert Lerp(c, d, t) - Lerp(a, b, t) == (1.0 - t) * (c - a) + t * (d - b);
  }

  /** The value of the piecewise-linear curve through the points (k, a[k]) at `pos`. */
  function Interpolate(a: seq<real>, pos: real): real
    requires |a| > 0 && pos >= 0.0
  {
    var lo := pos.Floor;
    if lo + 1 < |a| then Lerp(a[lo], a[lo + 1], pos - lo as real) else a[|a| - 1]
  }

  lemma InterpolateMonotone(a: seq<real>, b: seq<real>, pos: real)
    requires |a| > 0 && pos >= 0.0
    requires Dominated(a, b)
    ensures Interpolate(a, pos) <= Interpolate(b, pos)
  {
    var lo := pos.Floor;
    if lo + 1 < |a| {
      LerpMonotone(a[lo], a[lo + 1], b[lo], b[lo + 1], pos - lo as real);
    }
  }

  /** The fractional rank of the `alpha` quantile among `n` sorted draws. */
  function Position(n: nat, alpha: real): (pos: real)
    requires n > 0 && 0.0 <= alpha <= 1.0
    ensures pos >= 0.0
  {
    NonNegativeProduct(alpha, (n - 1) as real);
    alpha * (n - 1) as real
  }

  /** `numpy.quantile(s, alpha)`; numpy rejects an `alpha` outside [0, 1] and an empty array. */
  function Quantile(s: seq<real>, alpha: real): real
    requires |s| > 0 && 0.0 <= alpha <= 1.0
  {
    Interpolate(Sort(s), Position(|s|, alpha))
  }

  /** Raising every draw cannot lower a quantile. */
  lemma QuantileMonotone(s: seq<real>, t: seq<real>, alpha: real)
    requires |s| > 0 && 0.0 <= alpha <= 1.0
    requires Dominated(s, t)
    ensures Quantile(s, alpha) <= Quantile(t, alpha)
  {
    SortDominated(s, t);
    InterpolateMonotone(Sort(s), Sort(t), Position(|s|, alpha));
  }

  lemma SortConstant(s: seq<real>, c: real)
    requires forall i | 0 <= i < |s| :: s[i] == c
    ensures forall k | 0 <= k < |s| :: Sort(s)[k] == c
  {
    forall k | 0 <= k < |s| ensures Sort(s)[k] == c {
      assert Sort(s)[k] in multiset(Sort(s));
      assert Sort(s)[k] in s;
    }
  }

  lemma InterpolateConstant(a: seq<real>, pos: real, c: real)
    requires |a| > 0 && pos >= 0.0
    requires forall k | 0 <= k < |a| :: a[k] == c
    ensures Interpolate(a, pos) == c
  {
  }

  /** A quantile of equal draws is their common value. */
  lemma QuantileConstant(s: seq<real>, alpha: real, c: real)
    requires |s| > 0 && 0.0 <= alpha <= 1.0
    requires forall i | 0 <= i < |s| :: s[i] == c
    ensures Quantile(s, alpha) == c
  {
    SortConstant(s, c);
    InterpolateConstant(Sort(s), Position(|s|, alpha), c);
  }

  // ------------------------------------------------------------------ which end a quantile is at

  lemma InterpolateBetween(a: seq<real>, pos: real, k: nat)
    requires Ascending(a) && k < |a| && pos >= 0.0
    ensures k as real <= pos ==> a[k] <= Interpolate(a, pos)
    ensures pos <= k as real ==> Interpolate(a, pos) <= a[k]
  {
    var lo := pos.Floor;
    if lo + 1 < |a| {
      var t := pos - lo as real;
      LerpMonotone(a[lo], a[lo], a[lo], a[lo + 1], t);
      LerpMonotone(a[lo], a[lo + 1], a[lo + 1], a[lo + 1], t);
      if pos == lo as real {
        assert Interpolate(a, pos) == a[lo];
      }
    }
  }

  /**
   A quantile is at most v only if more than k draws are, for every rank k up to alpha (n - 1); and it
   is as soon as more than k draws are, for a rank k at or above alpha (n - 1).
   */
  lemma QuantileByCounting(s: seq<real>, alpha: real, v: real, k: nat)
    requires 0.0 <= alpha <= 1.0 && k < |s|
    ensures k as real <= alpha * (|s| - 1) as real && Quantile(s, alpha) <= v ==> CountAtMost(s, v) > k
    ensures alpha * (|s| - 1) as real <= k as real && CountAtMost(s, v) > k ==> Quantile(s, alpha) <= v
  {
    SortAscending(s);
    InterpolateBetween(Sort(s), Position(|s|, alpha), k);
    OrderStatistic(s, k, v);
  }

  lemma {:induction false} SortOfAscending(s: seq<real>)
    requires Ascending(s)
    ensures Sort(s) == s
  {
    if s != [] {
      SortOfAscending(s[1..]);
      assert |s| > 1 ==> s[0] <= s[1..][0];
    }
  }

  function Line(a: real, d: real, x: real): real {
    a + d * x
  }

  /** On evenly spaced draws the quantile is read off the line they lie on. */
  lemma QuantileOfRamp(s: seq<real>, alpha: real, a: real, d: real)
    requires |s| > 0 && 0.0 <= alpha <= 1.0 && d >= 0.0
    requires forall i | 0 <= i < |s| :: s[i] == Line(a, d, i as real)
    ensures Quantile(s, alpha) == Line(a, d, alpha * (|s| - 1) as real)
  {
    hide Sort, Lerp, Line;
    forall i, j | 0 <= i <= j < |s| ensures s[i] <= s[j] {
      LineRises(a, d, i as real, j as real);
    }
    SortOfAscending(s);
    var pos := Position(|s|, alpha);
    var lo := pos.Floor;
    PositionInside(|s|, alpha);
    if lo + 1 < |s| {
      LerpOnLine(a, d, lo as real, pos);
      assert (lo + 1) as real == lo as real + 1.0;
    }
  }

  lemma LineRises(a: real, d: real, x: real, y: real)
    requires d >= 0.0 && x <= y
    ensures Line(a, d, x) <= Line(a, d, y)
  {
    NonNegativeProduct(d, y - x);
    assert d * (y - x) == d * y - d * x;
  }

  lemma LerpOnLine(a: real, d: real, lo: real, pos: real)
    ensures Lerp(Line(a, d, lo), Line(a, d, lo + 1.0), pos - lo) == Line(a, d, pos)
  {
    assert d * (lo + 1.0) - d * lo == d;
    assert (pos - lo) * d == d * pos - d * lo;
  }

  lemma PositionInside(n: nat, alpha: real)
    requires n > 0 && 0.0 <= alpha <= 1.0
    ensures Position(n, alpha) <= (n - 1) as real
  {
    NonNegativeProduct(1.0 - alpha, (n - 1) as real);
  }

  ghost predicate ScaledBy(s: seq<real>, t: seq<real>, c: real) {
    |s| == |t| && forall i | 0 <= i < |s| :: s[i] == t[i] * c
  }

  lemma {:induction false} CountScaled(s: seq<real>, t: seq<real>, c: real, v: real)
    requires c > 0.0 && ScaledBy(s, t, c)
    ensures CountAtMost(s, v * c) == CountAtMost(t, v)
  {
    if s != [] {
      CompareScaled(t[0], v, c);
      CountScaled(s[1..], t[1..], c, v);
    }
  }

  lemma CompareScaled(x: real, y: real, c: real)
    requires c > 0.0
    ensures x <= y <==> x * c <= y * c
  {
    assert (y - x) * c == y * c - x * c;
    if x <= y {
      NonNegativeProduct(y - x, c);
    } else {
      assert (x - y) * c > 0.0;
    }
  }

  lemma OrderStatisticScaled(s: seq<real>, t: seq<real>, c: real, k: nat)
    requires c > 0.0 && k < |s| == |t| && ScaledBy(s, t, c)
    ensures Sort(s)[k] == Sort(t)[k] * c
  {
    hide Sort, CountAtMost, ScaledBy;
    var v, w := Sort(t)[k], Sort(s)[k] / c;
    var vc, wc := v * c, w * c;
    DivideBack(Sort(s)[k], c);
    CountScaled(s, t, c, v);
    CountScaled(s, t, c, w);
    OrderStatistic(s, k, vc);
    OrderStatistic(t, k, v);
    OrderStatistic(s, k, wc);
    OrderStatistic(t, k, w);
    CompareScaled(w, v, c);
  }

  lemma DivideBack(x: real, c: real)
    requires c > 0.0
    ensures x / c * c == x
  {
  }

  /** Scaling the draws scales the quantile. */
  lemma QuantileScaled(s: seq<real>, t: seq<real>, alpha: real, c: real)
    requires c > 0.0 && |s| == |t| > 0 && 0.0 <= alpha <= 1.0 && ScaledBy(s, t, c)
    ensures Quantile(s, alpha) == Quantile(t, alpha) * c
  {
    hide Sort, Interpolate;
    forall k | 0 <= k < |s| ensures Sort(s)[k] == Sort(t)[k] * c {
      OrderStatisticScaled(s, t, c, k);
    }
    InterpolateScaled(Sort(s), Sort(t), Position(|s|, alpha), c);
  }

  lemma InterpolateScaled(a: seq<real>, b: seq<real>, pos: real, c: real)
    requires |a| == |b| > 0 && pos >= 0.0 && ScaledBy(a, b, c)
    ensures Interpolate(a, pos) == Interpolate(b, pos) * c
  {
    var lo := pos.Floor;
    if lo + 1 < |a| {
      var t := pos - lo as real;
      assert t * (b[lo + 1] * c - b[lo] * c) == t * (b[lo + 1] - b[lo]) * c;
    }
  }
}
