/**
 Expectation over independent randomized assignments of finitely many units, given once as a
 recursion and once as the probability-weighted sum over all assignment vectors.
 */
module Expectation {
  // ------------------------------------------------------------------ expectation over assignments

  type Statistic = seq<bool> -> real

  function Times(x: real, y: real): real { x * y }

  function Sum(s: seq<real>): real {
    if s == [] then 0.0 else s[0] + Sum(s[1..])
  }

  function Mix(p: real, x: real, y: real): real { p * x + (1.0 - p) * y }

  /** `f` once the first unit's arm is known. */
  function Given(f: Statistic, b: bool): Statistic {
    (a: seq<bool>) => f([b] + a)
  }

  /** Expectation of `f` over independent assignments, unit i being treated with probability ps[i]. */
  function Expect(ps: seq<real>, f: Statistic): real {
    if ps == [] then f([])
    else Mix(ps[0], Expect(ps[1..], Given(f, true)), Expect(ps[1..], Given(f, false)))
  }

  function Prepend(b: bool, vs: seq<seq<bool>>): seq<seq<bool>> {
    if vs == [] then [] else [[b] + vs[0]] + Prepend(b, vs[1..])
  }

  /** All 2^n assignment vectors. */
  function Vectors(n: nat): seq<seq<bool>> {
    if n == 0 then [[]] else Prepend(true, Vectors(n - 1)) + Prepend(false, Vectors(n - 1))
  }

  function ArmProbability(p: real, b: bool): real { if b then p else 1.0 - p }

  function Weight(ps: seq<real>, a: seq<bool>): real {
    if ps == [] || a == [] then 1.0 else Times(ArmProbability(ps[0], a[0]), Weight(ps[1..], a[1..]))
  }

  function WeightedSum(ps: seq<real>, vs: seq<seq<bool>>, f: Statistic): real {
    if vs == [] then 0.0 else Times(Weight(ps, vs[0]), f(vs[0])) + WeightedSum(ps, vs[1..], f)
  }

  lemma {:induction false} WeightedSumAppend(ps: seq<real>, vs: seq<seq<bool>>, ws: seq<seq<bool>>, f: Statistic)
    ensures WeightedSum(ps, vs + ws, f) == WeightedSum(ps, vs, f) + WeightedSum(ps, ws, f)
  {
    hide Times, Weight;
    if vs == [] {
      assert vs + ws == ws;
    } else {
      assert (vs + ws)[1..] == vs[1..] + ws;
      WeightedSumAppend(ps, vs[1..], ws, f);
    }
  }

  lemma FactorOut(p: real, w: real, g: real, rest: real)
    ensures Times(Times(p, w), g) + Times(p, rest) == Times(p, Times(w, g) + rest)
    ensures Times(p, 0.0) == 0.0
  {
    assert (p * w) * g == p * (w * g);
  }

  lemma {:induction false} WeightedSumPrepend(ps: seq<real>, b: bool, vs: seq<seq<bool>>, f: Statistic)
    requires ps != []
    ensures WeightedSum(ps, Prepend(b, vs), f)
         == Times(ArmProbability(ps[0], b), WeightedSum(ps[1..], vs, Given(f, b)))
  {
    hide Times, ArmProbability;
    var p := ArmProbability(ps[0], b);
    if vs == [] {
      FactorOut(p, 0.0, 0.0, 0.0);
    } else {
      WeightedSumPrepend(ps, b, vs[1..], f);
      var v := [b] + vs[0];
      assert v[1..] == vs[0];
      assert Weight(ps, v) == Times(p, Weight(ps[1..], vs[0]));
      assert Prepend(b, vs)[1..] == Prepend(b, vs[1..]);
      FactorOut(p, Weight(ps[1..], vs[0]), f(v), WeightedSum(ps[1..], vs[1..], Given(f, b)));
    }
  }

  lemma WeightedSumNoUnits(f: Statistic)
    ensures WeightedSum([], [[]], f) == f([])
  {
    var vs: seq<seq<bool>> := [[]];
    assert WeightedSum([], vs, f) == Times(1.0, f([])) + WeightedSum([], vs[1..], f);
  }

  lemma MixIsSplit(p: real, x: real, y: real)
    ensures Mix(p, x, y) == Times(ArmProbability(p, true), x) + Times(ArmProbability(p, false), y)
  {
  }

  /** The recursive expectation is the probability-weighted sum over all 2^n assignment vectors. */
  lemma {:induction false} ExpectIsWeightedSum(ps: seq<real>, f: Statistic)
    ensures Expect(ps, f) == WeightedSum(ps, Vectors(|ps|), f)
  {
    hide WeightedSum, Weight, Times, Mix, ArmProbability, Prepend;
    if ps == [] {
      WeightedSumNoUnits(f);
    } else {
      var vs := Vectors(|ps| - 1);
      ExpectIsWeightedSum(ps[1..], Given(f, true));
      ExpectIsWeightedSum(ps[1..], Given(f, false));
      WeightedSumPrepend(ps, true, vs, f);
      WeightedSumPrepend(ps, false, vs, f);
      WeightedSumAppend(ps, Prepend(true, vs), Prepend(false, vs), f);
      MixIsSplit(ps[0], Expect(ps[1..], Given(f, true)), Expect(ps[1..], Given(f, false)));
      assert Vectors(|ps|) == Prepend(true, vs) + Prepend(false, vs);
    }
  }

  lemma {:induction false} PrependOccurrences(b: bool, vs: seq<seq<bool>>, a: seq<bool>)
    ensures multiset(Prepend(b, vs))[a] == if a != [] && a[0] == b then multiset(vs)[a[1..]] else 0
  {
    if vs != [] {
      PrependOccurrences(b, vs[1..], a);
      assert vs == [vs[0]] + vs[1..];
      assert a != [] && a[0] == b ==> (a == [b] + vs[0] <==> a[1..] == vs[0]);
    }
  }

  /** Each assignment of n units occurs exactly once in the sum, and nothing else does. */
  lemma {:induction false} VectorsExhaustive(n: nat, a: seq<bool>)
    ensures multiset(Vectors(n))[a] == if |a| == n then 1 else 0
  {
    hide Prepend;
    if n == 0 {
      var vs: seq<seq<bool>> := [[]];
      assert Vectors(0) == vs;
      assert multiset(vs) == multiset{[]};
    } else {
      var vs := Vectors(n - 1);
      assert Vectors(n) == Prepend(true, vs) + Prepend(false, vs);
      PrependOccurrences(true, vs, a);
      PrependOccurrences(false, vs, a);
      if a != [] { VectorsExhaustive(n - 1, a[1..]); }
    }
  }

  // ------------------------------------------------------------------ laws of the expectation

  ghost predicate SameOn(n: nat, f: Statistic, g: Statistic) {
    forall a: seq<bool> | |a| == n :: f(a) == g(a)
  }

  ghost predicate ConstantOn(n: nat, f: Statistic, c: real) {
    forall a: seq<bool> | |a| == n :: f(a) == c
  }

  lemma {:induction false} ExpectSame(ps: seq<real>, f: Statistic, g: Statistic)
    requires SameOn(|ps|, f, g)
    ensures Expect(ps, f) == Expect(ps, g)
  {
    hide Mix;
    if ps != [] {
      ExpectSame(ps[1..], Given(f, true), Given(g, true));
      ExpectSame(ps[1..], Given(f, false), Given(g, false));
    }
  }

  lemma MixConstant(p: real, c: real)
    ensures Mix(p, c, c) == c
  {
  }

  lemma {:induction false} ExpectConstant(ps: seq<real>, f: Statistic, c: real)
    requires ConstantOn(|ps|, f, c)
    ensures Expect(ps, f) == c
  {
    hide Mix;
    if ps != [] {
      ExpectConstant(ps[1..], Given(f, true), c);
      ExpectConstant(ps[1..], Given(f, false), c);
      MixConstant(ps[0], c);
    }
  }

  function Combination(s: real, x: real, t: real, y: real): real { s * x + t * y }

  function Combined(s: real, f: Statistic, t: real, g: Statistic): Statistic {
    (a: seq<bool>) => Combination(s, f(a), t, g(a))
  }

  lemma MixCombination(p: real, s: real, f1: real, f0: real, t: real, g1: real, g0: real)
    ensures Mix(p, Combination(s, f1, t, g1), Combination(s, f0, t, g0))
         == Combination(s, Mix(p, f1, f0), t, Mix(p, g1, g0))
  {
    calc {
      p * (s * f1 + t * g1) + (1.0 - p) * (s * f0 + t * g0);
      p * (s * f1) + p * (t * g1) + (1.0 - p) * (s * f0) + (1.0 - p) * (t * g0);
      s * (p * f1) + t * (p * g1) + s * ((1.0 - p) * f0) + t * ((1.0 - p) * g0);
      s * (p * f1 + (1.0 - p) * f0) + t * (p * g1 + (1.0 - p) * g0);
    }
  }

  lemma {:induction false} ExpectLinear(ps: seq<real>, s: real, f: Statistic, t: real, g: Statistic)
    ensures Expect(ps, Combined(s, f, t, g)) == Combination(s, Expect(ps, f), t, Expect(ps, g))
  {
    hide Mix, Combination;
    if ps != [] {
      var h, tail := Combined(s, f, t, g), ps[1..];
      ExpectLinear(tail, s, Given(f, true), t, Given(g, true));
      ExpectLinear(tail, s, Given(f, false), t, Given(g, false));
      ExpectSame(tail, Given(h, true), Combined(s, Given(f, true), t, Given(g, true)));
      ExpectSame(tail, Given(h, false), Combined(s, Given(f, false), t, Given(g, false)));
      MixCombination(ps[0], s, Expect(tail, Given(f, true)), Expect(tail, Given(f, false)),
                     t, Expect(tail, Given(g, true)), Expect(tail, Given(g, false)));
    }
  }

  /** Averaging over unit i's own arm, all other arms fixed, always gives c. */
  ghost predicate AveragesTo(ps: seq<real>, f: Statistic, i: nat, c: real)
    requires i < |ps|
  {
    forall a: seq<bool> | |a| == |ps| :: Mix(ps[i], f(a[i := true]), f(a[i := false])) == c
  }

  lemma AveragesTail(ps: seq<real>, f: Statistic, i: nat, c: real, b: bool)
    requires 0 < i < |ps| && AveragesTo(ps, f, i, c)
    ensures AveragesTo(ps[1..], Given(f, b), i - 1, c)
  {
    hide Mix;
    forall a: seq<bool> | |a| == |ps| - 1
      ensures Mix(ps[i], Given(f, b)(a[i - 1 := true]), Given(f, b)(a[i - 1 := false])) == c
    {
      var v := [b] + a;
      assert v[i := true] == [b] + a[i - 1 := true];
      assert v[i := false] == [b] + a[i - 1 := false];
      assert Mix(ps[i], f(v[i := true]), f(v[i := false])) == c;
    }
  }

  lemma MixIsCombination(p: real, x: real, y: real)
    ensures Mix(p, x, y) == Combination(p, x, 1.0 - p, y)
  {
  }

  lemma ExpectFirst(ps: seq<real>, f: Statistic, c: real)
    requires ps != [] && AveragesTo(ps, f, 0, c)
    ensures Expect(ps, f) == c
  {
    hide Mix, Combination;
    var p, f1, f0 := ps[0], Given(f, true), Given(f, false);
    var h := Combined(p, f1, 1.0 - p, f0);
    forall a: seq<bool> | |a| == |ps| - 1 ensures h(a) == c {
      var v := [true] + a;
      assert v[0 := true] == [true] + a && v[0 := false] == [false] + a;
      assert Mix(p, f(v[0 := true]), f(v[0 := false])) == c;
      MixIsCombination(p, f1(a), f0(a));
    }
    ExpectLinear(ps[1..], p, f1, 1.0 - p, f0);
    ExpectConstant(ps[1..], h, c);
    MixIsCombination(p, Expect(ps[1..], f1), Expect(ps[1..], f0));
  }

  /** Then the full expectation is c as well. */
  lemma {:induction false} ExpectCoordinate(ps: seq<real>, f: Statistic, i: nat, c: real)
    requires i < |ps| && AveragesTo(ps, f, i, c)
    ensures Expect(ps, f) == c
  {
    hide Mix, AveragesTo;
    if i == 0 {
      ExpectFirst(ps, f, c);
    } else {
      AveragesTail(ps, f, i, c, true);
      AveragesTail(ps, f, i, c, false);
      ExpectCoordinate(ps[1..], Given(f, true), i - 1, c);
      ExpectCoordinate(ps[1..], Given(f, false), i - 1, c);
      MixConstant(ps[0], c);
    }
  }
}
