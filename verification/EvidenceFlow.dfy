/** What the in-place shrinkage pass computes, said without the pass. */
module EvidenceFlow {
  import opened Wrappers
  import opened CapDraws
  import opened Quantiles
  import opened Expectation
  import opened CrossFit
  import opened Evidence

  /** The estimate and its ancestors, nearest first. */
  function Chain(vs: seq<GroupValue>, i: nat): (r: seq<nat>)
    requires WellParented(vs) && i < |vs|
    ensures r != [] && r[0] == i
    ensures forall k | 0 <= k < |r| :: r[k] < |vs|
    decreases LEVELS - vs[i].level
  {
    match Parent(vs, i)
    case None => [i]
    case Some(p) => [i] + Chain(vs, p)
  }

  function Scaled(c: real, ws: seq<real>): (r: seq<real>)
    ensures |r| == |ws|
    ensures forall k | 0 <= k < |ws| :: r[k] == Times(c, ws[k])
  {
    seq(|ws|, k requires 0 <= k < |ws| => Times(c, ws[k]))
  }

  /** How much of each member of the chain ends up in the estimate. */
  function ChainWeights(vs: seq<GroupValue>, i: nat): (r: seq<real>)
    requires WellParented(vs) && i < |vs|
    ensures |r| == |Chain(vs, i)|
    decreases LEVELS - vs[i].level
  {
    match Parent(vs, i)
    case None => [1.0]
    case Some(p) =>
      var w := Omega(vs[i].ess);
      [w] + Scaled(1.0 - w, ChainWeights(vs, p))
  }

  function Dot(ws: seq<real>, xs: seq<real>): real
    requires |ws| == |xs|
  {
    if ws == [] then 0.0 else Times(ws[0], xs[0]) + Dot(ws[1..], xs[1..])
  }

  lemma TimesLaws(c: real, x: real, y: real, z: real)
    ensures Times(c, x + y) == Times(c, x) + Times(c, y)
    ensures Times(c, Times(y, z)) == Times(Times(c, y), z)
    ensures Times(c, 0.0) == 0.0 && Times(1.0, x) == x
  {
    assert c * (y * z) == (c * y) * z;
  }

  lemma {:induction false} ScaledSum(c: real, ws: seq<real>)
    ensures Sum(Scaled(c, ws)) == Times(c, Sum(ws))
  {
    hide Times;
    if ws == [] {
      TimesLaws(c, 0.0, 0.0, 0.0);
    } else {
      ScaledSum(c, ws[1..]);
      assert Scaled(c, ws)[1..] == Scaled(c, ws[1..]);
      TimesLaws(c, ws[0], Sum(ws[1..]), 0.0);
    }
  }

  lemma {:induction false} ScaledDot(c: real, ws: seq<real>, xs: seq<real>)
    requires |ws| == |xs|
    ensures Dot(Scaled(c, ws), xs) == Times(c, Dot(ws, xs))
  {
    hide Times;
    if ws == [] {
      TimesLaws(c, 0.0, 0.0, 0.0);
    } else {
      ScaledDot(c, ws[1..], xs[1..]);
      assert Scaled(c, ws)[1..] == Scaled(c, ws[1..]);
      TimesLaws(c, Times(ws[0], xs[0]), Dot(ws[1..], xs[1..]), 0.0);
      TimesLaws(c, 0.0, ws[0], xs[0]);
    }
  }

  ghost predicate Convex(ws: seq<real>) {
    (forall k | 0 <= k < |ws| :: 0.0 <= ws[k] <= 1.0) && Sum(ws) == 1.0
  }

  lemma UnitProduct(c: real, w: real)
    requires 0.0 <= c <= 1.0 && 0.0 <= w <= 1.0
    ensures 0.0 <= Times(c, w) <= 1.0
  {
    NonNegativeProduct(c, w);
    NonNegativeProduct(c, 1.0 - w);
    assert c * (1.0 - w) == c - c * w;
  }

  lemma {:induction false} ChainConvex(vs: seq<GroupValue>, i: nat)
    requires WellParented(vs) && i < |vs|
    ensures Convex(ChainWeights(vs, i))
    decreases LEVELS - vs[i].level
  {
    hide Times, WellParented, Omega;
    var ws := ChainWeights(vs, i);
    match Parent(vs, i)
    case None =>
      assert ws == [1.0] && Sum(ws) == 1.0 + Sum(ws[1..]);
    case Some(p) =>
      Coarser(vs, i);
      ChainConvex(vs, p);
      var w, tail := Omega(vs[i].ess), ChainWeights(vs, p);
      forall k | 0 <= k < |tail| ensures 0.0 <= Times(1.0 - w, tail[k]) <= 1.0 {
        UnitProduct(1.0 - w, tail[k]);
      }
      ScaledSum(1.0 - w, tail);
      assert ws[1..] == Scaled(1.0 - w, tail);
      TimesOne(1.0 - w);
  }

  lemma TimesOne(x: real)
    ensures Times(x, 1.0) == x && Times(1.0, x) == x
  {
  }

  lemma Coarser(vs: seq<GroupValue>, i: nat)
    requires WellParented(vs) && i < |vs|
    ensures Parent(vs, i).Some? ==> Parent(vs, i).value < |vs| && vs[i].level < vs[Parent(vs, i).value].level < LEVELS
  {
  }

  // ------------------------------------------------------------------ quantities the pass blends

  type Quantity = GroupValue -> real

  /** Every estimate of one run carries the same number of draws. */
  ghost predicate FullDraws(vs: seq<GroupValue>, b: nat) {
    forall i | 0 <= i < |vs| :: |vs[i].draws.deltaY| == b
  }

  /** Blending acts on this quantity as a weighted mean, on estimates with b draws. */
  ghost predicate Blends(q: Quantity, b: nat) {
    forall c: GroupValue, p: GroupValue | |c.draws.deltaY| == b && |p.draws.deltaY| == b ::
      q(Blend(c, p)) == Mix(Omega(c.ess), q(c), q(p))
  }

  function Along(vs: seq<GroupValue>, idx: seq<nat>, q: Quantity): (r: seq<real>)
    requires forall k | 0 <= k < |idx| :: idx[k] < |vs|
    ensures |r| == |idx|
  {
    seq(|idx|, k requires 0 <= k < |idx| => q(vs[idx[k]]))
  }

  lemma {:induction false} FlowedDraws(vs: seq<GroupValue>, i: nat, b: nat)
    requires WellParented(vs) && i < |vs| && FullDraws(vs, b)
    ensures |Flowed(vs, i).draws.deltaY| == b
    decreases LEVELS - vs[i].level
  {
    hide Omega, WellParented;
    Coarser(vs, i);
    match Parent(vs, i)
    case None =>
    case Some(p) => FlowedDraws(vs, p, b);
  }

  lemma MixAsDot(w: real, x: real, rest: real)
    ensures Mix(w, x, rest) == Times(w, x) + Times(1.0 - w, rest)
  {
  }

  /** The chain mean of a quantity over the raw estimates. */
  function ChainMean(vs: seq<GroupValue>, i: nat, q: Quantity): real
    requires WellParented(vs) && i < |vs|
  {
    Dot(ChainWeights(vs, i), Along(vs, Chain(vs, i), q))
  }

  /** One link more: the mean over a chain is the estimate's own share and the parent's mean. */
  lemma ChainMeanStep(vs: seq<GroupValue>, i: nat, p: nat, q: Quantity)
    requires WellParented(vs) && i < |vs| && Parent(vs, i) == Some(p)
    ensures p < |vs|
    ensures ChainMean(vs, i, q) == Mix(Omega(vs[i].ess), q(vs[i]), ChainMean(vs, p, q))
  {
    hide Times, Mix, Omega, WellParented;
    Coarser(vs, i);
    var w, tail := Omega(vs[i].ess), ChainWeights(vs, p);
    ConsDot(w, Scaled(1.0 - w, tail), vs, i, Chain(vs, p), q);
    ScaledDot(1.0 - w, tail, Along(vs, Chain(vs, p), q));
    MixAsDot(w, q(vs[i]), Dot(tail, Along(vs, Chain(vs, p), q)));
  }

  lemma ConsDot(w: real, ws: seq<real>, vs: seq<GroupValue>, i: nat, idx: seq<nat>, q: Quantity)
    requires i < |vs| && |ws| == |idx| && forall k | 0 <= k < |idx| :: idx[k] < |vs|
    ensures Dot([w] + ws, Along(vs, [i] + idx, q)) == Times(w, q(vs[i])) + Dot(ws, Along(vs, idx, q))
  {
    hide Times;
    assert ([w] + ws)[1..] == ws;
    assert Along(vs, [i] + idx, q)[1..] == Along(vs, idx, q);
  }

  lemma ChainMeanTop(vs: seq<GroupValue>, i: nat, q: Quantity)
    requires WellParented(vs) && i < |vs| && Parent(vs, i) == None
    ensures ChainMean(vs, i, q) == q(vs[i])
  {
    hide Times, WellParented;
    ConsDot(1.0, [], vs, i, [], q);
    assert [1.0] + [] == [1.0] && [i] + [] == [i];
    TimesOne(q(vs[i]));
  }

  /** The flowed value is the same weighted mean of raw values for every blended quantity. */
  lemma {:induction false} FlowIsChainMean(vs: seq<GroupValue>, i: nat, q: Quantity, b: nat)
    requires WellParented(vs) && i < |vs| && FullDraws(vs, b) && Blends(q, b)
    ensures q(Flowed(vs, i)) == ChainMean(vs, i, q)
    decreases LEVELS - vs[i].level
  {
    hide Mix, Blend, Omega, WellParented, ChainMean, Chain, ChainWeights;
    FlowedStep(vs, i);
    match Parent(vs, i)
    case None => ChainMeanTop(vs, i, q);
    case Some(p) =>
      Coarser(vs, i);
      FlowIsChainMean(vs, p, q, b);
      FlowedDraws(vs, p, b);
      ChainMeanStep(vs, i, p, q);
  }

  ghost predicate AnySupported(vs: seq<GroupValue>, idx: seq<nat>)
    requires forall k | 0 <= k < |idx| :: idx[k] < |vs|
  {
    exists k :: 0 <= k < |idx| && vs[idx[k]].supported
  }

  lemma AnySupportedFirst(vs: seq<GroupValue>, i: nat, tail: seq<nat>)
    requires i < |vs| && forall k | 0 <= k < |tail| :: tail[k] < |vs|
    ensures AnySupported(vs, [i] + tail) <==> vs[i].supported || AnySupported(vs, tail)
  {
    var whole := [i] + tail;
    if vs[i].supported {
      assert vs[whole[0]].supported;
    }
    if k :| 0 <= k < |tail| && vs[tail[k]].supported {
      assert vs[whole[k + 1]].supported;
    }
  }

  lemma {:induction false} SupportAlongChain(vs: seq<GroupValue>, i: nat)
    requires WellParented(vs) && i < |vs|
    ensures Flowed(vs, i).supported <==> AnySupported(vs, Chain(vs, i))
    decreases LEVELS - vs[i].level
  {
    hide Mix, Omega, WellParented, AnySupported;
    Coarser(vs, i);
    match Parent(vs, i)
    case None =>
      AnySupportedFirst(vs, i, []);
      NoneSupported(vs);
      assert Chain(vs, i) == [i] + [];
    case Some(p) =>
      SupportAlongChain(vs, p);
      AnySupportedFirst(vs, i, Chain(vs, p));
  }

  lemma NoneSupported(vs: seq<GroupValue>)
    ensures !AnySupported(vs, [])
  {
  }

  function DrawOf(t: int, j: nat): Quantity {
    (v: GroupValue) =>
      if j >= |v.draws.deltaY| then 0.0
      else if t == 0 then v.draws.deltaY[j] else if t == 1 then v.draws.riskInc[j] else v.draws.riskAbs[j]
  }

  const DELTA_Y: Quantity := (v: GroupValue) => v.deltaY
  const RISK_INC: Quantity := (v: GroupValue) => v.riskInc
  const RISK_ABS: Quantity := (v: GroupValue) => v.riskAbs

  lemma QuantitiesBlend(b: nat, j: nat)
    ensures Blends(DELTA_Y, b) && Blends(RISK_INC, b) && Blends(RISK_ABS, b)
    ensures b >= MIN_SHARED_DRAWS && j < b ==> forall t :: Blends(DrawOf(t, j), b)
  {
    hide Mix, Omega;
  }

  /** With fewer draws than the pass asks for, an estimate keeps its own draws untouched. */
  lemma FewDrawsStay(vs: seq<GroupValue>, i: nat)
    requires WellParented(vs) && i < |vs| && |vs[i].draws.deltaY| < MIN_SHARED_DRAWS
    ensures Flowed(vs, i).draws == vs[i].draws
  {
    hide Mix, Omega, WellParented;
    FlowedStep(vs, i);
  }

  /**
   After the pass the three point estimates and, given enough draws, the j-th of each of the three
   paired draws are one and the same convex combination of the raw values along the chain of
   ancestors, so draws stay paired; with fewer draws they are left as they were. An estimate is
   supported exactly when it or an ancestor was.
   */
  lemma EvidenceFlowsDown(vs: seq<GroupValue>, i: nat, b: nat, j: nat)
    requires WellParented(vs) && i < |vs|
    requires FullDraws(vs, b)
    ensures Convex(ChainWeights(vs, i))
    ensures var f := Flowed(vs, i);
            && f.deltaY == ChainMean(vs, i, DELTA_Y)
            && f.riskInc == ChainMean(vs, i, RISK_INC)
            && f.riskAbs == ChainMean(vs, i, RISK_ABS)
            && |f.draws.deltaY| == b
            && (f.supported <==> AnySupported(vs, Chain(vs, i)))
    ensures var f := Flowed(vs, i);
            MIN_SHARED_DRAWS <= b && j < b ==>
            && f.draws.deltaY[j] == ChainMean(vs, i, DrawOf(0, j))
            && f.draws.riskInc[j] == ChainMean(vs, i, DrawOf(1, j))
            && f.draws.riskAbs[j] == ChainMean(vs, i, DrawOf(2, j))
    ensures b < MIN_SHARED_DRAWS ==> Flowed(vs, i).draws == vs[i].draws
  {
    assert |vs[i].draws.deltaY| == b;
    hide Blends, Flowed, WellParented, ChainWeights, Dot, Along, FullDraws;
    ChainConvex(vs, i);
    QuantitiesBlend(b, j);
    FlowedDraws(vs, i, b);
    SupportAlongChain(vs, i);
    FlowIsChainMean(vs, i, DELTA_Y, b);
    FlowIsChainMean(vs, i, RISK_INC, b);
    FlowIsChainMean(vs, i, RISK_ABS, b);
    if MIN_SHARED_DRAWS <= b && j < b {
      FlowIsChainMean(vs, i, DrawOf(0, j), b);
      FlowIsChainMean(vs, i, DrawOf(1, j), b);
      FlowIsChainMean(vs, i, DrawOf(2, j), b);
    }
    if b < MIN_SHARED_DRAWS {
      FewDrawsStay(vs, i);
    }
  }

  /** Every group is resampled the same number of times. */
  ghost predicate Draws(bootstrap: Bootstrap, b: nat) {
    forall rows: seq<PseudoRow>, key :: rows != [] ==> |bootstrap(rows, key).deltaY| == b
  }

  lemma {:induction false} RawFullDraws(pseudo: seq<PseudoRow>, upTo: nat, bootstrap: Bootstrap, b: nat)
    requires Weighable(pseudo) && Draws(bootstrap, b)
    ensures FullDraws(RawValues(pseudo, upTo, bootstrap), b)
  {
    hide Keys, KeyOf, Group, Ess;
    if upTo > 0 {
      var level := upTo - 1;
      RawFullDraws(pseudo, level, bootstrap, b);
      RawValuesStep(pseudo, level, bootstrap);
      var keys, here := Keys(pseudo, KeyOf(level)), LevelValues(pseudo, level, bootstrap);
      forall k | 0 <= k < |here| ensures |here[k].draws.deltaY| == b {
        KeyHasGroup(pseudo, KeyOf(level), keys[k]);
      }
    }
  }

  /** Where every blend uses both sides, every member of a chain keeps a share. */
  lemma {:induction false} ChainWeightsPositive(vs: seq<GroupValue>, i: nat)
    requires WellParented(vs) && i < |vs|
    requires forall v | v in vs :: 0.0 < Omega(v.ess) < 1.0
    ensures forall w | w in ChainWeights(vs, i) :: w > 0.0
    decreases LEVELS - vs[i].level
  {
    hide Times, WellParented, Omega;
    Coarser(vs, i);
    match Parent(vs, i)
    case None =>
    case Some(p) =>
      ChainWeightsPositive(vs, p);
      var c, tail := 1.0 - Omega(vs[i].ess), ChainWeights(vs, p);
      assert vs[i] in vs;
      forall k | 0 <= k < |tail| ensures Times(c, tail[k]) > 0.0 {
        assert tail[k] in tail;
        PositiveProduct(c, tail[k]);
      }
  }

  lemma PositiveProduct(x: real, y: real)
    requires x > 0.0 && y > 0.0
    ensures Times(x, y) > 0.0
  {
  }

  /** What `Evidence.Aggregate` computes meets every condition of `EvidenceFlowsDown`. */
  lemma AggregatedEvidence(pseudo: seq<PseudoRow>, bootstrap: Bootstrap, b: nat, i: nat)
    requires Weighable(pseudo) && Draws(bootstrap, b)
    requires i < |RawValues(pseudo, LEVELS, bootstrap)|
    ensures var vs := RawValues(pseudo, LEVELS, bootstrap);
            && WellParented(vs) && FullDraws(vs, b)
            && vs[Chain(vs, i)[|Chain(vs, i)| - 1]].level + 1 == LEVELS
            && Convex(ChainWeights(vs, i))
            && (forall w | w in ChainWeights(vs, i) :: w > 0.0)
            && (Flowed(vs, i).supported <==> AnySupported(vs, Chain(vs, i)))
  {
    hide RawValues, WellParented, AnySupported, Convex, Flowed;
    RawWellParented(pseudo, bootstrap);
    RawEssInRange(pseudo, LEVELS, bootstrap);
    RawFullDraws(pseudo, LEVELS, bootstrap, b);
    var vs := RawValues(pseudo, LEVELS, bootstrap);
    ChainConvex(vs, i);
    ChainWeightsPositive(vs, i);
    SupportAlongChain(vs, i);
    ChainReachesTop(vs, i);
  }

  ghost predicate OnlyTopLacksParent(vs: seq<GroupValue>) {
    forall k | 0 <= k < |vs| :: Parent(vs, k).None? <==> vs[k].level + 1 == LEVELS
  }

  /** Every chain of ancestors reaches the coarsest level. */
  lemma {:induction false} ChainReachesTop(vs: seq<GroupValue>, i: nat)
    requires WellParented(vs) && OnlyTopLacksParent(vs) && i < |vs|
    ensures var ch := Chain(vs, i);
            vs[ch[|ch| - 1]].level + 1 == LEVELS
    decreases LEVELS - vs[i].level
  {
    hide WellParented;
    Coarser(vs, i);
    match Parent(vs, i)
    case None =>
    case Some(p) => ChainReachesTop(vs, p);
  }
}
