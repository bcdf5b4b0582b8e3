/**
 Hierarchical evidence: one estimate per context group on four levels of detail, then a
 top-down, in-place pass that shrinks every estimate toward its parent.
 */
module Evidence {
  import opened Wrappers
  import opened CapDraws
  import opened Expectation
  import opened CrossFit
  import opened Strings

  const MIN_ARM_SUPPORT := 12
  const MIN_ESS := 24.0
  const EVIDENCE_NU := 24.0
  const LEVELS := 4
  const TINY := 0.000000000001

  type AlignedDraws = d: JointDraws | |d.deltaY| == |d.riskInc| == |d.riskAbs|
    witness JointDraws([], [], [])

  /** The state of one group estimate. `weight` is the share of its own evidence it kept. */
  datatype GroupValue = GroupValue(
    level: nat, key: string, n: nat, nReuse: nat, nBase: nat, ess: real, parentKey: Option<string>,
    deltaY: real, riskAbs: real, riskInc: real, supported: bool, weight: real, draws: AlignedDraws)

  // ------------------------------------------------------------------ effective sample size

  predicate Weighable(rows: seq<PseudoRow>) {
    forall k | 0 <= k < |rows| :: 0.0 < rows[k].propensity < 1.0
  }

  /** Cross-fitting clips every propensity, so its rows can always be weighted. */
  lemma CrossFitIsWeighable(learner: Learner, folds: Folds, fitRows: Option<seq<Row>>, rows: seq<Row>)
    requires folds.Valid()
    ensures Weighable(PseudoRows(learner, folds, fitRows, rows))
  {
    hide Eligible, Visited, TrainingFor;
    var el := Eligible(rows);
    var order := Visited(RowFold(folds), el, folds.count);
    VisitedUsable(RowFold(folds), el, folds.count);
    forall k | 0 <= k < |order| ensures 0.0 < PseudoRows(learner, folds, fitRows, rows)[k].propensity < 1.0 {
      ScoredByOwnTraining(learner, folds, el, fitRows, order, k);
    }
  }

  function IpwWeight(r: PseudoRow): real
    requires 0.0 < r.propensity < 1.0
  {
    if r.treated then 1.0 / r.propensity else 1.0 / (1.0 - r.propensity)
  }

  function WeightSum(rows: seq<PseudoRow>): real
    requires Weighable(rows)
  {
    if rows == [] then 0.0 else
      var n := |rows| - 1;
      WeightSum(rows[..n]) + IpwWeight(rows[n])
  }

  function SquareSum(rows: seq<PseudoRow>): real
    requires Weighable(rows)
  {
    if rows == [] then 0.0 else
      var n := |rows| - 1;
      SquareSum(rows[..n]) + Times(IpwWeight(rows[n]), IpwWeight(rows[n]))
  }

  function Ess(rows: seq<PseudoRow>): real
    requires Weighable(rows)
  {
    Times(WeightSum(rows), WeightSum(rows)) / Max(SquareSum(rows), TINY)
  }

  lemma WeightAboveOne(r: PseudoRow)
    requires 0.0 < r.propensity < 1.0
    ensures IpwWeight(r) > 1.0 && Times(IpwWeight(r), IpwWeight(r)) > 1.0
  {
    var e := if r.treated then r.propensity else 1.0 - r.propensity;
    var w := IpwWeight(r);
    assert w * e == 1.0;
    assert w > 1.0;
    assert (w - 1.0) * (w + 1.0) > 0.0;
  }

  /** One more weight keeps both sides of the Cauchy-Schwarz bound. */
  lemma CauchyStep(n: real, s: real, q: real, w: real)
    requires n >= 1.0 && s >= 0.0 && w >= 0.0
    requires q <= Times(s, s) <= Times(n, q)
    ensures q + Times(w, w) <= Times(s + w, s + w) <= Times(n + 1.0, q + Times(w, w))
  {
    var d := s - n * w;
    assert Times(s + w, s + w) == Times(s, s) + 2.0 * (s * w) + Times(w, w);
    assert s * w >= 0.0;
    var gap := q + n * (w * w) - 2.0 * (s * w);
    assert Times(n + 1.0, q + Times(w, w)) - Times(s + w, s + w) == (Times(n, q) - Times(s, s)) + gap;
    assert n * gap == (n * q - s * s) + d * d;
    assert d * d >= 0.0;
    PositiveFactor(n, gap);
  }

  lemma PositiveFactor(n: real, x: real)
    requires n > 0.0 && n * x >= 0.0
    ensures x >= 0.0
  {
    assert x == (n * x) / n;
  }

  lemma {:induction false} CauchySchwarz(rows: seq<PseudoRow>)
    requires Weighable(rows) && rows != []
    ensures WeightSum(rows) >= 0.0 && SquareSum(rows) > 1.0
    ensures SquareSum(rows) <= Times(WeightSum(rows), WeightSum(rows)) <= Times(|rows| as real, SquareSum(rows))
  {
    hide IpwWeight, Times;
    var n := |rows| - 1;
    WeightAboveOne(rows[n]);
    if n == 0 {
      OneWeight(IpwWeight(rows[0]));
    } else {
      CauchySchwarz(rows[..n]);
      CauchyStep(n as real, WeightSum(rows[..n]), SquareSum(rows[..n]), IpwWeight(rows[n]));
    }
  }

  lemma OneWeight(w: real)
    ensures Times(0.0 + w, 0.0 + w) == Times(w, w) == Times(1.0, 0.0 + Times(w, w))
  {
  }

  /** The effective sample size of a group lies between one row and all of its rows. */
  lemma EssBetweenOneAndN(rows: seq<PseudoRow>)
    requires Weighable(rows) && rows != []
    ensures 1.0 <= Ess(rows) <= |rows| as real
  {
    CauchySchwarz(rows);
    hide WeightSum, SquareSum;
    var a, q, n := Times(WeightSum(rows), WeightSum(rows)), SquareSum(rows), |rows| as real;
    QuotientBetween(a, q, n);
  }

  lemma QuotientBetween(a: real, q: real, n: real)
    requires q > 0.0 && q <= a <= Times(n, q)
    ensures 1.0 <= a / q <= n
  {
    var x := a / q;
    assert x * q == a;
    assert q * (x - 1.0) == a - q;
    PositiveFactor(q, x - 1.0);
    assert q * (n - x) == n * q - a;
    PositiveFactor(q, n - x);
  }

  function Omega(ess: real): (w: real)
    ensures 0.0 <= w <= 1.0
  {
    var w := ess / Max(ess + EVIDENCE_NU, TINY);
    if w < 0.0 then 0.0 else if w > 1.0 then 1.0 else w
  }

  /** With at least one effective row a blend uses both sides. */
  lemma OmegaStrict(ess: real)
    requires ess >= 1.0
    ensures 0.0 < Omega(ess) < 1.0
  {
    var d := ess + EVIDENCE_NU;
    assert ess / d > 0.0;
    assert 1.0 - ess / d == EVIDENCE_NU / d;
  }

  // ------------------------------------------------------------------ raw estimates

  /** The group key of a context on each level; scarcity is absent from level 1 but not from level 2. */
  function KeyAt(level: nat, c: Context): string {
    var stem := c.source + "|" + c.kind;
    var group := stem + "|" + c.taskGroup;
    var risk := group + "|" + c.failureType + "|" + c.riskTier;
    if level == 0 then risk + "|" + c.resourceScarcity + "|" + c.episodePhase + "|" + c.priorAdmissionBin
    else if level == 1 then risk + "|" + c.episodePhase
    else if level == 2 then group + "|" + c.resourceScarcity
    else stem
  }

  const ORDINARY := Context("FAM", "skill", "mining", "none", "low", "ordinary", "early", "0")

  /** Groups of level 1 do not nest in groups of level 2: rows of one can have two different parents. */
  lemma LevelOneDoesNotNest()
    ensures var c, d := ORDINARY, ORDINARY.(resourceScarcity := "scarce");
            KeyAt(1, c) == KeyAt(1, d) && KeyAt(2, c) != KeyAt(2, d)
  {
    var d := ORDINARY.(resourceScarcity := "scarce");
    assert KeyAt(1, ORDINARY) == KeyAt(1, d);
    NestsIffSameScarcity(ORDINARY, d);
  }

  lemma FirstSeparator(a: string, x: string)
    requires Plain(a)
    ensures var s := a + "|" + x; s[|a|] == '|' && forall i | 0 <= i < |a| :: s[i] != '|'
  {
    forall i | 0 <= i < |a| ensures (a + "|" + x)[i] != '|' {
      assert (a + "|" + x)[i] == a[i] && a[i] in a;
    }
  }

  /** What stands before the first separator, and what after it, can be read back. */
  lemma SplitAtSeparator(a: string, x: string, b: string, y: string)
    requires Plain(a) && Plain(b)
    ensures a + "|" + x == b + "|" + y <==> a == b && x == y
  {
    var s, t := a + "|" + x, b + "|" + y;
    FirstSeparator(a, x);
    FirstSeparator(b, y);
    if s == t {
      assert |a| == |b|;
      assert s[..|a|] == a && t[..|b|] == b && s[|a| + 1..] == x && t[|b| + 1..] == y;
    }
  }

  /** The part of a level-1 or level-2 key after source, kind and task group. */
  function Under(c: Context, rest: string): string {
    c.source + "|" + (c.kind + "|" + (c.taskGroup + "|" + rest))
  }

  lemma KeysUnder(c: Context)
    ensures KeyAt(1, c) == Under(c, c.failureType + "|" + c.riskTier + "|" + c.episodePhase)
    ensures KeyAt(2, c) == Under(c, c.resourceScarcity)
  {
    var rest := c.failureType + "|" + c.riskTier + "|" + c.episodePhase;
    assert KeyAt(1, c) == c.source + "|" + (c.kind + "|" + (c.taskGroup + "|" + rest));
    assert KeyAt(2, c) == c.source + "|" + (c.kind + "|" + (c.taskGroup + "|" + c.resourceScarcity));
  }

  /**
   Two contexts of one level-1 group share the level-2 group exactly when their scarcity agrees,
   whatever else differs; source, kind and task group must not contain the separator.
   */
  lemma NestsIffSameScarcity(c: Context, d: Context)
    requires Plain(c.source) && Plain(c.kind) && Plain(c.taskGroup)
    requires Plain(d.source) && Plain(d.kind) && Plain(d.taskGroup)
    requires KeyAt(1, c) == KeyAt(1, d)
    ensures KeyAt(2, c) == KeyAt(2, d) <==> c.resourceScarcity == d.resourceScarcity
  {
    hide KeyAt;
    KeysUnder(c);
    KeysUnder(d);
    SplitUnder(c, c.failureType + "|" + c.riskTier + "|" + c.episodePhase,
               d, d.failureType + "|" + d.riskTier + "|" + d.episodePhase);
    SplitUnder(c, c.resourceScarcity, d, d.resourceScarcity);
  }

  lemma SplitUnder(c: Context, x: string, d: Context, y: string)
    requires Plain(c.source) && Plain(c.kind) && Plain(c.taskGroup)
    requires Plain(d.source) && Plain(d.kind) && Plain(d.taskGroup)
    ensures Under(c, x) == Under(d, y)
            <==> c.source == d.source && c.kind == d.kind && c.taskGroup == d.taskGroup && x == y
  {
    SplitAtSeparator(c.source, c.kind + "|" + (c.taskGroup + "|" + x),
                     d.source, d.kind + "|" + (d.taskGroup + "|" + y));
    SplitAtSeparator(c.kind, c.taskGroup + "|" + x, d.kind, d.taskGroup + "|" + y);
    SplitAtSeparator(c.taskGroup, x, d.taskGroup, y);
  }

  type Grouping = PseudoRow -> string

  function KeyOf(level: nat): Grouping {
    (r: PseudoRow) => KeyAt(level, r.context)
  }

  /** The keys that occur, ascending and without repetition. */
  function Keys(pseudo: seq<PseudoRow>, keyOf: Grouping): seq<string> {
    if pseudo == [] then [] else
      var n := |pseudo| - 1;
      InsertKey(keyOf(pseudo[n]), Keys(pseudo[..n], keyOf))
  }

  lemma {:induction false} KeyOccurs(pseudo: seq<PseudoRow>, keyOf: Grouping, k: nat)
    requires k < |pseudo|
    ensures keyOf(pseudo[k]) in Keys(pseudo, keyOf)
  {
    if k < |pseudo| - 1 { KeyOccurs(pseudo[..|pseudo| - 1], keyOf, k); }
  }

  lemma {:induction false} KeyHasGroup(pseudo: seq<PseudoRow>, keyOf: Grouping, key: string)
    requires key in Keys(pseudo, keyOf)
    ensures Group(pseudo, keyOf, key) != []
  {
    var n := |pseudo| - 1;
    if keyOf(pseudo[n]) != key { KeyHasGroup(pseudo[..n], keyOf, key); }
  }

  lemma {:induction false} KeysAscending(pseudo: seq<PseudoRow>, keyOf: Grouping)
    ensures StrictlyAscending(Keys(pseudo, keyOf))
  {
    if pseudo != [] {
      var n := |pseudo| - 1;
      KeysAscending(pseudo[..n], keyOf);
      InsertKeyAscending(keyOf(pseudo[n]), Keys(pseudo[..n], keyOf));
    }
  }

  function Group(pseudo: seq<PseudoRow>, keyOf: Grouping, key: string): (r: seq<PseudoRow>)
    ensures Weighable(pseudo) ==> Weighable(r)
  {
    if pseudo == [] then [] else
      var n := |pseudo| - 1;
      Group(pseudo[..n], keyOf, key) + if keyOf(pseudo[n]) == key then [pseudo[n]] else []
  }

  lemma {:induction false} GroupMember(pseudo: seq<PseudoRow>, keyOf: Grouping, key: string, k: nat) returns (j: nat)
    requires k < |Group(pseudo, keyOf, key)|
    ensures j < |pseudo| && pseudo[j] == Group(pseudo, keyOf, key)[k] && keyOf(pseudo[j]) == key
  {
    var n := |pseudo| - 1;
    if k < |Group(pseudo[..n], keyOf, key)| {
      j := GroupMember(pseudo[..n], keyOf, key, k);
    } else {
      j := n;
    }
  }

  function Treated(rows: seq<PseudoRow>): (t: nat)
    ensures t <= |rows|
  {
    if rows == [] then 0 else
      var n := |rows| - 1;
      Treated(rows[..n]) + if rows[n].treated then 1 else 0
  }

  function SumOf(rows: seq<PseudoRow>, get: PseudoRow -> real): real {
    if rows == [] then 0.0 else
      var n := |rows| - 1;
      SumOf(rows[..n], get) + get(rows[n])
  }

  type Bootstrap = (seq<PseudoRow>, string) -> AlignedDraws

  function RawOf(rows: seq<PseudoRow>, level: nat, key: string, bootstrap: Bootstrap): GroupValue
    requires rows != [] && Weighable(rows)
  {
    var reuse, n := Treated(rows), |rows| as real;
    GroupValue(level, key, |rows|, reuse, |rows| - reuse, Ess(rows),
               if level + 1 < LEVELS then Some(KeyAt(level + 1, rows[0].context)) else None,
               SumOf(rows, (r: PseudoRow) => r.phiY) / n,
               SumOf(rows, (r: PseudoRow) => r.psiH1) / n,
               SumOf(rows, (r: PseudoRow) => r.phiH) / n,
               reuse >= MIN_ARM_SUPPORT && |rows| - reuse >= MIN_ARM_SUPPORT && Ess(rows) >= MIN_ESS,
               1.0, bootstrap(rows, key))
  }

  function ValueFor(pseudo: seq<PseudoRow>, level: nat, key: string, bootstrap: Bootstrap): GroupValue
    requires Weighable(pseudo) && key in Keys(pseudo, KeyOf(level))
  {
    KeyHasGroup(pseudo, KeyOf(level), key);
    RawOf(Group(pseudo, KeyOf(level), key), level, key, bootstrap)
  }

  function LevelValues(pseudo: seq<PseudoRow>, level: nat, bootstrap: Bootstrap): (r: seq<GroupValue>)
    requires Weighable(pseudo)
    ensures |r| == |Keys(pseudo, KeyOf(level))|
  {
    var keys := Keys(pseudo, KeyOf(level));
    seq(|keys|, k requires 0 <= k < |keys| => ValueFor(pseudo, level, keys[k], bootstrap))
  }

  /** The raw estimates of the levels below `upTo`, most specific level first. */
  function RawValues(pseudo: seq<PseudoRow>, upTo: nat, bootstrap: Bootstrap): seq<GroupValue>
    requires Weighable(pseudo)
  {
    if upTo == 0 then [] else
      RawValues(pseudo, upTo - 1, bootstrap) + LevelValues(pseudo, upTo - 1, bootstrap)
  }

  // ------------------------------------------------------------------ parents

  /** A dictionary from key to estimate keeps the last estimate carrying the key. */
  function LastWithKey(vs: seq<GroupValue>, key: string): (r: Option<nat>)
    ensures r.Some? ==> r.value < |vs| && vs[r.value].key == key && forall k | r.value < k < |vs| :: vs[k].key != key
    ensures r.None? ==> forall k | 0 <= k < |vs| :: vs[k].key != key
  {
    if vs == [] then None
    else if vs[|vs| - 1].key == key then Some(|vs| - 1)
    else LastWithKey(vs[..|vs| - 1], key)
  }

  function Parent(vs: seq<GroupValue>, i: nat): (r: Option<nat>)
    requires i < |vs|
    ensures r.Some? ==> r.value < |vs|
  {
    match vs[i].parentKey
    case None => None
    case Some(k) => LastWithKey(vs, k)
  }

  /** Parents sit on a strictly coarser level, which is what lets one top-down pass suffice. */
  ghost predicate WellParented(vs: seq<GroupValue>) {
    forall i | 0 <= i < |vs| ::
      && vs[i].level < LEVELS
      && (Parent(vs, i).Some? ==> vs[Parent(vs, i).value].level > vs[i].level)
  }

  // ------------------------------------------------------------------ the flow of evidence

  const MIN_SHARED_DRAWS := 32

  function BlendSeq(w: real, child: seq<real>, parent: seq<real>, n: nat): (r: seq<real>)
    requires n <= |child| && n <= |parent|
    ensures |r| == n
    ensures forall k | 0 <= k < n :: r[k] == Mix(w, child[k], parent[k])
  {
    seq(n, k requires 0 <= k < n => Mix(w, child[k], parent[k]))
  }

  function BlendDraws(w: real, child: AlignedDraws, parent: AlignedDraws): AlignedDraws {
    var n := Min(|child.deltaY|, |parent.deltaY|);
    if n < MIN_SHARED_DRAWS then child
    else JointDraws(BlendSeq(w, child.deltaY, parent.deltaY, n),
                    BlendSeq(w, child.riskInc, parent.riskInc, n),
                    BlendSeq(w, child.riskAbs, parent.riskAbs, n))
  }

  function Blend(child: GroupValue, parent: GroupValue): GroupValue {
    var w := Omega(child.ess);
    child.(deltaY := Mix(w, child.deltaY, parent.deltaY),
           riskInc := Mix(w, child.riskInc, parent.riskInc),
           riskAbs := Mix(w, child.riskAbs, parent.riskAbs),
           supported := child.supported || parent.supported,
           weight := w,
           draws := BlendDraws(w, child.draws, parent.draws))
  }

  /** An estimate after the pass: blended with its parent as that stands after the pass. */
  function Flowed(vs: seq<GroupValue>, i: nat): GroupValue
    requires WellParented(vs) && i < |vs|
    decreases LEVELS - vs[i].level
  {
    match Parent(vs, i)
    case None => vs[i]
    case Some(p) => Blend(vs[i], Flowed(vs, p))
  }

  // ------------------------------------------------------------------ the stateful estimates

  class GroupEstimate {
    const level: nat
    const key: string
    const n: nat
    const nReuse: nat
    const nBase: nat
    const ess: real
    const parentKey: Option<string>
    var deltaY: real
    var riskAbs: real
    var riskInc: real
    var supported: bool
    var weight: real
    var draws: AlignedDraws

    constructor (v: GroupValue)
      ensures View() == v
    {
      level, key, n, nReuse, nBase := v.level, v.key, v.n, v.nReuse, v.nBase;
      ess, parentKey := v.ess, v.parentKey;
      deltaY, riskAbs, riskInc := v.deltaY, v.riskAbs, v.riskInc;
      supported, weight, draws := v.supported, v.weight, v.draws;
    }

    function View(): (v: GroupValue)
      reads this
      ensures v.level == level && v.key == key && v.parentKey == parentKey
    {
      GroupValue(level, key, n, nReuse, nBase, ess, parentKey,
                 deltaY, riskAbs, riskInc, supported, weight, draws)
    }

    /** Shrinks this estimate toward its parent, which is left as it is. */
    method Absorb(parent: GroupEstimate)
      requires parent != this
      modifies this
      ensures View() == Blend(old(View()), parent.View())
    {
      hide Mix, Omega;
      var w := Omega(ess);
      weight := w;
      deltaY := Mix(w, deltaY, parent.deltaY);
      riskInc := Mix(w, riskInc, parent.riskInc);
      riskAbs := Mix(w, riskAbs, parent.riskAbs);
      supported := supported || parent.supported;
      var shared := Min(|draws.deltaY|, |parent.draws.deltaY|);
      if shared >= MIN_SHARED_DRAWS {
        draws := JointDraws(BlendSeq(w, draws.deltaY, parent.draws.deltaY, shared),
                            BlendSeq(w, draws.riskInc, parent.draws.riskInc, shared),
                            BlendSeq(w, draws.riskAbs, parent.draws.riskAbs, shared));
      }
    }
  }

  function Views(es: seq<GroupEstimate>): (r: seq<GroupValue>)
    reads es
    ensures |r| == |es|
    ensures forall i | 0 <= i < |es| :: r[i] == es[i].View()
  {
    if es == [] then [] else Views(es[..|es| - 1]) + [es[|es| - 1].View()]
  }

  ghost predicate Distinct(es: seq<GroupEstimate>) {
    forall i, j | 0 <= i < j < |es| :: es[i] != es[j]
  }

  /** Whether the pass has handled estimate j when it stands at position i of `level`. */
  predicate Done(vs: seq<GroupValue>, level: nat, i: nat, j: nat)
    requires j < |vs|
  {
    vs[j].level > level || (vs[j].level == level && j < i)
  }

  lemma FlowedStep(vs: seq<GroupValue>, i: nat)
    requires WellParented(vs) && i < |vs|
    ensures Parent(vs, i).None? ==> Flowed(vs, i) == vs[i]
    ensures Parent(vs, i).Some? ==> Flowed(vs, i) == Blend(vs[i], Flowed(vs, Parent(vs, i).value))
  {
    hide Blend;
  }

  method IndexByKey(es: seq<GroupEstimate>) returns (byKey: map<string, GroupEstimate>)
    ensures forall k :: k in byKey <==> LastWithKey(Views(es), k).Some?
    ensures forall k | k in byKey :: byKey[k] == es[LastWithKey(Views(es), k).value]
  {
    byKey := map[];
    var vs := Views(es);
    for i := 0 to |es|
      invariant forall k :: k in byKey <==> LastWithKey(vs[..i], k).Some?
      invariant forall k | k in byKey :: byKey[k] == es[LastWithKey(vs[..i], k).value]
    {
      assert vs[..i + 1][..i] == vs[..i];
      byKey := byKey[es[i].key := es[i]];
    }
    assert vs[..|es|] == vs;
  }

  lemma LevelsBelow(vs: seq<GroupValue>)
    requires WellParented(vs)
    ensures forall i | 0 <= i < |vs| :: vs[i].level < LEVELS
  {
  }

  /** The in-place pass, coarsest level first, in list order within a level. */
  method Flow(es: seq<GroupEstimate>)
    requires Distinct(es) && WellParented(Views(es))
    modifies es
    ensures forall i | 0 <= i < |es| :: es[i].View() == Flowed(old(Views(es)), i)
  {
    hide Blend, LastWithKey, GroupEstimate.View, Flowed, WellParented;
    var byKey := IndexByKey(es);
    ghost var vs := Views(es);
    LevelsBelow(vs);
    assert forall j | 0 <= j < |es| :: es[j].View().level == es[j].level && es[j].View().parentKey == es[j].parentKey;
    for level := LEVELS downto 0
      invariant forall j | 0 <= j < |es| ::
        es[j].View() == if vs[j].level >= level then Flowed(vs, j) else vs[j]
    {
      FlowLevel(es, byKey, vs, level);
    }
  }

  /** The part of the pass that handles one level, once the coarser levels are done. */
  method FlowLevel(es: seq<GroupEstimate>, byKey: map<string, GroupEstimate>, ghost vs: seq<GroupValue>, level: nat)
    requires Distinct(es) && |vs| == |es| && WellParented(vs)
    requires forall k :: k in byKey <==> LastWithKey(vs, k).Some?
    requires forall k | k in byKey :: byKey[k] == es[LastWithKey(vs, k).value]
    requires forall j | 0 <= j < |es| :: es[j].View() == if vs[j].level >= level + 1 then Flowed(vs, j) else vs[j]
    requires forall j | 0 <= j < |es| :: es[j].level == vs[j].level && es[j].parentKey == vs[j].parentKey
    modifies es
    ensures forall j | 0 <= j < |es| :: es[j].View() == if vs[j].level >= level then Flowed(vs, j) else vs[j]
  {
    hide Blend, LastWithKey, GroupEstimate.View, Flowed;
    for i := 0 to |es|
      invariant forall j | 0 <= j < |es| ::
        es[j].View() == if Done(vs, level, i, j) then Flowed(vs, j) else vs[j]
    {
      var e := es[i];
      FlowedStep(vs, i);
      if e.level == level && e.parentKey.Some? && e.parentKey.value in byKey {
        ghost var p := Parent(vs, i).value;
        var parent := byKey[e.parentKey.value];
        assert parent == es[p] && Done(vs, level, i, p) && p != i;
        assert es[p].View() == Flowed(vs, p);
        e.Absorb(parent);
      }
    }
  }

  // ------------------------------------------------------------------ the raw list is well parented

  /** Level, key and parent key of the estimates of one level. */
  ghost predicate OfLevel(pseudo: seq<PseudoRow>, level: nat, v: GroupValue) {
    && v.level == level
    && v.key in Keys(pseudo, KeyOf(level))
    && (level + 1 < LEVELS ==> v.parentKey.Some? && v.parentKey.value in Keys(pseudo, KeyOf(level + 1)))
    && (level + 1 == LEVELS ==> v.parentKey.None?)
  }

  lemma LevelMember(pseudo: seq<PseudoRow>, level: nat, k: nat, bootstrap: Bootstrap)
    requires Weighable(pseudo) && k < |LevelValues(pseudo, level, bootstrap)|
    ensures var v := LevelValues(pseudo, level, bootstrap)[k];
            v.level == level && v.key == Keys(pseudo, KeyOf(level))[k] && OfLevel(pseudo, level, v)
  {
    hide KeyAt, Ess, Keys, Group;
    var key := Keys(pseudo, KeyOf(level))[k];
    KeyHasGroup(pseudo, KeyOf(level), key);
    var j := GroupMember(pseudo, KeyOf(level), key, 0);
    KeyOccurs(pseudo, KeyOf(level + 1), j);
  }

  ghost predicate Levelled(pseudo: seq<PseudoRow>, vs: seq<GroupValue>, upTo: nat) {
    && (forall i | 0 <= i < |vs| :: vs[i].level < upTo && OfLevel(pseudo, vs[i].level, vs[i]))
    && forall i, j | 0 <= i <= j < |vs| :: vs[i].level <= vs[j].level
  }

  lemma LevelledAppend(pseudo: seq<PseudoRow>, vs: seq<GroupValue>, here: seq<GroupValue>, level: nat)
    requires Levelled(pseudo, vs, level)
    requires forall k | 0 <= k < |here| :: here[k].level == level && OfLevel(pseudo, level, here[k])
    ensures Levelled(pseudo, vs + here, level + 1)
  {
    hide OfLevel;
  }

  lemma {:induction false} ValuesOfLevels(pseudo: seq<PseudoRow>, upTo: nat, bootstrap: Bootstrap)
    requires Weighable(pseudo)
    ensures Levelled(pseudo, RawValues(pseudo, upTo, bootstrap), upTo)
  {
    hide LevelValues, OfLevel;
    if upTo > 0 {
      ValuesOfLevels(pseudo, upTo - 1, bootstrap);
      var here := LevelValues(pseudo, upTo - 1, bootstrap);
      forall k | 0 <= k < |here| ensures here[k].level == upTo - 1 && OfLevel(pseudo, upTo - 1, here[k]) {
        LevelMember(pseudo, upTo - 1, k, bootstrap);
      }
      LevelledAppend(pseudo, RawValues(pseudo, upTo - 1, bootstrap), here, upTo - 1);
    }
  }

  lemma {:induction false} KeyListed(pseudo: seq<PseudoRow>, upTo: nat, level: nat, key: string,
        bootstrap: Bootstrap) returns (j: nat)
    requires Weighable(pseudo) && level < upTo && key in Keys(pseudo, KeyOf(level))
    ensures var vs := RawValues(pseudo, upTo, bootstrap);
            j < |vs| && vs[j].level == level && vs[j].key == key
  {
    hide LevelValues, OfLevel, Keys, KeyOf;
    var earlier := RawValues(pseudo, upTo - 1, bootstrap);
    if level == upTo - 1 {
      var keys := Keys(pseudo, KeyOf(level));
      var k :| 0 <= k < |keys| && keys[k] == key;
      LevelMember(pseudo, level, k, bootstrap);
      j := |earlier| + k;
    } else {
      j := KeyListed(pseudo, upTo - 1, level, key, bootstrap);
    }
  }

  /** Exactly the coarsest level has no parent, and every parent is on a coarser level. */
  lemma RawWellParented(pseudo: seq<PseudoRow>, bootstrap: Bootstrap)
    requires Weighable(pseudo)
    ensures var vs := RawValues(pseudo, LEVELS, bootstrap);
            && WellParented(vs)
            && forall i | 0 <= i < |vs| :: Parent(vs, i).None? <==> vs[i].level + 1 == LEVELS
  {
    hide LevelValues, RawValues, LastWithKey, Keys, KeyOf;
    var vs := RawValues(pseudo, LEVELS, bootstrap);
    ValuesOfLevels(pseudo, LEVELS, bootstrap);
    forall i | 0 <= i < |vs|
      ensures Parent(vs, i).Some? ==> vs[Parent(vs, i).value].level > vs[i].level
      ensures Parent(vs, i).None? <==> vs[i].level + 1 == LEVELS
    {
      var v := vs[i];
      if v.level + 1 < LEVELS {
        var j := KeyListed(pseudo, LEVELS, v.level + 1, v.parentKey.value, bootstrap);
        assert LastWithKey(vs, v.parentKey.value).Some?;
      }
    }
  }

  lemma RawValuesStep(pseudo: seq<PseudoRow>, level: nat, bootstrap: Bootstrap)
    requires Weighable(pseudo)
    ensures RawValues(pseudo, 0, bootstrap) == []
    ensures RawValues(pseudo, level + 1, bootstrap)
         == RawValues(pseudo, level, bootstrap) + LevelValues(pseudo, level, bootstrap)
  {
    hide LevelValues;
  }

  /**
   Every estimate aggregation makes is worth between one and all of its rows, so when it is blended
   it keeps some of its own evidence and takes some of its parent's.
   */
  lemma {:induction false} RawEssInRange(pseudo: seq<PseudoRow>, upTo: nat, bootstrap: Bootstrap)
    requires Weighable(pseudo)
    ensures forall v | v in RawValues(pseudo, upTo, bootstrap) ::
              1.0 <= v.ess <= v.n as real && 0.0 < Omega(v.ess) < 1.0
  {
    hide Keys, KeyOf, Group, Ess, Omega;
    if upTo > 0 {
      var level := upTo - 1;
      RawEssInRange(pseudo, level, bootstrap);
      RawValuesStep(pseudo, level, bootstrap);
      var keys, here := Keys(pseudo, KeyOf(level)), LevelValues(pseudo, level, bootstrap);
      forall k | 0 <= k < |here|
        ensures 1.0 <= here[k].ess <= here[k].n as real && 0.0 < Omega(here[k].ess) < 1.0
      {
        KeyHasGroup(pseudo, KeyOf(level), keys[k]);
        EssBetweenOneAndN(Group(pseudo, KeyOf(level), keys[k]));
        OmegaStrict(here[k].ess);
      }
    }
  }

  method EstimateLevel(pseudo: seq<PseudoRow>, level: nat, bootstrap: Bootstrap) returns (es: seq<GroupEstimate>)
    requires Weighable(pseudo)
    ensures Distinct(es) && fresh(es)
    ensures |es| == |LevelValues(pseudo, level, bootstrap)|
    ensures forall i | 0 <= i < |es| :: es[i].View() == LevelValues(pseudo, level, bootstrap)[i]
  {
    hide RawOf, GroupEstimate.View, KeyOf, Keys, Group;
    es := [];
    var keys := Keys(pseudo, KeyOf(level));
    ghost var vs := LevelValues(pseudo, level, bootstrap);
    for k := 0 to |keys|
      invariant Distinct(es) && fresh(es)
      invariant |es| == k
      invariant forall i | 0 <= i < k :: es[i].View() == vs[i]
    {
      KeyHasGroup(pseudo, KeyOf(level), keys[k]);
      var rows := Group(pseudo, KeyOf(level), keys[k]);
      var e := new GroupEstimate(RawOf(rows, level, keys[k], bootstrap));
      es := es + [e];
    }
  }

  /** Grouping, raw estimation and the in-place pass, on estimates allocated here. */
  method Aggregate(pseudo: seq<PseudoRow>, bootstrap: Bootstrap) returns (es: seq<GroupEstimate>)
    requires Weighable(pseudo)
    ensures var vs := RawValues(pseudo, LEVELS, bootstrap);
            && WellParented(vs)
            && |es| == |vs|
            && forall i | 0 <= i < |es| :: es[i].View() == Flowed(vs, i)
    ensures Distinct(es) && fresh(es)
  {
    hide Flowed, GroupEstimate.View, WellParented, LevelValues, RawValues, Parent;
    ghost var vs := [];
    RawWellParented(pseudo, bootstrap);
    RawValuesStep(pseudo, 0, bootstrap);
    es := [];
    for level := 0 to LEVELS
      invariant Distinct(es) && fresh(es)
      invariant vs == RawValues(pseudo, level, bootstrap) && |es| == |vs|
      invariant forall i | 0 <= i < |es| :: es[i].View() == vs[i]
    {
      RawValuesStep(pseudo, level, bootstrap);
      vs := vs + LevelValues(pseudo, level, bootstrap);
      var here := EstimateLevel(pseudo, level, bootstrap);
      assert forall i, j | 0 <= i < |es| && 0 <= j < |here| :: es[i] != here[j];
      es := es + here;
    }
    assert Views(es) == vs;
    Flow(es);
  }
}
