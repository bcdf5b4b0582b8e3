/** Context buckets: equal-count calibration error, and merging of similar small buckets. */
module ContextBucket {
  import opened CapDraws
  import opened Quantiles

  const BINS := 5

  /** A stated confidence and the outcome that followed. */
  datatype Pair = Pair(conf: real, outcome: real)

  function Zip(conf: seq<real>, outcomes: seq<real>): seq<Pair> {
    var n := if |conf| <= |outcomes| then |conf| else |outcomes|;
    seq(n, i requires 0 <= i < n => Pair(conf[i], outcomes[i]))
  }

  predicate Le(a: Pair, b: Pair) {
    a.conf < b.conf || (a.conf == b.conf && a.outcome <= b.outcome)
  }

  function Insert(x: Pair, s: seq<Pair>): seq<Pair> {
    if s == [] then [x] else if Le(x, s[0]) then [x] + s else [s[0]] + Insert(x, s[1..])
  }

  function Sort(s: seq<Pair>): seq<Pair> {
    if s == [] then [] else Insert(s[0], Sort(s[1..]))
  }

  lemma {:induction false} InsertsCommute(x: Pair, y: Pair, s: seq<Pair>)
    ensures Insert(x, Insert(y, s)) == Insert(y, Insert(x, s))
  {
    if s != [] {
      InsertsCommute(x, y, s[1..]);
      assert ([s[0]] + Insert(x, s[1..]))[1..] == Insert(x, s[1..]);
      assert ([s[0]] + Insert(y, s[1..]))[1..] == Insert(y, s[1..]);
    }
    assert ([x] + s)[1..] == s && ([y] + s)[1..] == s;
  }

  lemma {:induction false} SortPullsOut(s: seq<Pair>, i: nat)
    requires i < |s|
    ensures Sort(s) == Insert(s[i], Sort(s[..i] + s[i + 1..]))
  {
    if i == 0 {
      assert s[..0] + s[1..] == s[1..];
    } else {
      var rest := s[..i] + s[i + 1..];
      SortPullsOut(s[1..], i - 1);
      assert s[1..][..i - 1] + s[1..][i..] == rest[1..];
      assert rest[0] == s[0];
      InsertsCommute(s[0], s[i], Sort(rest[1..]));
    }
  }

  lemma WithoutOne(s: seq<Pair>, t: seq<Pair>) returns (i: nat)
    requires s != [] && multiset(s) == multiset(t)
    ensures i < |t| && t[i] == s[0] && multiset(s[1..]) == multiset(t[..i] + t[i + 1..])
  {
    assert s[0] in multiset(t);
    i :| 0 <= i < |t| && t[i] == s[0];
    var rest := t[..i] + t[i + 1..];
    assert multiset(t) == multiset(rest) + multiset{s[0]} by { assert t == t[..i] + [t[i]] + t[i + 1..]; }
    assert multiset(s) == multiset(s[1..]) + multiset{s[0]} by { assert s == [s[0]] + s[1..]; }
    assert multiset(s[1..]) == multiset(s) - multiset{s[0]};
    assert multiset(rest) == multiset(t) - multiset{s[0]};
  }

  /** The sorted list does not depend on the order in which observations arrived. */
  lemma {:induction false} SortForgetsOrder(s: seq<Pair>, t: seq<Pair>)
    requires multiset(s) == multiset(t)
    ensures Sort(s) == Sort(t)
  {
    if s == [] {
      assert |multiset(t)| == |t|;
    } else {
      hide Insert;
      var i := WithoutOne(s, t);
      SortForgetsOrder(s[1..], t[..i] + t[i + 1..]);
      SortPullsOut(t, i);
    }
  }

  ghost predicate ByConfidence(s: seq<Pair>) {
    forall i, j | 0 <= i <= j < |s| :: s[i].conf <= s[j].conf
  }

  lemma {:induction false} InsertKeeps(x: Pair, s: seq<Pair>)
    ensures multiset(Insert(x, s)) == multiset(s) + multiset{x}
  {
    if s != [] {
      assert s == [s[0]] + s[1..];
      InsertKeeps(x, s[1..]);
    }
  }

  lemma InsertMembers(x: Pair, s: seq<Pair>, low: real)
    requires x.conf >= low && forall i | 0 <= i < |s| :: s[i].conf >= low
    ensures forall j | 0 <= j < |Insert(x, s)| :: Insert(x, s)[j].conf >= low
  {
    var r := Insert(x, s);
    InsertKeeps(x, s);
    forall j | 0 <= j < |r| ensures r[j].conf >= low {
      assert r[j] in multiset(r);
      assert r[j] in multiset(s) || r[j] == x;
    }
  }

  lemma {:induction false} InsertByConfidence(x: Pair, s: seq<Pair>)
    requires ByConfidence(s)
    ensures ByConfidence(Insert(x, s))
  {
    if s != [] && !Le(x, s[0]) {
      InsertByConfidence(x, s[1..]);
      InsertMembers(x, s[1..], s[0].conf);
    }
  }

  /** Sorting keeps the pairs and puts lower confidence first, so bins are ranges of confidence. */
  lemma {:induction false} SortsByConfidence(s: seq<Pair>)
    ensures ByConfidence(Sort(s)) && multiset(Sort(s)) == multiset(s)
  {
    if s != [] {
      assert s == [s[0]] + s[1..];
      SortsByConfidence(s[1..]);
      InsertByConfidence(s[0], Sort(s[1..]));
      InsertKeeps(s[0], Sort(s[1..]));
    }
  }

  // ------------------------------------------------------------------ the error over bins

  function Confidences(s: seq<Pair>): real {
    if s == [] then 0.0 else Confidences(s[1..]) + s[0].conf
  }

  function Outcomes(s: seq<Pair>): real {
    if s == [] then 0.0 else Outcomes(s[1..]) + s[0].outcome
  }

  function Abs(x: real): real {
    if x >= 0.0 then x else -x
  }

  function AbsoluteGaps(s: seq<Pair>): real {
    if s == [] then 0.0 else AbsoluteGaps(s[1..]) + Abs(s[0].conf - s[0].outcome)
  }

  function Gap(s: seq<Pair>): real {
    Confidences(s) - Outcomes(s)
  }

  function Edge(n: nat, i: nat): nat {
    i * n / BINS
  }

  lemma EdgesAscend(n: nat, i: nat)
    requires i < BINS
    ensures Edge(n, 0) == 0 && Edge(n, BINS) == n
    ensures Edge(n, i) <= Edge(n, i + 1) <= n
    ensures n / BINS <= Edge(n, i + 1) - Edge(n, i) <= n / BINS + 1
  {
    assert (i + 1) * n == i * n + n;
    assert i == 0 || i == 1 || i == 2 || i == 3 || i == 4;
  }

  /** What one non-empty bin adds. */
  function BinError(bin: seq<Pair>, n: nat): real
    requires bin != [] && n > 0
  {
    Abs(Confidences(bin) / |bin| as real - Outcomes(bin) / |bin| as real) * |bin| as real / n as real
  }

  function ErrorUpTo(s: seq<Pair>, i: nat): real
    requires i <= BINS
  {
    if i == 0 then 0.0 else
      EdgesAscend(|s|, i - 1);
      var bin := s[Edge(|s|, i - 1)..Edge(|s|, i)];
      ErrorUpTo(s, i - 1) + if bin == [] then 0.0 else BinError(bin, |s|)
  }

  function Ece(conf: seq<real>, outcomes: seq<real>): real {
    if |conf| < BINS then 0.0 else ErrorUpTo(Sort(Zip(conf, outcomes)), BINS)
  }

  method ComputeEce(conf: seq<real>, outcomes: seq<real>) returns (e: real)
    ensures e == Ece(conf, outcomes)
  {
    hide BinError, Edge, Sort;
    if |conf| < BINS {
      return 0.0;
    }
    var pairs := Sort(Zip(conf, outcomes));
    e := 0.0;
    for i := 0 to BINS
      invariant e == ErrorUpTo(pairs, i)
    {
      EdgesAscend(|pairs|, i);
      var lo, hi := Edge(|pairs|, i), Edge(|pairs|, i + 1);
      if hi > lo {
        e := e + BinError(pairs[lo..hi], |pairs|);
      }
    }
  }

  lemma ScaledBack(c: real, o: real, m: real, n: real)
    requires m > 0.0 && n > 0.0
    ensures Abs(c / m - o / m) * m / n == Abs(c - o) / n
  {
    var x, y := c / m, o / m;
    assert x * m == c && y * m == o;
    assert (x - y) * m == c - o;
    assert (y - x) * m == o - c;
    if x >= y {
      NonNegativeProduct(x - y, m);
    } else {
      NonNegativeProduct(y - x, m);
    }
  }

  lemma {:induction false} SumsAppend(a: seq<Pair>, b: seq<Pair>)
    ensures Confidences(a + b) == Confidences(a) + Confidences(b)
    ensures Outcomes(a + b) == Outcomes(a) + Outcomes(b)
    ensures AbsoluteGaps(a + b) == AbsoluteGaps(a) + AbsoluteGaps(b)
  {
    if a == [] {
      assert a + b == b;
    } else {
      assert (a + b)[0] == a[0] && (a + b)[1..] == a[1..] + b;
      SumsAppend(a[1..], b);
    }
  }

  lemma {:induction false} GapBelow(s: seq<Pair>)
    ensures Abs(Gap(s)) <= AbsoluteGaps(s)
  {
    if s != [] {
      GapBelow(s[1..]);
    }
  }

  lemma {:induction false} SumsOfInsert(x: Pair, s: seq<Pair>)
    ensures Confidences(Insert(x, s)) == Confidences(s) + x.conf
    ensures Outcomes(Insert(x, s)) == Outcomes(s) + x.outcome
    ensures AbsoluteGaps(Insert(x, s)) == AbsoluteGaps(s) + Abs(x.conf - x.outcome)
    ensures |Insert(x, s)| == |s| + 1
  {
    assert ([x] + s)[1..] == s;
    if s != [] {
      SumsOfInsert(x, s[1..]);
      assert ([s[0]] + Insert(x, s[1..]))[1..] == Insert(x, s[1..]);
    }
  }

  lemma {:induction false} SumsOfSort(s: seq<Pair>)
    ensures Gap(Sort(s)) == Gap(s) && AbsoluteGaps(Sort(s)) == AbsoluteGaps(s) && |Sort(s)| == |s|
    ensures Confidences(Sort(s)) == Confidences(s) && Outcomes(Sort(s)) == Outcomes(s)
  {
    if s != [] {
      SumsOfSort(s[1..]);
      SumsOfInsert(s[0], Sort(s[1..]));
    }
  }

  /** The first i bins are squeezed between the net and the absolute gap of the pairs they hold. */
  lemma {:induction false} ErrorSqueezed(s: seq<Pair>, i: nat)
    requires s != [] && i <= BINS
    ensures Edge(|s|, i) <= |s|
    ensures var seen := s[..Edge(|s|, i)];
            Abs(Gap(seen)) / |s| as real <= ErrorUpTo(s, i) <= AbsoluteGaps(seen) / |s| as real
  {
    hide Edge, Confidences, Outcomes, AbsoluteGaps, BinError;
    var n := |s| as real;
    if i == 0 {
      EdgesAscend(|s|, 0);
      assert s[..0] == [];
      NothingSums();
    } else {
      EdgesAscend(|s|, i - 1);
      ErrorSqueezed(s, i - 1);
      var lo, hi := Edge(|s|, i - 1), Edge(|s|, i);
      var bin := s[lo..hi];
      assert s[..hi] == s[..lo] + bin;
      SumsAppend(s[..lo], bin);
      GapBelow(bin);
      NothingSums();
      if bin != [] {
        BinErrorIsGap(bin, |s|);
      }
      Shares(Abs(Gap(s[..lo])), Abs(Gap(bin)), Abs(Gap(s[..hi])), n);
      Shares(AbsoluteGaps(s[..lo]), AbsoluteGaps(bin), AbsoluteGaps(s[..hi]), n);
      DivideMonotone(Abs(Gap(bin)), AbsoluteGaps(bin), n);
    }
  }

  lemma BinErrorIsGap(bin: seq<Pair>, n: nat)
    requires bin != [] && n > 0
    ensures BinError(bin, n) == Abs(Gap(bin)) / n as real
  {
    hide Abs, Confidences, Outcomes;
    ScaledBack(Confidences(bin), Outcomes(bin), |bin| as real, n as real);
  }

  lemma NothingSums()
    ensures Gap([]) == 0.0 && AbsoluteGaps([]) == 0.0
  {
  }

  lemma Shares(a: real, b: real, c: real, n: real)
    requires n > 0.0
    ensures c <= a + b ==> c / n <= a / n + b / n
    ensures c == a + b ==> c / n == a / n + b / n
  {
    assert a / n + b / n == (a + b) / n;
    if c <= a + b {
      DivideMonotone(c, a + b, n);
    }
  }

  /**
   With enough observations the calibration error lies between the gap of the two means and the
   mean absolute gap, and it does not depend on the order of the observations.
   */
  lemma EceSqueezed(conf: seq<real>, outcomes: seq<real>)
    requires |conf| == |outcomes| >= BINS
    ensures var s, n := Zip(conf, outcomes), |conf| as real;
            Abs(Confidences(s) / n - Outcomes(s) / n) <= Ece(conf, outcomes) <= AbsoluteGaps(s) / n
  {
    hide ErrorUpTo, Sort, Confidences, Outcomes, AbsoluteGaps;
    var s, n := Zip(conf, outcomes), |conf| as real;
    var sorted := Sort(s);
    SumsOfSort(s);
    ErrorSqueezed(sorted, BINS);
    EdgesAscend(|sorted|, 0);
    assert sorted[..|sorted|] == sorted;
    GapOfMeans(Confidences(s), Outcomes(s), n);
  }

  lemma GapOfMeans(c: real, o: real, n: real)
    requires n > 0.0
    ensures Abs(c / n - o / n) == Abs(c - o) / n
  {
    ScaledBack(c, o, n, n);
    var d := Abs(c / n - o / n);
    assert d * n / n == d;
  }

  lemma EceForgetsOrder(conf: seq<real>, outcomes: seq<real>, conf': seq<real>, outcomes': seq<real>)
    requires |conf| == |outcomes| && |conf'| == |outcomes'|
    requires multiset(Zip(conf, outcomes)) == multiset(Zip(conf', outcomes'))
    ensures Ece(conf, outcomes) == Ece(conf', outcomes')
  {
    hide ErrorUpTo, Sort;
    assert |multiset(Zip(conf, outcomes))| == |conf| && |multiset(Zip(conf', outcomes'))| == |conf'|;
    SortForgetsOrder(Zip(conf, outcomes), Zip(conf', outcomes'));
  }

  lemma {:induction false} AbsoluteGapsInUnit(s: seq<Pair>)
    requires forall p | p in s :: 0.0 <= p.conf <= 1.0 && 0.0 <= p.outcome <= 1.0
    ensures AbsoluteGaps(s) <= |s| as real
  {
    if s != [] {
      assert s[0] in s && forall p | p in s[1..] :: p in s;
      AbsoluteGapsInUnit(s[1..]);
    }
  }

  lemma SelfRatio(n: real)
    requires n > 0.0
    ensures n / n == 1.0
  {
  }

  /** For probabilities the calibration error is itself in the unit interval. */
  lemma EceInUnit(conf: seq<real>, outcomes: seq<real>)
    requires |conf| == |outcomes|
    requires forall i :: 0 <= i < |conf| ==> 0.0 <= conf[i] <= 1.0 && 0.0 <= outcomes[i] <= 1.0
    ensures 0.0 <= Ece(conf, outcomes) <= 1.0
  {
    hide ErrorUpTo, Sort, Confidences, Outcomes, AbsoluteGaps;
    if |conf| >= BINS {
      var s, n := Zip(conf, outcomes), |conf| as real;
      EceSqueezed(conf, outcomes);
      AbsoluteGapsInUnit(s);
      DivideMonotone(AbsoluteGaps(s), n, n);
      SelfRatio(n);
    }
  }

  // ------------------------------------------------------------------ merging small buckets

  datatype Stats = Stats(alpha: real, beta: real, count: int)

  datatype MergeRule = MergeRule(minimum: int, threshold: real, divergence: (Stats, Stats) -> real)

  function StatsOf(stats: map<string, Stats>, b: string): Stats {
    if b in stats then stats[b] else Stats(1.0, 1.0, 0)
  }

  predicate Small(r: MergeRule, stats: map<string, Stats>, b: string) {
    StatsOf(stats, b).count < r.minimum * 2
  }

  /** The second bucket is close enough to the first to join it. */
  predicate Close(r: MergeRule, stats: map<string, Stats>, a: string, b: string) {
    r.divergence(StatsOf(stats, a), StatsOf(stats, b)) < r.threshold
  }

  /** A group to merge: small buckets, all different, each close to the first. */
  predicate MergeGroup(r: MergeRule, stats: map<string, Stats>, buckets: seq<string>, g: seq<string>) {
    && |g| > 1
    && (forall m :: 0 <= m < |g| ==> g[m] in buckets && Small(r, stats, g[m]))
    && (forall m :: 1 <= m < |g| ==> Close(r, stats, g[0], g[m]))
    && (forall m, m' :: 0 <= m < m' < |g| ==> g[m] != g[m'])
  }

  predicate Grouped(groups: seq<seq<string>>, b: string) {
    exists i :: 0 <= i < |groups| && b in groups[i]
  }

  /** The bucket comes first in its group, so that the others were measured against it. */
  predicate Leads(groups: seq<seq<string>>, b: string) {
    exists i :: 0 <= i < |groups| && groups[i] != [] && groups[i][0] == b
  }

  /** Bucket i, small, leads a group or is alone; bucket j, small and first seen after it, is alone. */
  predicate Left(r: MergeRule, stats: map<string, Stats>, buckets: seq<string>, groups: seq<seq<string>>, i: int,
        j: int) {
    && 0 <= i < j < |buckets| && buckets[j] !in buckets[..i + 1]
    && Small(r, stats, buckets[i]) && Small(r, stats, buckets[j])
    && (Grouped(groups, buckets[i]) ==> Leads(groups, buckets[i])) && !Grouped(groups, buckets[j])
  }

  /**
   Among the first n buckets, no small one that leads a group or stayed ungrouped is close to a
   later, first-seen small bucket that stayed ungrouped.
   */
  ghost predicate NoPairLeft(r: MergeRule, stats: map<string, Stats>, buckets: seq<string>,
        groups: seq<seq<string>>, n: nat)
    requires n <= |buckets|
  {
    forall i, j :: 0 <= i < n && Left(r, stats, buckets, groups, i, j) ==> !Close(r, stats, buckets[i], buckets[j])
  }

  lemma GroupedAppend(groups: seq<seq<string>>, g: seq<string>)
    ensures forall b :: Grouped(groups + [g], b) <==> Grouped(groups, b) || b in g
  {
    var all := groups + [g];
    assert all[|groups|] == g;
    forall b | Grouped(groups, b) ensures Grouped(all, b) {
      var i :| 0 <= i < |groups| && b in groups[i];
      assert all[i] == groups[i];
    }
  }

  lemma LeadsAppend(groups: seq<seq<string>>, g: seq<string>)
    requires g != []
    ensures forall b :: Leads(groups + [g], b) <==> Leads(groups, b) || b == g[0]
  {
    var all := groups + [g];
    assert all[|groups|] == g;
    forall b | Leads(groups, b) ensures Leads(all, b) {
      var i :| 0 <= i < |groups| && groups[i] != [] && groups[i][0] == b;
      assert all[i] == groups[i];
    }
  }

  predicate LedFrom(groups: seq<seq<string>>, buckets: seq<string>, n: nat)
    requires n <= |buckets|
  {
    forall g :: 0 <= g < |groups| ==> groups[g] != [] && groups[g][0] in buckets[..n]
  }

  lemma UsedStep(r: MergeRule, stats: map<string, Stats>, buckets: seq<string>, groups: seq<seq<string>>, i: nat)
    requires i < |buckets| && NoPairLeft(r, stats, buckets, groups, i) && LedFrom(groups, buckets, i)
    requires !Small(r, stats, buckets[i]) || buckets[i] in buckets[..i] || Grouped(groups, buckets[i])
    ensures NoPairLeft(r, stats, buckets, groups, i + 1)
  {
    hide Small, Close, Grouped;
    forall j | Left(r, stats, buckets, groups, i, j) ensures !Close(r, stats, buckets[i], buckets[j]) {
      assert buckets[i] in buckets[..i];
      var p :| 0 <= p < i && buckets[p] == buckets[i];
      assert buckets[..i + 1][..p + 1] == buckets[..p + 1];
      assert Left(r, stats, buckets, groups, p, j);
    }
  }

  lemma GatherStep(r: MergeRule, stats: map<string, Stats>, buckets: seq<string>, before: seq<seq<string>>,
                   i: nat, used: set<string>, g: seq<string>)
    requires i < |buckets| && buckets[i] !in used && NoPairLeft(r, stats, buckets, before, i)
    requires forall k :: 0 <= k < i ==> buckets[k] in used
    requires forall b | b in used :: b in buckets[..i] || Grouped(before, b)
    requires g != [] && g[0] == buckets[i] && forall b | b in g :: b !in used
    requires forall j :: i < j < |buckets| && buckets[j] !in used && buckets[j] !in g && Small(r, stats, buckets[j])
               ==> !Close(r, stats, buckets[i], buckets[j])
    ensures NoPairLeft(r, stats, buckets, if |g| > 1 then before + [g] else before, i + 1)
  {
    hide Small, Close, Grouped, Leads;
    var groups := if |g| > 1 then before + [g] else before;
    GroupedAppend(before, g);
    LeadsAppend(before, g);
    forall p, j | 0 <= p <= i && Left(r, stats, buckets, groups, p, j)
      ensures !Close(r, stats, buckets[p], buckets[j])
    {
      if p < i {
        assert Left(r, stats, buckets, before, p, j);
      } else {
        assert buckets[..i + 1] == buckets[..i] + [buckets[i]];
      }
    }
  }

  predicate Apart(groups: seq<seq<string>>) {
    forall g, h, b :: 0 <= g < h < |groups| && b in groups[g] ==> b !in groups[h]
  }

  /** What holds once the first n buckets have been looked at. */
  ghost predicate Scanned(r: MergeRule, stats: map<string, Stats>, buckets: seq<string>, groups: seq<seq<string>>,
                          used: set<string>, n: nat)
  {
    && n <= |buckets|
    && (forall k :: 0 <= k < n ==> buckets[k] in used)
    && (forall b | b in used :: b in buckets[..n] || Grouped(groups, b))
    && (forall g, b :: 0 <= g < |groups| && b in groups[g] ==> b in used)
    && (forall g :: 0 <= g < |groups| ==> MergeGroup(r, stats, buckets, groups[g]))
    && Apart(groups) && LedFrom(groups, buckets, n) && NoPairLeft(r, stats, buckets, groups, n)
  }

  lemma UsedScan(r: MergeRule, stats: map<string, Stats>, buckets: seq<string>, groups: seq<seq<string>>,
                 used: set<string>, i: nat)
    requires i < |buckets| && Scanned(r, stats, buckets, groups, used, i)
    requires !Small(r, stats, buckets[i]) || buckets[i] in used
    ensures Scanned(r, stats, buckets, groups, used + {buckets[i]}, i + 1)
  {
    hide Small, NoPairLeft, MergeGroup, Grouped;
    UsedStep(r, stats, buckets, groups, i);
    assert buckets[..i + 1] == buckets[..i] + [buckets[i]];
  }

  lemma GatherScan(r: MergeRule, stats: map<string, Stats>, buckets: seq<string>, groups: seq<seq<string>>,
                   used: set<string>, i: nat, g: seq<string>, now: set<string>)
    requires i < |buckets| && Scanned(r, stats, buckets, groups, used, i) && buckets[i] !in used
    requires g != [] && g[0] == buckets[i] && (|g| > 1 ==> MergeGroup(r, stats, buckets, g))
    requires forall b :: b in now <==> b in used || b in g
    requires forall b | b in g :: b !in used
    requires forall j :: i < j < |buckets| && buckets[j] !in now && Small(r, stats, buckets[j])
               ==> !Close(r, stats, buckets[i], buckets[j])
    ensures Scanned(r, stats, buckets, if |g| > 1 then groups + [g] else groups, now, i + 1)
  {
    hide Small, Close, NoPairLeft, MergeGroup, Grouped, Apart, LedFrom;
    GatherStep(r, stats, buckets, groups, i, used, g);
    GatherUsed(buckets, groups, used, i, g, now);
    GatherApart(buckets, groups, used, i, g);
  }

  lemma GatherUsed(buckets: seq<string>, groups: seq<seq<string>>, used: set<string>, i: nat, g: seq<string>,
        now: set<string>)
    requires i < |buckets| && g != [] && g[0] == buckets[i]
    requires forall k :: 0 <= k < i ==> buckets[k] in used
    requires forall b | b in used :: b in buckets[..i] || Grouped(groups, b)
    requires forall b :: b in now <==> b in used || b in g
    ensures forall k :: 0 <= k < i + 1 ==> buckets[k] in now
    ensures forall b | b in now :: b in buckets[..i + 1] || Grouped(if |g| > 1 then groups + [g] else groups, b)
  {
    hide Grouped;
    GroupedAppend(groups, g);
    assert buckets[..i + 1] == buckets[..i] + [buckets[i]];
    assert |g| == 1 ==> g == [buckets[i]];
  }

  lemma GatherApart(buckets: seq<string>, groups: seq<seq<string>>, used: set<string>, i: nat, g: seq<string>)
    requires i < |buckets| && g != [] && g[0] == buckets[i]
    requires forall h, b :: 0 <= h < |groups| && b in groups[h] ==> b in used
    requires forall b | b in g :: b !in used
    requires Apart(groups) && LedFrom(groups, buckets, i)
    ensures var all := if |g| > 1 then groups + [g] else groups;
            Apart(all) && LedFrom(all, buckets, i + 1)
  {
    assert buckets[..i + 1] == buckets[..i] + [buckets[i]];
  }

  /** No bucket is in two groups, and no pair is left that the scan should have joined. */
  method MaybeMerge(r: MergeRule, buckets: seq<string>, stats: map<string, Stats>) returns (groups: seq<seq<string>>)
    ensures forall i :: 0 <= i < |groups| ==> MergeGroup(r, stats, buckets, groups[i])
    ensures Apart(groups)
    ensures NoPairLeft(r, stats, buckets, groups, |buckets|)
  {
    groups := [];
    NothingScanned(r, stats, buckets);
    if |buckets| < 2 {
      return;
    }
    hide Small, Close, NoPairLeft, MergeGroup, Grouped, LedFrom;
    var used: set<string> := {};
    for i := 0 to |buckets|
      invariant Scanned(r, stats, buckets, groups, used, i)
    {
      if buckets[i] in used {
        UsedScan(r, stats, buckets, groups, used, i);
        assert used + {buckets[i]} == used;
      } else if Small(r, stats, buckets[i]) {
        var g, now := Gather(r, buckets, stats, i, used);
        GatherScan(r, stats, buckets, groups, used, i, g, now);
        used := now;
        if |g| > 1 {
          groups := groups + [g];
        }
      } else {
        UsedScan(r, stats, buckets, groups, used, i);
        used := used + {buckets[i]};
      }
    }
  }

  lemma NothingScanned(r: MergeRule, stats: map<string, Stats>, buckets: seq<string>)
    ensures Scanned(r, stats, buckets, [], {}, 0)
    ensures |buckets| < 2 ==> NoPairLeft(r, stats, buckets, [], |buckets|)
  {
  }

  /** The inner scan: what joins bucket i among the unused buckets after it. */
  method Gather(r: MergeRule, buckets: seq<string>, stats: map<string, Stats>, i: nat, before: set<string>)
    returns (g: seq<string>, used: set<string>)
    requires i < |buckets| && buckets[i] !in before && Small(r, stats, buckets[i])
    ensures g != [] && g[0] == buckets[i]
    ensures |g| > 1 ==> MergeGroup(r, stats, buckets, g)
    ensures forall b :: b in used <==> b in before || b in g
    ensures forall b | b in g :: b !in before
    ensures forall j :: i < j < |buckets| && buckets[j] !in used && Small(r, stats, buckets[j])
              ==> !Close(r, stats, buckets[i], buckets[j])
  {
    hide Small, Close;
    g, used := [buckets[i]], before + {buckets[i]};
    for j := i + 1 to |buckets|
      invariant g != [] && g[0] == buckets[i]
      invariant forall m :: 0 <= m < |g| ==> g[m] in buckets && Small(r, stats, g[m])
      invariant forall m :: 1 <= m < |g| ==> Close(r, stats, g[0], g[m])
      invariant forall m, m' :: 0 <= m < m' < |g| ==> g[m] != g[m']
      invariant forall b :: b in used <==> b in before || b in g
      invariant forall b | b in g :: b !in before
      invariant forall k :: i < k < j && buckets[k] !in used && Small(r, stats, buckets[k])
                  ==> !Close(r, stats, buckets[i], buckets[k])
    {
      if buckets[j] !in used && Small(r, stats, buckets[j]) && Close(r, stats, buckets[i], buckets[j]) {
        g, used := g + [buckets[j]], used + {buckets[j]};
      }
    }
  }
}
