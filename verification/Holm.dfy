/** The Holm step-down correction, and why it controls the family-wise error. */
module Holm {
  import CapDraws
  import Quantiles
  import opened Sets

  const ALPHA := 0.05

  function CountLess(p: seq<real>, v: real): (c: nat)
    ensures c <= |p|
  {
    if p == [] then 0 else CountLess(p[..|p| - 1], v) + if p[|p| - 1] < v then 1 else 0
  }

  /** The threshold for a p-value that `c` others undercut among `n`. */
  function Threshold(n: nat, c: nat): real
    requires c < n
  {
    ALPHA / (n - c) as real
  }

  lemma {:induction false} SomeNotLess(p: seq<real>, j: nat, v: real)
    requires j < |p| && p[j] >= v
    ensures CountLess(p, v) < |p|
  {
    if j < |p| - 1 { SomeNotLess(p[..|p| - 1], j, v); }
  }

  /** Value j passes its own step: it meets the threshold set by how many values are smaller. */
  predicate Passes(p: seq<real>, j: nat)
    requires j < |p|
  {
    SomeNotLess(p, j, p[j]);
    p[j] <= Threshold(|p|, CountLess(p, p[j]))
  }

  /** Hypothesis i is rejected: no p-value up to and including its own stops the procedure. */
  predicate Rejects(p: seq<real>, i: nat)
    requires i < |p|
  {
    forall j | 0 <= j < |p| :: p[j] <= p[i] ==> Passes(p, j)
  }

  // ------------------------------------------------------------------ sorting the indices

  /** Insertion of an index into a list sorted by p-value, after its equals. */
  function InsertIndex(p: seq<real>, i: nat, s: seq<nat>): (r: seq<nat>)
    requires i < |p| && forall k | 0 <= k < |s| :: s[k] < |p|
    ensures |r| == |s| + 1
    ensures forall k | 0 <= k < |r| :: r[k] < |p|
    decreases |s|
  {
    if s == [] then [i]
    else if p[s[|s| - 1]] <= p[i] then s + [i]
    else InsertIndex(p, i, s[..|s| - 1]) + [s[|s| - 1]]
  }

  /** The first n indices in ascending, stable order of p-value. */
  function SortedIndices(p: seq<real>, n: nat): (r: seq<nat>)
    requires n <= |p|
    ensures |r| == n
    ensures forall k | 0 <= k < |r| :: r[k] < |p|
  {
    if n == 0 then [] else InsertIndex(p, n - 1, SortedIndices(p, n - 1))
  }

  ghost predicate AscendingBy(p: seq<real>, s: seq<nat>) {
    && (forall k | 0 <= k < |s| :: s[k] < |p|)
    && forall k, l | 0 <= k <= l < |s| :: p[s[k]] <= p[s[l]]
  }

  lemma {:induction false} InsertIndexBound(p: seq<real>, i: nat, s: seq<nat>, v: real)
    requires i < |p| && forall k | 0 <= k < |s| :: s[k] < |p|
    requires p[i] <= v && forall k | 0 <= k < |s| :: p[s[k]] <= v
    ensures forall k | 0 <= k <= |s| :: p[InsertIndex(p, i, s)[k]] <= v
    decreases |s|
  {
    if s != [] && p[s[|s| - 1]] > p[i] { InsertIndexBound(p, i, s[..|s| - 1], v); }
  }

  lemma {:induction false} InsertIndexAscending(p: seq<real>, i: nat, s: seq<nat>)
    requires i < |p| && AscendingBy(p, s)
    ensures AscendingBy(p, InsertIndex(p, i, s))
    decreases |s|
  {
    if s != [] && p[s[|s| - 1]] > p[i] {
      InsertIndexAscending(p, i, s[..|s| - 1]);
      InsertIndexBound(p, i, s[..|s| - 1], p[s[|s| - 1]]);
    }
  }

  lemma {:induction false} InsertIndexOccurrences(p: seq<real>, i: nat, s: seq<nat>)
    requires i < |p| && forall k | 0 <= k < |s| :: s[k] < |p|
    ensures multiset(InsertIndex(p, i, s)) == multiset(s) + multiset{i}
    decreases |s|
  {
    if s != [] && p[s[|s| - 1]] > p[i] {
      InsertIndexOccurrences(p, i, s[..|s| - 1]);
      assert s == s[..|s| - 1] + [s[|s| - 1]];
    }
  }

  lemma {:induction false} SortedIndicesAscending(p: seq<real>, n: nat)
    requires n <= |p|
    ensures AscendingBy(p, SortedIndices(p, n))
  {
    if n > 0 {
      SortedIndicesAscending(p, n - 1);
      InsertIndexAscending(p, n - 1, SortedIndices(p, n - 1));
    }
  }

  lemma {:induction false} SortedIndicesOccurrences(p: seq<real>, n: nat, i: nat)
    requires n <= |p|
    ensures multiset(SortedIndices(p, n))[i] == if i < n then 1 else 0
  {
    hide InsertIndex;
    if n > 0 {
      SortedIndicesOccurrences(p, n - 1, i);
      InsertIndexOccurrences(p, n - 1, SortedIndices(p, n - 1));
    }
  }

  lemma TwiceInMultiset(s: seq<nat>, k: nat, l: nat)
    requires k < l < |s| && s[k] == s[l]
    ensures multiset(s)[s[k]] >= 2
  {
    var a, b, c := s[..k], s[k + 1..l], s[l + 1..];
    assert s == a + [s[k]] + b + [s[l]] + c;
  }

  /** The sorted list is a permutation of all indices. */
  lemma SortedIndicesComplete(p: seq<real>)
    ensures var s := SortedIndices(p, |p|);
            && AscendingBy(p, s)
            && (forall i: nat | i < |p| :: i in s)
            && forall k, l | 0 <= k < l < |s| :: s[k] != s[l]
  {
    hide SortedIndices;
    var s := SortedIndices(p, |p|);
    SortedIndicesAscending(p, |p|);
    forall i: nat | i < |p| ensures i in s {
      SortedIndicesOccurrences(p, |p|, i);
    }
    forall k, l | 0 <= k < l < |s| ensures s[k] != s[l] {
      SortedIndicesOccurrences(p, |p|, s[k]);
      if s[k] == s[l] { TwiceInMultiset(s, k, l); }
    }
  }

  // ------------------------------------------------------------------ rank by counting

  function CountLessAt(p: seq<real>, s: seq<nat>, v: real): nat
    requires forall k | 0 <= k < |s| :: s[k] < |p|
  {
    if s == [] then 0 else CountLessAt(p, s[..|s| - 1], v) + if p[s[|s| - 1]] < v then 1 else 0
  }

  lemma {:induction false} CountInsertIndex(p: seq<real>, i: nat, s: seq<nat>, v: real)
    requires i < |p| && forall k | 0 <= k < |s| :: s[k] < |p|
    ensures CountLessAt(p, InsertIndex(p, i, s), v) == CountLessAt(p, s, v) + if p[i] < v then 1 else 0
    decreases |s|
  {
    if s == [] {
    } else if p[s[|s| - 1]] <= p[i] {
      assert (s + [i])[..|s|] == s;
    } else {
      var r := InsertIndex(p, i, s[..|s| - 1]);
      CountInsertIndex(p, i, s[..|s| - 1], v);
      assert (r + [s[|s| - 1]])[..|s|] == r;
    }
  }

  lemma {:induction false} CountSorted(p: seq<real>, n: nat, v: real)
    requires n <= |p|
    ensures CountLessAt(p, SortedIndices(p, n), v) == CountLess(p[..n], v)
  {
    hide InsertIndex;
    if n > 0 {
      CountSorted(p, n - 1, v);
      CountInsertIndex(p, n - 1, SortedIndices(p, n - 1), v);
      assert p[..n][..n - 1] == p[..n - 1];
    }
  }

  /** In sorted order the values below p[s[k]] are among the first k. */
  lemma {:induction false} CountBefore(p: seq<real>, s: seq<nat>, k: nat)
    requires AscendingBy(p, s) && k < |s|
    ensures CountLessAt(p, s, p[s[k]]) <= k
    ensures (k == 0 || p[s[k - 1]] < p[s[k]]) ==> CountLessAt(p, s, p[s[k]]) == k
    decreases |s|
  {
    var init := s[..|s| - 1];
    if k < |s| - 1 {
      CountBefore(p, init, k);
    } else if k > 0 {
      CountAll(p, init, p[s[k]]);
    }
  }

  lemma {:induction false} CountAll(p: seq<real>, s: seq<nat>, v: real)
    requires AscendingBy(p, s) && s != []
    ensures CountLessAt(p, s, v) <= |s|
    ensures p[s[|s| - 1]] < v ==> CountLessAt(p, s, v) == |s|
    decreases |s|
  {
    if |s| > 1 {
      assert p[s[|s| - 2]] <= p[s[|s| - 1]];
      CountAll(p, s[..|s| - 1], v);
    }
  }

  lemma ThresholdMonotone(n: nat, c: nat, d: nat)
    requires c <= d < n
    ensures 0.0 < Threshold(n, c) <= Threshold(n, d)
  {
    CapDraws.DivideAntitone(ALPHA, (n - d) as real, (n - c) as real);
  }

  // ------------------------------------------------------------------ the loop

  /** Position k of the sorted list meets the threshold the loop compares it with. */
  predicate MeetsAt(p: seq<real>, s: seq<nat>, k: nat)
    requires |s| == |p| && k < |s| && s[k] < |p|
  {
    p[s[k]] <= Threshold(|p|, k)
  }

  /** Meeting every loop threshold up to position k is the same as every value up to it passing. */
  lemma PrefixPasses(p: seq<real>, k: nat)
    requires k < |p|
    ensures var s := SortedIndices(p, |p|);
            (forall l | 0 <= l <= k :: MeetsAt(p, s, l)) <==> Rejects(p, s[k])
  {
    var s := SortedIndices(p, |p|);
    SortedIndicesComplete(p);
    assert p[..|p|] == p;
    if forall l | 0 <= l <= k :: MeetsAt(p, s, l) {
      forall j | 0 <= j < |p| && p[j] <= p[s[k]] ensures Passes(p, j) {
        MeetsMeansPasses(p, j, k);
      }
    }
    if Rejects(p, s[k]) {
      forall l | 0 <= l <= k ensures MeetsAt(p, s, l) {
        assert p[s[l]] <= p[s[k]] && Passes(p, s[l]);
        CountBefore(p, s, l);
        CountSorted(p, |p|, p[s[l]]);
        ThresholdMonotone(|p|, CountLess(p, p[s[l]]), l);
      }
    }
  }

  /** A value equal to an earlier one is compared with a laxer threshold, so the first one decides. */
  lemma {:induction false} FirstOfEquals(p: seq<real>, s: seq<nat>, l: nat) returns (m: nat)
    requires AscendingBy(p, s) && l < |s|
    ensures m <= l && p[s[m]] == p[s[l]] && CountLessAt(p, s, p[s[l]]) == m
  {
    m := l;
    while m > 0 && p[s[m - 1]] == p[s[l]]
      invariant m <= l && p[s[m]] == p[s[l]]
    {
      m := m - 1;
    }
    CountBefore(p, s, m);
  }

  lemma MeetsMeansPasses(p: seq<real>, j: nat, k: nat)
    requires k < |p| && j < |p|
    requires var s := SortedIndices(p, |p|);
             p[j] <= p[s[k]] && forall l | 0 <= l <= k :: MeetsAt(p, s, l)
    ensures Passes(p, j)
  {
    hide SortedIndices, CountLessAt, CountLess, Threshold;
    var s := SortedIndices(p, |p|);
    SortedIndicesComplete(p);
    assert j in s;
    var l :| 0 <= l < |s| && s[l] == j;
    var m := FirstOfEquals(p, s, l);
    CountSorted(p, |p|, p[j]);
    assert p[..|p|] == p;
    RankWithin(p, s, m, k);
    assert MeetsAt(p, s, m);
  }

  /** A value that m others undercut stands no later than any value at least as large. */
  lemma RankWithin(p: seq<real>, s: seq<nat>, m: nat, k: nat)
    requires AscendingBy(p, s) && m < |s| && k < |s| && p[s[m]] <= p[s[k]]
    requires CountLessAt(p, s, p[s[m]]) == m
    ensures m <= k
  {
    hide CountLessAt;
    if k < m {
      assert p[s[k]] == p[s[m]];
      CountBefore(p, s, k);
    }
  }

  method HolmCorrection(p: seq<real>) returns (decisions: seq<bool>)
    ensures |decisions| == |p|
    ensures forall i | 0 <= i < |p| :: decisions[i] <==> Rejects(p, i)
  {
    hide Rejects, Threshold, SortedIndices;
    var n := |p|;
    var indexed := SortedIndices(p, n);
    SortedIndicesComplete(p);
    decisions := seq(n, i => false);
    var k := 0;
    while k < n
      invariant 0 <= k <= n && |decisions| == n
      invariant forall l | 0 <= l < k :: MeetsAt(p, indexed, l)
      invariant forall l | 0 <= l < n :: decisions[indexed[l]] <==> l < k
    {
      var idx := indexed[k];
      if p[idx] <= Threshold(n, k) {
        decisions := decisions[idx := true];
      } else {
        break;
      }
      k := k + 1;
    }
    forall i | 0 <= i < n ensures decisions[i] <==> Rejects(p, i) {
      assert i in indexed;
      var l :| 0 <= l < n && indexed[l] == i;
      PrefixPasses(p, l);
      if l >= k {
        assert !MeetsAt(p, indexed, k);
      }
    }
  }

  // ------------------------------------------------------------------ family-wise error

  /** The Bonferroni test of the joint hypothesis over an index set. */
  ghost predicate SomeSmall(p: seq<real>, family: set<nat>)
    requires family != {} && forall i | i in family :: i < |p|
  {
    exists i | i in family :: p[i] <= 0.05 / |family| as real
  }

  function AtLeast(p: seq<real>, v: real): (r: set<nat>)
    ensures forall i | i in r :: i < |p|
  {
    set i: nat | i < |p| && p[i] >= v
  }

  lemma {:induction false} AtLeastSize(p: seq<real>, v: real)
    ensures |AtLeast(p, v)| == |p| - CountLess(p, v)
  {
    if p != [] {
      var n := |p| - 1;
      AtLeastSize(p[..n], v);
      assert AtLeast(p, v) == AtLeast(p[..n], v) + if p[n] >= v then {n} else {};
    } else {
      assert AtLeast(p, v) == {};
    }
  }

  lemma {:induction false} LeastOf(p: seq<real>, family: set<nat>) returns (j: nat)
    requires family != {} && forall i | i in family :: i < |p|
    ensures j in family && forall i | i in family :: p[j] <= p[i]
    decreases |family|
  {
    var x :| x in family;
    var rest := family - {x};
    assert forall i | i in family :: i == x || i in rest;
    j := x;
    if rest != {} {
      var least := LeastOf(p, rest);
      if p[least] <= p[x] { j := least; }
    }
  }

  /**
   The key step of family-wise error control: rejecting any member of an index set takes some
   p-value of that set at or below alpha over its size. For the set of true hypotheses that
   event has probability at most alpha.
   */
  lemma RejectionNeedsSmallValue(p: seq<real>, family: set<nat>, i: nat)
    requires (forall j | j in family :: j < |p|) && i in family && Rejects(p, i)
    ensures SomeSmall(p, family)
  {
    var j := LeastOf(p, family);
    assert Passes(p, j);
    var c := CountLess(p, p[j]);
    AtLeastSize(p, p[j]);
    SubsetSize(family, AtLeast(p, p[j]));
    ThresholdMonotone(|p|, c, |p| - |family|);
  }

  /** Holm is the closed test built from Bonferroni: i is rejected iff every family holding it is. */
  lemma HolmIsClosedTest(p: seq<real>, i: nat)
    requires i < |p|
    ensures Rejects(p, i) <==>
            forall family: set<nat> | i in family && (forall j | j in family :: j < |p|) :: SomeSmall(p, family)
  {
    if Rejects(p, i) {
      forall family: set<nat> | i in family && (forall j | j in family :: j < |p|) ensures SomeSmall(p, family) {
        RejectionNeedsSmallValue(p, family, i);
      }
    }
    if forall family: set<nat> | i in family && (forall j | j in family :: j < |p|) :: SomeSmall(p, family) {
      forall j | 0 <= j < |p| && p[j] <= p[i] ensures Passes(p, j) {
        SmallInTail(p, i, j);
      }
    }
  }

  lemma SmallInTail(p: seq<real>, i: nat, j: nat)
    requires i < |p| && j < |p| && p[j] <= p[i]
    requires forall family: set<nat> | i in family && (forall k | k in family :: k < |p|) :: SomeSmall(p, family)
    ensures Passes(p, j)
  {
    var tail := AtLeast(p, p[j]);
    AtLeastSize(p, p[j]);
    SomeNotLess(p, j, p[j]);
    assert i in tail && SomeSmall(p, tail);
    var l :| l in tail && p[l] <= ALPHA / |tail| as real;
  }

  /** Lowering p-values never takes a rejection back. */
  lemma LoweringKeepsRejections(p: seq<real>, q: seq<real>, i: nat)
    requires Quantiles.Dominated(q, p) && i < |p| && Rejects(p, i)
    ensures Rejects(q, i)
  {
    forall family: set<nat> | i in family && (forall j | j in family :: j < |q|) ensures SomeSmall(q, family) {
      RejectionNeedsSmallValue(p, family, i);
      var j :| j in family && p[j] <= ALPHA / |family| as real;
      assert q[j] <= ALPHA / |family| as real;
    }
    HolmIsClosedTest(q, i);
  }

  /** Whatever plain Bonferroni rejects, Holm rejects. */
  lemma ContainsBonferroni(p: seq<real>, i: nat)
    requires i < |p| && p[i] <= 0.05 / |p| as real
    ensures Rejects(p, i)
  {
    forall j | 0 <= j < |p| && p[j] <= p[i] ensures Passes(p, j) {
      SomeNotLess(p, j, p[j]);
      ThresholdMonotone(|p|, 0, CountLess(p, p[j]));
    }
  }
}
