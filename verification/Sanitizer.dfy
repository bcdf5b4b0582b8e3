/** Bank hygiene: quarantine, near-duplicate removal and merging of corrections. */
module Sanitizer {
  import opened Wrappers

  datatype Item = Item(
    id: Option<string>, gene: string, kind: string, group: string,
    hasScope: bool, hasSafety: bool,
    preconditions: seq<string>, postconditions: seq<string>,
    observations: int, harms: int, timestamp: int, mergedFrom: seq<Option<string>>)

  /** Tokenizing an item's text and cutting a precondition down to its pattern are parameters. */
  datatype Settings = Settings(threshold: real, tokens: Item -> set<string>, pattern: string -> string)

  datatype Action =
    | Quarantine(id: string)
    | Drop(id: string, duplicateOf: string)
    | Merge(id: string, group: string, into: string)

  type KeyOf = Item -> Option<string>

  function Shown(x: Item): string {
    match x.id case Some(k) => k case None => "?"
  }

  // ------------------------------------------------------------------ completeness

  predicate IsComplete(x: Item) {
    x.gene != "" && x.kind != "" && x.hasScope && x.hasSafety
  }

  function Complete(s: seq<Item>): seq<Item> {
    if s == [] then [] else
      var rest := Complete(s[..|s| - 1]);
      if IsComplete(s[|s| - 1]) then rest + [s[|s| - 1]] else rest
  }

  function Incomplete(s: seq<Item>): seq<Item> {
    if s == [] then [] else
      var rest := Incomplete(s[..|s| - 1]);
      if IsComplete(s[|s| - 1]) then rest else rest + [s[|s| - 1]]
  }

  // ------------------------------------------------------------------ grouping

  function DedupKey(x: Item): Option<string> {
    Some(x.kind + "|" + x.group)
  }

  predicate Mergeable(kind: string) {
    kind == "action_correction" || kind == "dependency_correction" || kind == "remedy"
  }

  function MergeKey(x: Item): Option<string> {
    if Mergeable(x.kind) then Some(x.kind + "|" + x.group) else None
  }

  /** The items filed under a key, in order. */
  function WithKey(key: KeyOf, s: seq<Item>, k: string): seq<Item> {
    if s == [] then []
    else if key(s[0]) == Some(k) then [s[0]] + WithKey(key, s[1..], k)
    else WithKey(key, s[1..], k)
  }

  /** The keys in order of first appearance. */
  function FirstKeys(key: KeyOf, s: seq<Item>): seq<string> {
    if s == [] then [] else
      var before := FirstKeys(key, s[..|s| - 1]);
      match key(s[|s| - 1])
      case None => before
      case Some(k) => if k in before then before else before + [k]
  }

  predicate Under(key: KeyOf, x: Item, keys: seq<string>) {
    key(x).Some? && key(x).value in keys
  }

  /** The items filed under some key of a list, and the others. */
  function KeyedBy(key: KeyOf, s: seq<Item>, keys: seq<string>): seq<Item> {
    if s == [] then []
    else if Under(key, s[0], keys) then [s[0]] + KeyedBy(key, s[1..], keys)
    else KeyedBy(key, s[1..], keys)
  }

  function Without(key: KeyOf, s: seq<Item>, keys: seq<string>): seq<Item> {
    if s == [] then []
    else if Under(key, s[0], keys) then Without(key, s[1..], keys)
    else [s[0]] + Without(key, s[1..], keys)
  }

  predicate Distinct(keys: seq<string>) {
    forall i, j :: 0 <= i < j < |keys| ==> keys[i] != keys[j]
  }

  lemma {:induction false} FirstKeysExact(key: KeyOf, s: seq<Item>)
    ensures Distinct(FirstKeys(key, s))
    ensures forall x | x in s :: key(x).Some? ==> key(x).value in FirstKeys(key, s)
    ensures forall k | k in FirstKeys(key, s) :: exists x :: x in s && key(x) == Some(k)
  {
    if s != [] {
      var before, x := s[..|s| - 1], s[|s| - 1];
      FirstKeysExact(key, before);
      assert s == before + [x];
      forall k | k in FirstKeys(key, s) ensures exists y :: y in s && key(y) == Some(k) {
        if k in FirstKeys(key, before) {
          var y :| y in before && key(y) == Some(k);
          assert y in s;
        } else {
          assert x in s && key(x) == Some(k);
        }
      }
    }
  }

  lemma {:induction false} WithKeyAppend(key: KeyOf, a: seq<Item>, b: seq<Item>, k: string)
    ensures WithKey(key, a + b, k) == WithKey(key, a, k) + WithKey(key, b, k)
  {
    if a == [] {
      assert a + b == b;
    } else {
      assert (a + b)[0] == a[0] && (a + b)[1..] == a[1..] + b;
      WithKeyAppend(key, a[1..], b, k);
    }
  }

  lemma {:induction false} WithoutAppend(key: KeyOf, a: seq<Item>, b: seq<Item>, keys: seq<string>)
    ensures Without(key, a + b, keys) == Without(key, a, keys) + Without(key, b, keys)
  {
    if a == [] {
      assert a + b == b;
    } else {
      assert (a + b)[0] == a[0] && (a + b)[1..] == a[1..] + b;
      WithoutAppend(key, a[1..], b, keys);
    }
  }

  lemma {:induction false} WithKeyMembers(key: KeyOf, s: seq<Item>, k: string)
    ensures forall x :: x in WithKey(key, s, k) <==> x in s && key(x) == Some(k)
  {
    if s != [] {
      WithKeyMembers(key, s[1..], k);
      assert s == [s[0]] + s[1..];
    }
  }

  /** One more key brings in exactly its own group. */
  lemma {:induction false} KeyedByOneMore(key: KeyOf, s: seq<Item>, keys: seq<string>, k: string)
    requires k !in keys
    ensures multiset(KeyedBy(key, s, keys + [k])) == multiset(KeyedBy(key, s, keys)) + multiset(WithKey(key, s, k))
  {
    if s != [] {
      KeyedByOneMore(key, s[1..], keys, k);
    }
  }

  lemma {:induction false} KeyedByAll(key: KeyOf, s: seq<Item>, keys: seq<string>)
    requires forall x | x in s :: Under(key, x, keys)
    ensures KeyedBy(key, s, keys) == s
  {
    if s != [] {
      assert s == [s[0]] + s[1..] && s[0] in s;
      KeyedByAll(key, s[1..], keys);
    }
  }

  lemma {:induction false} KeyedByNone(key: KeyOf, s: seq<Item>)
    ensures KeyedBy(key, s, []) == [] && Without(key, s, []) == s
  {
    if s != [] {
      assert s == [s[0]] + s[1..];
      KeyedByNone(key, s[1..]);
    }
  }

  lemma {:induction false} SplitByKeys(key: KeyOf, s: seq<Item>, keys: seq<string>)
    ensures multiset(s) == multiset(Without(key, s, keys)) + multiset(KeyedBy(key, s, keys))
  {
    if s != [] {
      assert s == [s[0]] + s[1..];
      SplitByKeys(key, s[1..], keys);
    }
  }

  lemma GroupNothing(key: KeyOf)
    ensures FirstKeys(key, []) == [] && forall k :: WithKey(key, [], k) == []
  {
  }

  lemma GroupOneMore(key: KeyOf, s: seq<Item>, x: Item)
    ensures FirstKeys(key, s + [x])
         == if key(x).None? || key(x).value in FirstKeys(key, s) then FirstKeys(key, s)
            else FirstKeys(key, s) + [key(x).value]
    ensures forall k :: WithKey(key, s + [x], k)
                     == if key(x) == Some(k) then WithKey(key, s, k) + [x] else WithKey(key, s, k)
    ensures forall k :: k !in FirstKeys(key, s) ==> WithKey(key, s, k) == []
  {
    assert (s + [x])[..|s|] == s;
    FirstKeysExact(key, s);
    forall k: string
      ensures WithKey(key, s + [x], k) == if key(x) == Some(k) then WithKey(key, s, k) + [x] else WithKey(key, s, k)
    {
      WithKeyAppend(key, s, [x], k);
      assert [x][1..] == [];
    }
    forall k | k !in FirstKeys(key, s) ensures WithKey(key, s, k) == [] {
      WithoutForeign(key, s, k);
    }
  }

  /** A dictionary of lists, filled in one pass, with its insertion order. */
  method GroupBy(key: KeyOf, s: seq<Item>) returns (order: seq<string>, filed: map<string, seq<Item>>)
    ensures order == FirstKeys(key, s)
    ensures forall k :: k in filed <==> k in order
    ensures forall k | k in filed :: filed[k] == WithKey(key, s, k)
  {
    order, filed := [], map[];
    hide WithKey, FirstKeys;
    GroupNothing(key);
    for i := 0 to |s|
      invariant order == FirstKeys(key, s[..i])
      invariant forall k :: k in filed <==> k in order
      invariant forall k | k in filed :: filed[k] == WithKey(key, s[..i], k)
    {
      var x := s[i];
      GroupOneMore(key, s[..i], x);
      assert s[..i + 1] == s[..i] + [x];
      match key(x) {
        case None =>
        case Some(k) =>
          if k !in filed {
            order, filed := order + [k], filed[k := []];
          }
          filed := filed[k := filed[k] + [x]];
      }
    }
    assert s[..|s|] == s;
  }

  // ------------------------------------------------------------------ near-duplicates

  predicate Similar(c: Settings, a: Item, b: Item) {
    var ta, tb := c.tokens(a), c.tokens(b);
    ta != {} && tb != {} && SharesMost(c.threshold, ta, tb)
  }

  predicate SharesMost(threshold: real, ta: set<string>, tb: set<string>)
    requires ta != {}
  {
    assert ta <= ta + tb;
    |ta * tb| as real / |ta + tb| as real > threshold
  }

  function Like(c: Settings, a: Item, s: seq<Item>): seq<Item> {
    if s == [] then []
    else if Similar(c, a, s[0]) then [s[0]] + Like(c, a, s[1..])
    else Like(c, a, s[1..])
  }

  function Unlike(c: Settings, a: Item, s: seq<Item>): (r: seq<Item>)
    ensures |r| <= |s|
  {
    if s == [] then []
    else if Similar(c, a, s[0]) then Unlike(c, a, s[1..])
    else [s[0]] + Unlike(c, a, s[1..])
  }

  /** Greedy clusters: the first item left leads and takes everything left that resembles it. */
  function Clusters(c: Settings, s: seq<Item>): (r: seq<seq<Item>>)
    ensures forall i :: 0 <= i < |r| ==> r[i] != []
    decreases |s|
  {
    if s == [] then [] else [[s[0]] + Like(c, s[0], s[1..])] + Clusters(c, Unlike(c, s[0], s[1..]))
  }

  function Flat(ss: seq<seq<Item>>): seq<Item> {
    if ss == [] then [] else ss[0] + Flat(ss[1..])
  }

  lemma {:induction false} SplitLike(c: Settings, a: Item, s: seq<Item>)
    ensures multiset(s) == multiset(Like(c, a, s)) + multiset(Unlike(c, a, s))
    ensures forall x | x in Like(c, a, s) :: x in s && Similar(c, a, x)
    ensures forall x | x in Unlike(c, a, s) :: x in s && !Similar(c, a, x)
  {
    if s != [] {
      assert s == [s[0]] + s[1..];
      SplitLike(c, a, s[1..]);
    }
  }

  /** Clusters partition the items. */
  lemma {:induction false} ClustersPartition(c: Settings, s: seq<Item>)
    ensures multiset(Flat(Clusters(c, s))) == multiset(s)
    decreases |s|
  {
    hide Similar;
    if s != [] {
      var like, rest := Like(c, s[0], s[1..]), Unlike(c, s[0], s[1..]);
      assert s == [s[0]] + s[1..];
      SplitLike(c, s[0], s[1..]);
      ClustersPartition(c, rest);
      assert Clusters(c, s)[0] == [s[0]] + like;
      assert Clusters(c, s)[1..] == Clusters(c, rest);
    }
  }

  lemma {:induction false} ClusterMembers(c: Settings, s: seq<Item>)
    ensures forall i, m :: 0 <= i < |Clusters(c, s)| && 0 <= m < |Clusters(c, s)[i]| ==> Clusters(c, s)[i][m] in s
    decreases |s|
  {
    hide Similar;
    if s != [] {
      var like, rest := Like(c, s[0], s[1..]), Unlike(c, s[0], s[1..]);
      SplitLike(c, s[0], s[1..]);
      ClusterMembers(c, rest);
      var cs := Clusters(c, s);
      assert cs == [[s[0]] + like] + Clusters(c, rest);
      assert forall x | x in rest || x in like :: x in s;
      forall i, m | 0 <= i < |cs| && 0 <= m < |cs[i]| ensures cs[i][m] in s {
        if i == 0 {
          assert m > 0 ==> cs[0][m] == like[m - 1];
        } else {
          assert cs[i] == Clusters(c, rest)[i - 1];
        }
      }
    }
  }

  predicate LedBySimilar(c: Settings, cs: seq<seq<Item>>) {
    forall i, m :: 0 <= i < |cs| && 1 <= m < |cs[i]| ==> Similar(c, cs[i][0], cs[i][m])
  }

  predicate LeadersApart(c: Settings, cs: seq<seq<Item>>) {
    && (forall i :: 0 <= i < |cs| ==> cs[i] != [])
    && forall i, j, m :: 0 <= i < j < |cs| && 0 <= m < |cs[j]| ==> !Similar(c, cs[i][0], cs[j][m])
  }

  lemma GreedyCons(c: Settings, first: seq<Item>, cs: seq<seq<Item>>)
    requires first != [] && LedBySimilar(c, cs) && LeadersApart(c, cs)
    requires forall m :: 1 <= m < |first| ==> Similar(c, first[0], first[m])
    requires forall j, m :: 0 <= j < |cs| && 0 <= m < |cs[j]| ==> !Similar(c, first[0], cs[j][m])
    ensures LedBySimilar(c, [first] + cs) && LeadersApart(c, [first] + cs)
  {
    hide Similar;
  }

  lemma GreedyNone(c: Settings)
    ensures LedBySimilar(c, []) && LeadersApart(c, [])
  {
  }

  /** Members resemble their leader; nothing resembles the leader of an earlier cluster. */
  lemma {:induction false} ClustersAreGreedy(c: Settings, s: seq<Item>)
    ensures LedBySimilar(c, Clusters(c, s)) && LeadersApart(c, Clusters(c, s))
    decreases |s|
  {
    hide Similar, LedBySimilar, LeadersApart;
    if s == [] {
      GreedyNone(c);
    } else {
      var like, rest := Like(c, s[0], s[1..]), Unlike(c, s[0], s[1..]);
      var first, cs := [s[0]] + like, Clusters(c, rest);
      SplitLike(c, s[0], s[1..]);
      ClustersAreGreedy(c, rest);
      ClusterMembers(c, rest);
      forall m | 1 <= m < |first| ensures Similar(c, first[0], first[m]) {
        assert first[m] == like[m - 1];
      }
      GreedyCons(c, first, cs);
    }
  }

  function Unused(items: seq<Item>, used: set<nat>, i: nat): seq<Item>
    decreases |items| - i
  {
    if i >= |items| then []
    else if i in used then Unused(items, used, i + 1)
    else [items[i]] + Unused(items, used, i + 1)
  }

  lemma {:induction false} UnusedNone(items: seq<Item>, i: nat)
    requires i <= |items|
    ensures Unused(items, {}, i) == items[i..]
    decreases |items| - i
  {
    if i < |items| {
      UnusedNone(items, i + 1);
    }
  }

  lemma {:induction false} UnusedAfter(c: Settings, items: seq<Item>, before: set<nat>, used: set<nat>, a: Item, i: nat)
    requires forall k: nat | i <= k < |items| :: k in used <==> k in before || Similar(c, a, items[k])
    ensures Unused(items, used, i) == Unlike(c, a, Unused(items, before, i))
    decreases |items| - i
  {
    hide Similar;
    if i < |items| {
      UnusedAfter(c, items, before, used, a, i + 1);
    }
  }

  lemma ClustersFrom(c: Settings, items: seq<Item>, used: set<nat>, i: nat)
    requires i < |items|
    ensures i in used ==> Unused(items, used, i) == Unused(items, used, i + 1)
    ensures i !in used ==>
              var rest := Unused(items, used, i + 1);
              Clusters(c, Unused(items, used, i))
              == [[items[i]] + Like(c, items[i], rest)] + Clusters(c, Unlike(c, items[i], rest))
  {
    hide Similar, Like, Unlike;
    if i !in used {
      var left := Unused(items, used, i);
      assert left[0] == items[i] && left[1..] == Unused(items, used, i + 1);
    }
  }

  lemma ClustersEnd(c: Settings, items: seq<Item>, used: set<nat>)
    ensures Clusters(c, Unused(items, used, |items|)) == []
  {
  }

  // ------------------------------------------------------------------ the best of a cluster

  /** More complete, then more observed, then less harmful, then newer. */
  predicate Better(a: Item, b: Item) {
    var ca, cb := HasBothEnds(a), HasBothEnds(b);
    if ca != cb then ca
    else if a.observations != b.observations then a.observations > b.observations
    else if a.harms != b.harms then a.harms < b.harms
    else a.timestamp > b.timestamp
  }

  predicate HasBothEnds(x: Item) {
    x.preconditions != [] && x.postconditions != []
  }

  function BestIndex(s: seq<Item>): (i: nat)
    requires s != []
    ensures i < |s|
  {
    if |s| == 1 then 0 else
      var i := BestIndex(s[..|s| - 1]);
      if Better(s[|s| - 1], s[i]) then |s| - 1 else i
  }

  /** The first of the best. */
  lemma {:induction false} BestIsFirstMaximum(s: seq<Item>)
    requires s != []
    ensures forall j :: 0 <= j < |s| ==> !Better(s[j], s[BestIndex(s)])
    ensures forall j :: 0 <= j < BestIndex(s) ==> Better(s[BestIndex(s)], s[j])
  {
    if |s| > 1 {
      BestIsFirstMaximum(s[..|s| - 1]);
    }
  }

  datatype Dropped = Dropped(item: Item, best: Item)

  function Bests(cs: seq<seq<Item>>): seq<Item>
    requires forall i :: 0 <= i < |cs| ==> cs[i] != []
  {
    if cs == [] then [] else
      var last := cs[|cs| - 1];
      Bests(cs[..|cs| - 1]) + [last[BestIndex(last)]]
  }

  function DroppedFrom(s: seq<Item>, best: Item): seq<Dropped> {
    if s == [] then [] else DroppedFrom(s[..|s| - 1], best) + [Dropped(s[|s| - 1], best)]
  }

  function DropsOfCluster(s: seq<Item>): seq<Dropped>
    requires s != []
  {
    var i := BestIndex(s);
    DroppedFrom(s[..i] + s[i + 1..], s[i])
  }

  function DropsOf(cs: seq<seq<Item>>): seq<Dropped>
    requires forall i :: 0 <= i < |cs| ==> cs[i] != []
  {
    if cs == [] then [] else DropsOf(cs[..|cs| - 1]) + DropsOfCluster(cs[|cs| - 1])
  }

  function ItemsOf(ds: seq<Dropped>): seq<Item> {
    seq(|ds|, i requires 0 <= i < |ds| => ds[i].item)
  }

  function DropLog(ds: seq<Dropped>): seq<Action> {
    seq(|ds|, i requires 0 <= i < |ds| => Drop(Shown(ds[i].item), Shown(ds[i].best)))
  }

  function KeptOfGroup(c: Settings, g: seq<Item>): seq<Item> {
    if |g| <= 1 then g else Bests(Clusters(c, g))
  }

  function DropsOfGroup(c: Settings, g: seq<Item>): seq<Dropped> {
    if |g| <= 1 then [] else DropsOf(Clusters(c, g))
  }

  function Kept(c: Settings, s: seq<Item>, keys: seq<string>): seq<Item> {
    if keys == [] then [] else
      Kept(c, s, keys[..|keys| - 1]) + KeptOfGroup(c, WithKey(DedupKey, s, keys[|keys| - 1]))
  }

  function Drops(c: Settings, s: seq<Item>, keys: seq<string>): seq<Dropped> {
    if keys == [] then [] else
      Drops(c, s, keys[..|keys| - 1]) + DropsOfGroup(c, WithKey(DedupKey, s, keys[|keys| - 1]))
  }

  lemma {:induction false} DroppedFromItems(s: seq<Item>, best: Item)
    ensures ItemsOf(DroppedFrom(s, best)) == s
  {
    if s != [] {
      DroppedFromItems(s[..|s| - 1], best);
      assert ItemsOf(DroppedFrom(s, best)) == ItemsOf(DroppedFrom(s[..|s| - 1], best)) + [s[|s| - 1]];
      assert s == s[..|s| - 1] + [s[|s| - 1]];
    }
  }

  lemma ItemsOfNothing()
    ensures ItemsOf([]) == []
  {
  }

  lemma ItemsOfAppend(a: seq<Dropped>, b: seq<Dropped>)
    ensures ItemsOf(a + b) == ItemsOf(a) + ItemsOf(b)
  {
  }

  lemma DropLogAppend(a: seq<Dropped>, b: seq<Dropped>)
    ensures DropLog(a + b) == DropLog(a) + DropLog(b)
  {
  }

  lemma ClusterAccounting(s: seq<Item>)
    requires s != []
    ensures multiset{s[BestIndex(s)]} + multiset(ItemsOf(DropsOfCluster(s))) == multiset(s)
  {
    var i := BestIndex(s);
    DroppedFromItems(s[..i] + s[i + 1..], s[i]);
    assert s == s[..i] + [s[i]] + s[i + 1..];
  }

  lemma {:induction false} FlatPrefix(cs: seq<seq<Item>>)
    requires cs != []
    ensures Flat(cs) == Flat(cs[..|cs| - 1]) + cs[|cs| - 1]
  {
    if |cs| == 1 {
      assert cs[1..] == [] && cs[..0] == [];
    } else {
      FlatPrefix(cs[1..]);
      assert cs[..|cs| - 1][1..] == cs[1..][..|cs| - 2];
    }
  }

  lemma {:induction false} ClustersAccounting(cs: seq<seq<Item>>)
    requires forall i :: 0 <= i < |cs| ==> cs[i] != []
    ensures multiset(Bests(cs)) + multiset(ItemsOf(DropsOf(cs))) == multiset(Flat(cs))
    ensures |Bests(cs)| == |cs|
  {
    hide BestIndex, DropsOfCluster;
    if cs != [] {
      var before, last := cs[..|cs| - 1], cs[|cs| - 1];
      ClustersAccounting(before);
      FlatPrefix(cs);
      ClusterAccounting(last);
      ItemsOfAppend(DropsOf(before), DropsOfCluster(last));
    }
  }

  lemma GroupAccounting(c: Settings, g: seq<Item>)
    ensures multiset(KeptOfGroup(c, g)) + multiset(ItemsOf(DropsOfGroup(c, g))) == multiset(g)
  {
    hide Bests, DropsOf;
    ClustersAccounting(Clusters(c, g));
    ClustersPartition(c, g);
  }

  lemma {:induction false} KeptAccounting(c: Settings, s: seq<Item>, keys: seq<string>)
    requires Distinct(keys)
    ensures multiset(Kept(c, s, keys)) + multiset(ItemsOf(Drops(c, s, keys))) == multiset(KeyedBy(DedupKey, s, keys))
  {
    hide WithKey, KeptOfGroup, DropsOfGroup, DedupKey, KeyedBy, ItemsOf;
    if keys == [] {
      KeyedByNone(DedupKey, s);
      ItemsOfNothing();
    } else {
      var before, k := keys[..|keys| - 1], keys[|keys| - 1];
      KeptAccounting(c, s, before);
      assert keys == before + [k];
      KeyedByOneMore(DedupKey, s, before, k);
      var g := WithKey(DedupKey, s, k);
      GroupAccounting(c, g);
      ItemsOfAppend(Drops(c, s, before), DropsOfGroup(c, g));
    }
  }

  lemma NoClusters()
    ensures Bests([]) == [] && DropsOf([]) == [] && DropLog([]) == []
  {
  }

  lemma ClusterOneMore(cs: seq<seq<Item>>, cluster: seq<Item>)
    requires cluster != [] && forall i :: 0 <= i < |cs| ==> cs[i] != []
    ensures forall i :: 0 <= i < |cs + [cluster]| ==> (cs + [cluster])[i] != []
    ensures var b := BestIndex(cluster);
            && Bests(cs + [cluster]) == Bests(cs) + [cluster[b]]
            && DropLog(DropsOf(cs + [cluster]))
               == DropLog(DropsOf(cs)) + DropLog(DroppedFrom(cluster[..b] + cluster[b + 1..], cluster[b]))
  {
    hide BestIndex, DropLog, DroppedFrom;
    assert (cs + [cluster])[..|cs|] == cs;
    DropLogAppend(DropsOf(cs), DropsOfCluster(cluster));
  }

  lemma NothingKept(c: Settings, s: seq<Item>)
    ensures Kept(c, s, []) == [] && DropLog(Drops(c, s, [])) == []
  {
  }

  lemma KeptOneMore(c: Settings, s: seq<Item>, keys: seq<string>, k: string)
    ensures var g := WithKey(DedupKey, s, k);
            && Kept(c, s, keys + [k]) == Kept(c, s, keys) + KeptOfGroup(c, g)
            && DropLog(Drops(c, s, keys + [k])) == DropLog(Drops(c, s, keys)) + DropLog(DropsOfGroup(c, g))
  {
    hide WithKey, KeptOfGroup, DropsOfGroup, DedupKey, DropLog;
    assert (keys + [k])[..|keys|] == keys;
    DropLogAppend(Drops(c, s, keys), DropsOfGroup(c, WithKey(DedupKey, s, k)));
  }

  // ------------------------------------------------------------------ merging

  predicate CanMerge(c: Settings, g: seq<Item>) {
    && |g| >= 2
    && |set x | x in g :: x.kind| <= 1
    && |set x, p | x in g && p in x.preconditions :: c.pattern(p)| <= 3
  }

  function MostObserved(s: seq<Item>): (i: nat)
    requires s != []
    ensures i < |s|
  {
    if |s| == 1 then 0 else
      var i := MostObserved(s[..|s| - 1]);
      if s[|s| - 1].observations > s[i].observations then |s| - 1 else i
  }

  /** The base of a generalized item is the first of those with the most observations. */
  lemma {:induction false} MostObservedIsFirstMaximum(s: seq<Item>)
    requires s != []
    ensures forall j :: 0 <= j < |s| ==> s[j].observations <= s[MostObserved(s)].observations
    ensures forall j :: 0 <= j < MostObserved(s) ==> s[j].observations < s[MostObserved(s)].observations
  {
    if |s| > 1 {
      MostObservedIsFirstMaximum(s[..|s| - 1]);
    }
  }

  function Decimal(n: nat): string {
    if n < 10 then ["0123456789"[n]] else Decimal(n / 10) + ["0123456789"[n % 10]]
  }

  function Ids(s: seq<Item>): seq<Option<string>> {
    seq(|s|, i requires 0 <= i < |s| => s[i].id)
  }

  function Generalize(g: seq<Item>): Item
    requires g != []
  {
    var base := g[MostObserved(g)];
    base.(id := Some((match base.id case Some(k) => k case None => "merge") + "_generalized"),
          gene := "[GENERALIZED] " + base.gene + " (+" + Decimal(|g| - 1) + " similar)",
          mergedFrom := Ids(g))
  }

  /** The keys whose groups are merged. */
  function MergedKeys(c: Settings, s: seq<Item>, keys: seq<string>): seq<string> {
    if keys == [] then [] else
      var before, k := MergedKeys(c, s, keys[..|keys| - 1]), keys[|keys| - 1];
      if CanMerge(c, WithKey(MergeKey, s, k)) then before + [k] else before
  }

  predicate NonEmptyGroups(s: seq<Item>, keys: seq<string>) {
    forall i :: 0 <= i < |keys| ==> WithKey(MergeKey, s, keys[i]) != []
  }

  function Generalized(s: seq<Item>, keys: seq<string>): seq<Item>
    requires NonEmptyGroups(s, keys)
  {
    if keys == [] then [] else
      Generalized(s, keys[..|keys| - 1]) + [Generalize(WithKey(MergeKey, s, keys[|keys| - 1]))]
  }

  function Sources(s: seq<Item>, keys: seq<string>): seq<Item> {
    if keys == [] then [] else Sources(s, keys[..|keys| - 1]) + WithKey(MergeKey, s, keys[|keys| - 1])
  }

  function MergeEntries(g: seq<Item>, k: string, into: string): seq<Action> {
    seq(|g|, i requires 0 <= i < |g| => Merge(Shown(g[i]), k, into))
  }

  function MergeLog(s: seq<Item>, keys: seq<string>): seq<Action>
    requires NonEmptyGroups(s, keys)
  {
    if keys == [] then [] else
      var k := keys[|keys| - 1];
      var g := WithKey(MergeKey, s, k);
      MergeLog(s, keys[..|keys| - 1]) + MergeEntries(g, k, Shown(Generalize(g)))
  }

  function RemoveFirst(s: seq<Item>, x: Item): seq<Item> {
    if s == [] then [] else if s[0] == x then s[1..] else [s[0]] + RemoveFirst(s[1..], x)
  }

  /** Removing, one by one, the first equal of each of some items that are there. */
  function RemoveEach(s: seq<Item>, xs: seq<Item>): seq<Item>
    decreases xs
  {
    if xs == [] then s
    else if xs[0] in s then RemoveEach(RemoveFirst(s, xs[0]), xs[1..])
    else RemoveEach(s, xs[1..])
  }

  lemma {:induction false} RemoveEachBehind(h: Item, t: seq<Item>, xs: seq<Item>)
    requires h !in xs
    ensures RemoveEach([h] + t, xs) == [h] + RemoveEach(t, xs)
    decreases xs
  {
    if xs != [] {
      assert xs[0] in xs && xs[0] != h && forall x | x in xs[1..] :: x in xs;
      assert ([h] + t)[1..] == t;
      assert RemoveFirst([h] + t, xs[0]) == [h] + RemoveFirst(t, xs[0]);
      assert xs[0] in [h] + t <==> xs[0] in t;
      RemoveEachBehind(h, if xs[0] in t then RemoveFirst(t, xs[0]) else t, xs[1..]);
    }
  }

  /** Removing the members of a group one by one leaves everything else, in order. */
  lemma {:induction false} RemoveEachIsFilter(key: KeyOf, s: seq<Item>, k: string)
    ensures RemoveEach(s, WithKey(key, s, k)) == Without(key, s, [k])
  {
    if s != [] {
      var h, t, xs := s[0], s[1..], WithKey(key, s[1..], k);
      assert s == [h] + t;
      RemoveEachIsFilter(key, t, k);
      if key(h) == Some(k) {
        assert WithKey(key, s, k)[0] == h && WithKey(key, s, k)[1..] == xs;
        assert RemoveFirst(s, h) == t;
      } else {
        WithKeyMembers(key, t, k);
        RemoveEachBehind(h, t, xs);
      }
    }
  }

  lemma {:induction false} WithoutThen(key: KeyOf, s: seq<Item>, keys: seq<string>, k: string)
    ensures Without(key, Without(key, s, keys), [k]) == Without(key, s, keys + [k])
    ensures k !in keys ==> WithKey(key, Without(key, s, keys), k) == WithKey(key, s, k)
  {
    if s != [] {
      WithoutThen(key, s[1..], keys, k);
    }
  }

  lemma {:induction false} WithoutForeign(key: KeyOf, s: seq<Item>, k: string)
    requires forall i :: 0 <= i < |s| ==> key(s[i]) != Some(k)
    ensures WithKey(key, s, k) == [] && Without(key, s, [k]) == s
  {
    if s != [] {
      WithoutForeign(key, s[1..], k);
      assert s == [s[0]] + s[1..];
    }
  }

  /** A generalized item would be filed under the very key its sources came from. */
  lemma GeneralizeKeepsKey(s: seq<Item>, k: string)
    requires WithKey(MergeKey, s, k) != []
    ensures MergeKey(Generalize(WithKey(MergeKey, s, k))) == Some(k)
  {
    var g := WithKey(MergeKey, s, k);
    WithKeyMembers(MergeKey, s, k);
    assert g[MostObserved(g)] in g;
    assert MergeKey(Generalize(g)) == MergeKey(g[MostObserved(g)]);
  }

  lemma {:induction false} GeneralizedForeign(s: seq<Item>, keys: seq<string>, k: string)
    requires NonEmptyGroups(s, keys) && k !in keys
    ensures forall i :: 0 <= i < |Generalized(s, keys)| ==> MergeKey(Generalized(s, keys)[i]) != Some(k)
  {
    hide WithKey, Generalize, MergeKey;
    if keys != [] {
      GeneralizedForeign(s, keys[..|keys| - 1], k);
      GeneralizeKeepsKey(s, keys[|keys| - 1]);
      assert keys[|keys| - 1] in keys;
    }
  }

  lemma {:induction false} MergedKeysShape(c: Settings, s: seq<Item>, keys: seq<string>)
    requires Distinct(keys)
    ensures Distinct(MergedKeys(c, s, keys))
    ensures NonEmptyGroups(s, MergedKeys(c, s, keys))
    ensures forall k :: k in MergedKeys(c, s, keys) <==> k in keys && CanMerge(c, WithKey(MergeKey, s, k))
  {
    hide WithKey, MergeKey;
    if keys != [] {
      var before := keys[..|keys| - 1];
      MergedKeysShape(c, s, before);
      assert keys == before + [keys[|keys| - 1]];
    }
  }

  /**
   A group to merge has one kind and one task group, because no mergeable kind contains the
   separator: its kinds never differ, and its group label is never widened.
   */
  lemma MergeGroupsAreUniform(s: seq<Item>, k: string, x: Item, y: Item)
    requires x in WithKey(MergeKey, s, k) && y in WithKey(MergeKey, s, k)
    ensures x.kind == y.kind && x.group == y.group
  {
    WithKeyMembers(MergeKey, s, k);
    var kx, ky := x.kind + "|" + x.group, y.kind + "|" + y.group;
    assert kx == k && ky == k;
    if |x.kind| < |y.kind| { SeparatorsDiffer(x.kind, x.group, y.kind, y.group); }
    if |y.kind| < |x.kind| { SeparatorsDiffer(y.kind, y.group, x.kind, x.group); }
    assert kx[..|x.kind|] == x.kind && ky[..|y.kind|] == y.kind;
    assert kx[|x.kind| + 1..] == x.group && ky[|y.kind| + 1..] == y.group;
  }

  lemma SeparatorsDiffer(kind: string, group: string, kind': string, group': string)
    requires Mergeable(kind') && |kind| < |kind'|
    ensures kind + "|" + group != kind' + "|" + group'
  {
    BarFree(kind', |kind|);
    assert (kind + "|" + group)[|kind|] == '|';
    assert (kind' + "|" + group')[|kind|] == kind'[|kind|];
  }

  lemma BarFree(kind: string, i: nat)
    requires Mergeable(kind) && i < |kind|
    ensures kind[i] != '|'
  {
  }

  // ------------------------------------------------------------------ the pipeline

  function QuarantineLog(s: seq<Item>): seq<Action> {
    seq(|s|, i requires 0 <= i < |s| => Quarantine(Shown(s[i])))
  }

  function Deduplicated(c: Settings, s: seq<Item>): seq<Item> {
    Kept(c, s, FirstKeys(DedupKey, s))
  }

  function Duplicates(c: Settings, s: seq<Item>): seq<Dropped> {
    Drops(c, s, FirstKeys(DedupKey, s))
  }

  function KeysToMerge(c: Settings, s: seq<Item>): (r: seq<string>)
    ensures NonEmptyGroups(s, r) && Distinct(r)
  {
    FirstKeysExact(MergeKey, s);
    MergedKeysShape(c, s, FirstKeys(MergeKey, s));
    MergedKeys(c, s, FirstKeys(MergeKey, s))
  }

  function Merged(c: Settings, s: seq<Item>): seq<Item> {
    var keys := KeysToMerge(c, s);
    Without(MergeKey, s, keys) + Generalized(s, keys)
  }

  function NotRegistered(s: seq<Item>, existing: set<string>): seq<Item> {
    if s == [] then [] else
      var x := s[|s| - 1];
      var before := NotRegistered(s[..|s| - 1], existing);
      if x.id.Some? && x.id.value in existing then before else before + [x]
  }

  class BankSanitizer {
    const settings: Settings
    var log: seq<Action>

    constructor (settings: Settings)
      ensures this.settings == settings && log == []
    {
      this.settings, log := settings, [];
    }

    method Partition(candidates: seq<Item>) returns (complete: seq<Item>, quarantined: seq<Item>)
      ensures complete == Complete(candidates) && quarantined == Incomplete(candidates)
    {
      complete, quarantined := [], [];
      for i := 0 to |candidates|
        invariant complete == Complete(candidates[..i]) && quarantined == Incomplete(candidates[..i])
      {
        assert candidates[..i + 1][..i] == candidates[..i];
        if IsComplete(candidates[i]) {
          complete := complete + [candidates[i]];
        } else {
          quarantined := quarantined + [candidates[i]];
        }
      }
      assert candidates[..|candidates|] == candidates;
    }

    method ClusterSimilar(items: seq<Item>) returns (clusters: seq<seq<Item>>)
      ensures clusters == Clusters(settings, items)
    {
      hide Similar, Like, Unlike, Clusters, Unused;
      clusters := [];
      var used: set<nat> := {};
      UnusedNone(items, 0);
      assert items[0..] == items;
      for i := 0 to |items|
        invariant forall k: nat | k < i :: k in used
        invariant clusters + Clusters(settings, Unused(items, used, i)) == Clusters(settings, items)
      {
        ClustersFrom(settings, items, used, i);
        if i !in used {
          var cluster;
          cluster, used := Lead(items, used, i);
          clusters := clusters + [cluster];
        }
      }
      ClustersEnd(settings, items, used);
    }

    /** The inner scan: the cluster of an unused item, and the items used afterwards. */
    method Lead(items: seq<Item>, before: set<nat>, i: nat) returns (cluster: seq<Item>, used: set<nat>)
      requires i < |items| && forall k: nat | k < i :: k in before
      ensures cluster == [items[i]] + Like(settings, items[i], Unused(items, before, i + 1))
      ensures Unused(items, used, i + 1) == Unlike(settings, items[i], Unused(items, before, i + 1))
      ensures forall k: nat | k <= i :: k in used
    {
      hide Similar;
      cluster, used := [items[i]], before + {i};
      for j := 0 to |items|
        invariant forall k: nat | k <= i :: k in used
        invariant forall k: nat | i < k < |items| ::
          k in used <==> k in before || (k < j && Similar(settings, items[i], items[k]))
        invariant cluster + Like(settings, items[i], Unused(items, before, if j <= i then i + 1 else j))
               == [items[i]] + Like(settings, items[i], Unused(items, before, i + 1))
      {
        if j !in used {
          if Similar(settings, items[i], items[j]) {
            cluster := cluster + [items[j]];
            used := used + {j};
          }
        }
      }
      UnusedAfter(settings, items, before, used, items[i], i + 1);
    }

    method Deduplicate(candidates: seq<Item>) returns (kept: seq<Item>)
      modifies this`log
      ensures kept == Deduplicated(settings, candidates)
      ensures log == old(log) + DropLog(Duplicates(settings, candidates))
    {
      hide WithKey, FirstKeys, KeptOfGroup, DropsOfGroup, DedupKey, DropLog, Kept, Drops;
      var order, filed := GroupBy(DedupKey, candidates);
      kept := [];
      NothingKept(settings, candidates);
      for i := 0 to |order|
        invariant kept == Kept(settings, candidates, order[..i])
        invariant log == old(log) + DropLog(Drops(settings, candidates, order[..i]))
      {
        assert order[..i + 1] == order[..i] + [order[i]];
        KeptOneMore(settings, candidates, order[..i], order[i]);
        var chosen := KeepBest(filed[order[i]]);
        kept := kept + chosen;
      }
      assert order[..|order|] == order;
    }

    method KeepBest(items: seq<Item>) returns (kept: seq<Item>)
      modifies this`log
      ensures kept == KeptOfGroup(settings, items)
      ensures log == old(log) + DropLog(DropsOfGroup(settings, items))
    {
      hide Clusters, BestIndex, Bests, DropsOf, DropsOfCluster, DropLog, DroppedFrom;
      NoClusters();
      if |items| <= 1 {
        return items;
      }
      var clusters := ClusterSimilar(items);
      kept := [];
      for i := 0 to |clusters|
        invariant kept == Bests(clusters[..i])
        invariant log == old(log) + DropLog(DropsOf(clusters[..i]))
      {
        var cluster := clusters[i];
        assert clusters[..i + 1] == clusters[..i] + [cluster];
        ClusterOneMore(clusters[..i], cluster);
        var b := BestIndex(cluster);
        kept := kept + [cluster[b]];
        LogDropped(cluster[..b] + cluster[b + 1..], cluster[b]);
      }
      assert clusters[..|clusters|] == clusters;
    }

    method LogDropped(others: seq<Item>, best: Item)
      modifies this`log
      ensures log == old(log) + DropLog(DroppedFrom(others, best))
    {
      for i := 0 to |others|
        invariant log == old(log) + DropLog(DroppedFrom(others[..i], best))
      {
        assert others[..i + 1][..i] == others[..i];
        DropLogAppend(DroppedFrom(others[..i], best), [Dropped(others[i], best)]);
        log := log + [Drop(Shown(others[i]), Shown(best))];
      }
      assert others[..|others|] == others;
    }

    method MergeSameType(candidates: seq<Item>) returns (merged: seq<Item>)
      modifies this`log
      ensures merged == Merged(settings, candidates)
      ensures log == old(log) + MergeLog(candidates, KeysToMerge(settings, candidates))
    {
      hide WithKey, FirstKeys, CanMerge, Generalize, MergeKey, RemoveEach, Shown, MergeEntries, MergedUpTo, LogUpTo;
      var order, filed := GroupBy(MergeKey, candidates);
      FirstKeysExact(MergeKey, candidates);
      merged := candidates;
      NothingMerged(settings, candidates);
      for i := 0 to |order|
        invariant merged == MergedUpTo(settings, candidates, order[..i])
        invariant log == old(log) + LogUpTo(settings, candidates, order[..i])
      {
        var k := order[i];
        var items := filed[k];
        assert order[..i + 1] == order[..i] + [k];
        MergeOneMore(settings, candidates, order[..i], k);
        if CanMerge(settings, items) {
          merged := Replace(merged, items, k, Generalize(items));
        }
      }
      assert order[..|order|] == order;
      MergedAll(settings, candidates);
    }

    method Replace(s: seq<Item>, items: seq<Item>, k: string, generalized: Item) returns (left: seq<Item>)
      modifies this`log
      ensures left == RemoveEach(s, items) + [generalized]
      ensures log == old(log) + MergeEntries(items, k, Shown(generalized))
    {
      left := RemoveItems(s, items);
      left := left + [generalized];
      LogMerged(items, k, Shown(generalized));
    }

    method RemoveItems(s: seq<Item>, items: seq<Item>) returns (left: seq<Item>)
      ensures left == RemoveEach(s, items)
    {
      hide RemoveFirst;
      left := s;
      assert items[0..] == items;
      for i := 0 to |items|
        invariant RemoveEach(left, items[i..]) == RemoveEach(s, items)
      {
        assert items[i..][0] == items[i] && items[i..][1..] == items[i + 1..];
        if items[i] in left {
          left := RemoveFirst(left, items[i]);
        }
      }
    }

    method LogMerged(items: seq<Item>, k: string, into: string)
      modifies this`log
      ensures log == old(log) + MergeEntries(items, k, into)
    {
      hide Shown;
      for i := 0 to |items|
        invariant log == old(log) + MergeEntries(items[..i], k, into)
      {
        log := log + [Merge(Shown(items[i]), k, into)];
        assert MergeEntries(items[..i + 1], k, into)
            == MergeEntries(items[..i], k, into) + [Merge(Shown(items[i]), k, into)];
      }
      assert items[..|items|] == items;
    }

    /** The whole pipeline; the log starts afresh. */
    method Sanitize(candidates: seq<Item>, existing: set<string>) returns (clean: seq<Item>)
      modifies this`log
      ensures var complete := Complete(candidates);
              var deduped := Deduplicated(settings, complete);
              && clean == NotRegistered(Merged(settings, deduped), existing)
              && log == QuarantineLog(Incomplete(candidates)) + DropLog(Duplicates(settings, complete))
                        + MergeLog(deduped, KeysToMerge(settings, deduped))
    {
      hide Deduplicated, Duplicates, Merged, KeysToMerge, MergeLog, DropLog, IsComplete, Shown;
      log := [];
      var complete, quarantined := Partition(candidates);
      for i := 0 to |quarantined|
        invariant log == QuarantineLog(quarantined[..i])
      {
        log := log + [Quarantine(Shown(quarantined[i]))];
        assert QuarantineLog(quarantined[..i + 1])
            == QuarantineLog(quarantined[..i]) + [Quarantine(Shown(quarantined[i]))];
      }
      assert quarantined[..|quarantined|] == quarantined;
      var deduped := Deduplicate(complete);
      var merged := MergeSameType(deduped);
      clean := Unregistered(merged, existing);
    }

    method Unregistered(items: seq<Item>, existing: set<string>) returns (clean: seq<Item>)
      ensures clean == NotRegistered(items, existing)
    {
      clean := [];
      for i := 0 to |items|
        invariant clean == NotRegistered(items[..i], existing)
      {
        assert items[..i + 1][..i] == items[..i];
        var x := items[i];
        if !(x.id.Some? && x.id.value in existing) {
          clean := clean + [x];
        }
      }
      assert items[..|items|] == items;
    }
  }

  /** The list once the groups of some first keys have been dealt with. */
  function MergedUpTo(c: Settings, s: seq<Item>, keys: seq<string>): seq<Item>
    requires Distinct(keys)
  {
    MergedKeysShape(c, s, keys);
    var done := MergedKeys(c, s, keys);
    Without(MergeKey, s, done) + Generalized(s, done)
  }

  function LogUpTo(c: Settings, s: seq<Item>, keys: seq<string>): seq<Action>
    requires Distinct(keys)
  {
    MergedKeysShape(c, s, keys);
    MergeLog(s, MergedKeys(c, s, keys))
  }

  lemma NothingMerged(c: Settings, s: seq<Item>)
    ensures MergedUpTo(c, s, []) == s && LogUpTo(c, s, []) == []
  {
    KeyedByNone(MergeKey, s);
  }

  lemma MergedAll(c: Settings, s: seq<Item>)
    ensures Distinct(FirstKeys(MergeKey, s))
    ensures MergedUpTo(c, s, FirstKeys(MergeKey, s)) == Merged(c, s)
    ensures LogUpTo(c, s, FirstKeys(MergeKey, s)) == MergeLog(s, KeysToMerge(c, s))
  {
    FirstKeysExact(MergeKey, s);
  }

  lemma DistinctPrefix(keys: seq<string>, k: string)
    requires Distinct(keys + [k])
    ensures Distinct(keys) && k !in keys
  {
    assert forall i :: 0 <= i < |keys| ==> keys[i] == (keys + [k])[i];
    assert (keys + [k])[|keys|] == k;
  }

  lemma MergeOneMore(c: Settings, s: seq<Item>, keys: seq<string>, k: string)
    requires Distinct(keys + [k])
    ensures Distinct(keys)
    ensures var g := WithKey(MergeKey, s, k);
            if CanMerge(c, g) then
              && |g| >= 2
              && MergedUpTo(c, s, keys + [k]) == RemoveEach(MergedUpTo(c, s, keys), g) + [Generalize(g)]
              && LogUpTo(c, s, keys + [k]) == LogUpTo(c, s, keys) + MergeEntries(g, k, Shown(Generalize(g)))
            else
              && MergedUpTo(c, s, keys + [k]) == MergedUpTo(c, s, keys)
              && LogUpTo(c, s, keys + [k]) == LogUpTo(c, s, keys)
  {
    hide WithKey, CanMerge, Generalize, MergeKey, RemoveEach, Shown, MergeEntries;
    hide MergedKeys, Without, Generalized, MergeLog;
    DistinctPrefix(keys, k);
    var g, done := WithKey(MergeKey, s, k), MergedKeys(c, s, keys);
    MergedKeysShape(c, s, keys);
    MergedKeysOneMore(c, s, keys, k);
    if CanMerge(c, g) {
      CanMergeIsPlural(c, g);
      AddMergedGroup(s, done, k);
    }
  }

  lemma MergedKeysOneMore(c: Settings, s: seq<Item>, keys: seq<string>, k: string)
    requires Distinct(keys) && k !in keys
    ensures k !in MergedKeys(c, s, keys)
    ensures MergedKeys(c, s, keys + [k])
         == if CanMerge(c, WithKey(MergeKey, s, k)) then MergedKeys(c, s, keys) + [k] else MergedKeys(c, s, keys)
  {
    hide WithKey, CanMerge;
    MergedKeysShape(c, s, keys);
    assert (keys + [k])[..|keys|] == keys;
  }

  lemma CanMergeIsPlural(c: Settings, g: seq<Item>)
    requires CanMerge(c, g)
    ensures |g| >= 2
  {
  }

  lemma AddMergedGroup(s: seq<Item>, keys: seq<string>, k: string)
    requires NonEmptyGroups(s, keys) && k !in keys && WithKey(MergeKey, s, k) != []
    ensures NonEmptyGroups(s, keys + [k])
    ensures RemoveEach(Without(MergeKey, s, keys) + Generalized(s, keys), WithKey(MergeKey, s, k))
         == Without(MergeKey, s, keys + [k]) + Generalized(s, keys)
    ensures Generalized(s, keys + [k]) == Generalized(s, keys) + [Generalize(WithKey(MergeKey, s, k))]
    ensures MergeLog(s, keys + [k])
         == MergeLog(s, keys) + MergeEntries(WithKey(MergeKey, s, k), k, Shown(Generalize(WithKey(MergeKey, s, k))))
  {
    hide WithKey, Without, Generalize, MergeKey, RemoveEach, Shown, MergeEntries;
    var a, b := Without(MergeKey, s, keys), Generalized(s, keys);
    assert (keys + [k])[..|keys|] == keys;
    GeneralizedForeign(s, keys, k);
    WithoutForeign(MergeKey, b, k);
    WithKeyAppend(MergeKey, a, b, k);
    WithoutAppend(MergeKey, a, b, [k]);
    WithoutThen(MergeKey, s, keys, k);
    assert WithKey(MergeKey, a + b, k) == WithKey(MergeKey, s, k) + [] == WithKey(MergeKey, s, k);
    RemoveEachIsFilter(MergeKey, a + b, k);
  }

  // ------------------------------------------------------------------ accounting

  lemma {:induction false} SplitComplete(s: seq<Item>)
    ensures multiset(s) == multiset(Complete(s)) + multiset(Incomplete(s))
  {
    hide IsComplete;
    if s != [] {
      SplitComplete(s[..|s| - 1]);
      assert s == s[..|s| - 1] + [s[|s| - 1]];
    }
  }

  lemma DedupAccounting(c: Settings, s: seq<Item>)
    ensures multiset(s) == multiset(Deduplicated(c, s)) + multiset(ItemsOf(Duplicates(c, s)))
  {
    var keys := FirstKeys(DedupKey, s);
    FirstKeysExact(DedupKey, s);
    KeptAccounting(c, s, keys);
    KeyedByAll(DedupKey, s, keys);
  }

  lemma {:induction false} SourcesAccounting(s: seq<Item>, keys: seq<string>)
    requires Distinct(keys) && NonEmptyGroups(s, keys)
    ensures multiset(Sources(s, keys)) == multiset(KeyedBy(MergeKey, s, keys))
    ensures |Generalized(s, keys)| == |keys|
  {
    hide WithKey, MergeKey;
    if keys == [] {
      KeyedByNone(MergeKey, s);
    } else {
      var before, k := keys[..|keys| - 1], keys[|keys| - 1];
      SourcesAccounting(s, before);
      assert keys == before + [k];
      KeyedByOneMore(MergeKey, s, before, k);
    }
  }

  function LogIds(log: seq<Action>): seq<string> {
    seq(|log|, i requires 0 <= i < |log| => log[i].id)
  }

  function ShownAll(s: seq<Item>): seq<string> {
    seq(|s|, i requires 0 <= i < |s| => Shown(s[i]))
  }

  lemma {:induction false} MergeLogIds(s: seq<Item>, keys: seq<string>)
    requires NonEmptyGroups(s, keys)
    ensures LogIds(MergeLog(s, keys)) == ShownAll(Sources(s, keys))
  {
    hide WithKey, MergeKey, Generalize, Shown;
    if keys != [] {
      var before, k := keys[..|keys| - 1], keys[|keys| - 1];
      MergeLogIds(s, before);
      var g := WithKey(MergeKey, s, k);
      var entries := MergeEntries(g, k, Shown(Generalize(g)));
      assert LogIds(entries) == ShownAll(g);
      assert LogIds(MergeLog(s, before) + entries) == LogIds(MergeLog(s, before)) + LogIds(entries);
      assert ShownAll(Sources(s, before) + g) == ShownAll(Sources(s, before)) + ShownAll(g);
    }
  }

  /**
   Every candidate ends exactly once: quarantined, dropped, merged or surviving. What is offered
   is the survivors, in order, then one generalized item per merged group.
   */
  lemma SanitizeAccounting(c: Settings, candidates: seq<Item>)
    ensures var complete := Complete(candidates);
            var deduped := Deduplicated(c, complete);
            var keys := KeysToMerge(c, deduped);
            var survivors := Without(MergeKey, deduped, keys);
            && multiset(candidates) == multiset(Incomplete(candidates)) + multiset(ItemsOf(Duplicates(c, complete)))
                                       + multiset(Sources(deduped, keys)) + multiset(survivors)
            && Merged(c, deduped) == survivors + Generalized(deduped, keys)
            && |Generalized(deduped, keys)| == |keys|
  {
    hide Deduplicated, Duplicates, KeysToMerge, Without, Generalized, Sources, MergeKey;
    var complete := Complete(candidates);
    var deduped := Deduplicated(c, complete);
    var keys := KeysToMerge(c, deduped);
    SplitComplete(candidates);
    DedupAccounting(c, complete);
    SplitByKeys(MergeKey, deduped, keys);
    SourcesAccounting(deduped, keys);
  }

  /** The log has one entry per candidate that does not survive, and no other. */
  lemma LogAccounting(c: Settings, candidates: seq<Item>)
    ensures var complete := Complete(candidates);
            var deduped := Deduplicated(c, complete);
            var keys := KeysToMerge(c, deduped);
            LogIds(QuarantineLog(Incomplete(candidates)) + DropLog(Duplicates(c, complete)) + MergeLog(deduped, keys))
            == ShownAll(Incomplete(candidates) + ItemsOf(Duplicates(c, complete)) + Sources(deduped, keys))
  {
    hide Deduplicated, Duplicates, KeysToMerge, Sources, MergeLog, Shown;
    var complete := Complete(candidates);
    var deduped := Deduplicated(c, complete);
    var keys := KeysToMerge(c, deduped);
    MergeLogIds(deduped, keys);
    var a, b, d := Incomplete(candidates), Duplicates(c, complete), Sources(deduped, keys);
    assert LogIds(QuarantineLog(a)) == ShownAll(a);
    assert LogIds(DropLog(b)) == ShownAll(ItemsOf(b));
    assert ShownAll(a + ItemsOf(b) + d) == ShownAll(a) + ShownAll(ItemsOf(b)) + ShownAll(d);
  }

  // ------------------------------------------------------------------ what a drop means

  /** Both belong to the cluster some item leads. */
  ghost predicate SameCluster(c: Settings, g: seq<Item>, x: Item, y: Item) {
    exists a :: a in g && (a == x || Similar(c, a, x)) && (a == y || Similar(c, a, y))
  }

  ghost predicate Justified(c: Settings, g: seq<Item>, d: Dropped) {
    SameCluster(c, g, d.item, d.best) && !Better(d.item, d.best)
  }

  lemma {:induction false} DroppedFromAll(s: seq<Item>, best: Item, d: Dropped)
    requires d in DroppedFrom(s, best)
    ensures d.best == best && d.item in s
  {
    if d in DroppedFrom(s[..|s| - 1], best) {
      DroppedFromAll(s[..|s| - 1], best, d);
    }
  }

  lemma Elsewhere(s: seq<Item>, i: nat, x: Item) returns (k: nat)
    requires i < |s| && x in s[..i] + s[i + 1..]
    ensures k < |s| && s[k] == x
  {
    if x in s[..i] {
      k :| 0 <= k < i && s[k] == x;
    } else {
      assert x in s[i + 1..];
      k :| i + 1 <= k < |s| && s[k] == x;
    }
  }

  lemma DropInCluster(cluster: seq<Item>, d: Dropped) returns (k: nat)
    requires cluster != [] && d in DropsOfCluster(cluster)
    ensures k < |cluster| && d == Dropped(cluster[k], cluster[BestIndex(cluster)])
  {
    hide BestIndex, DroppedFrom;
    var i := BestIndex(cluster);
    DroppedFromAll(cluster[..i] + cluster[i + 1..], cluster[i], d);
    k := Elsewhere(cluster, i, d.item);
  }

  lemma ClusterDropsJustified(c: Settings, g: seq<Item>, cluster: seq<Item>, d: Dropped)
    requires cluster != [] && d in DropsOfCluster(cluster)
    requires forall m :: 0 <= m < |cluster| ==> cluster[m] in g
    requires forall m :: 1 <= m < |cluster| ==> Similar(c, cluster[0], cluster[m])
    ensures Justified(c, g, d) && d.best == cluster[BestIndex(cluster)]
  {
    hide Similar, Better, BestIndex, DropsOfCluster;
    var k := DropInCluster(cluster, d);
    BestIsFirstMaximum(cluster);
    assert SameCluster(c, g, d.item, d.best) by {
      var a := cluster[0];
      assert a in g && (a == d.item || Similar(c, a, d.item)) && (a == d.best || Similar(c, a, d.best));
    }
  }

  lemma {:induction false} ClusterDropsAllJustified(c: Settings, g: seq<Item>, cs: seq<seq<Item>>, d: Dropped)
    requires forall i :: 0 <= i < |cs| ==> cs[i] != []
    requires forall i, m :: 0 <= i < |cs| && 0 <= m < |cs[i]| ==> cs[i][m] in g
    requires LedBySimilar(c, cs)
    requires d in DropsOf(cs)
    ensures Justified(c, g, d) && d.best in Bests(cs)
  {
    hide Similar, Better, BestIndex, DropsOfCluster, Justified;
    var before, last := cs[..|cs| - 1], cs[|cs| - 1];
    if d in DropsOf(before) {
      ClusterDropsAllJustified(c, g, before, d);
    } else {
      ClusterDropsJustified(c, g, last, d);
    }
  }

  /**
   Whatever de-duplication drops from a group is represented: an item that is kept belongs to the
   same cluster and is not worse.
   */
  lemma DropsAreJustified(c: Settings, g: seq<Item>, d: Dropped)
    requires d in DropsOfGroup(c, g)
    ensures Justified(c, g, d) && d.best in KeptOfGroup(c, g)
  {
    hide Similar, Better, Justified, Clusters, DropsOf, Bests;
    ClusterMembers(c, g);
    ClustersAreGreedy(c, g);
    ClusterDropsAllJustified(c, g, Clusters(c, g), d);
  }
}
