/** What comes out of the sanitizer, and by which measure items resemble and outrank each other. */
module SanitizerLaws {
  import opened Wrappers
  import opened Sanitizer

  // ------------------------------------------------------------------ resemblance and rank

  /** Near-duplicates share more than the threshold's part of their words; wordless items resemble nothing. */
  lemma SimilarIff(c: Settings, a: Item, b: Item)
    ensures Similar(c, a, b)
            <==> c.tokens(a) != {} && c.tokens(b) != {}
                 && |c.tokens(a) * c.tokens(b)| as real > c.threshold * |c.tokens(a) + c.tokens(b)| as real
    ensures Similar(c, a, b) <==> Similar(c, b, a)
  {
    var ta, tb := c.tokens(a), c.tokens(b);
    assert ta * tb == tb * ta && ta + tb == tb + ta;
    if ta != {} && tb != {} {
      assert ta <= ta + tb;
      QuotientAbove(|ta * tb| as real, |ta + tb| as real, c.threshold);
    }
  }

  lemma QuotientAbove(x: real, y: real, t: real)
    requires y > 0.0
    ensures x / y > t <==> x > t * y
  {
    var q := x / y;
    assert q * y == x;
    assert (q - t) * y == x - t * y;
    if x > t * y { assert q - t == (x - t * y) / y; }
    if q > t { assert (q - t) * y > 0.0; }
  }

  /** The tuple by which candidates of a cluster are ranked. */
  function Score(x: Item): seq<int> {
    [if x.preconditions != [] && x.postconditions != [] then 1 else 0, x.observations, -x.harms, x.timestamp]
  }

  /** Tuples compare at the first place where they differ. */
  predicate TupleLess(s: seq<int>, t: seq<int>)
    requires |s| == |t|
  {
    s != [] && (s[0] < t[0] || (s[0] == t[0] && TupleLess(s[1..], t[1..])))
  }

  lemma BetterIsGreater(a: Item, b: Item)
    ensures Better(a, b) <==> TupleLess(Score(b), Score(a))
  {
    var s, t := Score(b), Score(a);
    assert TupleLess(s[1..][1..][1..], t[1..][1..][1..]) <==> b.timestamp < a.timestamp;
    assert TupleLess(s[1..][1..], t[1..][1..])
      <==> -b.harms < -a.harms || (b.harms == a.harms && b.timestamp < a.timestamp);
  }

  /** What is kept of a cluster is its first item with the greatest tuple. */
  lemma KeptHasGreatestScore(s: seq<Item>, j: nat)
    requires j < |s|
    ensures var best := s[BestIndex(s)];
            && !TupleLess(Score(best), Score(s[j]))
            && (j < BestIndex(s) ==> TupleLess(Score(s[j]), Score(best)))
  {
    BestIsFirstMaximum(s);
    BetterIsGreater(s[j], s[BestIndex(s)]);
    BetterIsGreater(s[BestIndex(s)], s[j]);
  }

  // ------------------------------------------------------------------ what is offered for admission

  /** One item standing for several candidates of one kind and task group. */
  ghost predicate Stands(x: Item, g: seq<Item>, candidates: seq<Item>) {
    && |g| >= 2 && x.mergedFrom == Ids(g)
    && forall y | y in g :: y in candidates && y.kind == x.kind && y.group == x.group
  }

  lemma {:induction false} CompleteMembers(s: seq<Item>)
    ensures forall x :: x in Complete(s) <==> x in s && x.gene != "" && x.kind != "" && x.hasScope && x.hasSafety
  {
    if s != [] {
      var init, last := s[..|s| - 1], s[|s| - 1];
      assert s == init + [last];
      CompleteMembers(init);
    }
  }

  lemma {:induction false} NotRegisteredMembers(s: seq<Item>, existing: set<string>)
    ensures forall x :: x in NotRegistered(s, existing) <==> x in s && !(x.id.Some? && x.id.value in existing)
  {
    if s != [] {
      var init, last := s[..|s| - 1], s[|s| - 1];
      assert s == init + [last];
      NotRegisteredMembers(init, existing);
    }
  }

  lemma {:induction false} WithoutMembers(key: KeyOf, s: seq<Item>, keys: seq<string>)
    ensures forall x :: x in Without(key, s, keys) <==> x in s && !Under(key, x, keys)
  {
    hide Under;
    if s != [] {
      assert s == [s[0]] + s[1..];
      WithoutMembers(key, s[1..], keys);
    }
  }

  lemma DeduplicatedMembers(c: Settings, s: seq<Item>)
    ensures forall x | x in Deduplicated(c, s) :: x in s
  {
    DedupAccounting(c, s);
    hide Deduplicated, Duplicates;
    forall x | x in Deduplicated(c, s) ensures x in s {
      assert x in multiset(Deduplicated(c, s));
      assert x in multiset(s);
    }
  }

  lemma {:induction false} GeneralizedMember(s: seq<Item>, keys: seq<string>, x: Item) returns (k: string)
    requires NonEmptyGroups(s, keys) && x in Generalized(s, keys)
    ensures k in keys && WithKey(MergeKey, s, k) != [] && x == Generalize(WithKey(MergeKey, s, k))
  {
    hide WithKey, Generalize;
    var n := |keys| - 1;
    if x in Generalized(s, keys[..n]) {
      k := GeneralizedMember(s, keys[..n], x);
    } else {
      k := keys[n];
    }
  }

  /**
   Everything offered for admission has a gene, a kind, a scope and a safety boundary, is not yet
   registered, and is a candidate or stands for at least two candidates of its kind and task group.
   */
  lemma OfferedIsSound(c: Settings, candidates: seq<Item>, existing: set<string>, x: Item)
    requires x in NotRegistered(Merged(c, Deduplicated(c, Complete(candidates))), existing)
    ensures x.gene != "" && x.kind != "" && x.hasScope && x.hasSafety
    ensures x.id.Some? ==> x.id.value !in existing
    ensures x in candidates || exists g :: Stands(x, g, candidates)
  {
    hide Deduplicated, Without, Generalized, MergeKey, Complete, NotRegistered;
    var complete := Complete(candidates);
    var deduped := Deduplicated(c, complete);
    var keys := KeysToMerge(c, deduped);
    NotRegisteredMembers(Merged(c, deduped), existing);
    CompleteMembers(candidates);
    DeduplicatedMembers(c, complete);
    WithoutMembers(MergeKey, deduped, keys);
    if x !in Without(MergeKey, deduped, keys) {
      var k := GeneralizedMember(deduped, keys, x);
      KeptIsPlural(c, deduped, k);
      StandsFor(deduped, k, x);
      var g := WithKey(MergeKey, deduped, k);
      WithKeyMembers(MergeKey, deduped, k);
      assert g[MostObserved(g)] in deduped;
      assert Stands(x, g, candidates);
    }
  }

  /**
   A group of mergeable items is merged exactly when it has two or more items whose preconditions follow
   at most three patterns; the test for one kind never fails.
   */
  lemma MergedIff(c: Settings, s: seq<Item>, k: string)
    ensures k in KeysToMerge(c, s)
            <==> var g := WithKey(MergeKey, s, k);
                 |g| >= 2 && |set x, p | x in g && p in x.preconditions :: c.pattern(p)| <= 3
  {
    FirstKeysExact(MergeKey, s);
    MergedKeysShape(c, s, FirstKeys(MergeKey, s));
    var g := WithKey(MergeKey, s, k);
    if |g| >= 2 {
      WithKeyMembers(MergeKey, s, k);
      assert g[0] in g;
      OneKind(s, k);
    }
  }

  lemma OneKind(s: seq<Item>, k: string)
    requires WithKey(MergeKey, s, k) != []
    ensures var g := WithKey(MergeKey, s, k); |set x | x in g :: x.kind| <= 1
  {
    var g := WithKey(MergeKey, s, k);
    var kinds := set x | x in g :: x.kind;
    forall x | x in g ensures x.kind == g[0].kind {
      MergeGroupsAreUniform(s, k, x, g[0]);
    }
    assert kinds <= {g[0].kind};
    assert kinds == {} || kinds == {g[0].kind};
  }

  /** Three kinds of item are merged, each only with items of its kind and task group. */
  lemma MergeKeyIff(x: Item, y: Item)
    ensures MergeKey(x).Some?
            <==> x.kind == "action_correction" || x.kind == "dependency_correction" || x.kind == "remedy"
    ensures MergeKey(x).Some? && MergeKey(y).Some? ==>
              (MergeKey(x) == MergeKey(y) <==> x.kind == y.kind && x.group == y.group)
  {
    if MergeKey(x).Some? && MergeKey(x) == MergeKey(y) {
      WithKeyMembers(MergeKey, [x, y], MergeKey(x).value);
      MergeGroupsAreUniform([x, y], MergeKey(x).value, x, y);
    }
  }

  lemma KeptIsPlural(c: Settings, s: seq<Item>, k: string)
    requires k in KeysToMerge(c, s)
    ensures |WithKey(MergeKey, s, k)| >= 2
  {
    FirstKeysExact(MergeKey, s);
    MergedKeysShape(c, s, FirstKeys(MergeKey, s));
    CanMergeIsPlural(c, WithKey(MergeKey, s, k));
  }

  lemma StandsFor(s: seq<Item>, k: string, x: Item)
    requires WithKey(MergeKey, s, k) != [] && x == Generalize(WithKey(MergeKey, s, k))
    ensures var g := WithKey(MergeKey, s, k);
            && x.mergedFrom == Ids(g) && x.gene != ""
            && x.kind == g[MostObserved(g)].kind && x.hasScope == g[MostObserved(g)].hasScope
            && x.hasSafety == g[MostObserved(g)].hasSafety
            && forall y | y in g :: y.kind == x.kind && y.group == x.group
  {
    var g := WithKey(MergeKey, s, k);
    WithKeyMembers(MergeKey, s, k);
    forall y | y in g ensures y.kind == x.kind && y.group == x.group {
      MergeGroupsAreUniform(s, k, y, g[MostObserved(g)]);
    }
  }
}
