/**
 What "least recently used" means for a run of the cache: which keys it holds is decided by the
 last write or hit of each key and by the lookups that found one expired, counted over the calls.
 */
module CacheRecency {
  import opened Wrappers
  import opened Sets
  import opened VlmCache

  /** A call uses its key when it writes it or is answered. */
  predicate Uses(cs: seq<Call>, i: nat, size: nat, ttl: real)
    requires i < |cs|
  {
    cs[i].Set? || AnswerAt(cs, i, size, ttl).Some?
  }

  /** One more than the position of the last use of a key; zero when there is none. */
  function LastUse(cs: seq<Call>, size: nat, ttl: real, key: string): (n: nat)
    ensures n <= |cs|
    ensures n > 0 ==> cs[n - 1].key == key
  {
    if cs == [] then 0
    else if cs[|cs| - 1].key == key && Uses(cs, |cs| - 1, size, ttl) then |cs|
    else LastUse(cs[..|cs| - 1], size, ttl, key)
  }

  function KeysCalled(cs: seq<Call>): set<string> {
    set i | 0 <= i < |cs| :: cs[i].key
  }

  /** Used after the other key was, and not found expired since its last write. */
  predicate MoreRecent(cs: seq<Call>, size: nat, ttl: real, k: string, key: string) {
    LastUse(cs, size, ttl, k) > LastUse(cs, size, ttl, key) && !SeenExpired(cs, k, ttl)
  }

  function Recent(cs: seq<Call>, size: nat, ttl: real, key: string): (r: set<string>)
    ensures forall k :: k in r <==> MoreRecent(cs, size, ttl, k, key)
  {
    var r := set k | k in KeysCalled(cs) && MoreRecent(cs, size, ttl, k, key);
    assert forall k | MoreRecent(cs, size, ttl, k, key) :: k in r by {
      forall k | MoreRecent(cs, size, ttl, k, key) ensures k in r {
        var n := LastUse(cs, size, ttl, k);
        assert cs[n - 1].key in KeysCalled(cs);
      }
    }
    r
  }

  /**
   The key has been used, no lookup has found it expired since it was last written, and at no moment
   since its last use were there `size` keys more recent than it.
   */
  ghost predicate Lasts(cs: seq<Call>, size: nat, ttl: real, key: string) {
    var u := LastUse(cs, size, ttl, key);
    && u > 0 && !SeenExpired(cs, key, ttl)
    && forall j | u <= j <= |cs| :: |Recent(cs[..j], size, ttl, key)| < size
  }

  // ------------------------------------------------------------------ what stands behind an entry

  /** The entries used more recently than that of `key`. */
  function Behind(s: seq<Entry>, key: string): (r: seq<Entry>)
    ensures |r| <= |s|
  {
    if s == [] then [] else if s[0].key == key then s[1..] else Behind(s[1..], key)
  }

  lemma {:induction false} BehindRemove(s: seq<Entry>, k: string, key: string)
    requires k != key
    ensures Behind(Remove(s, k), key) == Remove(Behind(s, key), k)
  {
    if s != [] {
      BehindRemove(s[1..], k, key);
      assert ([s[0]] + Remove(s[1..], k))[1..] == Remove(s[1..], k);
    }
  }

  lemma {:induction false} BehindAppend(s: seq<Entry>, e: Entry, key: string)
    ensures Behind(s + [e], key) == if key in Keys(s) then Behind(s, key) + [e] else []
  {
    if s == [] {
      assert s + [e] == [e];
    } else {
      assert (s + [e])[1..] == s[1..] + [e];
      BehindAppend(s[1..], e, key);
    }
  }

  lemma {:induction false} BehindDistinct(s: seq<Entry>, key: string)
    requires Distinct(s)
    ensures Distinct(Behind(s, key)) && Keys(Behind(s, key)) <= Keys(s) - {key}
    ensures key in Keys(s) ==> |Behind(s, key)| < |s|
  {
    if s != [] { BehindDistinct(s[1..], key); }
  }

  /** Eviction spares an entry exactly when fewer than `size` stand behind it. */
  lemma {:induction false} EvictBehind(s: seq<Entry>, size: nat, key: string)
    requires Distinct(s) && key in Keys(s)
    ensures key in Keys(Evict(s, size)) <==> |Behind(s, key)| < size
    ensures key in Keys(Evict(s, size)) ==> Behind(Evict(s, size), key) == Behind(s, key)
  {
    BehindDistinct(s, key);
    if |s| > size {
      assert Evict(s, size) == Evict(s[1..], size);
      if s[0].key == key {
        FindAfterEvict(s[1..], size, key);
      } else {
        EvictBehind(s[1..], size, key);
      }
    }
  }

  // ------------------------------------------------------------------ one call

  lemma RunStep(cs: seq<Call>, size: nat, ttl: real)
    requires cs != []
    ensures Run(cs, size, ttl) == AfterCall(Run(cs[..|cs| - 1], size, ttl), cs[|cs| - 1], size, ttl)
    ensures var c, s := cs[|cs| - 1], Run(cs[..|cs| - 1], size, ttl);
            Uses(cs, |cs| - 1, size, ttl) <==> c.Set? || Answer(s, c.key, c.now, ttl).Some?
  {
  }

  lemma Bounded(cs: seq<Call>, size: nat, ttl: real)
    ensures Distinct(Run(cs, size, ttl)) && |Run(cs, size, ttl)| <= size
  {
    IncludedRun(cs, size, size, ttl);
  }

  /** A call on another key: a write may evict, whatever is answered or written comes to stand last. */
  lemma OtherCall(s: seq<Entry>, c: Call, size: nat, ttl: real, key: string)
    requires Distinct(s) && |s| <= size && c.key != key
    ensures var t, behind := AfterCall(s, c, size, ttl), Keys(Behind(s, key));
            var used := c.Set? || Answer(s, c.key, c.now, ttl).Some?;
            var now := if used then behind + {c.key} else behind - {c.key};
            && (key in Keys(t) <==> key in Keys(s) && (c.Set? ==> |now| < size))
            && (key in Keys(t) ==> Keys(Behind(t, key)) == now)
  {
    hide Find, Keys, Distinct, Remove, Evict, Behind;
    var found := Find(s, c.key);
    var e := if c.Set? then Entry(c.key, c.response, c.now)
             else if found.Some? then found.value else Entry(c.key, "", 0.0);
    var rest := Remove(s, c.key);
    RemoveOne(s, e);
    FindIffKey(s, c.key);
    KeysRemove(s, c.key);
    SingleKey(e);
    KeysAppend(rest, [e]);
    BehindRemove(s, c.key, key);
    KeysRemove(Behind(s, key), c.key);
    BehindAppend(rest, e, key);
    KeysAppend(Behind(rest, key), [e]);
    BehindDistinct(s, key);
    if c.Set? && key in Keys(s) {
      BehindDistinct(rest + [e], key);
      KeysSize(Behind(rest + [e], key));
      EvictBehind(rest + [e], size, key);
    }
    if c.Set? && key !in Keys(s) {
      FindAfterEvict(rest + [e], size, key);
    }
  }

  /** A call on the key itself. */
  lemma OwnCall(s: seq<Entry>, c: Call, size: nat, ttl: real)
    requires Distinct(s) && |s| <= size
    ensures var t := AfterCall(s, c, size, ttl);
            && (c.key in Keys(t) <==> if c.Set? then size > 0 else Answer(s, c.key, c.now, ttl).Some?)
            && Behind(t, c.key) == []
  {
    hide Find, Keys, Distinct, Remove, Evict, Behind;
    var found := Find(s, c.key);
    var e := if c.Set? then Entry(c.key, c.response, c.now)
             else if found.Some? then found.value else Entry(c.key, "", 0.0);
    var rest := Remove(s, c.key);
    RemoveOne(s, e);
    FindIffKey(s, c.key);
    KeysRemove(s, c.key);
    SingleKey(e);
    KeysAppend(rest, [e]);
    BehindAppend(rest, e, c.key);
    BehindAbsent(rest, c.key);
    if c.Set? {
      EvictBehind(rest + [e], size, c.key);
      if c.key !in Keys(Evict(rest + [e], size)) { BehindAbsent(Evict(rest + [e], size), c.key); }
    } else if c.key !in Keys(s) {
      BehindAbsent(s, c.key);
    }
  }

  lemma {:induction false} BehindAbsent(s: seq<Entry>, key: string)
    requires key !in Keys(s)
    ensures Behind(s, key) == []
  {
    if s != [] { BehindAbsent(s[1..], key); }
  }

  /** What is held was used, is the last write, and no lookup since found it expired. */
  lemma {:induction false} HeldIsLive(cs: seq<Call>, size: nat, ttl: real, key: string)
    requires key in Keys(Run(cs, size, ttl))
    ensures LastUse(cs, size, ttl, key) > 0 && !SeenExpired(cs, key, ttl)
    ensures Find(Run(cs, size, ttl), key) == LastSet(cs, key) && LastSet(cs, key).Some?
  {
    RunSound(cs, size, ttl);
    FindIffKey(Run(cs, size, ttl), key);
    hide Find, Distinct, Evict, Remove, AfterCall;
    if cs != [] {
      var c, before := cs[|cs| - 1], cs[..|cs| - 1];
      var s := Run(before, size, ttl);
      RunStep(cs, size, ttl);
      Bounded(before, size, ttl);
      if c.key == key {
        OwnCall(s, c, size, ttl);
      } else {
        OtherCall(s, c, size, ttl, key);
      }
      FindIffKey(s, key);
      if key in Keys(s) {
        HeldIsLive(before, size, ttl, key);
      }
    }
  }

  // ------------------------------------------------------------------ exactly what is held

  lemma UseStep(cs: seq<Call>, size: nat, ttl: real, k: string)
    requires cs != []
    ensures var c, before := cs[|cs| - 1], cs[..|cs| - 1];
            && LastUse(cs, size, ttl, k)
               == (if c.key == k && Uses(cs, |cs| - 1, size, ttl) then |cs| else LastUse(before, size, ttl, k))
            && (c.key != k ==> SeenExpired(cs, k, ttl) == SeenExpired(before, k, ttl))
            && (c.key == k && c.Set? ==> !SeenExpired(cs, k, ttl))
            && (c.key == k && c.Get? && SeenExpired(before, k, ttl) ==> SeenExpired(cs, k, ttl))
  {
    hide Uses;
  }

  lemma MoreRecentStep(cs: seq<Call>, size: nat, ttl: real, k: string, key: string)
    requires cs != [] && cs[|cs| - 1].key != key
    ensures var c, before := cs[|cs| - 1], cs[..|cs| - 1];
            && (k != c.key ==> (MoreRecent(cs, size, ttl, k, key) <==> MoreRecent(before, size, ttl, k, key)))
            && (k == c.key && Uses(cs, |cs| - 1, size, ttl) ==>
                  (MoreRecent(cs, size, ttl, k, key) <==> !SeenExpired(cs, k, ttl)))
            && (k == c.key && !Uses(cs, |cs| - 1, size, ttl) && MoreRecent(cs, size, ttl, k, key) ==>
                  c.Get? && !SeenExpired(cs, k, ttl) && MoreRecent(before, size, ttl, k, key))
  {
    UseStep(cs, size, ttl, key);
    UseStep(cs, size, ttl, k);
    RunStep(cs, size, ttl);
    hide LastUse, SeenExpired, Uses;
  }

  /** How one call on another key changes which keys are more recent than a held one. */
  lemma RecentStep(cs: seq<Call>, size: nat, ttl: real, key: string)
    requires cs != [] && cs[|cs| - 1].key != key
    requires var s := Run(cs[..|cs| - 1], size, ttl);
             key in Keys(s) && Keys(Behind(s, key)) == Recent(cs[..|cs| - 1], size, ttl, key)
    ensures var c, was := cs[|cs| - 1], Recent(cs[..|cs| - 1], size, ttl, key);
            Recent(cs, size, ttl, key)
            == if Uses(cs, |cs| - 1, size, ttl) then was + {c.key} else was - {c.key}
  {
    hide Run, Find, Keys, Distinct, LastUse, SeenExpired, Uses, Recent, Behind, MoreRecent;
    var c, before := cs[|cs| - 1], cs[..|cs| - 1];
    Bounded(before, size, ttl);
    BehindDistinct(Run(before, size, ttl), key);
    CallSeesExpiry(cs, size, ttl);
    UseStep(cs, size, ttl, c.key);
    UsedIsHeld(cs, size, ttl);
    var now, was := Recent(cs, size, ttl, key), Recent(before, size, ttl, key);
    var expected := if Uses(cs, |cs| - 1, size, ttl) then was + {c.key} else was - {c.key};
    forall k ensures k in now <==> k in expected {
      MoreRecentStep(cs, size, ttl, k, key);
    }
  }

  lemma UsedIsHeld(cs: seq<Call>, size: nat, ttl: real)
    requires cs != []
    ensures var c, before := cs[|cs| - 1], cs[..|cs| - 1];
            c.Get? && Uses(cs, |cs| - 1, size, ttl) ==> c.key in Keys(Run(before, size, ttl))
  {
    var c, before := cs[|cs| - 1], cs[..|cs| - 1];
    FindIffKey(Run(before, size, ttl), c.key);
    RunStep(cs, size, ttl);
  }

  /** A lookup that is answered has seen nothing expired; one that finds its key expired has. */
  lemma CallSeesExpiry(cs: seq<Call>, size: nat, ttl: real)
    requires cs != []
    ensures var c, before := cs[|cs| - 1], cs[..|cs| - 1];
            c.Get? && c.key in Keys(Run(before, size, ttl)) ==>
              (SeenExpired(cs, c.key, ttl) <==> !Uses(cs, |cs| - 1, size, ttl))
  {
    var c, before := cs[|cs| - 1], cs[..|cs| - 1];
    if c.Get? && c.key in Keys(Run(before, size, ttl)) {
      HeldIsLive(before, size, ttl, c.key);
      RunStep(cs, size, ttl);
    }
  }

  lemma OwnRecent(cs: seq<Call>, size: nat, ttl: real)
    requires cs != [] && Uses(cs, |cs| - 1, size, ttl)
    ensures Recent(cs, size, ttl, cs[|cs| - 1].key) == {}
  {
    hide Uses;
  }

  /** The moments since the last use, but for the newest, are those before the newest call. */
  lemma LastsAfterOther(cs: seq<Call>, size: nat, ttl: real, key: string)
    requires cs != []
    requires var before := cs[..|cs| - 1];
             && LastUse(cs, size, ttl, key) == LastUse(before, size, ttl, key)
             && (SeenExpired(before, key, ttl) ==> SeenExpired(cs, key, ttl))
    ensures Lasts(cs, size, ttl, key)
            <==> Lasts(cs[..|cs| - 1], size, ttl, key) && !SeenExpired(cs, key, ttl)
                 && |Recent(cs, size, ttl, key)| < size
  {
    hide LastUse, SeenExpired, Recent;
    var before := cs[..|cs| - 1];
    assert cs[..|cs|] == cs;
    forall j | 0 <= j < |cs| ensures cs[..j] == before[..j] {
    }
  }

  lemma LastsAfterUse(cs: seq<Call>, size: nat, ttl: real)
    requires cs != [] && Uses(cs, |cs| - 1, size, ttl)
    ensures var key := cs[|cs| - 1].key;
            Lasts(cs, size, ttl, key) <==> !SeenExpired(cs, key, ttl) && size > 0
  {
    OwnRecent(cs, size, ttl);
    hide SeenExpired, Uses, Recent;
    assert cs[..|cs|] == cs;
  }

  /** A call on the key leaves it held exactly when it leaves it lasting. */
  lemma OwnStep(cs: seq<Call>, size: nat, ttl: real)
    requires cs != []
    requires var key, before := cs[|cs| - 1].key, cs[..|cs| - 1];
             key in Keys(Run(before, size, ttl)) <==> Lasts(before, size, ttl, key)
    ensures var key := cs[|cs| - 1].key;
            key in Keys(Run(cs, size, ttl)) <==> Lasts(cs, size, ttl, key)
    ensures Behind(Run(cs, size, ttl), cs[|cs| - 1].key) == []
    ensures Lasts(cs, size, ttl, cs[|cs| - 1].key) ==> Recent(cs, size, ttl, cs[|cs| - 1].key) == {}
  {
    var c, before := cs[|cs| - 1], cs[..|cs| - 1];
    var s := Run(before, size, ttl);
    FindIffKey(s, c.key);
    RunStep(cs, size, ttl);
    Bounded(before, size, ttl);
    CallSeesExpiry(cs, size, ttl);
    HeldNeedsRoom(s, c.key);
    UseStep(cs, size, ttl, c.key);
    hide Run, Find, Keys, Distinct, AfterCall, LastUse, SeenExpired, Uses, Recent, Lasts, Behind;
    OwnCall(s, c, size, ttl);
    if Uses(cs, |cs| - 1, size, ttl) {
      LastsAfterUse(cs, size, ttl);
      OwnRecent(cs, size, ttl);
    } else {
      LastsAfterOther(cs, size, ttl, c.key);
    }
  }

  /** Fewer than `size` entries stand behind a held one. */
  lemma FewBehind(cs: seq<Call>, size: nat, ttl: real, key: string)
    ensures key in Keys(Run(cs, size, ttl)) ==> |Keys(Behind(Run(cs, size, ttl), key))| < size
  {
    var s := Run(cs, size, ttl);
    Bounded(cs, size, ttl);
    BehindDistinct(s, key);
    KeysSize(Behind(s, key));
  }

  lemma HeldNeedsRoom(s: seq<Entry>, key: string)
    ensures key in Keys(s) ==> |s| > 0
  {
  }

  /**
   A key is held exactly when it lasts, and the entries behind a held one are exactly the more
   recent keys: on any trace, any clock and any capacity.
   */
  lemma {:induction false} HeldIff(cs: seq<Call>, size: nat, ttl: real, key: string)
    ensures key in Keys(Run(cs, size, ttl)) <==> Lasts(cs, size, ttl, key)
    ensures key in Keys(Run(cs, size, ttl)) ==> Keys(Behind(Run(cs, size, ttl), key)) == Recent(cs, size, ttl, key)
  {
    if cs != [] {
      hide Find, Keys, Distinct, AfterCall, LastUse, SeenExpired, Uses, Recent, Lasts, Behind, Answer;
      var c, before := cs[|cs| - 1], cs[..|cs| - 1];
      var s := Run(before, size, ttl);
      HeldIff(before, size, ttl, key);
      if c.key == key {
        OwnStep(cs, size, ttl);
        NoKeys();
      } else {
        Bounded(before, size, ttl);
        RunStep(cs, size, ttl);
        UseStep(cs, size, ttl, key);
        OtherCall(s, c, size, ttl, key);
        LastsAfterOther(cs, size, ttl, key);
        if key in Keys(s) {
          RecentStep(cs, size, ttl, key);
          HeldIsLive(before, size, ttl, key);
          FewBehind(cs, size, ttl, key);
        }
      }
    }
  }

  lemma NoKeys()
    ensures Keys([]) == {}
  {
  }

  // ------------------------------------------------------------------ what callers see

  lemma {:induction false} BehindAt(s: seq<Entry>, i: nat, j: nat)
    requires Distinct(s) && i < j < |s|
    ensures s[i].key in Keys(s) && s[j].key in Keys(Behind(s, s[i].key))
  {
    if i == 0 {
      KeyAtIn(s[1..], j - 1);
    } else {
      KeyAtIn(s[1..], i - 1);
      BehindAt(s[1..], i - 1, j - 1);
    }
  }

  lemma {:induction false} KeyAtIn(s: seq<Entry>, i: nat)
    requires i < |s|
    ensures s[i].key in Keys(s)
  {
    if i > 0 { KeyAtIn(s[1..], i - 1); }
  }

  /** The entries stand in the order in which their keys were last written or hit. */
  lemma EntriesInOrderOfUse(cs: seq<Call>, size: nat, ttl: real, i: nat, j: nat)
    requires i < j < |Run(cs, size, ttl)|
    ensures var s := Run(cs, size, ttl);
            0 < LastUse(cs, size, ttl, s[i].key) < LastUse(cs, size, ttl, s[j].key)
  {
    hide Find, Keys, Run, LastUse, SeenExpired, Behind;
    var s := Run(cs, size, ttl);
    Bounded(cs, size, ttl);
    BehindAt(s, i, j);
    HeldIff(cs, size, ttl, s[i].key);
    HeldIsLive(cs, size, ttl, s[i].key);
  }

  /**
   Exactly when a lookup is answered: its key has been written, that write is still fresh, no lookup
   since has found it expired, and at no moment since the key was last written or hit were there as
   many keys more recent than it as the cache has room for.
   */
  lemma AnsweredIff(cs: seq<Call>, i: nat, size: nat, ttl: real)
    requires i < |cs| && cs[i].Get?
    ensures var w := LastSet(cs[..i], cs[i].key);
            AnswerAt(cs, i, size, ttl)
            == if w.Some? && cs[i].now - w.value.timestamp < ttl && Lasts(cs[..i], size, ttl, cs[i].key)
               then Some(w.value.response) else None
  {
    hide Run, Lasts, LastSet, LastUse, SeenExpired, Recent;
    var before, key := cs[..i], cs[i].key;
    HeldIff(before, size, ttl, key);
    FindIffKey(Run(before, size, ttl), key);
    if key in Keys(Run(before, size, ttl)) { HeldIsLive(before, size, ttl, key); }
  }

  /** The other keys called from position u on. */
  function OthersCalled(cs: seq<Call>, u: nat, key: string): set<string> {
    set m | u <= m < |cs| && cs[m].key != key :: cs[m].key
  }

  lemma {:induction false} LastUseStays(cs: seq<Call>, size: nat, ttl: real, key: string, j: nat)
    requires LastUse(cs, size, ttl, key) <= j <= |cs|
    ensures LastUse(cs[..j], size, ttl, key) == LastUse(cs, size, ttl, key)
  {
    if j < |cs| {
      var before := cs[..|cs| - 1];
      assert before[..j] == cs[..j];
      UseStep(cs, size, ttl, key);
      LastUseStays(before, size, ttl, key, j);
    } else {
      assert cs[..j] == cs;
    }
  }

  /** Only keys called since can be more recent. */
  lemma RecentWereCalled(cs: seq<Call>, size: nat, ttl: real, key: string, j: nat)
    requires LastUse(cs, size, ttl, key) <= j <= |cs|
    ensures |Recent(cs[..j], size, ttl, key)| <= |OthersCalled(cs, LastUse(cs, size, ttl, key), key)|
  {
    hide LastUse, SeenExpired;
    LastUseStays(cs, size, ttl, key, j);
    var u := LastUse(cs, size, ttl, key);
    forall k | k in Recent(cs[..j], size, ttl, key) ensures k in OthersCalled(cs, u, key) {
      var n := LastUse(cs[..j], size, ttl, k);
      assert cs[..j][n - 1] == cs[n - 1];
    }
    SubsetSize(Recent(cs[..j], size, ttl, key), OthersCalled(cs, u, key));
  }

  /**
   A key whose last write or hit is followed by calls on fewer than `size` other keys, and that no
   lookup has found expired since it was written, is answered while it is fresh.
   */
  lemma RecentlyUsedIsAnswered(cs: seq<Call>, i: nat, size: nat, ttl: real)
    requires i < |cs| && cs[i].Get?
    requires var u := LastUse(cs[..i], size, ttl, cs[i].key);
             u > 0 && |OthersCalled(cs[..i], u, cs[i].key)| < size
    requires !SeenExpired(cs[..i], cs[i].key, ttl)
    ensures LastSet(cs[..i], cs[i].key).Some?
    ensures var w := LastSet(cs[..i], cs[i].key).value;
            cs[i].now - w.timestamp < ttl ==> AnswerAt(cs, i, size, ttl) == Some(w.response)
  {
    hide LastUse, SeenExpired, Recent, AnswerAt, Run, LastSet, OthersCalled;
    var before, key := cs[..i], cs[i].key;
    forall j | LastUse(before, size, ttl, key) <= j <= |before|
      ensures |Recent(before[..j], size, ttl, key)| < size
    {
      RecentWereCalled(before, size, ttl, key, j);
    }
    HeldIff(before, size, ttl, key);
    HeldIsLive(before, size, ttl, key);
    AnsweredIff(cs, i, size, ttl);
  }
}
