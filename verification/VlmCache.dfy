/**
 The LRU response cache with lazy expiry. Time is an input of every call. The ordered
 dictionary is a sequence of entries with distinct keys, least recently used first.
 */
module VlmCache {
  import opened Wrappers
  import opened Sets

  /** A cached reply, as the serialized text that would be sent again. */
  type Response = string

  datatype Entry = Entry(key: string, response: Response, timestamp: real)

  function Remove(s: seq<Entry>, key: string): (r: seq<Entry>)
    ensures |r| <= |s|
  {
    if s == [] then []
    else if s[0].key == key then Remove(s[1..], key)
    else [s[0]] + Remove(s[1..], key)
  }

  function Find(s: seq<Entry>, key: string): (r: Option<Entry>)
    ensures r.Some? ==> r.value.key == key
  {
    if s == [] then None else if s[0].key == key then Some(s[0]) else Find(s[1..], key)
  }

  function Keys(s: seq<Entry>): set<string> {
    if s == [] then {} else {s[0].key} + Keys(s[1..])
  }

  predicate Distinct(s: seq<Entry>) {
    s == [] || (s[0].key !in Keys(s[1..]) && Distinct(s[1..]))
  }

  // ------------------------------------------------------------------ calls as functions

  predicate Fresh(now: real, timestamp: real, ttl: real) {
    now - timestamp < ttl
  }

  /** Entries after a lookup: refreshed on a hit, dropped when expired. */
  function AfterGet(s: seq<Entry>, key: string, now: real, ttl: real): seq<Entry> {
    match Find(s, key)
    case None => s
    case Some(e) => if Fresh(now, e.timestamp, ttl) then Remove(s, key) + [e] else Remove(s, key)
  }

  function Answer(s: seq<Entry>, key: string, now: real, ttl: real): Option<Response> {
    match Find(s, key)
    case None => None
    case Some(e) => if Fresh(now, e.timestamp, ttl) then Some(e.response) else None
  }

  /** The most recent `size` entries. */
  function Evict(s: seq<Entry>, size: nat): (r: seq<Entry>)
    ensures |r| <= size
  {
    if |s| <= size then s else s[|s| - size..]
  }

  function AfterSet(s: seq<Entry>, key: string, response: Response, now: real, size: nat): seq<Entry> {
    Evict(Remove(s, key) + [Entry(key, response, now)], size)
  }

  // ------------------------------------------------------------------ the cache object

  class VLMCache {
    var entries: seq<Entry>
    const maxSize: nat
    const ttl: real
    var hits: nat
    var misses: nat

    predicate Valid()
      reads this
    {
      Distinct(entries) && |entries| <= maxSize
    }

    constructor (maxSize: nat, ttl: real)
      ensures Valid() && entries == [] && hits == misses == 0
      ensures this.maxSize == maxSize && this.ttl == ttl
    {
      this.maxSize, this.ttl := maxSize, ttl;
      entries, hits, misses := [], 0, 0;
    }

    method Get(key: string, now: real) returns (r: Option<Response>)
      requires Valid()
      modifies this
      ensures Valid()
      ensures r == Answer(old(entries), key, now, ttl)
      ensures entries == AfterGet(old(entries), key, now, ttl)
      ensures hits == old(hits) + (if r.Some? then 1 else 0)
      ensures misses == old(misses) + (if r.Some? then 0 else 1)
    {
      hide Find, Remove, Keys;
      var found := Find(entries, key);
      if found.Some? {
        RemoveOne(entries, found.value);
        if now - found.value.timestamp < ttl {
          entries := Remove(entries, key) + [found.value];
          hits := hits + 1;
          return Some(found.value.response);
        } else {
          entries := Remove(entries, key);
        }
      }
      misses := misses + 1;
      return None;
    }

    method Set(key: string, response: Response, now: real)
      requires Valid()
      modifies this`entries
      ensures Valid()
      ensures entries == AfterSet(old(entries), key, response, now, maxSize)
    {
      hide Find, Remove, Keys, Distinct;
      RemoveOne(entries, Entry(key, response, now));
      entries := Remove(entries, key) + [Entry(key, response, now)];
      ghost var whole := entries;
      while |entries| > maxSize
        invariant |entries| <= |whole|
        invariant entries == whole[|whole| - |entries|..]
        invariant |entries| == |whole| || |entries| >= maxSize
        invariant Distinct(entries)
        decreases |entries|
      {
        DropFirst(entries);
        entries := entries[1..];
      }
    }
  }

  // ------------------------------------------------------------------ laws of the entry list

  lemma {:induction false} FindIffKey(s: seq<Entry>, key: string)
    ensures Find(s, key).Some? <==> key in Keys(s)
  {
    if s != [] { FindIffKey(s[1..], key); }
  }

  lemma {:induction false} KeysRemove(s: seq<Entry>, key: string)
    ensures Keys(Remove(s, key)) == Keys(s) - {key}
  {
    if s != [] {
      KeysRemove(s[1..], key);
      assert ([s[0]] + Remove(s[1..], key))[1..] == Remove(s[1..], key);
    }
  }

  lemma {:induction false} KeysAppend(s: seq<Entry>, t: seq<Entry>)
    ensures Keys(s + t) == Keys(s) + Keys(t)
  {
    if s == [] {
      assert s + t == t;
    } else {
      assert (s + t)[1..] == s[1..] + t;
      KeysAppend(s[1..], t);
    }
  }

  lemma {:induction false} RemoveAbsent(s: seq<Entry>, key: string)
    requires key !in Keys(s)
    ensures Remove(s, key) == s
  {
    if s != [] { RemoveAbsent(s[1..], key); }
  }

  lemma {:induction false} RemoveDistinct(s: seq<Entry>, key: string)
    requires Distinct(s)
    ensures Distinct(Remove(s, key))
    ensures |Remove(s, key)| == |s| - if key in Keys(s) then 1 else 0
  {
    if s != [] {
      RemoveDistinct(s[1..], key);
      KeysRemove(s[1..], key);
      if s[0].key == key {
        RemoveAbsent(s[1..], key);
      } else {
        assert Remove(s, key)[1..] == Remove(s[1..], key);
      }
    }
  }

  lemma {:induction false} DistinctAppend(s: seq<Entry>, e: Entry)
    requires Distinct(s) && e.key !in Keys(s)
    ensures Distinct(s + [e])
  {
    if s == [] {
      assert s + [e] == [e];
    } else {
      DistinctAppend(s[1..], e);
      assert (s + [e])[1..] == s[1..] + [e];
      KeysAppend(s[1..], [e]);
    }
  }

  /** Taking a key out and putting an entry of that key last keeps the keys distinct. */
  lemma RemoveOne(s: seq<Entry>, e: Entry)
    requires Distinct(s)
    ensures Distinct(Remove(s, e.key)) && Distinct(Remove(s, e.key) + [e])
    ensures Find(s, e.key).Some? ==> |Remove(s, e.key)| == |s| - 1
    ensures Find(s, e.key).None? ==> Remove(s, e.key) == s
  {
    hide Find, Remove, Keys, Distinct;
    RemoveDistinct(s, e.key);
    KeysRemove(s, e.key);
    DistinctAppend(Remove(s, e.key), e);
    FindIffKey(s, e.key);
    if e.key !in Keys(s) { RemoveAbsent(s, e.key); }
  }

  lemma DropFirst(s: seq<Entry>)
    requires s != [] && Distinct(s)
    ensures Distinct(s[1..])
    ensures Remove(s, s[0].key) == s[1..]
    ensures Keys(s[1..]) == Keys(s) - {s[0].key}
  {
    RemoveAbsent(s[1..], s[0].key);
  }

  lemma {:induction false} FindAfterRemove(s: seq<Entry>, key: string, j: string)
    ensures Find(Remove(s, key), j) == if j == key then None else Find(s, j)
  {
    if s != [] {
      FindAfterRemove(s[1..], key, j);
      assert ([s[0]] + Remove(s[1..], key))[1..] == Remove(s[1..], key);
    }
  }

  lemma {:induction false} FindAfterAppend(s: seq<Entry>, e: Entry, j: string)
    ensures Find(s + [e], j) == if Find(s, j).Some? then Find(s, j) else if e.key == j then Some(e) else None
  {
    if s == [] {
      assert s + [e] == [e];
    } else {
      FindAfterAppend(s[1..], e, j);
      assert (s + [e])[1..] == s[1..] + [e];
    }
  }

  // ------------------------------------------------------------------ traces

  datatype Call = Get(key: string, now: real) | Set(key: string, response: Response, now: real)

  function AfterCall(s: seq<Entry>, c: Call, size: nat, ttl: real): seq<Entry> {
    match c
    case Get(key, now) => AfterGet(s, key, now, ttl)
    case Set(key, response, now) => AfterSet(s, key, response, now, size)
  }

  /** The entries after a trace of calls on an empty cache. */
  function Run(cs: seq<Call>, size: nat, ttl: real): seq<Entry> {
    if cs == [] then [] else AfterCall(Run(cs[..|cs| - 1], size, ttl), cs[|cs| - 1], size, ttl)
  }

  /** What call `i` of the trace answers; writes answer nothing. */
  function AnswerAt(cs: seq<Call>, i: nat, size: nat, ttl: real): Option<Response>
    requires i < |cs|
  {
    if cs[i].Get? then Answer(Run(cs[..i], size, ttl), cs[i].key, cs[i].now, ttl) else None
  }

  // ------------------------------------------------------------------ inclusion between capacities

  /** The entries of `s` with a key in `ks`, in the order of `s`. */
  function Restrict(s: seq<Entry>, ks: set<string>): seq<Entry> {
    if s == [] then []
    else if s[0].key in ks then [s[0]] + Restrict(s[1..], ks)
    else Restrict(s[1..], ks)
  }

  /**
   The small cache is the large one restricted to the small one's keys: same entries, same
   relative order. Their sizes differ by no more than their capacities do.
   */
  predicate Included(small: seq<Entry>, large: seq<Entry>, n: nat, m: nat) {
    && Distinct(small) && Distinct(large)
    && |small| <= n && |large| <= m
    && |large| - |small| <= m - n
    && Restrict(large, Keys(small)) == small
  }

  lemma {:induction false} RestrictAppend(s: seq<Entry>, e: Entry, ks: set<string>)
    ensures Restrict(s + [e], ks) == Restrict(s, ks) + if e.key in ks then [e] else []
  {
    if s == [] {
      assert s + [e] == [e];
    } else {
      RestrictAppend(s[1..], e, ks);
      assert (s + [e])[1..] == s[1..] + [e];
    }
  }

  lemma {:induction false} RestrictRemove(s: seq<Entry>, ks: set<string>, key: string)
    ensures Restrict(Remove(s, key), ks) == Remove(Restrict(s, ks), key)
    ensures Restrict(s, ks - {key}) == Remove(Restrict(s, ks), key)
  {
    if s != [] {
      RestrictRemove(s[1..], ks, key);
      assert ([s[0]] + Remove(s[1..], key))[1..] == Remove(s[1..], key);
      assert ([s[0]] + Restrict(s[1..], ks))[1..] == Restrict(s[1..], ks);
    }
  }

  lemma {:induction false} RestrictIgnores(s: seq<Entry>, ks: set<string>, key: string)
    requires key !in Keys(s)
    ensures Restrict(s, ks + {key}) == Restrict(s, ks)
  {
    if s != [] { RestrictIgnores(s[1..], ks, key); }
  }

  lemma {:induction false} FindRestricted(s: seq<Entry>, ks: set<string>, key: string)
    requires key in ks
    ensures Find(Restrict(s, ks), key) == Find(s, key)
  {
    if s != [] {
      FindRestricted(s[1..], ks, key);
      assert ([s[0]] + Restrict(s[1..], ks))[1..] == Restrict(s[1..], ks);
    }
  }

  /** A shared key holds the same entry, so a hit in the small cache is the same hit in the large. */
  lemma SameEntry(small: seq<Entry>, large: seq<Entry>, n: nat, m: nat, key: string)
    requires Included(small, large, n, m)
    ensures Find(small, key).Some? ==> Find(large, key) == Find(small, key)
  {
    hide Find, Restrict, Keys, Distinct;
    FindIffKey(small, key);
    if key in Keys(small) { FindRestricted(large, Keys(small), key); }
  }

  /** Dropping a key from both, or from the large cache only, keeps inclusion. */
  lemma RemoveBoth(small: seq<Entry>, large: seq<Entry>, n: nat, m: nat, key: string)
    requires Included(small, large, n, m) && key in Keys(large)
    ensures Included(Remove(small, key), Remove(large, key), n, m)
  {
    hide Find, Restrict, Keys, Distinct, Remove;
    RemoveDistinct(small, key);
    RemoveDistinct(large, key);
    KeysRemove(small, key);
    RestrictRemove(large, Keys(small), key);
    RestrictRemove(Remove(large, key), Keys(small), key);
    KeysRemove(large, key);
    RemoveAbsent(Remove(large, key), key);
    if key !in Keys(small) { RemoveAbsent(small, key); }
    RemoveTwice(small, key);
  }

  lemma RemoveTwice(s: seq<Entry>, key: string)
    ensures Remove(Remove(s, key), key) == Remove(s, key)
  {
    hide Remove, Keys;
    KeysRemove(s, key);
    RemoveAbsent(Remove(s, key), key);
  }

  /** Moving a key of the large cache to its end, where the small one lacks it. */
  lemma TouchLarge(small: seq<Entry>, large: seq<Entry>, n: nat, m: nat, e: Entry)
    requires Included(small, large, n, m) && e.key !in Keys(small) && e.key in Keys(large)
    ensures Included(small, Remove(large, e.key) + [e], n, m)
  {
    hide Find, Restrict, Keys, Distinct, Remove;
    RemoveOne(large, e);
    FindIffKey(large, e.key);
    RestrictRemove(large, Keys(small), e.key);
    RemoveAbsent(small, e.key);
    RestrictAppend(Remove(large, e.key), e, Keys(small));
  }

  /** Writing the same entry at the end of both, before any eviction. */
  lemma AppendBoth(small: seq<Entry>, large: seq<Entry>, n: nat, m: nat, e: Entry)
    requires Included(small, large, n, m)
    ensures var s, l := Remove(small, e.key) + [e], Remove(large, e.key) + [e];
            && Distinct(s) && Distinct(l)
            && |l| - |s| <= m - n
            && (e.key in Keys(small) ==> |s| == |small| && |l| == |large|)
            && Restrict(l, Keys(s)) == s
  {
    hide Find, Restrict, Keys, Distinct, Remove;
    var k := e.key;
    var ks := Keys(small) - {k};
    RemoveOne(small, e);
    RemoveOne(large, e);
    FindIffKey(small, k);
    FindIffKey(large, k);
    SameEntry(small, large, n, m, k);
    KeysRemove(small, k);
    KeysRemove(large, k);
    KeysAppend(Remove(small, k), [e]);
    SingleKey(e);
    RestrictAppend(Remove(large, k), e, ks + {k});
    RestrictIgnores(Remove(large, k), ks, k);
    RestrictRemove(large, ks, k);
    RestrictRemove(large, Keys(small), k);
    RemoveTwice(small, k);
  }

  lemma SingleKey(e: Entry)
    ensures Keys([e]) == {e.key}
  {
  }

  lemma RestrictFirst(small: seq<Entry>, large: seq<Entry>)
    requires small != [] && large != [] && Restrict(large, Keys(small)) == small && large[0].key in Keys(small)
    ensures small[0] == large[0]
  {
  }

  /** Evicting from whichever cache overflows keeps inclusion: the large one never evicts alone. */
  lemma EvictBoth(small: seq<Entry>, large: seq<Entry>, n: nat, m: nat)
    requires Distinct(small) && Distinct(large)
    requires |small| <= n + 1 && |large| <= m + 1 && |large| - |small| <= m - n
    requires Restrict(large, Keys(small)) == small
    ensures Included(Evict(small, n), Evict(large, m), n, m)
  {
    hide Find, Restrict, Keys, Distinct, Remove;
    if |small| == n + 1 {
      var ks, first := Keys(small), small[0].key;
      DropFirst(small);
      RestrictRemove(large, ks, first);
      assert Restrict(large, ks - {first}) == small[1..];
      if |large| == m + 1 {
        var oldest := large[0].key;
        DropFirst(large);
        RestrictRemove(large, ks - {first}, oldest);
        assert oldest !in Keys(small[1..]) by {
          if oldest in ks { RestrictFirst(small, large); }
        }
        RemoveAbsent(small[1..], oldest);
      }
    }
  }

  lemma IncludedStep(small: seq<Entry>, large: seq<Entry>, n: nat, m: nat, c: Call, ttl: real)
    requires n <= m && Included(small, large, n, m)
    ensures Included(AfterCall(small, c, n, ttl), AfterCall(large, c, m, ttl), n, m)
    ensures c.Get? && Answer(small, c.key, c.now, ttl).Some?
            ==> Answer(large, c.key, c.now, ttl) == Answer(small, c.key, c.now, ttl)
  {
    hide Find, Restrict, Keys, Distinct, Remove, Evict;
    FindIffKey(small, c.key);
    FindIffKey(large, c.key);
    SameEntry(small, large, n, m, c.key);
    match c
    case Get(key, now) =>
      if Find(large, key).Some? {
        var e := Find(large, key).value;
        RemoveBoth(small, large, n, m, key);
        if Find(small, key).Some? {
          AppendBoth(small, large, n, m, e);
        } else {
          TouchLarge(small, large, n, m, e);
          RemoveAbsent(small, key);
        }
      }
    case Set(key, response, now) =>
      var e := Entry(key, response, now);
      AppendBoth(small, large, n, m, e);
      EvictBoth(Remove(small, key) + [e], Remove(large, key) + [e], n, m);
  }

  lemma IncludedEmpty(n: nat, m: nat)
    requires n <= m
    ensures Included([], [], n, m)
  {
  }

  lemma {:induction false} IncludedRun(cs: seq<Call>, n: nat, m: nat, ttl: real)
    requires n <= m
    ensures Included(Run(cs, n, ttl), Run(cs, m, ttl), n, m)
  {
    hide Included, AfterCall;
    if cs == [] {
      IncludedEmpty(n, m);
    } else {
      var before := cs[..|cs| - 1];
      IncludedRun(before, n, m, ttl);
      IncludedStep(Run(before, n, ttl), Run(before, m, ttl), n, m, cs[|cs| - 1], ttl);
    }
  }

  /**
   LRU inclusion, lazy expiry included: on any trace, whatever the clock does, the smaller cache
   holds a subsequence of the larger one, and each of its hits is the same hit there.
   */
  lemma LargerCacheAnswersMore(cs: seq<Call>, i: nat, n: nat, m: nat, ttl: real)
    requires n <= m && i < |cs|
    ensures Included(Run(cs, n, ttl), Run(cs, m, ttl), n, m)
    ensures AnswerAt(cs, i, n, ttl).Some? ==> AnswerAt(cs, i, m, ttl) == AnswerAt(cs, i, n, ttl)
  {
    hide Included, AfterCall, Run, Answer;
    IncludedRun(cs, n, m, ttl);
    IncludedRun(cs[..i], n, m, ttl);
    IncludedStep(Run(cs[..i], n, ttl), Run(cs[..i], m, ttl), n, m, cs[i], ttl);
  }

  // ------------------------------------------------------------------ answers are fresh last writes

  /** The last write of `key` in the trace. */
  function LastSet(cs: seq<Call>, key: string): Option<Entry> {
    if cs == [] then None else
      var c := cs[|cs| - 1];
      if c.Set? && c.key == key then Some(Entry(key, c.response, c.now))
      else LastSet(cs[..|cs| - 1], key)
  }

  function KeysWritten(cs: seq<Call>): set<string> {
    if cs == [] then {} else
      var c := cs[|cs| - 1];
      KeysWritten(cs[..|cs| - 1]) + if c.Set? then {c.key} else {}
  }

  ghost predicate Monotone(cs: seq<Call>) {
    forall i, j | 0 <= i <= j < |cs| :: cs[i].now <= cs[j].now
  }

  lemma {:induction false} KeysSize(s: seq<Entry>)
    requires Distinct(s)
    ensures |Keys(s)| == |s|
  {
    if s != [] { KeysSize(s[1..]); }
  }

  lemma {:induction false} FindAfterEvict(s: seq<Entry>, size: nat, j: string)
    requires Distinct(s)
    ensures Find(Evict(s, size), j).Some? ==> Find(Evict(s, size), j) == Find(s, j)
    ensures Distinct(Evict(s, size)) && Keys(Evict(s, size)) <= Keys(s)
  {
    if |s| > size {
      FindAfterEvict(s[1..], size, j);
      DropFirst(s);
      FindIffKey(s[1..], j);
      assert Evict(s[1..], size) == Evict(s, size);
    }
  }

  ghost predicate Sound(s: seq<Entry>, cs: seq<Call>) {
    && Distinct(s)
    && Keys(s) <= KeysWritten(cs)
    && forall j :: Find(s, j).Some? ==> LastSet(cs, j) == Find(s, j)
  }

  lemma {:induction false} RunSound(cs: seq<Call>, size: nat, ttl: real)
    ensures Sound(Run(cs, size, ttl), cs)
  {
    if cs != [] {
      hide Find, Keys, Distinct, Remove, Evict;
      var c, before := cs[|cs| - 1], cs[..|cs| - 1];
      var s := Run(before, size, ttl);
      RunSound(before, size, ttl);
      KeysRemove(s, c.key);
      var e := if c.Set? then Entry(c.key, c.response, c.now)
               else if Find(s, c.key).Some? then Find(s, c.key).value else Entry(c.key, "", 0.0);
      RemoveOne(s, e);
      SingleKey(e);
      KeysAppend(Remove(s, c.key), [e]);
      FindIffKey(s, c.key);
      forall j ensures Find(Run(cs, size, ttl), j).Some? ==> LastSet(cs, j) == Find(Run(cs, size, ttl), j) {
        FindAfterRemove(s, c.key, j);
        FindAfterAppend(Remove(s, c.key), e, j);
        FindAfterEvict(Remove(s, c.key) + [e], size, j);
      }
      FindAfterEvict(Remove(s, c.key) + [e], size, c.key);
    }
  }

  /** Some lookup since the last write of the key found it expired. */
  predicate SeenExpired(cs: seq<Call>, key: string, ttl: real) {
    if cs == [] then false else
      var c, before := cs[|cs| - 1], cs[..|cs| - 1];
      if c.key != key then SeenExpired(before, key, ttl)
      else
        var w := LastSet(before, key);
        c.Get? && ((w.Some? && c.now - w.value.timestamp >= ttl) || SeenExpired(before, key, ttl))
  }

  /** With room for every key, the last write is held exactly until a lookup finds it expired. */
  lemma {:induction false} HeldUnlessSeenExpired(cs: seq<Call>, size: nat, ttl: real, key: string)
    requires |KeysWritten(cs)| <= size
    ensures Find(Run(cs, size, ttl), key) == if SeenExpired(cs, key, ttl) then None else LastSet(cs, key)
  {
    if cs != [] {
      hide Find, Keys, Distinct, Remove;
      var c, before := cs[|cs| - 1], cs[..|cs| - 1];
      var s := Run(before, size, ttl);
      SubsetSize(KeysWritten(before), KeysWritten(cs));
      HeldUnlessSeenExpired(before, size, ttl, key);
      RunSound(before, size, ttl);
      FindAfterRemove(s, c.key, key);
      if c.Set? {
        SetFits(cs, size, ttl);
        FindAfterAppend(Remove(s, c.key), Entry(c.key, c.response, c.now), key);
      } else if Find(s, c.key).Some? {
        FindAfterAppend(Remove(s, c.key), Find(s, c.key).value, key);
      }
    }
  }

  /** With room for every key a write evicts nothing. */
  lemma SetFits(cs: seq<Call>, size: nat, ttl: real)
    requires cs != [] && cs[|cs| - 1].Set? && |KeysWritten(cs)| <= size
    ensures var c, s := cs[|cs| - 1], Run(cs[..|cs| - 1], size, ttl);
            Run(cs, size, ttl) == Remove(s, c.key) + [Entry(c.key, c.response, c.now)]
  {
    hide Find, Keys, Distinct, Remove;
    var c, before := cs[|cs| - 1], cs[..|cs| - 1];
    var s, e := Run(before, size, ttl), Entry(c.key, c.response, c.now);
    var t := Remove(s, c.key) + [e];
    RunSound(before, size, ttl);
    RemoveOne(s, e);
    KeysRemove(s, c.key);
    SingleKey(e);
    KeysAppend(Remove(s, c.key), [e]);
    KeysSize(t);
    SubsetSize(Keys(t), KeysWritten(cs));
  }

  /** While the clock does not run backwards, what is fresh now has never been seen expired. */
  lemma {:induction false} FreshNeverSeenExpired(cs: seq<Call>, ttl: real, key: string, now: real)
    requires Monotone(cs) && forall i | 0 <= i < |cs| :: cs[i].now <= now
    requires LastSet(cs, key).Some? && Fresh(now, LastSet(cs, key).value.timestamp, ttl)
    ensures !SeenExpired(cs, key, ttl)
  {
    if !(cs[|cs| - 1].Set? && cs[|cs| - 1].key == key) {
      MonotonePrefix(cs);
      FreshNeverSeenExpired(cs[..|cs| - 1], ttl, key, now);
    }
  }

  /** With room for every key and a monotone clock, a write still fresh at `now` is still held. */
  lemma NothingLost(cs: seq<Call>, size: nat, ttl: real, key: string, now: real)
    requires |KeysWritten(cs)| <= size
    requires Monotone(cs) && forall i | 0 <= i < |cs| :: cs[i].now <= now
    ensures var w := LastSet(cs, key);
            w.Some? && Fresh(now, w.value.timestamp, ttl) ==> Find(Run(cs, size, ttl), key) == w
  {
    hide Monotone, Run, Find, KeysWritten, LastSet, SeenExpired;
    HeldUnlessSeenExpired(cs, size, ttl, key);
    var w := LastSet(cs, key);
    if w.Some? && Fresh(now, w.value.timestamp, ttl) {
      FreshNeverSeenExpired(cs, ttl, key, now);
    }
  }

  lemma MonotonePrefix(cs: seq<Call>)
    requires cs != [] && Monotone(cs)
    ensures Monotone(cs[..|cs| - 1])
  {
  }

  /**
   A hit always returns the last value written under the key, less than `ttl` ago. When the
   capacity suffices for every key written, such a value is returned exactly when no lookup since
   has found it expired, whatever the clock does; so always, when the clock never runs backwards.
   */
  lemma AnswersAreFreshLastWrites(cs: seq<Call>, i: nat, size: nat, ttl: real)
    requires i < |cs| && cs[i].Get?
    ensures AnswerAt(cs, i, size, ttl).Some? ==>
              var w := LastSet(cs[..i], cs[i].key);
              && w.Some? && AnswerAt(cs, i, size, ttl) == Some(w.value.response)
              && Fresh(cs[i].now, w.value.timestamp, ttl)
    ensures |KeysWritten(cs[..i])| <= size ==>
              (AnswerAt(cs, i, size, ttl).Some? <==>
                 var w := LastSet(cs[..i], cs[i].key);
                 w.Some? && Fresh(cs[i].now, w.value.timestamp, ttl) && !SeenExpired(cs[..i], cs[i].key, ttl))
    ensures |KeysWritten(cs[..i])| <= size && Monotone(cs) ==>
              (AnswerAt(cs, i, size, ttl).Some? <==>
                 var w := LastSet(cs[..i], cs[i].key); w.Some? && Fresh(cs[i].now, w.value.timestamp, ttl))
  {
    hide Find, LastSet, Run, KeysWritten, SeenExpired;
    RunSound(cs[..i], size, ttl);
    if |KeysWritten(cs[..i])| <= size {
      HeldUnlessSeenExpired(cs[..i], size, ttl, cs[i].key);
      if Monotone(cs) {
        NothingLost(cs[..i], size, ttl, cs[i].key, cs[i].now);
      }
    }
  }
}
