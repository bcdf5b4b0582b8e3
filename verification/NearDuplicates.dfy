/**
 Exactly which groups come out of de-duplication without near-duplicates. Clusters form around
 leaders, but the best member of a cluster is kept, and it may resemble an item its leader does not.
 */
module NearDuplicates {
  import opened Wrappers
  import opened Sanitizer
  import opened Sets

  const DEFAULT_THRESHOLD := 0.65

  /** The items of a list are pairwise not near-duplicates. */
  ghost predicate Apart(c: Settings, s: seq<Item>) {
    forall i, j :: 0 <= i < j < |s| ==> !Similar(c, s[i], s[j])
  }

  ghost predicate KeptApart(c: Settings, g: seq<Item>) {
    Apart(c, KeptOfGroup(c, g))
  }

  /** No item beats an earlier one, except that the last may beat the one just before it. */
  predicate OnlyLastImproves(g: seq<Item>) {
    forall i, j :: 0 <= i < j < |g| && Better(g[j], g[i]) ==> i + 2 == |g|
  }

  // ------------------------------------------------------------------ filters and first occurrences

  function Where(s: seq<Item>, p: Item -> bool): (r: seq<Item>)
    ensures |r| <= |s|
  {
    if s == [] then [] else if p(s[0]) then [s[0]] + Where(s[1..], p) else Where(s[1..], p)
  }

  function Other(x: Item): Item -> bool {
    (y: Item) => y != x
  }

  /** Each item once, in order of first appearance. */
  function Firsts(s: seq<Item>): (r: seq<Item>)
    ensures |r| <= |s|
    decreases |s|
  {
    if s == [] then [] else [s[0]] + Firsts(Where(s[1..], Other(s[0])))
  }

  lemma {:induction false} WhereMembers(s: seq<Item>, p: Item -> bool)
    ensures forall x :: x in Where(s, p) <==> x in s && p(x)
  {
    if s != [] {
      WhereMembers(s[1..], p);
      assert s == [s[0]] + s[1..];
    }
  }

  lemma {:induction false} WhereAll(s: seq<Item>, p: Item -> bool)
    requires forall x | x in s :: p(x)
    ensures Where(s, p) == s
  {
    if s != [] {
      assert s == [s[0]] + s[1..] && s[0] in s;
      WhereAll(s[1..], p);
    }
  }

  lemma {:induction false} WhereCommutes(s: seq<Item>, p: Item -> bool, q: Item -> bool)
    ensures Where(Where(s, p), q) == Where(Where(s, q), p)
  {
    if s != [] {
      WhereCommutes(s[1..], p, q);
    }
  }

  lemma {:induction false} WhereNone(s: seq<Item>, p: Item -> bool)
    requires forall x | x in s :: !p(x)
    ensures Where(s, p) == []
  {
    if s != [] {
      assert s == [s[0]] + s[1..] && s[0] in s;
      WhereNone(s[1..], p);
    }
  }

  lemma {:induction false} FirstsMembers(s: seq<Item>)
    ensures forall x :: x in Firsts(s) <==> x in s
    decreases |s|
  {
    if s != [] {
      WhereMembers(s[1..], Other(s[0]));
      FirstsMembers(Where(s[1..], Other(s[0])));
      assert s == [s[0]] + s[1..];
    }
  }

  predicate AllDifferent(g: seq<Item>) {
    forall i, j :: 0 <= i < j < |g| ==> g[i] != g[j]
  }

  lemma {:induction false} FirstsDiffer(s: seq<Item>)
    ensures AllDifferent(Firsts(s))
    decreases |s|
  {
    if s != [] {
      var rest := Where(s[1..], Other(s[0]));
      FirstsDiffer(rest);
      FirstsMembers(rest);
      WhereMembers(s[1..], Other(s[0]));
      forall j | 0 <= j < |Firsts(rest)| ensures Firsts(rest)[j] != s[0] {
        assert Firsts(rest)[j] in Firsts(rest);
      }
    }
  }

  /** Taking first occurrences and filtering by value can be done in either order. */
  lemma {:induction false} FirstsWhere(s: seq<Item>, p: Item -> bool)
    ensures Firsts(Where(s, p)) == Where(Firsts(s), p)
    decreases |s|
  {
    if s != [] {
      var h, t := s[0], s[1..];
      var others := Where(t, Other(h));
      FirstsWhere(others, p);
      WhereCommutes(t, p, Other(h));
      assert ([h] + Firsts(others))[1..] == Firsts(others);
      if p(h) {
        assert ([h] + Where(t, p))[1..] == Where(t, p);
      } else {
        WhereMembers(t, p);
        WhereAll(Where(t, p), Other(h));
      }
    }
  }

  // ------------------------------------------------------------------ groups that come out clean

  /** `OnlyLastImproves`, front to back. */
  predicate Tame(s: seq<Item>) {
    s == [] || ((|s| != 2 ==> forall x | x in s[1..] :: !Better(x, s[0])) && Tame(s[1..]))
  }

  lemma {:induction false} OnlyLastIsTame(s: seq<Item>)
    requires OnlyLastImproves(s)
    ensures Tame(s)
  {
    hide Better;
    if s != [] {
      var t := s[1..];
      forall i, j | 0 <= i < j < |t| && Better(t[j], t[i]) ensures i + 2 == |t| {
        assert Better(s[j + 1], s[i + 1]);
      }
      OnlyLastIsTame(t);
    }
  }

  lemma {:induction false} TameWhere(s: seq<Item>, p: Item -> bool)
    requires Tame(s)
    ensures Tame(Where(s, p))
  {
    hide Better;
    if s != [] {
      TameWhere(s[1..], p);
      WhereMembers(s[1..], p);
      assert ([s[0]] + Where(s[1..], p))[1..] == Where(s[1..], p);
    }
  }

  /** Items that resemble themselves; any other resembles nothing. */
  function Loud(c: Settings): Item -> bool {
    (x: Item) => Similar(c, x, x)
  }

  function Unlikely(c: Settings, a: Item): Item -> bool {
    (x: Item) => !Similar(c, a, x)
  }

  lemma SimilarAreLoud(c: Settings, a: Item, b: Item)
    requires Similar(c, a, b)
    ensures Similar(c, a, a) && Similar(c, b, b)
  {
    var ta, tb := c.tokens(a), c.tokens(b);
    ShareBelowOne(ta, tb);
    ShareOfSelf(ta);
    ShareOfSelf(tb);
  }

  lemma ShareBelowOne(ta: set<string>, tb: set<string>)
    requires ta != {}
    ensures ta + tb != {} && |ta * tb| as real / |ta + tb| as real <= 1.0
  {
    assert ta <= ta + tb && ta * tb <= ta + tb;
    var rest := (ta + tb) - (ta * tb);
    assert ta + tb == (ta * tb) + rest;
    assert |ta + tb| == |ta * tb| + |rest|;
  }

  lemma ShareOfSelf(t: set<string>)
    requires t != {}
    ensures t * t == t == t + t && |t| as real / |t| as real == 1.0
  {
  }

  lemma {:induction false} UnlikeIsWhere(c: Settings, a: Item, s: seq<Item>)
    ensures Unlike(c, a, s) == Where(s, Unlikely(c, a))
  {
    hide Similar;
    if s != [] {
      UnlikeIsWhere(c, a, s[1..]);
    }
  }

  lemma {:induction false} NothingLike(c: Settings, a: Item, s: seq<Item>)
    requires forall x | x in s :: !Similar(c, a, x)
    ensures Like(c, a, s) == [] && Unlike(c, a, s) == s
  {
    hide Similar;
    if s != [] {
      assert s == [s[0]] + s[1..] && s[0] in s;
      NothingLike(c, a, s[1..]);
    }
  }

  lemma {:induction false} BestsCons(first: seq<Item>, cs: seq<seq<Item>>)
    requires first != [] && forall i :: 0 <= i < |cs| ==> cs[i] != []
    ensures forall i :: 0 <= i < |[first] + cs| ==> ([first] + cs)[i] != []
    ensures Bests([first] + cs) == [first[BestIndex(first)]] + Bests(cs)
  {
    hide BestIndex;
    var all := [first] + cs;
    if cs == [] {
      assert all[..|all| - 1] == [];
    } else {
      BestsCons(first, cs[..|cs| - 1]);
      assert all[..|all| - 1] == [first] + cs[..|cs| - 1];
    }
  }

  /** What is kept of a list: the best of its first cluster, then what is kept of the rest. */
  lemma KeptCons(c: Settings, s: seq<Item>)
    requires s != []
    ensures var first := [s[0]] + Like(c, s[0], s[1..]);
            Bests(Clusters(c, s)) == [first[BestIndex(first)]] + Bests(Clusters(c, Unlike(c, s[0], s[1..])))
  {
    hide Similar, Like, Unlike, Bests, BestIndex;
    BestsCons([s[0]] + Like(c, s[0], s[1..]), Clusters(c, Unlike(c, s[0], s[1..])));
  }

  lemma {:induction false} KeptMembers(c: Settings, s: seq<Item>)
    ensures forall x | x in Bests(Clusters(c, s)) :: x in s
    decreases |s|
  {
    hide Similar, Bests, BestIndex, Clusters;
    if s == [] {
      NothingKeptOfNothing(c);
    } else {
      var like, rest := Like(c, s[0], s[1..]), Unlike(c, s[0], s[1..]);
      KeptCons(c, s);
      KeptMembers(c, rest);
      SplitLike(c, s[0], s[1..]);
      assert s == [s[0]] + s[1..];
      assert ([s[0]] + like)[BestIndex([s[0]] + like)] in [s[0]] + like;
    }
  }

  lemma NothingKeptOfNothing(c: Settings)
    ensures Bests(Clusters(c, [])) == []
  {
  }

  /** The loud items left by a cluster have tame first occurrences again. */
  lemma LoudRest(c: Settings, s: seq<Item>)
    requires s != [] && Tame(Firsts(Where(s, Loud(c))))
    ensures Tame(Firsts(Where(Unlike(c, s[0], s[1..]), Loud(c))))
  {
    hide Similar, Tame, Firsts;
    var h, t := s[0], s[1..];
    UnlikeIsWhere(c, h, t);
    if Similar(c, h, h) {
      var p := Unlikely(c, h);
      WhereCommutes(t, p, Loud(c));
      assert Where(s, Loud(c)) == [h] + Where(t, Loud(c));
      assert ([h] + Where(t, Loud(c)))[1..] == Where(t, Loud(c));
      assert Where(Where(s, Loud(c)), p) == Where(Where(t, Loud(c)), p);
      FirstsWhere(Where(s, Loud(c)), p);
      TameWhere(Firsts(Where(s, Loud(c))), p);
    } else {
      QuietLeavesAll(c, h, t);
    }
  }

  lemma QuietLeavesAll(c: Settings, h: Item, t: seq<Item>)
    requires !Similar(c, h, h)
    ensures Like(c, h, t) == [] && Unlike(c, h, t) == t
  {
    hide Similar;
    forall x | x in t ensures !Similar(c, h, x) {
      if Similar(c, h, x) { SimilarAreLoud(c, h, x); }
    }
    NothingLike(c, h, t);
  }

  /** If the best of the first cluster beats the leader, the cluster takes everything loud. */
  lemma WinnerTakesAll(c: Settings, s: seq<Item>, y: Item, z: Item)
    requires s != [] && Tame(Firsts(Where(s, Loud(c))))
    requires y in s[1..] && Similar(c, s[0], y) && Better(y, s[0])
    requires z in s[1..] && !Similar(c, s[0], z)
    ensures !Similar(c, y, z)
  {
    hide Similar, Better, Firsts, Where;
    if Similar(c, y, z) {
      SimilarAreLoud(c, s[0], y);
      SimilarAreLoud(c, y, z);
      ThreeLoudValues(c, s, y, z);
    }
  }

  lemma ThreeLoudValues(c: Settings, s: seq<Item>, y: Item, z: Item)
    requires s != [] && Tame(Firsts(Where(s, Loud(c)))) && Similar(c, s[0], s[0])
    requires y in s[1..] && Similar(c, y, y) && z in s[1..] && Similar(c, z, z)
    requires y != s[0] && z != s[0] && y != z
    ensures !Better(y, s[0])
  {
    hide Similar, Better, Firsts, Tame;
    var loud := Where(s, Loud(c));
    assert loud[0] == s[0];
    WhereMembers(s, Loud(c));
    FirstsMembers(loud);
    assert s[0] in loud && y in loud && z in loud;
    HeadOfFirsts(loud);
    ThreeTame(Firsts(loud), y, z);
  }

  lemma ThreeTame(f: seq<Item>, y: Item, z: Item)
    requires f != [] && Tame(f) && y in f && z in f && y != f[0] && z != f[0] && y != z
    ensures !Better(y, f[0])
  {
    hide Better;
    var i :| 0 <= i < |f| && f[i] == y;
    var j :| 0 <= j < |f| && f[j] == z;
    assert f[1..][i - 1] == y && |f| > 2;
  }

  lemma {:induction false} TameKeepsApart(c: Settings, s: seq<Item>)
    requires Tame(Firsts(Where(s, Loud(c))))
    ensures Apart(c, Bests(Clusters(c, s)))
    decreases |s|
  {
    hide Similar, Better, BestIndex, Clusters, Bests, Tame, Firsts, Where;
    if s == [] {
      NothingKeptOfNothing(c);
    } else {
      var like, rest := Like(c, s[0], s[1..]), Unlike(c, s[0], s[1..]);
      var first := [s[0]] + like;
      var best, kept := first[BestIndex(first)], Bests(Clusters(c, rest));
      KeptCons(c, s);
      LoudRest(c, s);
      TameKeepsApart(c, rest);
      KeptMembers(c, rest);
      SplitLike(c, s[0], s[1..]);
      BestIsFirstMaximum(first);
      forall j | 0 <= j < |kept| ensures !Similar(c, best, kept[j]) {
        assert kept[j] in rest;
        if BestIndex(first) > 0 {
          assert best == like[BestIndex(first) - 1] && best in like && first[0] == s[0];
          WinnerTakesAll(c, s, best, kept[j]);
        }
      }
    }
  }

  // ------------------------------------------------------------------ groups that need not

  /** Nothing in the class resembles anything outside it. */
  ghost predicate Closed(c: Settings, s: seq<Item>, p: Item -> bool) {
    forall a, b | a in s && b in s && Similar(c, a, b) :: p(a) == p(b)
  }

  /** What is kept of a class that resembles nothing else does not depend on the rest. */
  lemma {:induction false} KeptOfClass(c: Settings, s: seq<Item>, p: Item -> bool)
    requires Closed(c, s, p)
    ensures Where(Bests(Clusters(c, s)), p) == Bests(Clusters(c, Where(s, p)))
    decreases |s|
  {
    hide Similar, Bests, Clusters, BestIndex;
    if s == [] {
      NothingKeptOfNothing(c);
    } else {
      var h, t := s[0], s[1..];
      var like, rest := Like(c, h, t), Unlike(c, h, t);
      var first, kept := [h] + like, Bests(Clusters(c, rest));
      SplitLike(c, h, t);
      assert s == [h] + t && h in s;
      KeptCons(c, s);
      KeptOfClass(c, rest, p);
      UnlikeIsWhere(c, h, t);
      UnlikeIsWhere(c, h, Where(t, p));
      WhereCommutes(t, Unlikely(c, h), p);
      var best := first[BestIndex(first)];
      assert best in first && p(best) == p(h);
      assert ([best] + kept)[1..] == kept;
      if p(h) {
        LikeInClass(c, h, t, p);
        KeptCons(c, [h] + Where(t, p));
        assert ([h] + Where(t, p))[1..] == Where(t, p);
      } else {
        OutsideLeavesClass(c, h, t, p);
      }
    }
  }

  lemma {:induction false} LikeInClass(c: Settings, h: Item, t: seq<Item>, p: Item -> bool)
    requires forall x | x in t && Similar(c, h, x) :: p(x)
    ensures Like(c, h, Where(t, p)) == Like(c, h, t)
  {
    hide Similar;
    if t != [] {
      assert t == [t[0]] + t[1..] && t[0] in t;
      LikeInClass(c, h, t[1..], p);
      assert ([t[0]] + Where(t[1..], p))[1..] == Where(t[1..], p);
    }
  }

  lemma OutsideLeavesClass(c: Settings, h: Item, t: seq<Item>, p: Item -> bool)
    requires forall x | x in t && Similar(c, h, x) :: !p(x)
    ensures Unlike(c, h, Where(t, p)) == Where(t, p)
  {
    hide Similar;
    WhereMembers(t, p);
    NothingLike(c, h, Where(t, p));
  }

  /** x resembles y and y resembles z, but x does not resemble z. */
  ghost predicate Bridges(c: Settings, x: Item, y: Item, z: Item) {
    && Similar(c, x, y) && Similar(c, y, z) && !Similar(c, x, z)
    && Better(y, x)
  }

  /** Of copies of x, y and z, the first an x, a y and a z are kept. */
  lemma BridgeIsKept(c: Settings, s: seq<Item>, x: Item, y: Item, z: Item)
    requires Bridges(c, x, y, z) && s != [] && s[0] == x && y in s && z in s
    requires forall u | u in s :: u == x || u == y || u == z
    ensures Bests(Clusters(c, s)) == [y, z]
  {
    hide Similar, Better, Bests, Clusters, BestIndex;
    SimilarAreLoud(c, x, y);
    SimilarAreLoud(c, y, z);
    var t := s[1..];
    assert s == [x] + t;
    var like, rest := Like(c, x, t), Unlike(c, x, t);
    SplitLike(c, x, t);
    MemberOfOne(like, rest, t, y);
    MemberOfOne(like, rest, t, z);
    assert forall u | u in like :: u in s && u != z;
    FirstBest(x, y, like);
    forall u | u in rest ensures u == z {
      assert u in t && u in s;
    }
    KeptCons(c, s);
    CopiesOfOne(c, rest, z);
  }

  /** Among x and copies of x and of a better y, the best is y. */
  lemma FirstBest(x: Item, y: Item, like: seq<Item>)
    requires Better(y, x) && y in like && forall u | u in like :: u == x || u == y
    ensures ([x] + like)[BestIndex([x] + like)] == y
  {
    hide Better, BestIndex;
    var first := [x] + like;
    BestIsFirstMaximum(first);
    var best := first[BestIndex(first)];
    assert best in first;
    var k :| 0 <= k < |like| && like[k] == y;
    assert first[k + 1] == y && !Better(y, best);
  }

  lemma MemberOfOne(like: seq<Item>, rest: seq<Item>, t: seq<Item>, x: Item)
    requires multiset(t) == multiset(like) + multiset(rest) && x in t
    ensures x in like || x in rest
  {
    assert x in multiset(t);
  }

  lemma CopiesOfOne(c: Settings, s: seq<Item>, z: Item)
    requires s != [] && Similar(c, z, z) && forall u | u in s :: u == z
    ensures Bests(Clusters(c, s)) == [z]
  {
    hide Similar, Bests, Clusters, BestIndex;
    assert s == [s[0]] + s[1..] && s[0] in s;
    var like, rest := Like(c, z, s[1..]), Unlike(c, z, s[1..]);
    var first := [z] + like;
    assert |rest| > 0 ==> rest[0] in rest;
    SplitLike(c, z, s[1..]);
    assert forall u | u in rest :: u in s;
    assert rest == [] && forall u | u in like :: u in s;
    assert first[BestIndex(first)] in first;
    KeptCons(c, s);
    NothingKeptOfNothing(c);
  }

  lemma {:induction false} WherePair(s: seq<Item>, p: Item -> bool, y: Item, z: Item) returns (i: nat, j: nat)
    requires Where(s, p) == [y, z]
    ensures i < j < |s| && s[i] == y && s[j] == z
  {
    if p(s[0]) {
      i := 0;
      var rest := Where(s[1..], p);
      assert [s[0]] + rest == [y, z] && ([s[0]] + rest)[0] == s[0] && ([s[0]] + rest)[1] == rest[0];
      WhereMembers(s[1..], p);
      assert z in rest && z in s[1..];
      var k :| 0 <= k < |s[1..]| && s[1..][k] == z;
      j := k + 1;
    } else {
      i, j := WherePair(s[1..], p, y, z);
      i, j := i + 1, j + 1;
    }
  }

  function OneOf(x: Item, y: Item, z: Item): Item -> bool {
    (u: Item) => u == x || u == y || u == z
  }

  /** A bridge that nothing else in the group resembles leaves two near-duplicates. */
  lemma BridgeFails(c: Settings, g: seq<Item>, x: Item, y: Item, z: Item)
    requires Bridges(c, x, y, z) && Closed(c, g, OneOf(x, y, z)) && y in g && z in g && |g| > 1
    requires Where(g, OneOf(x, y, z)) != [] && Where(g, OneOf(x, y, z))[0] == x
    ensures !KeptApart(c, g)
  {
    hide Similar, Better, Bests, Clusters, Closed, Where;
    var p := OneOf(x, y, z);
    WhereMembers(g, p);
    BridgeIsKept(c, Where(g, p), x, y, z);
    KeptOfClass(c, g, p);
    var i, j := WherePair(Bests(Clusters(c, g)), p, y, z);
  }

  // ------------------------------------------------------------------ texts that make a bridge

  /** The n-th invented word. */
  function Word(n: nat): string {
    seq(n + 1, i => 'x')
  }

  /** The invented words from lo up to hi. */
  function Block(lo: nat, hi: nat): set<string>
    decreases hi - lo
  {
    if lo >= hi then {} else {Word(lo)} + Block(lo + 1, hi)
  }

  lemma {:induction false} BlockWords(lo: nat, hi: nat)
    ensures forall w :: w in Block(lo, hi) <==> lo < |w| <= hi && w == Word(|w| - 1)
    decreases hi - lo
  {
    if lo < hi {
      BlockWords(lo + 1, hi);
      assert |Word(lo)| == lo + 1;
    }
  }

  lemma {:induction false} BlockSize(lo: nat, hi: nat)
    requires lo <= hi
    ensures |Block(lo, hi)| == hi - lo
    decreases hi - lo
  {
    if lo < hi {
      BlockSize(lo + 1, hi);
      BlockWords(lo + 1, hi);
      assert |Word(lo)| == lo + 1;
    }
  }

  /** Near-duplicates, by bounds on what two token sets share and on what they hold together. */
  lemma Resembles(ta: set<string>, tb: set<string>, shared: nat, whole: nat)
    requires |ta * tb| >= shared && |ta + tb| <= whole && 100 * shared > 65 * whole && ta != {}
    ensures SharesMost(DEFAULT_THRESHOLD, ta, tb)
  {
    var i, u := |ta * tb| as real, |ta + tb| as real;
    assert ta <= ta + tb && ta + tb != {};
    assert i > 0.65 * u;
    RatioAbove(i, u);
  }

  lemma Differs(ta: set<string>, tb: set<string>, shared: nat, whole: nat)
    requires |ta * tb| <= shared && |ta + tb| >= whole && 100 * shared <= 65 * whole && ta != {}
    ensures !SharesMost(DEFAULT_THRESHOLD, ta, tb)
  {
    var i, u := |ta * tb| as real, |ta + tb| as real;
    assert ta <= ta + tb && ta + tb != {};
    assert i <= 0.65 * u;
    RatioAbove(i, u);
  }

  lemma RatioAbove(i: real, u: real)
    requires u > 0.0
    ensures i / u > 0.65 <==> i > 0.65 * u
  {
    var q := i / u;
    assert q * u == i;
    if q > 0.65 { assert (q - 0.65) * u > 0.0; }
    if q <= 0.65 { assert (0.65 - q) * u >= 0.0; }
  }

  function IndexOf(s: seq<Item>, x: Item): (i: nat)
    ensures i <= |s| && (x in s ==> i < |s| && s[i] == x)
  {
    if s == [] || s[0] == x then 0 else 1 + IndexOf(s[1..], x)
  }

  /** Invented words: overlapping for x, y and z, private for every other item. */
  function Invented(f: seq<Item>, x: Item, y: Item, z: Item, m: nat, u: Item): set<string> {
    if u == x then Block(0, 4 * m)
    else if u == y then Block(0, 5 * m)
    else if u == z then Block(m, 5 * m)
    else Block((5 + IndexOf(f, u)) * m, (6 + IndexOf(f, u)) * m)
  }

  /** Texts that add invented words to the words each item has anyhow. */
  function Retold(base: Item -> set<string>, f: seq<Item>, x: Item, y: Item, z: Item, m: nat): Item -> set<string> {
    (u: Item) => base(u) + Invented(f, x, y, z, m, u)
  }

  function SamplePattern(p: string): string {
    p
  }

  function Vocabulary(base: Item -> set<string>, f: seq<Item>): (r: set<string>)
    ensures forall u | u in f :: base(u) <= r
  {
    if f == [] then {} else base(f[0]) + Vocabulary(base, f[1..])
  }

  lemma DisjointBlocks(lo: nat, hi: nat, lo': nat, hi': nat)
    requires hi <= lo'
    ensures Block(lo, hi) * Block(lo', hi') == {}
  {
    BlockWords(lo, hi);
    BlockWords(lo', hi');
  }

  lemma Multiples(p: nat, q: nat, m: nat)
    requires p <= q
    ensures p * m <= q * m
  {
  }

  lemma BlocksPart(p: nat, q: nat, m: nat)
    requires p < q
    ensures Block(p * m, (p + 1) * m) * Block(q * m, (q + 1) * m) == {}
    ensures 5 <= q ==> forall hi: nat | hi <= 5 * m :: Block(0, hi) * Block(q * m, (q + 1) * m) == {}
  {
    hide Block;
    Multiples(p + 1, q, m);
    DisjointBlocks(p * m, (p + 1) * m, q * m, (q + 1) * m);
    if 5 <= q {
      Multiples(5, q, m);
      forall hi: nat | hi <= 5 * m ensures Block(0, hi) * Block(q * m, (q + 1) * m) == {} {
        DisjointBlocks(0, hi, q * m, (q + 1) * m);
      }
    }
  }

  /** Any two items other than two of x, y, z share no invented word. */
  lemma InventedApart(f: seq<Item>, x: Item, y: Item, z: Item, m: nat, u: Item, v: Item)
    requires u in f && v in f && u != v && !(OneOf(x, y, z)(u) && OneOf(x, y, z)(v))
    ensures Invented(f, x, y, z, m, u) * Invented(f, x, y, z, m, v) == {}
  {
    var p, q := 5 + IndexOf(f, u), 5 + IndexOf(f, v);
    BlockWithin(m, 5 * m);
    hide Block;
    if OneOf(x, y, z)(u) {
      BlocksPart(0, q, m);
    } else if OneOf(x, y, z)(v) {
      BlocksPart(0, p, m);
    } else if p < q {
      BlocksPart(p, q, m);
    } else {
      BlocksPart(q, p, m);
    }
  }

  lemma BlockWithin(lo: nat, hi: nat)
    ensures Block(lo, hi) <= Block(0, hi)
  {
    BlockWords(lo, hi);
    BlockWords(0, hi);
  }

  lemma InventedSize(f: seq<Item>, x: Item, y: Item, z: Item, m: nat, u: Item)
    ensures |Invented(f, x, y, z, m, u)| >= m
  {
    hide Block;
    BlockSize(0, 4 * m);
    BlockSize(0, 5 * m);
    BlockSize(m, 5 * m);
    var p := 5 + IndexOf(f, u);
    assert (p + 1) * m == p * m + m;
    BlockSize(p * m, (p + 1) * m);
  }

  /** Sharing only base words is not enough. */
  lemma BaseIsNotEnough(ta: set<string>, tb: set<string>, a: set<string>, b: set<string>, w: set<string>, m: nat)
    requires a <= w && b <= w && ta * tb == {} && |ta| >= m && m > 4 * |w|
    ensures !SharesMost(DEFAULT_THRESHOLD, a + ta, b + tb)
  {
    forall v | v in a + ta && v in b + tb ensures v in w {
      assert v in ta && v in tb ==> v in ta * tb;
    }
    assert (a + ta) * (b + tb) <= w;
    SubsetSize((a + ta) * (b + tb), w);
    SubsetSize(ta, (a + ta) + (b + tb));
    Differs(a + ta, b + tb, |w|, m);
  }

  lemma BridgeShares(a: set<string>, b: set<string>, d: set<string>, w: set<string>, m: nat)
    requires a <= w && b <= w && d <= w && m > 4 * |w|
    ensures SharesMost(DEFAULT_THRESHOLD, a + Block(0, 4 * m), b + Block(0, 5 * m))
    ensures SharesMost(DEFAULT_THRESHOLD, b + Block(0, 5 * m), d + Block(m, 5 * m))
    ensures !SharesMost(DEFAULT_THRESHOLD, a + Block(0, 4 * m), d + Block(m, 5 * m))
    ensures Block(0, 4 * m) != {} && Block(0, 5 * m) != {} && Block(m, 5 * m) != {}
  {
    var x, y, z := Block(0, 4 * m), Block(0, 5 * m), Block(m, 5 * m);
    BlockShapes(m);
    hide Block, SharesMost;
    TwoShare(a, x, b, y, w, y);
    Resembles(a + x, b + y, 4 * m, 5 * m + |w|);
    TwoShare(b, y, d, z, w, y);
    Resembles(b + y, d + z, 4 * m, 5 * m + |w|);
    TwoShare(a, x, d, z, w, y);
    Differs(a + x, d + z, 3 * m + |w|, 5 * m);
  }

  lemma BlockShapes(m: nat)
    requires m > 0
    ensures var x, y, z := Block(0, 4 * m), Block(0, 5 * m), Block(m, 5 * m);
            && x != {} && y != {} && z != {}
            && x + y == y == y + z == x + z
            && |x * y| == |y * z| == 4 * m && |x * z| == 3 * m && |y| == 5 * m
  {
    hide Block;
    BlockOverlap(0, 4 * m, 0, 5 * m);
    BlockOverlap(0, 5 * m, m, 5 * m);
    BlockOverlap(0, 4 * m, m, 5 * m);
    BlockSize(0, 5 * m);
    BlockSize(0, 4 * m);
    BlockSize(m, 5 * m);
    BlockSize(m, 4 * m);
  }

  lemma BlockOverlap(lo: nat, hi: nat, lo': nat, hi': nat)
    requires lo <= lo' <= hi <= hi'
    ensures Block(lo, hi) * Block(lo', hi') == Block(lo', hi)
    ensures Block(lo, hi) + Block(lo', hi') == Block(lo, hi')
  {
    hide Block;
    BlockWords(lo, hi);
    BlockWords(lo', hi');
    BlockWords(lo', hi);
    BlockWords(lo, hi');
  }

  /** What two texts share and hold together, up to the base words. */
  lemma TwoShare(a: set<string>, x: set<string>, b: set<string>, y: set<string>, w: set<string>, all: set<string>)
    requires a <= w && b <= w && x + y == all
    ensures |x * y| <= |(a + x) * (b + y)| <= |x * y| + |w|
    ensures |all| <= |(a + x) + (b + y)| <= |all| + |w|
  {
    SubsetSize(x * y, (a + x) * (b + y));
    SubsetSize((a + x) * (b + y), (x * y) + w);
    SubsetSize(all, (a + x) + (b + y));
    SubsetSize((a + x) + (b + y), all + w);
    UnionSize(x * y, w);
    UnionSize(all, w);
  }

  lemma UnionSize(a: set<string>, b: set<string>)
    ensures |a + b| <= |a| + |b|
  {
    assert a + b == a + (b - a);
    SubsetSize(b - a, b);
  }

  /** Whatever words each item has anyhow, further words at the default threshold make the group fail. */
  lemma FailingTexts(g: seq<Item>, base: Item -> set<string>) returns (c: Settings)
    requires !OnlyLastImproves(Firsts(g))
    ensures c.threshold == 0.65 && !KeptApart(c, g)
    ensures forall u :: base(u) <= c.tokens(u)
  {
    hide Better, KeptApart, Firsts;
    var f := Firsts(g);
    FirstsDiffer(g);
    FirstsMembers(g);
    var i, j :| 0 <= i < j < |f| && Better(f[j], f[i]) && i + 2 != |f|;
    var k := if j == i + 1 then i + 2 else i + 1;
    var x, y, z := f[i], f[j], f[k];
    var w := Vocabulary(base, f);
    var m := 4 * |w| + 1;
    c := Settings(DEFAULT_THRESHOLD, Retold(base, f, x, y, z, m), SamplePattern);
    RetoldBridges(base, f, x, y, z, m);
    RetoldClosed(base, f, x, y, z, m);
    ClosedOverCopies(c, g, OneOf(x, y, z));
    FirstOfThree(g, i, j, k);
    assert |g| >= |f| > 1;
    BridgeFails(c, g, x, y, z);
  }

  lemma RetoldBridges(base: Item -> set<string>, f: seq<Item>, x: Item, y: Item, z: Item, m: nat)
    requires x in f && y in f && z in f && x != y && y != z && x != z
    requires Better(y, x) && m > 4 * |Vocabulary(base, f)|
    ensures Bridges(Settings(DEFAULT_THRESHOLD, Retold(base, f, x, y, z, m), SamplePattern), x, y, z)
  {
    hide Better, Block, SharesMost;
    BridgeShares(base(x), base(y), base(z), Vocabulary(base, f), m);
  }

  lemma RetoldClosed(base: Item -> set<string>, f: seq<Item>, x: Item, y: Item, z: Item, m: nat)
    requires m > 4 * |Vocabulary(base, f)|
    ensures Closed(Settings(DEFAULT_THRESHOLD, Retold(base, f, x, y, z, m), SamplePattern), f, OneOf(x, y, z))
  {
    hide SharesMost, Invented, Vocabulary;
    var p, w := OneOf(x, y, z), Vocabulary(base, f);
    forall u, v | u in f && v in f && p(u) != p(v)
      ensures !Similar(Settings(DEFAULT_THRESHOLD, Retold(base, f, x, y, z, m), SamplePattern), u, v)
    {
      InventedApart(f, x, y, z, m, u, v);
      InventedSize(f, x, y, z, m, u);
      BaseIsNotEnough(Invented(f, x, y, z, m, u), Invented(f, x, y, z, m, v), base(u), base(v), w, m);
    }
  }

  lemma ClosedOverCopies(c: Settings, g: seq<Item>, p: Item -> bool)
    requires Closed(c, Firsts(g), p)
    ensures Closed(c, g, p)
  {
    hide Similar, Firsts;
    FirstsMembers(g);
  }

  /** Among the copies of three items, the first is a copy of the one that appears first. */
  lemma FirstOfThree(g: seq<Item>, i: nat, j: nat, k: nat)
    requires var f := Firsts(g); i < j < |f| && i < k < |f|
    ensures var f := Firsts(g);
            var s := Where(g, OneOf(f[i], f[j], f[k]));
            s != [] && s[0] == f[i]
  {
    hide Firsts;
    var f := Firsts(g);
    var p := OneOf(f[i], f[j], f[k]);
    var s := Where(g, p);
    FirstsWhere(g, p);
    FirstsDiffer(g);
    WhereFrom(f, p, i);
    HeadOfFirsts(s);
  }

  lemma HeadOfFirsts(s: seq<Item>)
    ensures s != [] <==> Firsts(s) != []
    ensures s != [] ==> s[0] == Firsts(s)[0]
  {
  }

  lemma {:induction false} WhereFrom(s: seq<Item>, p: Item -> bool, i: nat)
    requires i < |s| && p(s[i]) && forall l :: 0 <= l < i ==> !p(s[l])
    ensures Where(s, p) != [] && Where(s, p)[0] == s[i]
  {
    if i > 0 {
      WhereFrom(s[1..], p, i - 1);
    }
  }

  // ------------------------------------------------------------------ exactly when

  /**
   A group comes out without near-duplicates, whatever the texts and the threshold, exactly when
   among its different items, in order of first appearance, none beats an earlier one, except that
   the last may beat the one just before it.
   */
  lemma KeptApartIff(g: seq<Item>)
    ensures (forall c: Settings :: KeptApart(c, g)) <==> OnlyLastImproves(Firsts(g))
  {
    hide OnlyLastImproves, Firsts, Bests, Clusters;
    if OnlyLastImproves(Firsts(g)) {
      OnlyLastIsTame(Firsts(g));
      forall c: Settings ensures KeptApart(c, g) {
        FirstsWhere(g, Loud(c));
        TameWhere(Firsts(g), Loud(c));
        TameKeepsApart(c, g);
      }
    } else {
      var c := FailingTexts(g, NoWords());
    }
  }

  function NoWords(): Item -> set<string> {
    (u: Item) => {}
  }

  // ------------------------------------------------------------------ a group that fails

  function Emit(word: string): set<string> {
    if word == "" then {} else {word}
  }

  /** The words of a text, which has only lower-case letters and spaces; `word` is the one begun. */
  function Words(text: string, word: string): set<string> {
    if text == "" then Emit(word)
    else if text[0] == ' ' then Emit(word) + Words(text[1..], "")
    else Words(text[1..], word + [text[0]])
  }

  function Sample(gene: string, observations: int): Item {
    Item(Some(gene), gene, "skill", "mining", true, true, [], [], observations, 0, 0, [])
  }

  /** With neither instruction nor correction the text is the gene. */
  function SampleTokens(x: Item): set<string> {
    Words(x.gene, "")
  }

  lemma LetterWords(letters: string)
    requires |letters| == 4 && forall i :: 0 <= i < 4 ==> letters[i] != ' '
    ensures Words([letters[0], ' ', letters[1], ' ', letters[2], ' ', letters[3]], "")
         == {[letters[0]], [letters[1]], [letters[2]], [letters[3]]}
  {
    hide Words;
    var d := letters[3..];
    var c := [letters[2], ' '] + d;
    var b := [letters[1], ' '] + c;
    var a := [letters[0], ' '] + b;
    LastWord(letters[3]);
    FirstWord(letters[2], d);
    FirstWord(letters[1], c);
    FirstWord(letters[0], b);
    assert a == [letters[0], ' ', letters[1], ' ', letters[2], ' ', letters[3]];
    assert d == [letters[3]];
  }

  lemma LastWord(x: char)
    requires x != ' '
    ensures Words([x], "") == {[x]}
  {
    assert [x][1..] == "" && "" + [x] == [x];
    assert Words("", [x]) == {[x]};
  }

  lemma FirstWord(x: char, text: string)
    requires x != ' '
    ensures Words([x, ' '] + text, "") == {[x]} + Words(text, "")
  {
    var s := [x, ' '] + text;
    assert s[1..] == [' '] + text && s[1..][1..] == text && "" + [x] == [x];
    assert Words(s, "") == Words(s[1..], [x]);
  }

  lemma SampleWords()
    ensures Words("a b c d", "") == {"a", "b", "c", "d"}
    ensures Words("b c d e", "") == {"b", "c", "d", "e"}
    ensures Words("a b c d e", "") == {"a", "b", "c", "d", "e"}
  {
    LetterWords("abcd");
    LetterWords("bcde");
    FirstWord('a', "b c d e");
    assert "a b c d e" == ['a', ' '] + "b c d e";
    assert "a b c d" == ['a', ' ', 'b', ' ', 'c', ' ', 'd'] && "b c d e" == ['b', ' ', 'c', ' ', 'd', ' ', 'e'];
    assert {"a"} + {"b", "c", "d", "e"} == {"a", "b", "c", "d", "e"};
  }

  lemma Overlaps()
    ensures SharesMost(DEFAULT_THRESHOLD, {"a", "b", "c", "d"}, {"a", "b", "c", "d", "e"})
    ensures SharesMost(DEFAULT_THRESHOLD, {"a", "b", "c", "d", "e"}, {"b", "c", "d", "e"})
    ensures !SharesMost(DEFAULT_THRESHOLD, {"a", "b", "c", "d"}, {"b", "c", "d", "e"})
  {
    var p, q, r := {"a", "b", "c", "d"}, {"a", "b", "c", "d", "e"}, {"b", "c", "d", "e"};
    assert p * q == p && p + q == q;
    assert q * r == r && q + r == q;
    assert p * r == {"b", "c", "d"} && p + r == q;
  }

  const SAMPLE := [Sample("a b c d", 0), Sample("a b c d e", 5), Sample("b c d e", 0)]

  const SAMPLE_SETTINGS := Settings(DEFAULT_THRESHOLD, SampleTokens, SamplePattern)

  /** Of three items with the words of their genes as text, two near-duplicates are kept. */
  lemma KeptItemsCanResemble()
    ensures KeptOfGroup(SAMPLE_SETTINGS, SAMPLE) == [SAMPLE[1], SAMPLE[2]]
    ensures Similar(SAMPLE_SETTINGS, SAMPLE[1], SAMPLE[2])
  {
    hide Words, SharesMost, Bests, Clusters;
    SampleWords();
    Overlaps();
    BridgeIsKept(SAMPLE_SETTINGS, SAMPLE, SAMPLE[0], SAMPLE[1], SAMPLE[2]);
  }
}
