/** The posterior store: weighted Beta evidence per (knowledge, context, statistic). */
module TrustStore {
  import opened Wrappers
  import opened Strings
  import opened Expectation
  import opened CapDraws
  import opened Decay

  // ------------------------------------------------------------------ keys

  function MakeKey(kid: string, context: string, stat: string): string {
    kid + "|" + context + "|" + stat
  }

  /** `k.split("|")[0]` */
  function FirstPart(k: string): string {
    if k == [] || k[0] == '|' then [] else [k[0]] + FirstPart(k[1..])
  }

  /** `k.rsplit("|", 1)[-1]` */
  function LastPart(k: string): string {
    if k == [] || k[|k| - 1] == '|' then [] else LastPart(k[..|k| - 1]) + [k[|k| - 1]]
  }

  lemma {:induction false} FirstPartOf(a: string, rest: string)
    ensures FirstPart(a + "|" + rest) == FirstPart(a)
    ensures FirstPart(a) == a <==> Plain(a)
  {
    var k := a + "|" + rest;
    if a == [] {
      assert k[0] == '|';
    } else {
      FirstPartOf(a[1..], rest);
      assert k[1..] == a[1..] + "|" + rest && k[0] == a[0];
      assert a == [a[0]] + a[1..];
      FirstPartShort(a);
    }
  }

  lemma {:induction false} FirstPartShort(k: string)
    ensures |FirstPart(k)| <= |k|
  {
    if k != [] { FirstPartShort(k[1..]); }
  }

  lemma {:induction false} LastPartOf(rest: string, a: string)
    requires Plain(a)
    ensures LastPart(rest + "|" + a) == a
  {
    var k := rest + "|" + a;
    if a == [] {
      assert k[|k| - 1] == '|';
    } else {
      var n := |a| - 1;
      LastPartOf(rest, a[..n]);
      assert k[..|k| - 1] == rest + "|" + a[..n] && k[|k| - 1] == a[n];
      assert a[n] in a;
      assert a == a[..n] + [a[n]];
    }
  }

  /**
   What decay reads back from a key: always the statistic, and the knowledge id exactly when
   that id contains no separator.
   */
  lemma KeyParsesBack(kid: string, context: string, stat: string)
    requires Plain(stat)
    ensures LastPart(MakeKey(kid, context, stat)) == stat
    ensures FirstPart(MakeKey(kid, context, stat)) == kid <==> Plain(kid)
  {
    var tail := context + "|" + stat;
    assert MakeKey(kid, context, stat) == kid + "|" + tail;
    assert MakeKey(kid, context, stat) == (kid + "|" + context) + "|" + stat;
    FirstPartOf(kid, tail);
    LastPartOf(kid + "|" + context, stat);
  }

  /** What identifies the three entries of an item in a context. */
  function Entry(kid: string, context: string): string {
    kid + "|" + context
  }

  /** Two keys are one exactly when statistic and entry agree. */
  lemma SameKeyIff(kid: string, context: string, stat: string, kid': string, context': string, stat': string)
    requires Plain(stat) && Plain(stat')
    ensures MakeKey(kid, context, stat) == MakeKey(kid', context', stat')
            <==> Entry(kid, context) == Entry(kid', context') && stat == stat'
  {
    var a, b := Entry(kid, context), Entry(kid', context');
    assert MakeKey(kid, context, stat) == a + "|" + stat && MakeKey(kid', context', stat') == b + "|" + stat';
    if a + "|" + stat == b + "|" + stat' {
      LastPartOf(a, stat);
      LastPartOf(b, stat');
      assert |a| == |b|;
      assert (a + "|" + stat)[..|a|] == a && (b + "|" + stat')[..|b|] == b;
    }
  }

  /** One id is the other, or the other begins with it and a separator. */
  predicate Overlap(kid: string, kid': string) {
    kid == kid' || kid + "|" <= kid' || kid' + "|" <= kid
  }

  /** Two ids can meet in one entry, in some contexts, exactly when they overlap. */
  lemma IdsCanCollideIff(kid: string, stat: string, kid': string, stat': string)
    requires Plain(stat) && Plain(stat')
    ensures (exists context, context' :: MakeKey(kid, context, stat) == MakeKey(kid', context', stat'))
            <==> stat == stat' && Overlap(kid, kid')
  {
    hide MakeKey;
    if context, context' :| MakeKey(kid, context, stat) == MakeKey(kid', context', stat') {
      SameKeyIff(kid, context, stat, kid', context', stat');
      EntriesOverlap(kid, context, kid', context');
    }
    if stat == stat' && Overlap(kid, kid') {
      var context, context' := MeetingContexts(kid, kid');
      SameKeyIff(kid, context, stat, kid', context', stat');
    }
  }

  lemma EntriesOverlap(kid: string, context: string, kid': string, context': string)
    requires Entry(kid, context) == Entry(kid', context')
    ensures Overlap(kid, kid')
  {
    var k := Entry(kid, context);
    assert k[..|kid|] == kid && k[|kid|] == '|' && k[..|kid'|] == kid' && k[|kid'|] == '|';
    if |kid| < |kid'| {
      assert kid + "|" == k[..|kid| + 1] == kid'[..|kid| + 1];
    } else if |kid'| < |kid| {
      assert kid' + "|" == k[..|kid'| + 1] == kid[..|kid'| + 1];
    }
  }

  lemma MeetingContexts(kid: string, kid': string) returns (context: string, context': string)
    requires Overlap(kid, kid')
    ensures Entry(kid, context) == Entry(kid', context')
  {
    if kid == kid' {
      context, context' := "", "";
    } else if kid + "|" <= kid' {
      context, context' := kid'[|kid| + 1..] + "|", "";
      assert kid' == (kid + "|") + kid'[|kid| + 1..];
    } else {
      context, context' := "", kid[|kid'| + 1..] + "|";
      assert kid == (kid' + "|") + kid[|kid'| + 1..];
    }
  }

  /** Ids without a separator never share an entry, whatever the contexts look like. */
  lemma KeysInjective(kid: string, context: string, stat: string, kid': string, context': string, stat': string)
    requires Plain(kid) && Plain(kid') && Plain(stat) && Plain(stat')
    requires MakeKey(kid, context, stat) == MakeKey(kid', context', stat')
    ensures kid == kid' && context == context' && stat == stat'
  {
    hide MakeKey;
    SameKeyIff(kid, context, stat, kid', context', stat');
    EntriesOverlap(kid, context, kid', context');
    PlainIdsApart(kid, kid');
    assert Entry(kid, context)[|kid| + 1..] == context && Entry(kid', context')[|kid'| + 1..] == context';
  }

  lemma PrefixHasSeparator(a: string, b: string)
    ensures a + "|" <= b ==> !Plain(b)
  {
    assert (a + "|")[|a|] == '|';
  }

  lemma PlainIdsApart(kid: string, kid': string)
    requires Plain(kid) && Plain(kid') && Overlap(kid, kid')
    ensures kid == kid'
  {
    PrefixHasSeparator(kid, kid');
    PrefixHasSeparator(kid', kid);
  }

  /** With a separator in an id two different items can share one entry. */
  lemma SeparatorsCollide()
    ensures MakeKey("a|b", "c", "use") == MakeKey("a", "b|c", "use")
  {
    assert "a|b" + "|" + "c" == "a" + "|" + "b|c";
  }

  // ------------------------------------------------------------------ recording

  /** The effective prior of a statistic of an item, fixed while no contract or estimate changes. */
  type Prior = (string, string) -> Beta

  type Data = map<string, Beta>

  function Stored(prior: Prior, m: Data, kid: string, context: string, stat: string): Beta {
    var k := MakeKey(kid, context, stat);
    if k in m then m[k] else prior(stat, kid)
  }

  function Touched(prior: Prior, m: Data, kid: string, context: string, stat: string): Data {
    m[MakeKey(kid, context, stat) := Stored(prior, m, kid, context, stat)]
  }

  function Grown(d: Beta, outcome: real, weight: real): Beta {
    Beta(d.alpha + Times(weight, outcome), d.beta + Times(weight, 1.0 - outcome))
  }

  function Recorded(prior: Prior, m: Data, kid: string, context: string, stat: string, outcome: real,
        weight: real): Data {
    m[MakeKey(kid, context, stat) := Grown(Stored(prior, m, kid, context, stat), outcome, weight)]
  }

  datatype Episode = Episode(
    kid: string, context: string, used: bool, success: real, harmful: real, propensity: Option<real>)

  /** Inverse propensity of the arm taken, after clipping; a missing propensity means certainty. */
  function EpisodeWeight(used: bool, propensity: Option<real>): (w: real)
    ensures 1.0 / 0.95 <= w <= 20.0
  {
    var raw := match propensity case Some(p) => p case None => if used then 1.0 else 0.0;
    var low := if raw >= 0.05 then raw else 0.05;
    var p := if low <= 0.95 then low else 0.95;
    var q := if used then p else 1.0 - p;
    DivideAntitone(1.0, 0.05, q);
    DivideAntitone(1.0, q, 0.95);
    var w := 1.0 / q;
    if w <= 20.0 then w else 20.0
  }

  /** Inside the clipping window each arm is weighted by exactly the inverse of its probability. */
  lemma WeightInverts(p: real)
    requires 0.05 <= p <= 0.95
    ensures Times(p, EpisodeWeight(true, Some(p))) == 1.0
    ensures Times(1.0 - p, EpisodeWeight(false, Some(p))) == 1.0
  {
    DivideAntitone(1.0, 0.05, p);
    DivideAntitone(1.0, 0.05, 1.0 - p);
    assert p * (1.0 / p) == 1.0 && (1.0 - p) * (1.0 / (1.0 - p)) == 1.0;
  }

  /** Outside it the weights stop at 20 and 1/0.95; without a propensity the arm taken was certain. */
  lemma WeightStops(p: real)
    ensures p <= 0.05 ==> EpisodeWeight(true, Some(p)) == 20.0 && EpisodeWeight(false, Some(p)) == 1.0 / 0.95
    ensures p >= 0.95 ==> EpisodeWeight(true, Some(p)) == 1.0 / 0.95 && EpisodeWeight(false, Some(p)) == 20.0
    ensures EpisodeWeight(true, None) == EpisodeWeight(false, None) == 1.0 / 0.95
  {
  }

  function AfterEpisode(prior: Prior, m: Data, e: Episode): Data {
    var w := EpisodeWeight(e.used, e.propensity);
    var n := if e.used
             then Recorded(prior, Recorded(prior, m, e.kid, e.context, "use", e.success, w),
                           e.kid, e.context, "harm", e.harmful, w)
             else Recorded(prior, m, e.kid, e.context, "base", e.success, w);
    Touched(prior, Touched(prior, Touched(prior, n, e.kid, e.context, "use"), e.kid, e.context, "base"),
            e.kid, e.context, "harm")
  }

  /** The prior decay pulls an entry toward, from its key alone. */
  function DecayPrior(prior: Prior, defaults: string -> Beta, k: string): Beta {
    var kid := if '|' in k then FirstPart(k) else "";
    if "pair:" <= kid then defaults(LastPart(k)) else prior(LastPart(k), kid)
  }

  function AfterDecay(prior: Prior, defaults: string -> Beta, rho: real, m: Data): (r: Data)
    ensures r.Keys == m.Keys
  {
    map k | k in m :: DecayParams(rho, m[k], DecayPrior(prior, defaults, k), 1)
  }

  class TrustStore {
    const prior: Prior
    const defaults: string -> Beta
    var data: Data
    var observations: seq<Episode>

    constructor (prior: Prior, defaults: string -> Beta)
      ensures data == map[] && observations == []
      ensures this.prior == prior && this.defaults == defaults
    {
      this.prior, this.defaults := prior, defaults;
      data, observations := map[], [];
    }

    /** Reading an entry creates it at its prior. */
    method GetStats(kid: string, context: string, stat: string) returns (d: Beta)
      modifies this`data
      ensures d == Stored(prior, old(data), kid, context, stat)
      ensures data == Touched(prior, old(data), kid, context, stat)
    {
      var k := MakeKey(kid, context, stat);
      if k !in data {
        data := data[k := prior(stat, kid)];
      }
      d := data[k];
      assert data == old(data)[k := d];
    }

    method Record(kid: string, context: string, stat: string, outcome: real, weight: real)
      modifies this`data
      ensures data == Recorded(prior, old(data), kid, context, stat, outcome, weight)
    {
      hide Times;
      var d := GetStats(kid, context, stat);
      data := data[MakeKey(kid, context, stat) :=
                     Beta(d.alpha + Times(weight, outcome), d.beta + Times(weight, 1.0 - outcome))];
    }

    /** The queries of the automatic lifecycle read all three entries after the update. */
    method RecordEpisode(e: Episode)
      modifies this
      ensures data == AfterEpisode(prior, old(data), e)
      ensures observations == old(observations) + [e]
    {
      hide MakeKey, EpisodeWeight, Recorded, Touched;
      var w := EpisodeWeight(e.used, e.propensity);
      if e.used {
        Record(e.kid, e.context, "use", e.success, w);
        Record(e.kid, e.context, "harm", e.harmful, w);
      } else {
        Record(e.kid, e.context, "base", e.success, w);
      }
      observations := observations + [e];
      var use := GetStats(e.kid, e.context, "use");
      var base := GetStats(e.kid, e.context, "base");
      var harm := GetStats(e.kid, e.context, "harm");
    }

    method TotalCount(kid: string, context: string, stat: string) returns (n: real)
      modifies this`data
      ensures n == Total(prior, old(data), kid, context, stat)
      ensures data == Touched(prior, old(data), kid, context, stat)
    {
      var d := GetStats(kid, context, stat);
      var p := prior(stat, kid);
      n := Max(0.0, d.alpha + d.beta - p.alpha - p.beta);
    }

    method DecayAll(rho: real)
      modifies this`data
      ensures data == AfterDecay(prior, defaults, rho, old(data))
    {
      hide DecayParams, DecayPrior;
      var left := data.Keys;
      while left != {}
        invariant data.Keys == old(data).Keys && left <= data.Keys
        invariant forall k | k in data ::
          data[k] == if k in left then old(data)[k]
                     else DecayParams(rho, old(data)[k], DecayPrior(prior, defaults, k), 1)
        decreases left
      {
        var k :| k in left;
        data := data[k := DecayParams(rho, data[k], DecayPrior(prior, defaults, k), 1)];
        left := left - {k};
      }
    }
  }

  /** Evidence an entry holds beyond its prior. */
  function Total(prior: Prior, m: Data, kid: string, context: string, stat: string): real {
    var d, p := Stored(prior, m, kid, context, stat), prior(stat, kid);
    Max(0.0, d.alpha + d.beta - p.alpha - p.beta)
  }

  // ------------------------------------------------------------------ evidence accounting

  function Run(prior: Prior, es: seq<Episode>): Data {
    if es == [] then map[] else AfterEpisode(prior, Run(prior, es[..|es| - 1]), es[|es| - 1])
  }

  predicate Shares(e: Episode, entry: string) {
    Entry(e.kid, e.context) == entry
  }

  predicate Own(e: Episode, kid: string, context: string) {
    e.kid == kid && e.context == context
  }

  /** Whether an episode adds to a statistic: uses to use and harm, fallbacks to base. */
  predicate Reports(e: Episode, stat: string) {
    if e.used then stat == "use" || stat == "harm" else stat == "base"
  }

  function OutcomeOf(e: Episode, stat: string): real {
    if stat == "harm" then e.harmful else e.success
  }

  /** The episodes of one item in one context, and those that share its entry. */
  function OwnEpisodes(es: seq<Episode>, kid: string, context: string): seq<Episode> {
    if es == [] then [] else
      var own := OwnEpisodes(es[..|es| - 1], kid, context);
      if Own(es[|es| - 1], kid, context) then own + [es[|es| - 1]] else own
  }

  function Sharing(es: seq<Episode>, entry: string): seq<Episode> {
    if es == [] then [] else
      var sharing := Sharing(es[..|es| - 1], entry);
      if Shares(es[|es| - 1], entry) then sharing + [es[|es| - 1]] else sharing
  }

  function WeightSum(es: seq<Episode>, stat: string): real {
    if es == [] then 0.0 else
      var e := es[|es| - 1];
      WeightSum(es[..|es| - 1], stat) + if Reports(e, stat) then EpisodeWeight(e.used, e.propensity) else 0.0
  }

  function PositiveSum(es: seq<Episode>, stat: string): real {
    if es == [] then 0.0 else
      var e := es[|es| - 1];
      PositiveSum(es[..|es| - 1], stat)
      + if Reports(e, stat) then Times(EpisodeWeight(e.used, e.propensity), OutcomeOf(e, stat)) else 0.0
  }

  predicate Known(stat: string) {
    stat == "use" || stat == "base" || stat == "harm"
  }

  lemma SplitWeight(w: real, outcome: real)
    ensures Times(w, outcome) + Times(w, 1.0 - outcome) == w
  {
    assert w * (1.0 - outcome) == w - w * outcome;
  }

  function StoredIn(m: Data, key: string, otherwise: Beta): Beta {
    if key in m then m[key] else otherwise
  }

  /** An episode changes exactly the entries it shares, and of these the statistics it reports. */
  lemma EpisodeEffect(prior: Prior, m: Data, e: Episode, kid: string, context: string, stat: string)
    requires Known(stat)
    ensures var k, n := MakeKey(kid, context, stat), AfterEpisode(prior, m, e);
            if Shares(e, Entry(kid, context)) then
              && k in n
              && n[k] == var was := StoredIn(m, k, prior(stat, e.kid));
                         if Reports(e, stat) then Grown(was, OutcomeOf(e, stat), EpisodeWeight(e.used, e.propensity))
                         else was
            else
              (k in n <==> k in m) && (k in m ==> n[k] == m[k])
  {
    hide MakeKey, Entry, Grown, EpisodeWeight;
    SameKeyIff(kid, context, stat, e.kid, e.context, "use");
    SameKeyIff(kid, context, stat, e.kid, e.context, "base");
    SameKeyIff(kid, context, stat, e.kid, e.context, "harm");
    SameKeyIff(e.kid, e.context, "use", e.kid, e.context, "base");
    SameKeyIff(e.kid, e.context, "use", e.kid, e.context, "harm");
    SameKeyIff(e.kid, e.context, "base", e.kid, e.context, "harm");
  }

  /**
   Without decay, for any ids: an entry exists once an episode shares it. It is the prior of the
   first such episode's item plus the weighted evidence of all of them, successes in alpha.
   */
  lemma {:induction false} EntryAccounting(prior: Prior, es: seq<Episode>, kid: string, context: string, stat: string)
    requires Known(stat)
    ensures var m, k, sharing := Run(prior, es), MakeKey(kid, context, stat), Sharing(es, Entry(kid, context));
            if sharing == [] then k !in m else
              var p := prior(stat, sharing[0].kid);
              && k in m
              && m[k].alpha == p.alpha + PositiveSum(sharing, stat)
              && m[k].alpha + m[k].beta == p.alpha + p.beta + WeightSum(sharing, stat)
  {
    hide Times, AfterEpisode, EpisodeWeight, MakeKey, Reports, Entry;
    if es != [] {
      var before, e := es[..|es| - 1], es[|es| - 1];
      EntryAccounting(prior, before, kid, context, stat);
      EpisodeEffect(prior, Run(prior, before), e, kid, context, stat);
      SplitWeight(EpisodeWeight(e.used, e.propensity), OutcomeOf(e, stat));
      var sharing := Sharing(before, Entry(kid, context));
      assert (sharing + [e])[..|sharing|] == sharing;
      if sharing == [] {
        NoEvidence(stat);
      }
    }
  }

  lemma NoEvidence(stat: string)
    ensures WeightSum([], stat) == PositiveSum([], stat) == 0.0
  {
  }

  lemma {:induction false} WeightSumNotNegative(es: seq<Episode>, stat: string)
    ensures WeightSum(es, stat) >= 0.0
  {
    hide EpisodeWeight;
    if es != [] {
      WeightSumNotNegative(es[..|es| - 1], stat);
    }
  }

  /** No other item or context recorded shares the entry. */
  predicate Unshared(es: seq<Episode>, kid: string, context: string) {
    forall i :: 0 <= i < |es| && Shares(es[i], Entry(kid, context)) ==> Own(es[i], kid, context)
  }

  lemma {:induction false} UnsharedIsOwn(es: seq<Episode>, kid: string, context: string)
    requires Unshared(es, kid, context)
    ensures Sharing(es, Entry(kid, context)) == OwnEpisodes(es, kid, context)
    ensures forall x | x in OwnEpisodes(es, kid, context) :: x.kid == kid
  {
    hide Entry;
    if es != [] {
      var before, e := es[..|es| - 1], es[|es| - 1];
      assert forall i :: 0 <= i < |before| ==> before[i] == es[i];
      UnsharedIsOwn(before, kid, context);
      assert es[|es| - 1] == e;
    }
  }

  /**
   An entry nothing else shares is its item's prior plus the weighted evidence recorded under
   exactly that item, context and statistic, and its effective count is the sum of the weights.
   */
  lemma EvidenceAccounting(prior: Prior, es: seq<Episode>, kid: string, context: string, stat: string)
    requires Known(stat) && Unshared(es, kid, context)
    ensures var d, p := Stored(prior, Run(prior, es), kid, context, stat), prior(stat, kid);
            var own := OwnEpisodes(es, kid, context);
            && d.alpha == p.alpha + PositiveSum(own, stat)
            && d.alpha + d.beta == p.alpha + p.beta + WeightSum(own, stat)
            && Total(prior, Run(prior, es), kid, context, stat) == WeightSum(own, stat)
  {
    hide MakeKey, Entry, Run, WeightSum, PositiveSum, OwnEpisodes, Sharing, Unshared;
    EntryAccounting(prior, es, kid, context, stat);
    UnsharedIsOwn(es, kid, context);
    NoEvidence(stat);
    var own := OwnEpisodes(es, kid, context);
    WeightSumNotNegative(own, stat);
    if own != [] { assert own[0] in own; }
  }

  /** Some other item or context reports the statistic into the entry. */
  predicate Foreign(es: seq<Episode>, kid: string, context: string, stat: string) {
    exists i :: 0 <= i < |es| && Shares(es[i], Entry(kid, context)) && !Own(es[i], kid, context) && Reports(es[i], stat)
  }

  lemma {:induction false} ForeignWeighs(es: seq<Episode>, kid: string, context: string, stat: string)
    ensures var own, sharing := OwnEpisodes(es, kid, context), Sharing(es, Entry(kid, context));
            && WeightSum(own, stat) <= WeightSum(sharing, stat)
            && (WeightSum(own, stat) < WeightSum(sharing, stat) <==> Foreign(es, kid, context, stat))
  {
    hide EpisodeWeight, Reports;
    if es != [] {
      var before, e := es[..|es| - 1], es[|es| - 1];
      ForeignWeighs(before, kid, context, stat);
      var own, sharing := OwnEpisodes(before, kid, context), Sharing(before, Entry(kid, context));
      assert (own + [e])[..|own|] == own && (sharing + [e])[..|sharing|] == sharing;
      ForeignPrefix(es, kid, context, stat);
    }
  }

  lemma ForeignPrefix(es: seq<Episode>, kid: string, context: string, stat: string)
    requires es != []
    ensures var before, e := es[..|es| - 1], es[|es| - 1];
            Foreign(es, kid, context, stat)
            <==> Foreign(before, kid, context, stat)
                 || (Shares(e, Entry(kid, context)) && !Own(e, kid, context) && Reports(e, stat))
  {
    hide Entry, Reports;
    var before := es[..|es| - 1];
    if Foreign(before, kid, context, stat) {
      var i :| 0 <= i < |before| && Shares(before[i], Entry(kid, context)) && !Own(before[i], kid, context)
               && Reports(before[i], stat);
      assert es[i] == before[i];
    }
    if Foreign(es, kid, context, stat) {
      var i :| 0 <= i < |es| && Shares(es[i], Entry(kid, context)) && !Own(es[i], kid, context) && Reports(es[i], stat);
      assert i < |before| ==> before[i] == es[i];
    }
  }

  function Strength(d: Beta): real { d.alpha + d.beta }

  /** By how much an entry outweighs what its item's own episodes and prior put into it. */
  function Excess(prior: Prior, es: seq<Episode>, kid: string, context: string, stat: string): real {
    var own, sharing := OwnEpisodes(es, kid, context), Sharing(es, Entry(kid, context));
    if sharing == [] then 0.0 else
      WeightSum(sharing, stat) - WeightSum(own, stat)
      + Strength(prior(stat, sharing[0].kid)) - Strength(prior(stat, kid))
  }

  /**
   For any priors and ids: the effective count of an item is the sum of its own weights exactly
   when foreign evidence and a foreign prior cancel out, or fall short where it has no evidence.
   */
  lemma TotalIsOwnIff(prior: Prior, es: seq<Episode>, kid: string, context: string, stat: string)
    requires Known(stat)
    ensures var own, excess := WeightSum(OwnEpisodes(es, kid, context), stat), Excess(prior, es, kid, context, stat);
            Total(prior, Run(prior, es), kid, context, stat) == own
            <==> excess == 0.0 || (own == 0.0 && excess < 0.0)
  {
    hide MakeKey, Entry, Run, WeightSum, PositiveSum, OwnEpisodes, Sharing;
    EntryAccounting(prior, es, kid, context, stat);
    ForeignWeighs(es, kid, context, stat);
    NoEvidence(stat);
    WeightSumNotNegative(OwnEpisodes(es, kid, context), stat);
  }

  /** The items that share the entry start from priors as strong as the item's own. */
  ghost predicate EqualPriors(prior: Prior, es: seq<Episode>, kid: string, context: string, stat: string) {
    forall e | e in es && Shares(e, Entry(kid, context)) :: Strength(prior(stat, e.kid)) == Strength(prior(stat, kid))
  }

  /** With equally strong priors: exactly when nothing else reports into the item's entry. */
  lemma TotalIsOwnUnlessForeign(prior: Prior, es: seq<Episode>, kid: string, context: string, stat: string)
    requires Known(stat) && EqualPriors(prior, es, kid, context, stat)
    ensures Total(prior, Run(prior, es), kid, context, stat) == WeightSum(OwnEpisodes(es, kid, context), stat)
            <==> !Foreign(es, kid, context, stat)
  {
    SharingMembers(es, Entry(kid, context));
    hide MakeKey, Entry, Run, WeightSum, PositiveSum, OwnEpisodes, Sharing, Foreign, Total, Strength;
    TotalIsOwnIff(prior, es, kid, context, stat);
    ForeignWeighs(es, kid, context, stat);
    NoEvidence(stat);
    WeightSumNotNegative(OwnEpisodes(es, kid, context), stat);
    var sharing := Sharing(es, Entry(kid, context));
    if sharing != [] {
      assert sharing[0] in sharing;
    }
  }

  lemma {:induction false} SharingMembers(es: seq<Episode>, entry: string)
    ensures forall e | e in Sharing(es, entry) :: e in es && Shares(e, entry)
  {
    if es != [] { SharingMembers(es[..|es| - 1], entry); }
  }

  /**
   The prior an entry is pulled toward is its item's own, whatever the priors, exactly when the id
   contains no separator and does not begin like the key of a pair.
   */
  lemma OwnPriorIff(kid: string, context: string, stat: string)
    requires Plain(stat)
    ensures (forall prior: Prior, defaults: string -> Beta ::
               DecayPrior(prior, defaults, MakeKey(kid, context, stat)) == prior(stat, kid))
            <==> Plain(kid) && !("pair:" <= kid)
  {
    hide FirstPart, LastPart;
    var k := MakeKey(kid, context, stat);
    KeyParsesBack(kid, context, stat);
    assert k[|kid|] == '|';
    if !Plain(kid) || "pair:" <= kid {
      var defaults, prior := (s: string) => Beta(1.0, 1.0), OnlyFor(kid);
      assert DecayPrior(prior, defaults, k) != prior(stat, kid);
    }
  }

  /** A prior that sets one item apart from all others. */
  function OnlyFor(kid: string): Prior {
    (stat: string, id: string) => if id == kid then Beta(2.0, 1.0) else Beta(1.0, 1.0)
  }

  /** Decay pulls an ordinary entry toward the prior it was created from. */
  lemma DecaysTowardOwnPrior(prior: Prior, defaults: string -> Beta, rho: real, m: Data, kid: string,
        context: string, stat: string)
    requires Plain(kid) && Plain(stat) && !("pair:" <= kid) && MakeKey(kid, context, stat) in m
    ensures var k := MakeKey(kid, context, stat);
            AfterDecay(prior, defaults, rho, m)[k] == DecayParams(rho, m[k], prior(stat, kid), 1)
  {
    hide DecayParams, FirstPart, LastPart;
    KeyParsesBack(kid, context, stat);
    assert MakeKey(kid, context, stat)[|kid|] == '|';
  }
}
