/** The keys under which evidence is aggregated are the keys under which a decision looks it up. */
module Lookup {
  import opened Wrappers
  import opened Strings
  import opened Admission
  import opened CrossFit
  import opened Evidence

  function ContextOf(o: Opportunity): Context {
    Context(o.source, o.kind, o.taskGroup, o.failureType, o.riskTier,
            o.resourceScarcity, o.episodePhase, o.priorAdmissionBin)
  }

  /** The two spellings of the four key formats agree. */
  lemma KeysAgree(o: Opportunity)
    ensures |Candidates(o)| == LEVELS
    ensures forall l | 0 <= l < LEVELS :: Candidates(o)[l].1 == KeyAt(l, ContextOf(o))
    ensures Candidates(o)[0].0 == G0 && Candidates(o)[1].0 == G1 && Candidates(o)[2].0 == G2 && Candidates(o)[3].0 == G3
  {
  }

  /** Once a context occurs among the pseudo-rows, each of its four keys carries an estimate of its level. */
  lemma SeenContextsAreFound(pseudo: seq<PseudoRow>, bootstrap: Bootstrap, o: Opportunity, row: nat, l: nat)
      returns (j: nat)
    requires Weighable(pseudo) && row < |pseudo| && pseudo[row].context == ContextOf(o) && l < LEVELS
    ensures var vs := RawValues(pseudo, LEVELS, bootstrap);
            j < |vs| && vs[j].level == l && vs[j].key == Candidates(o)[l].1
  {
    hide KeyAt, Candidates, Keys, RawValues;
    KeysAgree(o);
    KeyOccurs(pseudo, KeyOf(l), row);
    j := KeyListed(pseudo, LEVELS, l, KeyAt(l, ContextOf(o)), bootstrap);
  }

  // ------------------------------------------------------------------ what a level distinguishes

  /** The fields of a context that its group on a level is made of. */
  function FieldsAt(level: nat, c: Context): seq<string> {
    if level == 0 then [c.source, c.kind, c.taskGroup, c.failureType, c.riskTier, c.resourceScarcity, c.episodePhase,
                        c.priorAdmissionBin]
    else if level == 1 then [c.source, c.kind, c.taskGroup, c.failureType, c.riskTier, c.episodePhase]
    else if level == 2 then [c.source, c.kind, c.taskGroup, c.resourceScarcity]
    else [c.source, c.kind]
  }

  function Joined(fields: seq<string>): string
    requires fields != []
  {
    if |fields| == 1 then fields[0] else fields[0] + "|" + Joined(fields[1..])
  }

  ghost predicate AllPlain(fields: seq<string>) {
    forall i | 0 <= i < |fields| :: Plain(fields[i])
  }

  lemma {:induction false} JoinedSplits(s: seq<string>, t: seq<string>)
    requires |s| == |t| > 0 && AllPlain(s) && AllPlain(t)
    ensures Joined(s) == Joined(t) <==> s == t
  {
    if |s| > 1 {
      JoinedSplits(s[1..], t[1..]);
      SplitAtSeparator(s[0], Joined(s[1..]), t[0], Joined(t[1..]));
      assert s == [s[0]] + s[1..] && t == [t[0]] + t[1..];
    }
  }

  lemma JoinMore(a: string, fields: seq<string>)
    requires fields != []
    ensures Joined([a] + fields) == a + "|" + Joined(fields)
  {
    assert ([a] + fields)[1..] == fields;
  }

  lemma KeyIsJoined(level: nat, c: Context)
    ensures KeyAt(level, c) == Joined(FieldsAt(level, c))
  {
    if level == 0 {
      var three := c.resourceScarcity + "|" + (c.episodePhase + "|" + c.priorAdmissionBin);
      JoinPair(c.episodePhase, c.priorAdmissionBin);
      JoinMore(c.resourceScarcity, [c.episodePhase, c.priorAdmissionBin]);
      JoinRisk(c, [c.resourceScarcity, c.episodePhase, c.priorAdmissionBin], three);
      assert FieldsAt(0, c) == [c.source, c.kind, c.taskGroup, c.failureType, c.riskTier]
                               + [c.resourceScarcity, c.episodePhase, c.priorAdmissionBin];
      assert KeyAt(0, c) == Under(c, c.failureType + "|" + (c.riskTier + "|" + three));
    } else if level == 1 {
      JoinRisk(c, [c.episodePhase], c.episodePhase);
      assert FieldsAt(1, c) == [c.source, c.kind, c.taskGroup, c.failureType, c.riskTier] + [c.episodePhase];
      assert KeyAt(1, c) == Under(c, c.failureType + "|" + (c.riskTier + "|" + c.episodePhase));
    } else if level == 2 {
      JoinUnder(c, [c.resourceScarcity], c.resourceScarcity);
      assert FieldsAt(2, c) == [c.source, c.kind, c.taskGroup] + [c.resourceScarcity];
      KeysUnder(c);
    } else {
      JoinPair(c.source, c.kind);
    }
  }

  lemma JoinPair(a: string, b: string)
    ensures Joined([a, b]) == a + "|" + b
  {
    JoinMore(a, [b]);
    assert [a, b] == [a] + [b];
  }

  lemma JoinUnder(c: Context, fields: seq<string>, rest: string)
    requires fields != [] && Joined(fields) == rest
    ensures Joined([c.source, c.kind, c.taskGroup] + fields) == Under(c, rest)
  {
    hide Joined;
    JoinMore(c.taskGroup, fields);
    JoinMore(c.kind, [c.taskGroup] + fields);
    JoinMore(c.source, [c.kind] + ([c.taskGroup] + fields));
    assert [c.source, c.kind, c.taskGroup] + fields == [c.source] + ([c.kind] + ([c.taskGroup] + fields));
  }

  lemma JoinRisk(c: Context, fields: seq<string>, rest: string)
    requires fields != [] && Joined(fields) == rest
    ensures Joined([c.source, c.kind, c.taskGroup, c.failureType, c.riskTier] + fields)
         == Under(c, c.failureType + "|" + (c.riskTier + "|" + rest))
  {
    hide Joined;
    JoinMore(c.riskTier, fields);
    JoinMore(c.failureType, [c.riskTier] + fields);
    assert [c.failureType, c.riskTier] + fields == [c.failureType] + ([c.riskTier] + fields);
    JoinUnder(c, [c.failureType, c.riskTier] + fields, c.failureType + "|" + (c.riskTier + "|" + rest));
    assert [c.source, c.kind, c.taskGroup] + ([c.failureType, c.riskTier] + fields)
        == [c.source, c.kind, c.taskGroup, c.failureType, c.riskTier] + fields;
  }

  /** With separator-free fields two contexts share a group on a level exactly when its fields agree. */
  lemma SameGroupIff(level: nat, c: Context, d: Context)
    requires AllPlain(FieldsAt(level, c)) && AllPlain(FieldsAt(level, d))
    ensures KeyAt(level, c) == KeyAt(level, d) <==> FieldsAt(level, c) == FieldsAt(level, d)
  {
    hide KeyAt, Joined;
    KeyIsJoined(level, c);
    KeyIsJoined(level, d);
    JoinedSplits(FieldsAt(level, c), FieldsAt(level, d));
  }
}
