/** The analyst runtime's decision, src/autosiem/soc_runtime.py, and `IncidentMerge.material` of
    src/autosiem/risk.py, which says when a merge is worth deciding again. */
module Decision {
  import opened Common
  import opened Schemas
  import opened Correlation
  import opened Incidents
  import opened Merging

  datatype DecisionType = LikelyBenign | SuspiciousMonitor | Escalate | ContainmentProposed

  const LINES: seq<int> := [30, 100, 200]

  /** `_make_decision` without an override. */
  function Decide(incident: Incident): DecisionType {
    if incident.severity >= HIGH && incident.riskScore >= 200 then ContainmentProposed
    else if incident.riskScore >= 100 || incident.severity >= MEDIUM then Escalate
    else if incident.riskScore >= 30 then SuspiciousMonitor
    else LikelyBenign
  }

  /** `_estimate_confidence`, in hundredths. */
  function Confidence(incident: Incident, count: nat, anomaly: bool): int {
    Min(99, 20
      + (if incident.riskScore >= 200 then 25 else if incident.riskScore >= 100 then 15 else 0)
      + (if incident.severity >= HIGH then 20 else 0)
      + (if incident.techniques != [] then 15 else 0)
      + (if count >= 3 then 10 else 0)
      + (if anomaly then 10 else 0))
  }

  predicate Crosses(before: int, after: int) {
    exists k :: 0 <= k < |LINES| && before < LINES[k] <= after
  }

  predicate Material(m: IncidentMerge) {
    var before, after := m.previous, m.incident;
    || after.severity > before.severity
    || after.entities - before.entities != {}
    || (exists k :: 0 <= k < |after.techniques| && after.techniques[k] !in before.techniques)
    || Crosses(before.riskScore, after.riskScore)
  }

  // ----- more findings, more of everything -----

  ghost predicate NoNegativePoints(findings: seq<Finding>) {
    forall k :: 0 <= k < |findings| ==> findings[k].riskPoints >= 0
  }

  lemma {:induction false} PointsNotNegative(findings: seq<Finding>)
    requires NoNegativePoints(findings)
    ensures Points(findings) >= 0
  {
    if findings != [] { PointsNotNegative(findings[..|findings| - 1]); }
  }

  lemma AddingSeverity(held: seq<Finding>, added: seq<Finding>, id: string, createdAt: int)
    requires held != []
    ensures IncidentFrom(held, id, createdAt).severity <= IncidentFrom(InTime(held + added), id, createdAt).severity
  {
    var all := held + added;
    InTimeMembers(all);
    IncidentSums(held, id, createdAt);
    IncidentSums(InTime(all), id, createdAt);
    var top :| top in held && top.severity == IncidentFrom(held, id, createdAt).severity;
    assert top in all && top in InTime(all);
  }

  lemma {:induction false} RiskIsPoints(findings: seq<Finding>, id: string, createdAt: int)
    ensures IncidentFrom(findings, id, createdAt).riskScore == Min(MAX_RISK, Points(findings))
  {
    PointsInTime(findings);
  }

  lemma {:induction false} AddedPoints(held: seq<Finding>, added: seq<Finding>)
    ensures Points(InTime(held + added)) == Points(held) + Points(added)
  {
    PointsInTime(held + added);
    PointsSplit(held, added);
  }

  lemma {:induction false} AddingPoints(held: seq<Finding>, added: seq<Finding>, id: string, createdAt: int)
    ensures IncidentFrom(held, id, createdAt).riskScore == Min(MAX_RISK, Points(held))
    ensures IncidentFrom(InTime(held + added), id, createdAt).riskScore == Min(MAX_RISK, Points(held) + Points(added))
  {
    RiskIsPoints(held, id, createdAt);
    RiskIsPoints(InTime(held + added), id, createdAt);
    AddedPoints(held, added);
  }

  /** The score becomes the capped sum, and no severity is lowered. */
  lemma {:induction false} AddingSums(held: seq<Finding>, added: seq<Finding>, id: string, createdAt: int)
    requires held != []
    ensures var before, after := IncidentFrom(held, id, createdAt), IncidentFrom(InTime(held + added), id, createdAt);
      && before.riskScore == Min(MAX_RISK, Points(held))
      && after.riskScore == Min(MAX_RISK, Points(held) + Points(added)) && before.severity <= after.severity
  {
    AddingSeverity(held, added, id, createdAt);
    AddingPoints(held, added, id, createdAt);
  }

  lemma AddingRaises(held: seq<Finding>, added: seq<Finding>, id: string, createdAt: int)
    ensures NoNegativePoints(added) ==>
      IncidentFrom(held, id, createdAt).riskScore <= IncidentFrom(InTime(held + added), id, createdAt).riskScore
  {
    AddingPoints(held, added, id, createdAt);
    if NoNegativePoints(added) { PointsNotNegative(added); }
  }

  lemma AddingKeepsEntity(held: seq<Finding>, added: seq<Finding>, id: string, createdAt: int, e: string)
    requires e in IncidentFrom(held, id, createdAt).entities && e != UNKNOWN_ENTITY
    ensures e in IncidentFrom(InTime(held + added), id, createdAt).entities
  {
    InTimeMembers(held + added);
    IncidentEntities(held, id, createdAt, e);
    IncidentEntities(InTime(held + added), id, createdAt, e);
    var f :| f in held && e in f.entities;
    assert f in held + added && f in InTime(held + added);
  }

  lemma AddingKeepsTechnique(held: seq<Finding>, added: seq<Finding>, id: string, createdAt: int, t: string)
    requires t in IncidentFrom(held, id, createdAt).techniques
    ensures t in IncidentFrom(InTime(held + added), id, createdAt).techniques
  {
    InTimeMembers(held + added);
    IncidentTechniques(held, id, createdAt, t);
    IncidentTechniques(InTime(held + added), id, createdAt, t);
    var f :| f in held && t in f.techniques;
    assert f in held + added && f in InTime(held + added);
  }

  lemma AddingKeepsNames(held: seq<Finding>, added: seq<Finding>, id: string, createdAt: int)
    ensures var before, after := IncidentFrom(held, id, createdAt), IncidentFrom(InTime(held + added), id, createdAt);
      && (forall e :: e in before.entities ==> e in after.entities || e == UNKNOWN_ENTITY)
      && (forall t :: t in before.techniques ==> t in after.techniques)
  {
    forall e | e in IncidentFrom(held, id, createdAt).entities && e != UNKNOWN_ENTITY
      ensures e in IncidentFrom(InTime(held + added), id, createdAt).entities
    {
      AddingKeepsEntity(held, added, id, createdAt, e);
    }
    forall t | t in IncidentFrom(held, id, createdAt).techniques
      ensures t in IncidentFrom(InTime(held + added), id, createdAt).techniques
    {
      AddingKeepsTechnique(held, added, id, createdAt, t);
    }
  }

  /** Adding findings lowers no severity and removes nothing, apart from the placeholder that stood in
      for missing entities; the score becomes the capped sum, no lower if no points are negative. */
  lemma {:induction false} AddingIsMonotone(held: seq<Finding>, added: seq<Finding>, id: string, createdAt: int)
    requires held != []
    ensures var before, after := IncidentFrom(held, id, createdAt), IncidentFrom(InTime(held + added), id, createdAt);
      && after.riskScore == Min(MAX_RISK, Points(held) + Points(added))
      && (NoNegativePoints(added) ==> before.riskScore <= after.riskScore) && before.severity <= after.severity
      && (forall e :: e in before.entities ==> e in after.entities || e == UNKNOWN_ENTITY)
      && (forall t :: t in before.techniques ==> t in after.techniques)
  {
    AddingSums(held, added, id, createdAt);
    AddingKeepsNames(held, added, id, createdAt);
    AddingRaises(held, added, id, createdAt);
  }

  /** An incident that is what its findings give. */
  ghost predicate UpToDate(item: StoredIncident) {
    item.findings != []
    && item.incident == IncidentFrom(item.findings, item.incident.incidentId, item.incident.createdAt)
  }

  /** The scores at which the decision turns for an incident of this severity. */
  function LinesFor(severity: int): seq<int> {
    if severity >= HIGH then [200] else if severity >= MEDIUM then [] else [30, 100]
  }

  predicate FallsPast(severity: int, before: int, after: int) {
    exists k :: 0 <= k < |LinesFor(severity)| && after < LinesFor(severity)[k] <= before
  }

  lemma DecisionTurns(before: Incident, after: Incident)
    requires before.severity == after.severity && !Crosses(before.riskScore, after.riskScore)
    ensures Decide(after) == Decide(before) <==> !FallsPast(before.severity, before.riskScore, after.riskScore)
  {
    assert LINES[0] == 30 && LINES[1] == 100 && LINES[2] == 200;
    var lines := LinesFor(before.severity);
    if before.severity >= HIGH {
      assert lines[0] == 200;
    } else if before.severity < MEDIUM {
      assert lines[0] == 30 && lines[1] == 100;
    }
  }

  lemma {:induction false} MergeSums(item: StoredIncident, added: seq<Finding>)
    requires UpToDate(item)
    ensures var m := MergeOf(item, added);
      && m.previous == item.incident && item.incident.severity <= m.incident.severity
      && item.incident.riskScore == Min(MAX_RISK, Points(item.findings))
      && m.incident.riskScore == Min(MAX_RISK, Points(item.findings) + Points(added))
  {
    AddingSums(item.findings, added, item.incident.incidentId, item.incident.createdAt);
  }

  lemma ImmaterialSays(m: IncidentMerge)
    requires !Material(m)
    ensures m.incident.severity <= m.previous.severity && !Crosses(m.previous.riskScore, m.incident.riskScore)
  {
  }

  /** Whatever the signs of the points, an immaterial merge leaves the analyst's decision alone if and
      only if the capped sum does not fall past a score at which that severity's decision turns. */
  lemma {:induction false} ImmaterialKeepsDecisionIff(item: StoredIncident, added: seq<Finding>)
    requires UpToDate(item) && !Material(MergeOf(item, added))
    ensures Decide(MergeOf(item, added).incident) == Decide(item.incident) <==>
      !FallsPast(item.incident.severity, item.incident.riskScore, Min(MAX_RISK, Points(item.findings) + Points(added)))
  {
    MergeSums(item, added);
    ImmaterialSays(MergeOf(item, added));
    DecisionTurns(item.incident, MergeOf(item, added).incident);
  }

  /** With non-negative points an immaterial merge never changes the analyst's decision. */
  lemma ImmaterialKeepsDecision(item: StoredIncident, added: seq<Finding>)
    requires UpToDate(item) && NoNegativePoints(added) && !Material(MergeOf(item, added))
    ensures Decide(MergeOf(item, added).incident) == Decide(item.incident)
  {
    MergeSums(item, added);
    PointsNotNegative(added);
    ImmaterialKeepsDecisionIff(item, added);
  }

  lemma TechniquesStay(item: StoredIncident, added: seq<Finding>)
    requires UpToDate(item) && NoNegativePoints(added) && !Material(MergeOf(item, added))
    ensures item.incident.techniques == [] <==> MergeOf(item, added).incident.techniques == []
  {
    AddingIsMonotone(item.findings, added, item.incident.incidentId, item.incident.createdAt);
    var before, after := item.incident, MergeOf(item, added).incident;
    if after.techniques != [] { assert after.techniques[0] in before.techniques; }
    if before.techniques != [] { assert before.techniques[0] in before.techniques; }
  }

  /** Its confidence changes only by what it says of the number of findings and of anomalies: the
      same counts give the same confidence. */
  lemma ImmaterialKeepsConfidence(item: StoredIncident, added: seq<Finding>, count: nat, anomaly: bool)
    requires UpToDate(item) && NoNegativePoints(added) && !Material(MergeOf(item, added))
    ensures Confidence(MergeOf(item, added).incident, count, anomaly) == Confidence(item.incident, count, anomaly)
  {
    AddingIsMonotone(item.findings, added, item.incident.incidentId, item.incident.createdAt);
    TechniquesStay(item, added);
    assert item.incident.severity == MergeOf(item, added).incident.severity;
    assert LINES[0] == 30 && LINES[1] == 100 && LINES[2] == 200;
  }

  // ----- with negative points -----

  /** A finding with negative points can lower the decision without the merge counting as material. */
  lemma NegativePointsGoUnnoticed(f: Finding, g: Finding, id: string, createdAt: int)
    requires f.severity == LOW && f.riskPoints == 120
      && g == f.(findingId := "g", eventId := f.eventId + "x", riskPoints := -100)
    ensures var item := StoredIncident(IncidentFrom([f], id, createdAt), [f]);
      && UpToDate(item) && !Material(MergeOf(item, [g]))
      && Decide(item.incident) == Escalate && Decide(MergeOf(item, [g]).incident) == LikelyBenign
  {
    var item := StoredIncident(IncidentFrom([f], id, createdAt), [f]);
    var before, after := item.incident, MergeOf(item, [g]).incident;
    TwoScores(f, g, id, createdAt);
    forall e | e in after.entities ensures e in before.entities { SameEntities(f, g, id, createdAt, e); }
    assert after.entities - before.entities == {};
    forall k | 0 <= k < |after.techniques| ensures after.techniques[k] in before.techniques {
      assert after.techniques[k] in after.techniques;
      SameTechniques(f, g, id, createdAt, after.techniques[k]);
    }
    assert LINES[0] == 30 && LINES[1] == 100 && LINES[2] == 200;
  }

  lemma TwoScores(f: Finding, g: Finding, id: string, createdAt: int)
    requires f.severity == g.severity
    ensures var one, two := IncidentFrom([f], id, createdAt), IncidentFrom(InTime([f] + [g]), id, createdAt);
      && one.severity == two.severity == f.severity
      && one.riskScore == Min(MAX_RISK, f.riskPoints) && two.riskScore == Min(MAX_RISK, f.riskPoints + g.riskPoints)
  {
    var all := [f] + [g];
    InTimeMembers(all);
    PointsInTime(all);
    PointsSplit([f], [g]);
    PointsOne(f);
    PointsOne(g);
    IncidentSums([f], id, createdAt);
    IncidentSums(InTime(all), id, createdAt);
    var one :| one in [f] && one.severity == IncidentFrom([f], id, createdAt).severity;
    var two :| two in InTime(all) && two.severity == IncidentFrom(InTime(all), id, createdAt).severity;
    assert two in all;
  }

  lemma SameEntities(f: Finding, g: Finding, id: string, createdAt: int, e: string)
    requires f.entities == g.entities && e in IncidentFrom(InTime([f] + [g]), id, createdAt).entities
    ensures e in IncidentFrom([f], id, createdAt).entities
  {
    var all := InTime([f] + [g]);
    InTimeMembers([f] + [g]);
    IncidentEntities([f], id, createdAt, e);
    IncidentEntities(all, id, createdAt, e);
    assert f in [f];
    if h :| h in all && e in h.entities {
      assert h == f || h == g;
    } else {
      assert EntitiesOf([f]) == {} by {
        forall x ensures x !in EntitiesOf([f]) {
          EntitiesByMember([f], x);
          EntitiesByMember(all, x);
          assert f in [f] + [g];
        }
      }
    }
  }

  lemma SameTechniques(f: Finding, g: Finding, id: string, createdAt: int, t: string)
    requires f.techniques == g.techniques && t in IncidentFrom(InTime([f] + [g]), id, createdAt).techniques
    ensures t in IncidentFrom([f], id, createdAt).techniques
  {
    InTimeMembers([f] + [g]);
    IncidentTechniques([f], id, createdAt, t);
    IncidentTechniques(InTime([f] + [g]), id, createdAt, t);
    assert f in [f];
    var h :| h in InTime([f] + [g]) && t in h.techniques;
    assert h == f || h == g;
  }
}
