/** Incidents built from correlated findings, and the test that links a cluster to a stored incident,
    src/autosiem/risk.py. */
module Incidents {
  import opened Common
  import opened Schemas
  import opened Sorting
  import opened Correlation

  const MAX_RISK := 1000
  const MAX_INCIDENT_FINDINGS: nat := 2000

  /** Titles and summaries are prose and left out; entities are a set because they are listed sorted. */
  datatype Incident = Incident(
    incidentId: string,
    severity: int,
    riskScore: int,
    entities: set<string>,
    findingIds: seq<string>,
    techniques: seq<string>,
    createdAt: int)

  datatype StoredIncident = StoredIncident(incident: Incident, findings: seq<Finding>)

  datatype IncidentMerge = IncidentMerge(
    incident: Incident,
    previous: Incident,
    findings: seq<Finding>,
    newFindingIds: seq<string>)

  // ----- one incident -----

  function When(f: Finding): int {
    f.timestamp
  }

  function InTime(findings: seq<Finding>): seq<Finding> {
    Sorted(findings, When)
  }

  function Points(findings: seq<Finding>): int {
    if findings == [] then 0 else Points(findings[..|findings| - 1]) + findings[|findings| - 1].riskPoints
  }

  function TopSeverity(findings: seq<Finding>): int {
    if findings == [] then INFORMATIONAL
    else if |findings| == 1 then findings[0].severity
    else Max(TopSeverity(findings[..|findings| - 1]), findings[|findings| - 1].severity)
  }

  function EntitiesOf(findings: seq<Finding>): set<string> {
    set k, e | 0 <= k < |findings| && e in findings[k].entities :: e
  }

  function IdsOf(findings: seq<Finding>): (r: seq<string>)
    ensures |r| == |findings| && forall k :: 0 <= k < |r| ==> r[k] == findings[k].findingId
  {
    seq(|findings|, k requires 0 <= k < |findings| => findings[k].findingId)
  }

  ghost predicate DistinctIds(fs: seq<Finding>) {
    forall i, j :: 0 <= i < j < |fs| ==> fs[i].findingId != fs[j].findingId
  }

  function AddNew(seen: seq<string>, techniques: seq<string>): seq<string>
    decreases |techniques|
  {
    if techniques == [] then seen
    else AddNew(if techniques[0] in seen then seen else seen + [techniques[0]], techniques[1..])
  }

  /** Techniques in the order in which they were first seen. */
  function KillChain(findings: seq<Finding>): seq<string> {
    if findings == [] then []
    else AddNew(KillChain(findings[..|findings| - 1]), findings[|findings| - 1].techniques)
  }

  lemma {:induction false} AddNewFacts(seen: seq<string>, techniques: seq<string>)
    ensures NoDup(seen) ==> NoDup(AddNew(seen, techniques))
    ensures forall t :: t in AddNew(seen, techniques) <==> t in seen || t in techniques
    decreases |techniques|
  {
    if techniques != [] {
      assert techniques == [techniques[0]] + techniques[1..];
      AddNewFacts(if techniques[0] in seen then seen else seen + [techniques[0]], techniques[1..]);
    }
  }

  /** No technique is listed twice, and those of the findings are listed. */
  lemma {:induction false} KillChainFacts(findings: seq<Finding>)
    ensures NoDup(KillChain(findings))
    ensures forall t :: t in KillChain(findings) <==> exists k :: 0 <= k < |findings| && t in findings[k].techniques
  {
    if findings != [] {
      var init, last := findings[..|findings| - 1], findings[|findings| - 1];
      assert findings == init + [last];
      KillChainFacts(init);
      AddNewFacts(KillChain(init), last.techniques);
    }
  }

  /** With no entity anywhere the placeholder is the primary entity, and the only one. */
  function IncidentFrom(findings: seq<Finding>, incidentId: string, createdAt: int): Incident {
    var cluster := InTime(findings);
    Incident(
      incidentId,
      TopSeverity(cluster),
      Min(MAX_RISK, Points(cluster)),
      if EntitiesOf(cluster) == {} then {UNKNOWN_ENTITY} else EntitiesOf(cluster),
      IdsOf(cluster),
      KillChain(cluster),
      createdAt)
  }

  // ----- order does not matter -----

  lemma {:induction false} PointsSplit(a: seq<Finding>, b: seq<Finding>)
    ensures Points(a + b) == Points(a) + Points(b)
  {
    if b == [] {
      assert a + b == a;
    } else {
      assert (a + b)[..|a + b| - 1] == a + b[..|b| - 1];
      PointsSplit(a, b[..|b| - 1]);
    }
  }

  lemma PointsOne(f: Finding)
    ensures Points([f]) == f.riskPoints
  {
    assert [f][..0] == [];
  }

  /** Sorting by time changes neither the points nor the members. */
  lemma {:induction false} PointsInsert(s: seq<Finding>, f: Finding)
    ensures Points(Insert(s, f, When)) == Points(s) + f.riskPoints
  {
    if s == [] {
      PointsOne(f);
    } else if When(s[|s| - 1]) <= When(f) {
      PointsSplit(s, [f]);
      PointsOne(f);
    } else {
      var init, last := s[..|s| - 1], s[|s| - 1];
      PointsInsert(init, f);
      PointsSplit(Insert(init, f, When), [last]);
      PointsOne(last);
    }
  }

  lemma {:induction false} PointsInTime(findings: seq<Finding>)
    ensures Points(InTime(findings)) == Points(findings)
  {
    if findings != [] {
      PointsInTime(findings[..|findings| - 1]);
      PointsInsert(InTime(findings[..|findings| - 1]), findings[|findings| - 1]);
    }
  }

  lemma InTimeMembers(findings: seq<Finding>)
    ensures |InTime(findings)| == |findings| && forall f :: f in InTime(findings) <==> f in findings
  {
    SortedMembers(findings, When);
  }

  /** The top severity is an upper bound that some finding reaches. */
  lemma {:induction false} TopSeverityIsMax(findings: seq<Finding>)
    requires findings != []
    ensures forall f :: f in findings ==> f.severity <= TopSeverity(findings)
    ensures exists f :: f in findings && f.severity == TopSeverity(findings)
  {
    var init, last := findings[..|findings| - 1], findings[|findings| - 1];
    assert findings == init + [last] && last in findings;
    if init != [] {
      TopSeverityIsMax(init);
      var f :| f in init && f.severity == TopSeverity(init);
      assert f in findings;
    }
  }

  lemma EntitiesByMember(findings: seq<Finding>, e: string)
    ensures e in EntitiesOf(findings) <==> exists f :: f in findings && e in f.entities
  {
    if e in EntitiesOf(findings) {
      var k :| 0 <= k < |findings| && e in findings[k].entities;
      assert findings[k] in findings;
    }
    if f :| f in findings && e in f.entities {
      var k :| 0 <= k < |findings| && findings[k] == f;
    }
  }

  lemma {:induction false} TechniquesByMember(findings: seq<Finding>, t: string)
    ensures t in KillChain(findings) <==> exists f :: f in findings && t in f.techniques
  {
    KillChainFacts(findings);
    if t in KillChain(findings) {
      var k :| 0 <= k < |findings| && t in findings[k].techniques;
      assert findings[k] in findings;
    }
    if f :| f in findings && t in f.techniques {
      var k :| 0 <= k < |findings| && findings[k] == f;
    }
  }

  /** What an incident says about its findings, whatever order they are given in. */
  lemma {:induction false} IncidentSums(findings: seq<Finding>, incidentId: string, createdAt: int)
    ensures var i := IncidentFrom(findings, incidentId, createdAt);
      && i.riskScore == Min(MAX_RISK, Points(findings))
      && (forall f :: f in findings ==> f.severity <= i.severity)
      && (findings != [] ==> exists f :: f in findings && f.severity == i.severity)
  {
    PointsInTime(findings);
    InTimeMembers(findings);
    if findings != [] { TopSeverityIsMax(InTime(findings)); }
  }

  lemma IncidentEntities(findings: seq<Finding>, incidentId: string, createdAt: int, e: string)
    ensures e in IncidentFrom(findings, incidentId, createdAt).entities <==>
      (exists f :: f in findings && e in f.entities) || (e == UNKNOWN_ENTITY && EntitiesOf(findings) == {})
  {
    InTimeMembers(findings);
    forall x ensures x in EntitiesOf(InTime(findings)) <==> x in EntitiesOf(findings) {
      EntitiesByMember(InTime(findings), x);
      EntitiesByMember(findings, x);
    }
    EntitiesByMember(findings, e);
  }

  lemma IncidentTechniques(findings: seq<Finding>, incidentId: string, createdAt: int, t: string)
    ensures t in IncidentFrom(findings, incidentId, createdAt).techniques <==>
      exists f :: f in findings && t in f.techniques
  {
    InTimeMembers(findings);
    TechniquesByMember(InTime(findings), t);
  }

  lemma IncidentIds(findings: seq<Finding>, incidentId: string, createdAt: int)
    ensures var ids := IncidentFrom(findings, incidentId, createdAt).findingIds;
      |ids| == |findings| && forall id :: id in ids <==> exists f :: f in findings && f.findingId == id
  {
    InTimeMembers(findings);
    var cluster := InTime(findings);
    var ids := IncidentFrom(findings, incidentId, createdAt).findingIds;
    forall id ensures id in ids <==> exists f :: f in findings && f.findingId == id {
      if id in ids {
        var k :| 0 <= k < |cluster| && ids[k] == id;
        assert cluster[k] in cluster;
      }
      if f :| f in findings && f.findingId == id {
        var k :| 0 <= k < |cluster| && cluster[k] == f;
        assert ids[k] == id;
      }
    }
  }

  // ----- linking a cluster to stored findings -----

  /** Some finding shares a real entity with a stored one inside the window. */
  ghost predicate LinkedTo(cluster: seq<Finding>, held: seq<Finding>, window: int) {
    exists f, g, e :: f in cluster && g in held && e in f.entities && e in g.entities && e != UNKNOWN_ENTITY
      && Gap(f.timestamp, g.timestamp) <= window
  }

  function Itself(t: int): int {
    t
  }

  ghost predicate Stamped(held: seq<Finding>, e: string, t: int) {
    exists g :: g in held && e in g.entities && g.timestamp == t
  }

  predicate At(times: map<string, seq<int>>, e: string, t: int) {
    e in times && t in times[e]
  }

  ghost predicate Timetable(held: seq<Finding>, times: map<string, seq<int>>) {
    forall e, t :: Stamped(held, e, t) <==> At(times, e, t)
  }

  lemma StampedSnoc(held: seq<Finding>, g: Finding, e: string, t: int)
    ensures Stamped(held + [g], e, t) <==> Stamped(held, e, t) || (e in g.entities && g.timestamp == t)
  {
    assert g in held + [g];
    if Stamped(held, e, t) {
      var f :| f in held && e in f.entities && f.timestamp == t;
      assert f in held + [g];
    }
  }

  lemma AtSet(times: map<string, seq<int>>, e: string, stamp: int, x: string, t: int)
    ensures At(times[e := (if e in times then times[e] else []) + [stamp]], x, t) <==>
      At(times, x, t) || (x == e && t == stamp)
  {
  }

  method AddTimes(g: Finding, held: map<string, seq<int>>) returns (times: map<string, seq<int>>)
    ensures forall e, t :: At(times, e, t) <==> At(held, e, t) || (e in g.entities && t == g.timestamp)
  {
    times := held;
    for m := 0 to |g.entities|
      invariant forall e, t :: At(times, e, t) <==> At(held, e, t) || (e in g.entities[..m] && t == g.timestamp)
    {
      var e := g.entities[m];
      assert g.entities[..m + 1] == g.entities[..m] + [e];
      ghost var before := times;
      times := times[e := (if e in times then times[e] else []) + [g.timestamp]];
      forall x, t ensures At(times, x, t) <==> At(before, x, t) || (x == e && t == g.timestamp) {
        AtSet(before, e, g.timestamp, x, t);
      }
    }
    assert g.entities[..|g.entities|] == g.entities;
  }

  method EntityTimes(held: seq<Finding>) returns (times: map<string, seq<int>>)
    ensures Timetable(held, times) && forall e :: e in times ==> Ascending(times[e], Itself)
  {
    var all: map<string, seq<int>> := map[];
    for n := 0 to |held|
      invariant Timetable(held[..n], all)
    {
      ghost var before := all;
      all := AddTimes(held[n], all);
      assert held[..n + 1] == held[..n] + [held[n]];
      forall e, t ensures Stamped(held[..n + 1], e, t) <==> At(all, e, t) {
        StampedSnoc(held[..n], held[n], e, t);
        assert At(all, e, t) <==> At(before, e, t) || (e in held[n].entities && t == held[n].timestamp);
      }
    }
    assert held[..|held|] == held;
    times := map e | e in all :: Sorted(all[e], Itself);
    forall e | e in times ensures Ascending(times[e], Itself) && forall t :: t in times[e] <==> t in all[e] {
      SortedFacts(all[e], Itself);
      SortedMembers(all[e], Itself);
    }
    assert forall e, t :: At(times, e, t) <==> At(all, e, t);
  }

  /** `bisect_left`: the first position whose element is not less than `x`. */
  function BisectLeft(s: seq<int>, x: int): (r: nat)
    ensures r <= |s| && (r < |s| ==> s[r] >= x)
    ensures forall i :: 0 <= i < r ==> s[i] < x
  {
    if s == [] || s[0] >= x then 0 else 1 + BisectLeft(s[1..], x)
  }

  /** The nearest stamp not before the window is the only one that needs looking at. */
  lemma BisectFinds(stamps: seq<int>, t: int, window: int)
    requires Ascending(stamps, Itself)
    ensures var i := BisectLeft(stamps, t - window);
      (i < |stamps| && stamps[i] <= t + window) <==> exists s :: s in stamps && Gap(t, s) <= window
  {
    var i := BisectLeft(stamps, t - window);
    if i < |stamps| && stamps[i] <= t + window {
      assert stamps[i] in stamps && Gap(t, stamps[i]) <= window;
    }
    if s :| s in stamps && Gap(t, s) <= window {
      var k :| 0 <= k < |stamps| && stamps[k] == s;
      assert k >= i;
      assert k > i ==> Itself(stamps[i]) <= Itself(stamps[k]);
    }
  }

  ghost predicate LinkedBy(f: Finding, e: string, held: seq<Finding>, window: int) {
    e != UNKNOWN_ENTITY && exists g :: g in held && e in g.entities && Gap(f.timestamp, g.timestamp) <= window
  }

  lemma LinkedByTimes(f: Finding, e: string, times: map<string, seq<int>>, held: seq<Finding>, window: int)
    requires Timetable(held, times) && e != UNKNOWN_ENTITY
    ensures LinkedBy(f, e, held, window) <==> e in times && exists s :: s in times[e] && Gap(f.timestamp, s) <= window
  {
    if LinkedBy(f, e, held, window) {
      var g :| g in held && e in g.entities && Gap(f.timestamp, g.timestamp) <= window;
      assert Stamped(held, e, g.timestamp);
    }
    if e in times {
      forall s | s in times[e] && Gap(f.timestamp, s) <= window ensures LinkedBy(f, e, held, window) {
        assert At(times, e, s) && Stamped(held, e, s);
      }
    }
  }

  method LinkedByEntity(f: Finding, e: string, times: map<string, seq<int>>, window: int, ghost held: seq<Finding>)
    returns (r: bool)
    requires Timetable(held, times) && forall e :: e in times ==> Ascending(times[e], Itself)
    ensures r == LinkedBy(f, e, held, window)
  {
    r := false;
    if e != UNKNOWN_ENTITY {
      LinkedByTimes(f, e, times, held, window);
      if e in times {
        BisectFinds(times[e], f.timestamp, window);
        var nearest := BisectLeft(times[e], f.timestamp - window);
        r := nearest < |times[e]| && times[e][nearest] <= f.timestamp + window;
      }
    }
  }

  lemma LinkedByParts(cluster: seq<Finding>, held: seq<Finding>, window: int)
    ensures LinkedTo(cluster, held, window) <==>
      exists k, e :: 0 <= k < |cluster| && e in cluster[k].entities && LinkedBy(cluster[k], e, held, window)
  {
    if LinkedTo(cluster, held, window) {
      var f, g, e :| f in cluster && g in held && e in f.entities && e in g.entities && e != UNKNOWN_ENTITY
        && Gap(f.timestamp, g.timestamp) <= window;
      var k :| 0 <= k < |cluster| && cluster[k] == f;
      assert LinkedBy(cluster[k], e, held, window);
    }
    if k, e :| 0 <= k < |cluster| && e in cluster[k].entities && LinkedBy(cluster[k], e, held, window) {
      assert cluster[k] in cluster;
    }
  }

  /** `_linked` */
  method Linked(cluster: seq<Finding>, times: map<string, seq<int>>, window: int, ghost held: seq<Finding>)
    returns (r: bool)
    requires Timetable(held, times) && forall e :: e in times ==> Ascending(times[e], Itself)
    ensures r == LinkedTo(cluster, held, window)
  {
    LinkedByParts(cluster, held, window);
    for n := 0 to |cluster|
      invariant forall k, e :: 0 <= k < n && e in cluster[k].entities ==> !LinkedBy(cluster[k], e, held, window)
    {
      var f := cluster[n];
      for m := 0 to |f.entities|
        invariant forall j :: 0 <= j < m ==> !LinkedBy(f, f.entities[j], held, window)
      {
        var yes := LinkedByEntity(f, f.entities[m], times, window, held);
        if yes { return true; }
      }
    }
    r := false;
  }
}
