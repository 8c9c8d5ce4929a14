/** Each finding of a batch ends in one new incident, in one merge, or is a redelivery. */
module MergeLanding {
  import opened Common
  import opened Schemas
  import opened Correlation
  import opened Incidents
  import opened Merging

  /** The finding ids each new incident and each merge takes. */
  function Homes(started: seq<Incident>, merges: seq<IncidentMerge>): (r: seq<seq<string>>)
    ensures |r| == |started| + |merges|
  {
    seq(|started| + |merges|, h requires 0 <= h < |started| + |merges| =>
      if h < |started| then started[h].findingIds else merges[h - |started|].newFindingIds)
  }

  ghost predicate LandsIn(homes: seq<seq<string>>, id: string, h: nat) {
    && h < |homes| && id in homes[h]
    && forall g :: 0 <= g < |homes| && id in homes[g] ==> g == h
  }

  ghost predicate LandsOnce(homes: seq<seq<string>>, id: string) {
    exists h :: LandsIn(homes, id, h)
  }

  ghost predicate LandsNowhere(homes: seq<seq<string>>, id: string) {
    forall h :: 0 <= h < |homes| ==> id !in homes[h]
  }

  ghost predicate Redelivered(stored: seq<StoredIncident>, f: Finding) {
    exists x :: x in stored && Held(x.findings, f)
  }

  lemma OfCluster(fs: seq<Finding>, groups: seq<seq<nat>>, window: int, a: nat, i: nat, f: Finding)
    requires Clustered(fs, window, groups) && DistinctIds(fs) && a < |groups| && i < |fs|
    requires f in ClustersOf(fs, groups)[a] && f.findingId == fs[i].findingId
    ensures i in groups[a] && f == fs[i]
  {
    var m :| 0 <= m < |groups[a]| && ClustersOf(fs, groups)[a][m] == f;
    var j := groups[a][m];
    assert f == fs[j];
    assert j in groups[a];
  }

  lemma ClusterHas(fs: seq<Finding>, groups: seq<seq<nat>>, window: int, a: nat, i: nat)
    requires Clustered(fs, window, groups) && a < |groups| && i in groups[a]
    ensures i < |fs| && fs[i] in ClustersOf(fs, groups)[a]
  {
    var m :| 0 <= m < |groups[a]| && groups[a][m] == i;
    assert ClustersOf(fs, groups)[a][m] == fs[i];
  }

  lemma OneGroup(fs: seq<Finding>, window: int, groups: seq<seq<nat>>, a: nat, b: nat, i: nat)
    requires Clustered(fs, window, groups) && a < |groups| && b < |groups| && i in groups[a] && i in groups[b]
    ensures a == b
  {
    var m :| 0 <= m < |groups[a]| && groups[a][m] == i;
    ConnectedSelf(fs, window, i);
  }

  lemma InStarted(cluster: seq<Finding>, newId: string, now: int, id: string)
    ensures id in IncidentFrom(cluster, newId, now).findingIds <==> exists f :: f in cluster && f.findingId == id
  {
    IncidentIds(cluster, newId, now);
  }

  lemma InAdded(added: seq<Finding>, id: string)
    ensures id in IdsOf(added) <==> exists f :: f in added && f.findingId == id
  {
    if id in IdsOf(added) {
      var k :| 0 <= k < |added| && IdsOf(added)[k] == id;
      assert added[k] in added;
    }
    if f :| f in added && f.findingId == id {
      var k :| 0 <= k < |added| && added[k] == f;
      assert IdsOf(added)[k] == id;
    }
  }

  /** A new incident holds a finding exactly when it was opened for the finding's cluster. */
  lemma StartedHolds(fs: seq<Finding>, groups: seq<seq<nat>>, window: int, a: nat, i: nat, s: nat, newId: string,
          now: int)
    requires Clustered(fs, window, groups) && DistinctIds(fs) && a < |groups| && i in groups[a] && i < |fs|
      && s < |groups|
    ensures fs[i].findingId in IncidentFrom(ClustersOf(fs, groups)[s], newId, now).findingIds <==> s == a
  {
    var id := fs[i].findingId;
    InStarted(ClustersOf(fs, groups)[s], newId, now, id);
    if f :| f in ClustersOf(fs, groups)[s] && f.findingId == id {
      OfCluster(fs, groups, window, s, i, f);
      OneGroup(fs, window, groups, a, s, i);
    }
    ClusterHas(fs, groups, window, a, i);
  }

  /** A merge takes a finding exactly when the finding's cluster joined it and it is not held there. */
  lemma {:induction false} MergeTakes(fs: seq<Finding>, groups: seq<seq<nat>>, window: int, a: nat, i: nat,
          candidates: seq<StoredIncident>, t: nat)
    requires Clustered(fs, window, groups) && DistinctIds(fs) && a < |groups| && i in groups[a] && i < |fs|
      && t < |candidates|
    ensures var clusters := ClustersOf(fs, groups);
      fs[i].findingId in IdsOf(AddedTo(clusters, candidates, window, t)) <==>
        Target(clusters[a], candidates, window) == Some(t) && !Held(candidates[t].findings, fs[i])
  {
    var clusters, id := ClustersOf(fs, groups), fs[i].findingId;
    var added := AddedTo(clusters, candidates, window, t);
    InAdded(added, id);
    if f :| f in added && f.findingId == id {
      NewForMembers(clusters, candidates, window, t, f);
      var b :| 0 <= b < |clusters| && Target(clusters[b], candidates, window) == Some(t) && f in clusters[b];
      OfCluster(fs, groups, window, b, i, f);
      OneGroup(fs, window, groups, a, b, i);
    }
    ClusterHas(fs, groups, window, a, i);
    NewForMembers(clusters, candidates, window, t, fs[i]);
  }

  /** One call: what went in and what came out. */
  datatype Call = Call(
    fs: seq<Finding>, groups: seq<seq<nat>>, stored: seq<StoredIncident>, window: int, newId: nat -> string, now: int,
    started: seq<Incident>, merges: seq<IncidentMerge>, sources: seq<nat>, targets: seq<nat>)

  ghost predicate Result(c: Call) {
    && Clustered(c.fs, c.window, c.groups)
    && MergedInto(ClustersOf(c.fs, c.groups), c.stored, c.window, c.newId, c.now, c.started, c.merges, c.sources,
      c.targets)
  }

  ghost predicate Member(c: Call, a: nat, i: nat) {
    Result(c) && DistinctIds(c.fs) && a < |c.groups| && i in c.groups[a] && i < |c.fs|
  }

  ghost function TargetOf(c: Call, a: nat): Option<nat>
    requires Result(c) && a < |c.groups|
  {
    Target(ClustersOf(c.fs, c.groups)[a], Candidates(c.stored), c.window)
  }

  lemma StartedHome(c: Call, a: nat, i: nat, g: nat)
    requires Member(c, a, i) && g < |c.started|
    ensures c.fs[i].findingId in Homes(c.started, c.merges)[g] <==> c.sources[g] == a
  {
    StartedHolds(c.fs, c.groups, c.window, a, i, c.sources[g], c.newId(g), c.now);
  }

  lemma MergeHome(c: Call, a: nat, i: nat, g: nat)
    requires Member(c, a, i) && g < |c.merges|
    ensures c.targets[g] < |Candidates(c.stored)|
    ensures c.fs[i].findingId in Homes(c.started, c.merges)[|c.started| + g] <==>
      TargetOf(c, a) == Some(c.targets[g]) && !Held(Candidates(c.stored)[c.targets[g]].findings, c.fs[i])
  {
    MergeTakes(c.fs, c.groups, c.window, a, i, Candidates(c.stored), c.targets[g]);
    assert Homes(c.started, c.merges)[|c.started| + g] == c.merges[g].newFindingIds;
  }

  ghost predicate StartedAt(homes: seq<seq<string>>, id: string, sources: seq<nat>, a: nat) {
    && |sources| <= |homes|
    && forall g :: 0 <= g < |sources| ==> (id in homes[g] <==> sources[g] == a)
  }

  ghost predicate MergedAt(homes: seq<seq<string>>, id: string, from: nat, targets: seq<nat>, t: Option<nat>) {
    && |homes| == from + |targets|
    && forall g :: 0 <= g < |targets| ==> (id in homes[from + g] <==> t == Some(targets[g]))
  }

  lemma MergedAtHome(homes: seq<seq<string>>, id: string, from: nat, targets: seq<nat>, t: Option<nat>, h: nat)
    requires MergedAt(homes, id, from, targets, t) && from <= h < |homes|
    ensures id in homes[h] <==> t == Some(targets[h - from])
  {
    var g := h - from;
    assert id in homes[from + g] <==> t == Some(targets[g]);
  }

  lemma LandsInStarted(homes: seq<seq<string>>, id: string, sources: seq<nat>, targets: seq<nat>, a: nat)
    requires NoDup(sources) && a in sources
    requires StartedAt(homes, id, sources, a) && MergedAt(homes, id, |sources|, targets, None)
    ensures LandsOnce(homes, id)
  {
    var k :| 0 <= k < |sources| && sources[k] == a;
    forall h | 0 <= h < |homes| && id in homes[h] ensures h == k {
      if h >= |sources| { MergedAtHome(homes, id, |sources|, targets, None, h); }
    }
    assert LandsIn(homes, id, k);
  }

  lemma LandsInMerge(homes: seq<seq<string>>, id: string, sources: seq<nat>, targets: seq<nat>, a: nat, t: nat)
    requires NoDup(targets) && a !in sources && t in targets
    requires StartedAt(homes, id, sources, a) && MergedAt(homes, id, |sources|, targets, Some(t))
    ensures LandsOnce(homes, id)
  {
    var k :| 0 <= k < |targets| && targets[k] == t;
    forall h | 0 <= h < |homes| && id in homes[h] ensures h == |sources| + k {
      if h >= |sources| { MergedAtHome(homes, id, |sources|, targets, Some(t), h); }
    }
    assert LandsIn(homes, id, |sources| + k);
  }

  lemma LandsInNone(homes: seq<seq<string>>, id: string, sources: seq<nat>, targets: seq<nat>, a: nat)
    requires a !in sources
    requires StartedAt(homes, id, sources, a) && MergedAt(homes, id, |sources|, targets, None)
    ensures LandsNowhere(homes, id)
  {
    forall h | 0 <= h < |homes| ensures id !in homes[h] {
      if h >= |sources| { MergedAtHome(homes, id, |sources|, targets, None, h); }
    }
  }

  lemma StartedHomes(c: Call, a: nat, i: nat)
    requires Member(c, a, i)
    ensures |c.started| == |c.sources| && NoDup(c.sources)
    ensures StartedAt(Homes(c.started, c.merges), c.fs[i].findingId, c.sources, a)
    ensures a in c.sources <==> TargetOf(c, a).None?
  {
    forall g | 0 <= g < |c.sources|
      ensures c.fs[i].findingId in Homes(c.started, c.merges)[g] <==> c.sources[g] == a
    {
      StartedHome(c, a, i, g);
    }
  }

  ghost predicate Taken(c: Call, a: nat, i: nat)
    requires Member(c, a, i)
  {
    TargetOf(c, a).Some? && !Held(Candidates(c.stored)[TargetOf(c, a).value].findings, c.fs[i])
  }

  /** The merge that takes a finding, if one does. */
  ghost function TakenBy(c: Call, a: nat, i: nat): Option<nat>
    requires Member(c, a, i)
  {
    if Taken(c, a, i) then TargetOf(c, a) else None
  }

  lemma MergesMatch(c: Call)
    requires Result(c)
    ensures |c.merges| == |c.targets| && NoDup(c.targets)
  {
  }

  lemma TakenByIs(c: Call, a: nat, i: nat, t: nat)
    requires Member(c, a, i) && t < |Candidates(c.stored)|
    ensures TakenBy(c, a, i) == Some(t) <==>
      TargetOf(c, a) == Some(t) && !Held(Candidates(c.stored)[t].findings, c.fs[i])
  {
  }

  lemma MergeAtHome(c: Call, a: nat, i: nat, g: nat)
    requires Member(c, a, i) && g < |c.merges| == |c.targets|
    ensures c.fs[i].findingId in Homes(c.started, c.merges)[|c.started| + g] <==>
      TakenBy(c, a, i) == Some(c.targets[g])
  {
    MergeHome(c, a, i, g);
    TakenByIs(c, a, i, c.targets[g]);
  }

  lemma MergeHomes(c: Call, a: nat, i: nat)
    requires Member(c, a, i)
    ensures |c.merges| == |c.targets| && NoDup(c.targets)
    ensures MergedAt(Homes(c.started, c.merges), c.fs[i].findingId, |c.started|, c.targets, TakenBy(c, a, i))
  {
    MergesMatch(c);
    var homes, id, taken := Homes(c.started, c.merges), c.fs[i].findingId, TakenBy(c, a, i);
    forall g | 0 <= g < |c.targets| ensures id in homes[|c.started| + g] <==> taken == Some(c.targets[g]) {
      MergeAtHome(c, a, i, g);
    }
  }

  lemma TakenIsTarget(c: Call, a: nat, i: nat)
    requires Member(c, a, i) && Taken(c, a, i)
    ensures TargetOf(c, a).value in c.targets
  {
    var t := TargetOf(c, a).value;
    MergeTakes(c.fs, c.groups, c.window, a, i, Candidates(c.stored), t);
    assert AddedTo(ClustersOf(c.fs, c.groups), Candidates(c.stored), c.window, t) != [];
  }

  lemma StartedOnce(c: Call, a: nat, i: nat)
    requires Member(c, a, i) && TargetOf(c, a).None?
    ensures LandsOnce(Homes(c.started, c.merges), c.fs[i].findingId)
  {
    StartedHomes(c, a, i);
    MergeHomes(c, a, i);
    LandsInStarted(Homes(c.started, c.merges), c.fs[i].findingId, c.sources, c.targets, a);
  }

  lemma TakenOnce(c: Call, a: nat, i: nat)
    requires Member(c, a, i) && Taken(c, a, i)
    ensures LandsOnce(Homes(c.started, c.merges), c.fs[i].findingId)
  {
    StartedHomes(c, a, i);
    MergeHomes(c, a, i);
    TakenIsTarget(c, a, i);
    LandsInMerge(Homes(c.started, c.merges), c.fs[i].findingId, c.sources, c.targets, a, TargetOf(c, a).value);
  }

  lemma RedeliveredNowhere(c: Call, a: nat, i: nat)
    requires Member(c, a, i) && TargetOf(c, a).Some? && !Taken(c, a, i)
    ensures LandsNowhere(Homes(c.started, c.merges), c.fs[i].findingId)
  {
    StartedHomes(c, a, i);
    MergeHomes(c, a, i);
    LandsInNone(Homes(c.started, c.merges), c.fs[i].findingId, c.sources, c.targets, a);
  }

  lemma NotTakenIsRedelivered(c: Call, a: nat, i: nat)
    requires Member(c, a, i) && TargetOf(c, a).Some? && !Taken(c, a, i)
    ensures Redelivered(c.stored, c.fs[i])
  {
    CandidatesFacts(c.stored);
    assert Candidates(c.stored)[TargetOf(c, a).value] in Candidates(c.stored);
  }

  /** Nothing is lost and nothing is counted twice: a finding lands in exactly one new incident or
      merge, unless it is a redelivery, which lands in none. */
  lemma EveryFindingLandsOnce(c: Call, i: nat)
    requires Result(c) && DistinctIds(c.fs) && i < |c.fs|
    ensures LandsOnce(Homes(c.started, c.merges), c.fs[i].findingId)
      || (Redelivered(c.stored, c.fs[i]) && LandsNowhere(Homes(c.started, c.merges), c.fs[i].findingId))
  {
    assert InSome(c.groups, i);
    var a :| 0 <= a < |c.groups| && i in c.groups[a];
    if TargetOf(c, a).None? {
      StartedOnce(c, a, i);
    } else if Taken(c, a, i) {
      TakenOnce(c, a, i);
    } else {
      NotTakenIsRedelivered(c, a, i);
      RedeliveredNowhere(c, a, i);
    }
  }

  ghost predicate Lands(homes: seq<seq<string>>, id: string) {
    exists h :: 0 <= h < |homes| && id in homes[h]
  }

  lemma StartedLands(c: Call, a: nat, i: nat)
    requires Result(c) && a < |c.groups| && i in c.groups[a] && i < |c.fs| && TargetOf(c, a).None?
    ensures Lands(Homes(c.started, c.merges), c.fs[i].findingId)
  {
    ClusterHas(c.fs, c.groups, c.window, a, i);
    assert a in c.sources;
    var k :| 0 <= k < |c.sources| && c.sources[k] == a;
    InStarted(ClustersOf(c.fs, c.groups)[a], c.newId(k), c.now, c.fs[i].findingId);
    assert c.fs[i].findingId in Homes(c.started, c.merges)[k];
  }

  lemma MergedLands(c: Call, t: nat, f: Finding)
    requires Result(c) && t < |Candidates(c.stored)|
      && f in AddedTo(ClustersOf(c.fs, c.groups), Candidates(c.stored), c.window, t)
    ensures Lands(Homes(c.started, c.merges), f.findingId)
  {
    var added := AddedTo(ClustersOf(c.fs, c.groups), Candidates(c.stored), c.window, t);
    var k := MergeFor(c, t);
    InAdded(added, f.findingId);
    MergeIsHome(c.started, c.merges, k, f.findingId);
  }

  lemma MergeIsHome(started: seq<Incident>, merges: seq<IncidentMerge>, k: nat, id: string)
    requires k < |merges| && id in merges[k].newFindingIds
    ensures Lands(Homes(started, merges), id)
  {
    assert Homes(started, merges)[|started| + k] == merges[k].newFindingIds;
  }

  lemma MergeFor(c: Call, t: nat) returns (k: nat)
    requires Result(c) && t < |Candidates(c.stored)|
    requires AddedTo(ClustersOf(c.fs, c.groups), Candidates(c.stored), c.window, t) != []
    ensures k < |c.merges|
    ensures c.merges[k].newFindingIds == IdsOf(AddedTo(ClustersOf(c.fs, c.groups), Candidates(c.stored), c.window, t))
  {
    assert t in c.targets;
    k :| 0 <= k < |c.targets| && c.targets[k] == t;
  }

  /** Even in a batch that lists a finding id twice, every finding lands somewhere or is a redelivery. */
  lemma FindingLands(c: Call, i: nat)
    requires Result(c) && i < |c.fs|
    ensures Lands(Homes(c.started, c.merges), c.fs[i].findingId) || Redelivered(c.stored, c.fs[i])
  {
    assert InSome(c.groups, i);
    var a :| 0 <= a < |c.groups| && i in c.groups[a];
    if TargetOf(c, a).None? {
      StartedLands(c, a, i);
    } else {
      var candidates, t := Candidates(c.stored), TargetOf(c, a).value;
      ClusterHas(c.fs, c.groups, c.window, a, i);
      CandidatesFacts(c.stored);
      assert candidates[t] in candidates;
      if !Held(candidates[t].findings, c.fs[i]) {
        NewForMembers(ClustersOf(c.fs, c.groups), candidates, c.window, t, c.fs[i]);
        MergedLands(c, t, c.fs[i]);
      }
    }
  }
}
