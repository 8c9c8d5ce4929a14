/** `merge_into_stored` of src/autosiem/risk.py: clusters join the stored incident they link to. */
module Merging {
  import opened Common
  import opened Schemas
  import opened Sorting
  import opened Correlation
  import opened Incidents

  // ----- which incident a cluster joins -----

  /** Python's string order, by code point. */
  predicate TextLess(a: string, b: string) {
    if b == "" then false
    else if a == "" then true
    else a[0] < b[0] || (a[0] == b[0] && TextLess(a[1..], b[1..]))
  }

  lemma {:induction false} TextLessTotal(a: string, b: string)
    ensures !TextLess(a, b) && !TextLess(b, a) ==> a == b
    ensures !(TextLess(a, b) && TextLess(b, a))
  {
    if a != "" && b != "" {
      TextLessTotal(a[1..], b[1..]);
      assert a == [a[0]] + a[1..] && b == [b[0]] + b[1..];
    }
  }

  lemma {:induction false} TextLessTrans(a: string, b: string, c: string)
    requires TextLess(a, b) && TextLess(b, c)
    ensures TextLess(a, c)
  {
    if a != "" && a[0] == b[0] == c[0] { TextLessTrans(a[1..], b[1..], c[1..]); }
  }

  /** Highest risk first, then the oldest, then by id. */
  predicate Precedes(x: StoredIncident, y: StoredIncident) {
    var a, b := x.incident, y.incident;
    || a.riskScore > b.riskScore
    || (a.riskScore == b.riskScore && a.createdAt < b.createdAt)
    || (a.riskScore == b.riskScore && a.createdAt == b.createdAt && TextLess(a.incidentId, b.incidentId))
  }

  lemma NotAfterTrans(x: StoredIncident, y: StoredIncident, z: StoredIncident)
    requires !Precedes(y, x) && !Precedes(z, y)
    ensures !Precedes(z, x)
  {
    var a, b, c := x.incident.incidentId, y.incident.incidentId, z.incident.incidentId;
    TextLessTotal(a, b);
    TextLessTotal(b, c);
    if TextLess(a, b) && TextLess(b, c) { TextLessTrans(a, b, c); }
    TextLessTotal(a, c);
  }

  function InsertItem(s: seq<StoredIncident>, x: StoredIncident): seq<StoredIncident> {
    if s == [] then [x]
    else if !Precedes(x, s[|s| - 1]) then s + [x]
    else InsertItem(s[..|s| - 1], x) + [s[|s| - 1]]
  }

  /** The stored incidents that still take findings, in the order they are tried. */
  function Candidates(stored: seq<StoredIncident>): seq<StoredIncident> {
    if stored == [] then []
    else
      var rest, last := Candidates(stored[..|stored| - 1]), stored[|stored| - 1];
      if |last.incident.findingIds| < MAX_INCIDENT_FINDINGS then InsertItem(rest, last) else rest
  }

  ghost predicate InTurn(s: seq<StoredIncident>) {
    forall i, j :: 0 <= i < j < |s| ==> !Precedes(s[j], s[i])
  }

  lemma {:induction false} InsertInTurn(s: seq<StoredIncident>, x: StoredIncident)
    requires InTurn(s)
    ensures InTurn(InsertItem(s, x)) && multiset(InsertItem(s, x)) == multiset(s) + multiset{x}
  {
    if s == [] {
    } else if !Precedes(x, s[|s| - 1]) {
      forall i | 0 <= i < |s| ensures !Precedes(x, s[i]) {
        if i < |s| - 1 { NotAfterTrans(s[i], s[|s| - 1], x); }
      }
    } else {
      var init, last := s[..|s| - 1], s[|s| - 1];
      assert s == init + [last];
      InsertInTurn(init, x);
      var r := InsertItem(init, x);
      TextLessTotal(x.incident.incidentId, last.incident.incidentId);
      forall i | 0 <= i < |r| ensures !Precedes(last, r[i]) {
        assert r[i] in multiset(r);
        assert r[i] == x || r[i] in init;
      }
    }
  }

  /** Candidates are exactly the stored incidents with room, tried in turn. */
  lemma {:induction false} CandidatesFacts(stored: seq<StoredIncident>)
    ensures InTurn(Candidates(stored))
    ensures forall x :: x in Candidates(stored) <==> x in stored && |x.incident.findingIds| < MAX_INCIDENT_FINDINGS
    ensures multiset(Candidates(stored)) <= multiset(stored)
  {
    if stored != [] {
      var init, last := stored[..|stored| - 1], stored[|stored| - 1];
      assert stored == init + [last];
      CandidatesFacts(init);
      InsertInTurn(Candidates(init), last);
      forall x ensures x in Candidates(stored) <==> x in stored && |x.incident.findingIds| < MAX_INCIDENT_FINDINGS {
        assert x in Candidates(stored) <==> x in multiset(Candidates(stored));
      }
    }
  }

  /** The first candidate the cluster links to. */
  ghost function Target(cluster: seq<Finding>, candidates: seq<StoredIncident>, window: int): (r: Option<nat>)
    ensures r.Some? ==> r.value < |candidates|
  {
    if candidates == [] then None
    else
      var rest := Target(cluster, candidates[..|candidates| - 1], window);
      if rest.Some? then rest
      else if LinkedTo(cluster, candidates[|candidates| - 1].findings, window) then Some(|candidates| - 1)
      else None
  }

  lemma {:induction false} TargetLinks(cluster: seq<Finding>, candidates: seq<StoredIncident>, window: int)
    requires Target(cluster, candidates, window).Some?
    ensures LinkedTo(cluster, candidates[Target(cluster, candidates, window).value].findings, window)
  {
    var init := candidates[..|candidates| - 1];
    if Target(cluster, init, window).Some? { TargetLinks(cluster, init, window); }
  }

  /** No candidate it links to comes before the one it joins. */
  lemma {:induction false} TargetIsFirst(cluster: seq<Finding>, candidates: seq<StoredIncident>, window: int, i: nat)
    requires i < |candidates| && LinkedTo(cluster, candidates[i].findings, window)
    ensures Target(cluster, candidates, window).Some? && Target(cluster, candidates, window).value <= i
  {
    if i < |candidates| - 1 { TargetIsFirst(cluster, candidates[..|candidates| - 1], window, i); }
  }

  lemma NotBeforeItself(x: StoredIncident)
    ensures !Precedes(x, x)
  {
    TextLessTotal(x.incident.incidentId, x.incident.incidentId);
  }

  lemma {:induction false} FirstOutranks(cluster: seq<Finding>, candidates: seq<StoredIncident>, window: int, i: nat)
    requires InTurn(candidates) && i < |candidates| && LinkedTo(cluster, candidates[i].findings, window)
    ensures Target(cluster, candidates, window).Some?
    ensures !Precedes(candidates[i], candidates[Target(cluster, candidates, window).value])
  {
    TargetIsFirst(cluster, candidates, window, i);
    NotBeforeItself(candidates[i]);
  }

  /** A cluster joins a linked incident with room that no other such incident outranks. */
  lemma {:induction false} JoinsHighestRisk(cluster: seq<Finding>, stored: seq<StoredIncident>, window: int,
          x: StoredIncident)
    requires x in stored && |x.incident.findingIds| < MAX_INCIDENT_FINDINGS && LinkedTo(cluster, x.findings, window)
    ensures Target(cluster, Candidates(stored), window).Some?
    ensures var item := Candidates(stored)[Target(cluster, Candidates(stored), window).value];
      item in stored && LinkedTo(cluster, item.findings, window) && !Precedes(x, item)
  {
    CandidatesFacts(stored);
    var candidates := Candidates(stored);
    assert x in candidates;
    var i :| 0 <= i < |candidates| && candidates[i] == x;
    FirstOutranks(cluster, candidates, window, i);
    TargetLinks(cluster, candidates, window);
    assert candidates[Target(cluster, candidates, window).value] in candidates;
  }

  // ----- what is added to it -----

  /** A finding for a rule and event that is already held is a redelivery. */
  predicate Held(findings: seq<Finding>, f: Finding) {
    exists k :: 0 <= k < |findings| && findings[k].ruleId == f.ruleId && findings[k].eventId == f.eventId
  }

  function Added(held: seq<Finding>, new_: seq<Finding>): (r: seq<Finding>)
    ensures forall f :: f in r <==> f in new_ && !Held(held, f)
  {
    if new_ == [] then []
    else
      assert new_ == new_[..|new_| - 1] + [new_[|new_| - 1]];
      var rest := Added(held, new_[..|new_| - 1]);
      if Held(held, new_[|new_| - 1]) then rest else rest + [new_[|new_| - 1]]
  }

  function MergeOf(item: StoredIncident, added: seq<Finding>): IncidentMerge {
    var combined := InTime(item.findings + added);
    IncidentMerge(
      IncidentFrom(combined, item.incident.incidentId, item.incident.createdAt),
      item.incident,
      combined,
      IdsOf(added))
  }

  /** Everything that joins candidate `i`. */
  ghost function NewFor(clusters: seq<seq<Finding>>, candidates: seq<StoredIncident>, window: int, i: nat): seq<Finding>
  {
    if clusters == [] then []
    else
      var rest, last := NewFor(clusters[..|clusters| - 1], candidates, window, i), clusters[|clusters| - 1];
      if Target(last, candidates, window) == Some(i) then rest + last else rest
  }

  lemma {:induction false} NewForMembers(clusters: seq<seq<Finding>>, candidates: seq<StoredIncident>, window: int,
          i: nat, f: Finding)
    ensures f in NewFor(clusters, candidates, window, i) <==>
      exists a :: 0 <= a < |clusters| && Target(clusters[a], candidates, window) == Some(i) && f in clusters[a]
  {
    if clusters != [] {
      var init, last := clusters[..|clusters| - 1], clusters[|clusters| - 1];
      assert forall a :: 0 <= a < |init| ==> init[a] == clusters[a];
      NewForMembers(init, candidates, window, i, f);
      if f in NewFor(init, candidates, window, i) {
        var a :| 0 <= a < |init| && Target(init[a], candidates, window) == Some(i) && f in init[a];
        assert Target(clusters[a], candidates, window) == Some(i);
      }
    }
  }

  ghost function AddedTo(clusters: seq<seq<Finding>>, candidates: seq<StoredIncident>, window: int,
          i: nat): seq<Finding>
  {
    if i < |candidates| then Added(candidates[i].findings, NewFor(clusters, candidates, window, i)) else []
  }

  // ----- the result -----

  /** The clusters that join nothing become new incidents, in order; `sources` are their positions. */
  ghost predicate Opens(clusters: seq<seq<Finding>>, candidates: seq<StoredIncident>, window: int, newId: nat -> string,
          now: int, started: seq<Incident>, sources: seq<nat>)
  {
    && |started| == |sources|
    && (forall k :: 0 <= k < |sources| ==> sources[k] < |clusters|)
    && (forall j, k :: 0 <= j < k < |sources| ==> sources[j] < sources[k])
    && (forall a :: 0 <= a < |clusters| ==> (a in sources <==> Target(clusters[a], candidates, window).None?))
    && forall k :: 0 <= k < |started| ==> started[k] == IncidentFrom(clusters[sources[k]], newId(k), now)
  }

  /** Each incident that gains something is merged once; `targets` are their positions. */
  ghost predicate Extends(clusters: seq<seq<Finding>>, candidates: seq<StoredIncident>, window: int,
          merges: seq<IncidentMerge>, targets: seq<nat>)
  {
    && |merges| == |targets| && NoDup(targets)
    && (forall k :: 0 <= k < |targets| ==> targets[k] < |candidates|)
    && (forall i :: 0 <= i < |candidates| ==> (i in targets <==> AddedTo(clusters, candidates, window, i) != []))
    && forall k :: 0 <= k < |merges| ==>
      merges[k] == MergeOf(candidates[targets[k]], AddedTo(clusters, candidates, window, targets[k]))
  }

  lemma {:induction false} NewForSnoc(clusters: seq<seq<Finding>>, cluster: seq<Finding>,
          candidates: seq<StoredIncident>, window: int, i: nat)
    ensures NewFor(clusters + [cluster], candidates, window, i) ==
      NewFor(clusters, candidates, window, i) + (if Target(cluster, candidates, window) == Some(i) then cluster else [])
  {
    assert (clusters + [cluster])[..|clusters|] == clusters;
    assert NewFor(clusters, candidates, window, i) + [] == NewFor(clusters, candidates, window, i);
  }

  /** Who has a target among the clusters so far is not changed by one more. */
  lemma OpensAt(clusters: seq<seq<Finding>>, cluster: seq<Finding>, candidates: seq<StoredIncident>, window: int,
          sources: seq<nat>, a: nat)
    requires forall k :: 0 <= k < |sources| ==> sources[k] < |clusters|
    requires forall b :: 0 <= b < |clusters| ==> (b in sources <==> Target(clusters[b], candidates, window).None?)
    requires a < |clusters| + 1
    ensures var n, open := |clusters|, Target(cluster, candidates, window).None?;
      a in (if open then sources + [n] else sources) <==> Target((clusters + [cluster])[a], candidates, window).None?
  {
    if a < |clusters| { assert (clusters + [cluster])[a] == clusters[a]; }
  }

  /** A cluster without a target opens an incident of its own. */
  lemma {:induction false} OpensOneMore(clusters: seq<seq<Finding>>, cluster: seq<Finding>,
          candidates: seq<StoredIncident>, window: int, newId: nat -> string, now: int, started: seq<Incident>,
          sources: seq<nat>)
    requires Opens(clusters, candidates, window, newId, now, started, sources)
    requires Target(cluster, candidates, window).None?
    ensures Opens(clusters + [cluster], candidates, window, newId, now,
      started + [IncidentFrom(cluster, newId(|started|), now)], sources + [|clusters|])
  {
    var more, n := clusters + [cluster], |clusters|;
    forall a | 0 <= a < |more| ensures a in sources + [n] <==> Target(more[a], candidates, window).None? {
      OpensAt(clusters, cluster, candidates, window, sources, a);
    }
    forall k | 0 <= k < |started| ensures started[k] == IncidentFrom(more[sources[k]], newId(k), now) {
      assert more[sources[k]] == clusters[sources[k]];
    }
  }

  lemma {:induction false} OpensNoMore(clusters: seq<seq<Finding>>, cluster: seq<Finding>,
          candidates: seq<StoredIncident>, window: int, newId: nat -> string, now: int, started: seq<Incident>,
          sources: seq<nat>)
    requires Opens(clusters, candidates, window, newId, now, started, sources)
    requires Target(cluster, candidates, window).Some?
    ensures Opens(clusters + [cluster], candidates, window, newId, now, started, sources)
  {
    var more := clusters + [cluster];
    forall a | 0 <= a < |more| ensures a in sources <==> Target(more[a], candidates, window).None? {
      OpensAt(clusters, cluster, candidates, window, sources, a);
    }
    forall k | 0 <= k < |started| ensures started[k] == IncidentFrom(more[sources[k]], newId(k), now) {
      assert more[sources[k]] == clusters[sources[k]];
    }
  }

  /** One timetable for each candidate. */
  ghost predicate InTables(candidates: seq<StoredIncident>, times: seq<map<string, seq<int>>>) {
    |times| == |candidates| && forall i :: 0 <= i < |times| ==> InTable(candidates[i].findings, times[i])
  }

  ghost predicate InTable(findings: seq<Finding>, times: map<string, seq<int>>) {
    Timetable(findings, times) && forall e :: e in times ==> Ascending(times[e], Itself)
  }

  method FindTarget(cluster: seq<Finding>, candidates: seq<StoredIncident>, times: seq<map<string, seq<int>>>,
          window: int)
    returns (t: Option<nat>)
    requires InTables(candidates, times)
    ensures t == Target(cluster, candidates, window)
  {
    for i := 0 to |candidates|
      invariant Target(cluster, candidates[..i], window).None?
    {
      assert InTable(candidates[i].findings, times[i]);
      var yes := Linked(cluster, times[i], window, candidates[i].findings);
      assert candidates[..i + 1][..i] == candidates[..i];
      if yes {
        TargetPrefix(cluster, candidates, window, i);
        return Some(i);
      }
    }
    assert candidates[..|candidates|] == candidates;
    t := None;
  }

  lemma {:induction false} TargetPrefix(cluster: seq<Finding>, candidates: seq<StoredIncident>, window: int, i: nat)
    requires i < |candidates| && Target(cluster, candidates[..i], window).None?
    requires LinkedTo(cluster, candidates[i].findings, window)
    ensures Target(cluster, candidates, window) == Some(i)
    decreases |candidates|
  {
    if i == |candidates| - 1 {
    } else {
      var init := candidates[..|candidates| - 1];
      assert init[..i] == candidates[..i] && init[i] == candidates[i];
      TargetPrefix(cluster, init, window, i);
    }
  }

  method Timetables(candidates: seq<StoredIncident>) returns (times: seq<map<string, seq<int>>>)
    ensures InTables(candidates, times)
  {
    times := [];
    for i := 0 to |candidates|
      invariant InTables(candidates[..i], times)
    {
      var one := EntityTimes(candidates[i].findings);
      times := times + [one];
      assert candidates[..i + 1] == candidates[..i] + [candidates[i]];
    }
    assert candidates[..|candidates|] == candidates;
  }

  function Gain(joined: map<nat, seq<Finding>>, i: nat): seq<Finding> {
    if i in joined then joined[i] else []
  }

  ghost predicate KeysOf(candidates: seq<StoredIncident>, keys: seq<nat>, joined: map<nat, seq<Finding>>) {
    NoDup(keys) && (forall i :: i in keys <==> i in joined) && forall i :: i in keys ==> i < |candidates|
  }

  /** `joined` holds what each candidate gains; `keys` are the candidates met, in order. */
  ghost predicate Joined(clusters: seq<seq<Finding>>, candidates: seq<StoredIncident>, window: int, keys: seq<nat>,
          joined: map<nat, seq<Finding>>)
  {
    && KeysOf(candidates, keys, joined)
    && forall i: nat :: NewFor(clusters, candidates, window, i) == Gain(joined, i)
  }

  lemma KeysSnoc(candidates: seq<StoredIncident>, keys: seq<nat>, joined: map<nat, seq<Finding>>, i: nat,
          all: seq<Finding>)
    requires KeysOf(candidates, keys, joined) && i < |candidates|
    ensures KeysOf(candidates, if i in joined then keys else keys + [i], joined[i := all])
  {
    var more := if i in joined then keys else keys + [i];
    assert forall j :: j in more <==> j in keys || j == i;
  }

  lemma {:induction false} JoinedSnoc(clusters: seq<seq<Finding>>, cluster: seq<Finding>,
          candidates: seq<StoredIncident>, window: int, keys: seq<nat>, joined: map<nat, seq<Finding>>)
    requires Joined(clusters, candidates, window, keys, joined)
    ensures var t := Target(cluster, candidates, window);
      if t.None? then Joined(clusters + [cluster], candidates, window, keys, joined)
      else Joined(clusters + [cluster], candidates, window, if t.value in joined then keys else keys + [t.value],
        joined[t.value := Gain(joined, t.value) + cluster])
  {
    var t := Target(cluster, candidates, window);
    var more := if t.None? then joined else joined[t.value := Gain(joined, t.value) + cluster];
    if t.Some? { KeysSnoc(candidates, keys, joined, t.value, Gain(joined, t.value) + cluster); }
    forall i: nat ensures NewFor(clusters + [cluster], candidates, window, i) == Gain(more, i) {
      NewForSnoc(clusters, cluster, candidates, window, i);
      assert NewFor(clusters, candidates, window, i) == Gain(joined, i);
      assert Gain(joined, i) + [] == Gain(joined, i);
    }
  }

  method SortClusters(clusters: seq<seq<Finding>>, candidates: seq<StoredIncident>, window: int, newId: nat -> string,
          now: int)
    returns (started: seq<Incident>, sources: seq<nat>, keys: seq<nat>, joined: map<nat, seq<Finding>>)
    ensures Opens(clusters, candidates, window, newId, now, started, sources)
    ensures Joined(clusters, candidates, window, keys, joined)
  {
    var times := Timetables(candidates);
    started, sources, keys, joined := [], [], [], map[];
    for n := 0 to |clusters|
      invariant Opens(clusters[..n], candidates, window, newId, now, started, sources)
      invariant Joined(clusters[..n], candidates, window, keys, joined)
    {
      var cluster := clusters[n];
      var t := FindTarget(cluster, candidates, times, window);
      JoinedSnoc(clusters[..n], cluster, candidates, window, keys, joined);
      assert clusters[..n + 1] == clusters[..n] + [cluster];
      if t.None? {
        OpensOneMore(clusters[..n], cluster, candidates, window, newId, now, started, sources);
        started := started + [IncidentFrom(cluster, newId(|started|), now)];
        sources := sources + [n];
      } else {
        OpensNoMore(clusters[..n], cluster, candidates, window, newId, now, started, sources);
        if t.value !in joined { keys := keys + [t.value]; }
        joined := joined[t.value := Gain(joined, t.value) + cluster];
      }
    }
    assert clusters[..|clusters|] == clusters;
  }

  /** The merges so far are those of the incidents in `done`. */
  ghost predicate ExtendsOf(clusters: seq<seq<Finding>>, candidates: seq<StoredIncident>, window: int, done: seq<nat>,
          merges: seq<IncidentMerge>, targets: seq<nat>)
  {
    && |merges| == |targets| && NoDup(targets)
    && (forall i :: i in targets <==> i in done && AddedTo(clusters, candidates, window, i) != [])
    && (forall k :: 0 <= k < |targets| ==> targets[k] < |candidates|)
    && forall k :: 0 <= k < |merges| ==>
      merges[k] == MergeOf(candidates[targets[k]], AddedTo(clusters, candidates, window, targets[k]))
  }

  lemma ExtendsOfSnoc(clusters: seq<seq<Finding>>, candidates: seq<StoredIncident>, window: int, done: seq<nat>,
          merges: seq<IncidentMerge>, targets: seq<nat>, i: nat)
    requires ExtendsOf(clusters, candidates, window, done, merges, targets) && i !in done && i < |candidates|
    ensures var added := AddedTo(clusters, candidates, window, i);
      if added == [] then ExtendsOf(clusters, candidates, window, done + [i], merges, targets)
      else
        ExtendsOf(clusters, candidates, window, done + [i], merges + [MergeOf(candidates[i], added)], targets + [i])
  {
  }

  lemma AllExtended(clusters: seq<seq<Finding>>, candidates: seq<StoredIncident>, window: int, keys: seq<nat>,
          joined: map<nat, seq<Finding>>, merges: seq<IncidentMerge>, targets: seq<nat>)
    requires Joined(clusters, candidates, window, keys, joined)
    requires ExtendsOf(clusters, candidates, window, keys, merges, targets)
    ensures Extends(clusters, candidates, window, merges, targets)
  {
    forall i | 0 <= i < |candidates| && AddedTo(clusters, candidates, window, i) != [] ensures i in targets {
      assert NewFor(clusters, candidates, window, i) == Gain(joined, i);
    }
  }

  method MergeJoined(clusters: seq<seq<Finding>>, candidates: seq<StoredIncident>, window: int, keys: seq<nat>,
          joined: map<nat, seq<Finding>>)
    returns (merges: seq<IncidentMerge>, targets: seq<nat>)
    requires Joined(clusters, candidates, window, keys, joined)
    ensures Extends(clusters, candidates, window, merges, targets)
  {
    merges, targets := [], [];
    for n := 0 to |keys|
      invariant ExtendsOf(clusters, candidates, window, keys[..n], merges, targets)
    {
      var i := keys[n];
      assert i in keys && i !in keys[..n];
      var added := Added(candidates[i].findings, joined[i]);
      assert NewFor(clusters, candidates, window, i) == Gain(joined, i);
      ExtendsOfSnoc(clusters, candidates, window, keys[..n], merges, targets, i);
      assert keys[..n + 1] == keys[..n] + [i];
      if added != [] {
        merges := merges + [MergeOf(candidates[i], added)];
        targets := targets + [i];
      }
    }
    assert keys[..|keys|] == keys;
    AllExtended(clusters, candidates, window, keys, joined, merges, targets);
  }

  function ClustersOf(fs: seq<Finding>, groups: seq<seq<nat>>): (r: seq<seq<Finding>>)
    requires Chronological(fs, groups)
    ensures |r| == |groups| && forall a :: 0 <= a < |r| ==> r[a] == Pick(fs, groups[a])
  {
    seq(|groups|, a requires 0 <= a < |groups| => Pick(fs, groups[a]))
  }

  /** What a result must be, given the clusters. */
  ghost predicate MergedInto(clusters: seq<seq<Finding>>, stored: seq<StoredIncident>, window: int,
          newId: nat -> string, now: int, started: seq<Incident>, merges: seq<IncidentMerge>, sources: seq<nat>,
          targets: seq<nat>)
  {
    && Opens(clusters, Candidates(stored), window, newId, now, started, sources)
    && Extends(clusters, Candidates(stored), window, merges, targets)
  }

  method MergeIntoStored(fs: seq<Finding>, stored: seq<StoredIncident>, window: int, newId: nat -> string, now: int)
    returns (started: seq<Incident>, merges: seq<IncidentMerge>, groups: seq<seq<nat>>, sources: seq<nat>,
      targets: seq<nat>)
    ensures Clustered(fs, window, groups)
    ensures MergedInto(ClustersOf(fs, groups), stored, window, newId, now, started, merges, sources, targets)
  {
    var candidates := Candidates(stored);
    var clusters;
    clusters, groups := CorrelateFindings(fs, window);
    assert clusters == ClustersOf(fs, groups);
    var keys, joined;
    started, sources, keys, joined := SortClusters(clusters, candidates, window, newId, now);
    merges, targets := MergeJoined(clusters, candidates, window, keys, joined);
  }
}
