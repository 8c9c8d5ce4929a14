/** A run in which a verdict between a read and its save splits a story: one finding connects two others,
    its incident is closed before they are merged into it, and they open an incident without it. */
module IncidentVerdicts {
  import opened Common
  import opened Schemas
  import opened Sorting
  import opened Correlation
  import opened Incidents
  import opened Merging
  import opened MergeStories
  import opened MergeLanding
  import opened IncidentStore
  import opened IncidentGuards
  import opened IncidentRuns
  import opened IncidentStories

  /** `h` shares a real entity with `f` and another with `g`, inside the window; `f` and `g` do not. */
  ghost predicate Bridges(h: Finding, f: Finding, g: Finding, window: int) {
    && f.timestamp <= g.timestamp && !Near(f, g, window)
    && LinkedTo([f], [h], window) && LinkedTo([g], [h], window)
    && f.findingId != g.findingId && f.findingId != h.findingId && g.findingId != h.findingId
    && !Held([h], f) && !Held([h], g)
  }

  const FIRST := "incident-1"
  const SECOND := "incident-2"

  function OneName(name: string): nat -> string {
    k => name
  }

  // ----- the two calls -----

  /** The first batch is `h` alone, and opens an incident. */
  function FirstCall(h: Finding, window: int): Call {
    Call([h], [[0]], [], window, OneName(FIRST), 0, [IncidentFrom([h], FIRST, 0)], [], [0], [])
  }

  function Target(h: Finding): StoredIncident {
    StoredIncident(IncidentFrom([h], FIRST, 0), [h])
  }

  /** The second is `f` and `g`, two clusters that both join it. */
  function SecondCall(h: Finding, f: Finding, g: Finding, window: int): Call {
    Call([f, g], [[0], [1]], [Target(h)], window, OneName(SECOND), 0, [], [MergeOf(Target(h), [f, g])], [], [0])
  }

  lemma OneCluster(h: Finding, window: int)
    ensures Clustered([h], window, [[0]]) && ClustersOf([h], [[0]]) == [[h]]
  {
    ConnectedSelf([h], window, 0);
    assert 0 in [[0]][0];
    assert InSome([[0]], 0);
    assert Pick([h], [0]) == [h];
  }

  lemma FirstResult(h: Finding, window: int)
    ensures Result(FirstCall(h, window))
  {
    OneCluster(h, window);
    assert 0 in FirstCall(h, window).sources;
  }

  lemma NearBack(f: Finding, g: Finding, window: int)
    ensures Near(f, g, window) <==> Near(g, f, window)
  {
  }

  /** A path over two findings that are not near each other stays where it starts. */
  lemma StaysPut(f: Finding, g: Finding, window: int, path: seq<nat>, k: nat)
    requires !Near(f, g, window) && IsPath([f, g], window, path) && k < |path|
    ensures path[k] == path[0]
  {
    NearBack(f, g, window);
    if k > 0 {
      StaysPut(f, g, window, path, k - 1);
      assert Near([f, g][path[k - 1]], [f, g][path[k - 1 + 1]], window);
    }
  }

  lemma Apart(f: Finding, g: Finding, window: int, i: nat, j: nat)
    requires !Near(f, g, window) && Connected([f, g], window, i, j)
    ensures i == j
  {
    var path :| IsPath([f, g], window, path) && path[0] == i && path[|path| - 1] == j;
    StaysPut(f, g, window, path, |path| - 1);
  }

  lemma OwnGroups(f: Finding, g: Finding, window: int)
    requires !Near(f, g, window)
    ensures Separated([f, g], window, [[0], [1]]) && InSome([[0], [1]], 0) && InSome([[0], [1]], 1)
  {
    var groups := [[0], [1]];
    assert 0 in groups[0] && 1 in groups[1];
    ConnectedSelf([f, g], window, 0);
    ConnectedSelf([f, g], window, 1);
    forall a, b, i, j | 0 <= a < |groups| && 0 <= b < |groups| && i in groups[a] && j in groups[b]
      ensures a == b <==> Connected([f, g], window, i, j)
    {
      assert i == a && j == b;
      if Connected([f, g], window, i, j) { Apart(f, g, window, i, j); }
    }
  }

  lemma TwoClusters(f: Finding, g: Finding, window: int)
    requires f.timestamp <= g.timestamp && !Near(f, g, window)
    ensures Clustered([f, g], window, [[0], [1]]) && ClustersOf([f, g], [[0], [1]]) == [[f], [g]]
  {
    OwnGroups(f, g, window);
    assert Pick([f, g], [0]) == [f] && Pick([f, g], [1]) == [g];
  }

  lemma {:induction false} OneCandidate(x: StoredIncident, cluster: seq<Finding>, window: int)
    requires |x.incident.findingIds| < MAX_INCIDENT_FINDINGS && LinkedTo(cluster, x.findings, window)
    ensures Candidates([x]) == [x] && Merging.Target(cluster, [x], window) == Some(0)
  {
    assert [x][..0] == [];
    assert Candidates([]) == [];
    assert InsertItem([], x) == [x];
  }

  lemma BothAdded(h: Finding, f: Finding, g: Finding)
    requires !Held([h], f) && !Held([h], g)
    ensures Added([h], [f, g]) == [f, g]
  {
    assert [f, g][..1] == [f] && [f][..0] == [];
    assert Added([h], []) == [];
    assert [] + [f] == [f];
    assert Added([h], [f]) == [f];
    assert [f] + [g] == [f, g];
  }

  lemma {:induction false} BothJoin(f: Finding, g: Finding, x: StoredIncident, window: int)
    requires Merging.Target([f], [x], window) == Some(0) && Merging.Target([g], [x], window) == Some(0)
    ensures NewFor([[f], [g]], [x], window, 0) == [f, g]
  {
    assert [[f], [g]][..1] == [[f]] && [[f]][..0] == [];
    assert NewFor([], [x], window, 0) == [];
    assert [] + [f] == [f];
    assert NewFor([[f]], [x], window, 0) == [f];
    assert [f] + [g] == [f, g];
  }

  lemma SecondResult(h: Finding, f: Finding, g: Finding, window: int)
    requires Bridges(h, f, g, window)
    ensures Result(SecondCall(h, f, g, window))
  {
    var x, clusters := Target(h), [[f], [g]];
    TwoClusters(f, g, window);
    InTimeMembers([h]);
    OneCandidate(x, [f], window);
    OneCandidate(x, [g], window);
    BothJoin(f, g, x, window);
    BothAdded(h, f, g);
    assert AddedTo(clusters, [x], window, 0) == [f, g];
    NothingOpens(f, g, x, window, OneName(SECOND));
    OneMerge(clusters, x, window, [f, g]);
  }

  lemma {:induction false} NothingOpens(f: Finding, g: Finding, x: StoredIncident, window: int, newId: nat -> string)
    requires Merging.Target([f], [x], window) == Some(0) && Merging.Target([g], [x], window) == Some(0)
    ensures Opens([[f], [g]], [x], window, newId, 0, [], [])
  {
    assert forall a :: 0 <= a < |[[f], [g]]| ==> [[f], [g]][a] == [f] || [[f], [g]][a] == [g];
  }

  lemma OneMerge(clusters: seq<seq<Finding>>, x: StoredIncident, window: int, added: seq<Finding>)
    requires AddedTo(clusters, [x], window, 0) == added && added != []
    ensures Merging.Extends(clusters, [x], window, [MergeOf(x, added)], [0])
  {
    var targets: seq<nat> := [0];
    assert targets[0] in targets && [x][0] == x;
  }

  // ----- the run -----

  function ItemsOfFirst(h: Finding): seq<Item> {
    [Item(IncidentFrom([h], FIRST, 0), None)]
  }

  function ItemsOfSecond(h: Finding, f: Finding, g: Finding): seq<Item> {
    [Item(MergeOf(Target(h), [f, g]).incident, Some([f.findingId, g.findingId]))]
  }

  lemma SingleItem(item: Item)
    ensures Sorted([item], Rank) == [item]
  {
    assert [item][..0] == [];
    assert Sorted([], Rank) == [];
  }

  lemma CallItems(h: Finding, f: Finding, g: Finding, window: int)
    ensures ItemsOf(FirstCall(h, window)) == ItemsOfFirst(h)
    ensures ItemsOf(SecondCall(h, f, g, window)) == ItemsOfSecond(h, f, g)
  {
    var d := SecondCall(h, f, g, window);
    FirstItems(h, window);
    assert IdsOf([f, g]) == [f.findingId, g.findingId];
    assert MergeItems(d.merges) == ItemsOfSecond(h, f, g);
    assert StartedItems(d.started) + MergeItems(d.merges) == ItemsOfSecond(h, f, g);
    SingleItem(ItemsOfSecond(h, f, g)[0]);
  }

  lemma FirstItems(h: Finding, window: int)
    ensures ItemsOf(FirstCall(h, window)) == ItemsOfFirst(h)
  {
    var c := FirstCall(h, window);
    assert StartedItems(c.started) == ItemsOfFirst(h);
    assert StartedItems(c.started) + MergeItems(c.merges) == ItemsOfFirst(h);
    SingleItem(ItemsOfFirst(h)[0]);
  }

  const EMPTY := Store(map[], map[])

  function FirstIncident(h: Finding): Incident {
    IncidentFrom([h], FIRST, 0)
  }

  function AfterFirst(h: Finding, status: Status): Store {
    Store(map[h.findingId := h], map[FIRST := Row(FirstIncident(h), status, None, None)])
  }

  function AfterSecond(h: Finding, f: Finding, g: Finding): Store {
    Save(AfterFirst(h, Closed), [f, g], ItemsOfSecond(h, f, g), OneName(SECOND), 0)
  }

  /** Empty; `h` saved; its incident closed; `f` and `g` saved. */
  function States(h: Finding, f: Finding, g: Finding): seq<Store> {
    [EMPTY, AfterFirst(h, Open), AfterFirst(h, Closed), AfterSecond(h, f, g)]
  }

  /** The second pipeline reads after the first save, and saves after the verdict. */
  function Steps(h: Finding, f: Finding, g: Finding, window: int): seq<Step> {
    [Step.Saved(FirstCall(h, window), 0, OneName(SECOND), 0),
     Triaged(FIRST, Some(Closed), None, None),
     Step.Saved(SecondCall(h, f, g, window), 1, OneName(SECOND), 0)]
  }

  lemma FirstSaves(h: Finding)
    ensures Save(EMPTY, [h], ItemsOfFirst(h), OneName(SECOND), 0) == AfterFirst(h, Open)
  {
    assert [h][..0] == [] && ItemsOfFirst(h)[..0] == [];
    assert InsertFindings(map[], []) == map[];
    assert InsertFindings(map[], [h]) == map[h.findingId := h];
    var inserted := Inserted(EMPTY, [h]);
    assert SaveItems(inserted, [h], [], OneName(SECOND), 0) == inserted;
    assert Save(EMPTY, [h], ItemsOfFirst(h), OneName(SECOND), 0) == InsertIncident(inserted, FirstIncident(h));
    assert map[FIRST := Row(FirstIncident(h), Open, None, None)]
      == inserted.rows[FIRST := Row(FirstIncident(h), Open, None, None)];
  }

  lemma FirstFits(h: Finding, f: Finding, g: Finding, window: int)
    ensures StepFits(States(h, f, g), 0, Steps(h, f, g, window)[0])
  {
    FirstResult(h, window);
    CallItems(h, f, g, window);
    FirstSaves(h);
  }

  lemma VerdictFits(h: Finding, f: Finding, g: Finding, window: int)
    ensures StepFits(States(h, f, g), 1, Steps(h, f, g, window)[1])
  {
    var rows := AfterFirst(h, Open).rows;
    assert rows[FIRST := Row(FirstIncident(h), Closed, None, None)] == AfterFirst(h, Closed).rows;
  }

  lemma SecondReads(h: Finding)
    ensures ReadFrom(AfterFirst(h, Open), Target(h))
  {
    var store := AfterFirst(h, Open);
    OneIncident(h);
    LookupIds(store.findings, [h]);
    assert IdsOf([h]) == [h.findingId];
    assert FindingsByIds(store, [h.findingId]) == InTime([h]);
  }

  lemma OneIncident(h: Finding)
    ensures InTime([h]) == [h] && FirstIncident(h).findingIds == [h.findingId] && FirstIncident(h).incidentId == FIRST
  {
    SortedFixed([h]);
  }

  lemma SecondIsNew(h: Finding, f: Finding, g: Finding)
    ensures NewKeys(AfterFirst(h, Closed), ItemsOfSecond(h, f, g), OneName(SECOND))
  {
    assert FIRST[9] != SECOND[9];
  }

  lemma SecondComputed(h: Finding, f: Finding, g: Finding, window: int)
    requires Bridges(h, f, g, window)
    ensures Computed(AfterFirst(h, Open), SecondCall(h, f, g, window))
  {
    SecondResult(h, f, g, window);
    SecondReads(h);
  }

  lemma SecondFits(h: Finding, f: Finding, g: Finding, window: int)
    requires Bridges(h, f, g, window)
    ensures StepFits(States(h, f, g), 2, Steps(h, f, g, window)[2])
  {
    SecondComputed(h, f, g, window);
    SecondIsNew(h, f, g);
    CallItems(h, f, g, window);
  }

  lemma ItIsARun(h: Finding, f: Finding, g: Finding, window: int)
    requires Bridges(h, f, g, window)
    ensures Run(States(h, f, g), Steps(h, f, g, window))
  {
    FirstFits(h, f, g, window);
    VerdictFits(h, f, g, window);
    SecondFits(h, f, g, window);
    ThreeSteps(States(h, f, g), Steps(h, f, g, window));
  }

  lemma ThreeSteps(states: seq<Store>, steps: seq<Step>)
    requires |states| == 4 && |steps| == 3
    requires StepFits(states, 0, steps[0]) && StepFits(states, 1, steps[1]) && StepFits(states, 2, steps[2])
    ensures Run(states, steps)
  {
    forall k | 0 <= k < |steps| ensures StepFits(states, k, steps[k]) {
      assert k == 0 || k == 1 || k == 2;
    }
  }

  /** The closed incident refuses the two, so they open one of their own. */
  lemma SecondSaves(h: Finding, f: Finding, g: Finding)
    ensures AfterSecond(h, f, g)
      == InsertIncident(Inserted(AfterFirst(h, Closed), [f, g]), IncidentFrom([f, g], SECOND, 0))
  {
    var inserted := Inserted(AfterFirst(h, Closed), [f, g]);
    assert ItemsOfSecond(h, f, g)[..0] == [];
    assert SaveItems(inserted, [f, g], [], OneName(SECOND), 0) == inserted;
    ChosenBoth(f, g);
  }

  lemma SecondHolds(h: Finding, f: Finding, g: Finding)
    requires f.findingId != g.findingId
    ensures SECOND in AfterSecond(h, f, g).rows && FindingsOf(AfterSecond(h, f, g), SECOND) == InTime([f, g])
  {
    var fs, inserted := [f, g], Inserted(AfterFirst(h, Closed), [f, g]);
    InsertedAs(AfterFirst(h, Closed).findings, fs);
    SecondSaves(h, f, g);
    ChosenBoth(f, g);
    ChosenStory(inserted, fs, [f.findingId, g.findingId], SECOND, 0, 0);
    var ids := IncidentFrom(fs, SECOND, 0).findingIds;
    assert FindingsByIds(AfterSecond(h, f, g), ids) == FindingsByIds(inserted, ids);
  }

  /** From the empty tables, in steps that any pipelines and analyst can take, to an incident whose two
      findings have nothing to do with each other. */
  lemma LateVerdictSplits(h: Finding, f: Finding, g: Finding, window: int)
    requires Bridges(h, f, g, window)
    ensures var states := States(h, f, g);
      && Run(states, Steps(h, f, g, window)) && states[0] == EMPTY
      && SECOND in states[3].rows && f in FindingsOf(states[3], SECOND) && g in FindingsOf(states[3], SECOND)
      && !OneStory(FindingsOf(states[3], SECOND), window)
  {
    ItIsARun(h, f, g, window);
    SecondHolds(h, f, g);
    InTimeMembers([f, g]);
    assert f in [f, g] && g in [f, g];
    NotReached(InTime([f, g]), f, g, window);
  }

  lemma ChosenBoth(f: Finding, g: Finding)
    ensures Chosen([f, g], [f.findingId, g.findingId]) == [f, g]
  {
    var ids := [f.findingId, g.findingId];
    assert ids[0] in ids && ids[1] in ids;
    assert [f, g][..1] == [f] && [f][..0] == [];
    assert Chosen([f], ids) == [f];
    assert [f] + [g] == [f, g];
  }

  lemma NotReached(all: seq<Finding>, f: Finding, g: Finding, window: int)
    requires f in all && g in all && (forall h :: h in all ==> h == f || h == g) && !Near(f, g, window) && f != g
    ensures !OneStory(all, window)
  {
    if Reaches(all, window, f, g) {
      var p :| PathIn(all, window, p) && p[0] == f && p[|p| - 1] == g;
      var k := 0;
      while k < |p| - 1
        invariant 0 <= k < |p| && p[k] == f
      {
        assert p[k + 1] in all && Near(p[k], p[k + 1], window);
        k := k + 1;
      }
    }
  }

  lemma Tied(f: Finding, h: Finding, entity: string, window: int)
    requires entity in f.entities && entity in h.entities && entity != UNKNOWN_ENTITY
    requires Gap(f.timestamp, h.timestamp) <= window
    ensures LinkedTo([f], [h], window)
  {
    assert f in [f] && h in [h];
  }

  lemma TwoEntities(h: Finding, f: Finding, g: Finding, a: string, b: string, window: int)
    requires h.entities == [a, b] && f.entities == [a] && g.entities == [b]
    requires a != b && a != UNKNOWN_ENTITY && b != UNKNOWN_ENTITY
    requires f.timestamp <= g.timestamp
    requires Gap(f.timestamp, h.timestamp) <= window && Gap(g.timestamp, h.timestamp) <= window
    requires f.findingId != g.findingId && f.findingId != h.findingId && g.findingId != h.findingId
    requires f.eventId != h.eventId && g.eventId != h.eventId
    ensures Bridges(h, f, g, window)
  {
    assert h.entities[0] == a && h.entities[1] == b && a in f.entities && b in g.entities;
    Tied(f, h, a, window);
    Tied(g, h, b, window);
    assert Filed(f) == [a] && Filed(g) == [b];
    assert !Shares(f, g);
  }

  /** There are such findings: a host and a user that one of them ties together. */
  lemma SomeBridge()
    ensures exists h, f, g :: Bridges(h, f, g, 3600)
  {
    var user, host := "user:alice", "host:web";
    var h := Finding("h", "rule", "event-h", 0, MEDIUM, 10, [user, host], []);
    var f := Finding("f", "rule", "event-f", 10, MEDIUM, 10, [user], []);
    var g := Finding("g", "rule", "event-g", 20, MEDIUM, 10, [host], []);
    assert user[0] == 'u' && host[0] == 'h' && UNKNOWN_ENTITY[0] == 'g';
    assert h.eventId[6] == 'h' && f.eventId[6] == 'f' && g.eventId[6] == 'g';
    TwoEntities(h, f, g, user, host, 3600);
  }
}
