/** Interleavings of pipelines that read open incidents, compute merges and later save, with analysts
    changing incidents in between, src/autosiem/storage.py and pipeline.py. */
module IncidentRuns {
  import opened Common
  import opened Schemas
  import opened Sorting
  import opened Correlation
  import opened Incidents
  import opened Merging
  import opened MergeStories
  import opened MergeLanding
  import opened IncidentStore
  import opened IncidentGuards
  import opened IncidentReplacement

  /** A pipeline's computation, from the tables of an earlier state `seen`, saved now; or a triage. */
  datatype Step =
    | Saved(call: Call, seen: nat, ownId: nat -> string, now: int)
    | Triaged(incidentId: string, status: Option<Status>, assignee: Option<string>, resolution: Option<string>)

  /** What `open_incidents_for_entities` may return: open incidents with their findings. Which of
      them, and in what order, is left open. */
  ghost predicate ReadFrom(store: Store, x: StoredIncident) {
    && x.incident.incidentId in store.rows && Mergeable(store.rows[x.incident.incidentId].status)
    && x.incident == store.rows[x.incident.incidentId].incident
    && x.findings == FindingsByIds(store, x.incident.findingIds)
  }

  ghost predicate Computed(store: Store, c: Call) {
    Result(c) && forall x :: x in c.stored ==> ReadFrom(store, x)
  }

  function StartedItems(started: seq<Incident>): (r: seq<Item>)
    ensures |r| == |started| && forall k :: 0 <= k < |r| ==> r[k] == Item(started[k], None)
  {
    seq(|started|, k requires 0 <= k < |started| => Item(started[k], None))
  }

  function MergeItems(merges: seq<IncidentMerge>): (r: seq<Item>)
    ensures |r| == |merges| && forall k :: 0 <= k < |r| ==>
      r[k] == Item(merges[k].incident, Some(merges[k].newFindingIds))
  {
    seq(|merges|, k requires 0 <= k < |merges| => Item(merges[k].incident, Some(merges[k].newFindingIds)))
  }

  function Rank(item: Item): int {
    -item.incident.riskScore
  }

  /** A result's incidents, highest risk first. */
  function ItemsOf(c: Call): seq<Item> {
    Sorted(StartedItems(c.started) + MergeItems(c.merges), Rank)
  }

  ghost predicate StepFits(states: seq<Store>, k: nat, step: Step)
    requires k + 1 < |states|
  {
    match step
    case Saved(c, seen, ownId, now) =>
      && seen <= k && Computed(states[seen], c) && NewKeys(states[k], ItemsOf(c), ownId)
      && states[k + 1] == Save(states[k], c.fs, ItemsOf(c), ownId, now)
    case Triaged(id, status, assignee, resolution) =>
      UpdateIncident(states[k], id, status, assignee, resolution) == Some(states[k + 1])
  }

  /** Any interleaving: between a pipeline's read and its save, anything may happen; and findings may
      be saved again with any contents. */
  ghost predicate Run(states: seq<Store>, steps: seq<Step>) {
    && |states| == |steps| + 1
    && forall k :: 0 <= k < |steps| ==> StepFits(states, k, steps[k])
  }

  // ----- a computed result can be saved -----

  lemma ClusterStored(findings: map<string, Finding>, fs: seq<Finding>, groups: seq<seq<nat>>, window: int, a: nat)
    requires StoredAs(findings, fs) && DistinctIds(fs) && Clustered(fs, window, groups) && a < |groups|
    ensures StoredAs(findings, ClustersOf(fs, groups)[a]) && DistinctIds(ClustersOf(fs, groups)[a])
  {
    var all := ClustersOf(fs, groups)[a];
    forall i, j | 0 <= i < j < |all| ensures all[i].findingId != all[j].findingId {
      assert Before(fs, groups[a][i], groups[a][j]);
    }
  }

  lemma StartedIsOk(store: Store, c: Call, k: nat)
    requires StoredAs(store.findings, c.fs) && DistinctIds(c.fs) && Result(c) && k < |c.started|
    ensures IncidentOk(store, c.started[k])
  {
    var a := c.sources[k];
    ClusterStored(store.findings, c.fs, c.groups, c.window, a);
    var all := ClustersOf(c.fs, c.groups)[a];
    InTimeDistinct(all);
    BuiltIsOk(store, all, c.newId(k), c.now);
  }

  lemma AddedFromBatch(c: Call, t: nat, f: Finding)
    requires Result(c) && t < |Candidates(c.stored)|
    requires f in AddedTo(ClustersOf(c.fs, c.groups), Candidates(c.stored), c.window, t)
    ensures f in c.fs
  {
    GainIsJoined(c.fs, c.groups, Candidates(c.stored), c.window, t, f);
  }

  lemma MergeIdsFromBatch(c: Call, k: nat, id: string)
    requires Result(c) && k < |c.merges| && id in c.merges[k].newFindingIds
    ensures exists i :: 0 <= i < |c.fs| && c.fs[i].findingId == id
  {
    var added := AddedTo(ClustersOf(c.fs, c.groups), Candidates(c.stored), c.window, c.targets[k]);
    assert c.merges[k].newFindingIds == IdsOf(added);
    InAdded(added, id);
    var f :| f in added && f.findingId == id;
    AddedFromBatch(c, c.targets[k], f);
  }

  lemma ItemOfCall(c: Call, item: Item)
    requires item in ItemsOf(c)
    ensures (exists k :: 0 <= k < |c.started| && item == Item(c.started[k], None))
      || (exists k :: 0 <= k < |c.merges| && item == Item(c.merges[k].incident, Some(c.merges[k].newFindingIds)))
  {
    var all := StartedItems(c.started) + MergeItems(c.merges);
    SortedMembers(all, Rank);
    assert item in all;
    var k :| 0 <= k < |all| && all[k] == item;
    if k < |c.started| {
      assert item == StartedItems(c.started)[k];
    } else {
      assert item == MergeItems(c.merges)[k - |c.started|];
    }
  }

  lemma ItemsAreOk(store: Store, c: Call)
    requires StoredAs(store.findings, c.fs) && DistinctIds(c.fs) && Result(c)
    ensures ItemsOk(store, ItemsOf(c))
  {
    forall n | 0 <= n < |ItemsOf(c)| ensures ItemOk(store, ItemsOf(c)[n]) {
      var item := ItemsOf(c)[n];
      assert item in ItemsOf(c);
      ItemOfCall(c, item);
      if item.newIds.None? {
        var k :| 0 <= k < |c.started| && item == Item(c.started[k], None);
        StartedIsOk(store, c, k);
      } else {
        var k :| 0 <= k < |c.merges| && item == Item(c.merges[k].incident, Some(c.merges[k].newFindingIds));
        forall id | id in item.newIds.value ensures id in store.findings {
          MergeIdsFromBatch(c, k, id);
        }
      }
    }
  }

  // ----- every state -----

  /** What a computed result saves names only findings of its batch. */
  lemma ItemsAreBrought(store: Store, c: Call)
    requires Result(c)
    ensures AllBrought(Inserted(store, c.fs), ItemsOf(c))
  {
    InsertKeys(store.findings, c.fs);
    forall n | 0 <= n < |ItemsOf(c)| ensures Brought(Inserted(store, c.fs), ItemsOf(c)[n]) {
      ItemIsBrought(Inserted(store, c.fs), c, ItemsOf(c)[n]);
    }
  }

  lemma StartedIdsFromBatch(c: Call, k: nat, id: string)
    requires Result(c) && k < |c.started| && id in c.started[k].findingIds
    ensures exists f :: f in c.fs && f.findingId == id
  {
    var group := c.groups[c.sources[k]];
    var cluster := ClustersOf(c.fs, c.groups)[c.sources[k]];
    IncidentIds(cluster, c.newId(k), c.now);
    var f :| f in cluster && f.findingId == id;
    var m :| 0 <= m < |cluster| && cluster[m] == f;
    assert f == c.fs[group[m]];
  }

  lemma ItemIsBrought(store: Store, c: Call, item: Item)
    requires Result(c) && item in ItemsOf(c) && forall f :: f in c.fs ==> f.findingId in store.findings
    ensures Brought(store, item)
  {
    ItemOfCall(c, item);
    if item.newIds.None? {
      var k :| 0 <= k < |c.started| && item == Item(c.started[k], None);
      forall id | id in Brings(item) ensures id in store.findings {
        StartedIdsFromBatch(c, k, id);
      }
    } else {
      var k :| 0 <= k < |c.merges| && item == Item(c.merges[k].incident, Some(c.merges[k].newFindingIds));
      forall id | id in Brings(item) ensures id in store.findings {
        MergeIdsFromBatch(c, k, id);
        var i :| 0 <= i < |c.fs| && c.fs[i].findingId == id;
        assert c.fs[i] in c.fs;
      }
    }
  }

  lemma StepIsKnown(states: seq<Store>, steps: seq<Step>, k: nat)
    requires Run(states, steps) && k < |steps| && Known(states[k])
    ensures Known(states[k + 1]) && AllIdsLast(states[k], states[k + 1])
  {
    var step := steps[k];
    assert StepFits(states, k, step);
    if step.Saved? {
      var inserted := Inserted(states[k], step.call.fs);
      ItemsAreBrought(states[k], step.call);
      InsertKeys(states[k].findings, step.call.fs);
      assert AllIdsLast(states[k], inserted);
      SaveItemsKnown(inserted, step.call.fs, ItemsOf(step.call), step.ownId, step.now);
      AllIdsLastTrans(states[k], inserted, states[k + 1]);
    }
  }

  lemma {:induction false} RunIsKnown(states: seq<Store>, steps: seq<Step>, j: nat, k: nat)
    requires Run(states, steps) && Known(states[0]) && j <= k < |states|
    ensures Known(states[k]) && AllIdsLast(states[j], states[k])
    decreases k, k - j
  {
    if j < k {
      RunIsKnown(states, steps, j, k - 1);
      StepIsKnown(states, steps, k - 1);
      AllIdsLastTrans(states[j], states[k - 1], states[k]);
    } else if k > 0 {
      RunIsKnown(states, steps, k - 1, k - 1);
      StepIsKnown(states, steps, k - 1);
    }
  }

  /** No batch lists a finding id twice. */
  ghost predicate DistinctBatches(steps: seq<Step>) {
    forall k :: 0 <= k < |steps| && steps[k].Saved? ==> DistinctIds(steps[k].call.fs)
  }

  /** Whatever the step's save replaces, it falsifies no incident that it does not also recompute. */
  ghost predicate StepHarmless(states: seq<Store>, steps: seq<Step>, k: nat)
    requires k < |steps| && k < |states|
  {
    steps[k].Saved? ==> Harmless(states[k], steps[k].call.fs, ItemsOf(steps[k].call))
  }

  lemma StepKeepsIff(states: seq<Store>, steps: seq<Step>, k: nat)
    requires Run(states, steps) && DistinctBatches(steps) && k < |steps| && StoreOk(states[k])
    ensures StoreOk(states[k + 1]) <==> StepHarmless(states, steps, k)
  {
    var step := steps[k];
    assert StepFits(states, k, step);
    if step.Saved? {
      InsertedAs(states[k].findings, step.call.fs);
      ItemsAreOk(Inserted(states[k], step.call.fs), step.call);
      SaveKeepsIff(states[k], step.call.fs, ItemsOf(step.call), step.ownId, step.now);
    } else {
      UpdateKeeps(states[k], step.incidentId, step.status, step.assignee, step.resolution);
    }
  }

  ghost predicate OkUpTo(states: seq<Store>, n: nat) {
    forall k :: 0 <= k <= n && k < |states| ==> StoreOk(states[k])
  }

  ghost predicate HarmlessUpTo(states: seq<Store>, steps: seq<Step>, n: nat)
    requires |states| == |steps| + 1
  {
    forall k :: 0 <= k < n && k < |steps| ==> StepHarmless(states, steps, k)
  }

  /** From right tables, the stored score, severity, entities and ids of every incident are, in every
      state of the run so far, those its stored findings give, if and only if every save is harmless. */
  lemma {:induction false} EveryStateOk(states: seq<Store>, steps: seq<Step>, n: nat)
    requires Run(states, steps) && DistinctBatches(steps) && StoreOk(states[0]) && n < |states|
    ensures OkUpTo(states, n) <==> HarmlessUpTo(states, steps, n)
  {
    if n > 0 {
      EveryStateOk(states, steps, n - 1);
      if OkUpTo(states, n - 1) {
        assert StoreOk(states[n - 1]);
        StepKeepsIff(states, steps, n - 1);
        OkSnoc(states, n);
        HarmlessSnoc(states, steps, n);
      } else {
        OkShorter(states, n);
        HarmlessSnoc(states, steps, n);
      }
    }
  }

  lemma OkShorter(states: seq<Store>, n: nat)
    requires 0 < n < |states|
    ensures OkUpTo(states, n) ==> OkUpTo(states, n - 1)
  {
  }

  lemma OkSnoc(states: seq<Store>, n: nat)
    requires 0 < n < |states| && OkUpTo(states, n - 1)
    ensures OkUpTo(states, n) <==> StoreOk(states[n])
  {
  }

  lemma HarmlessSnoc(states: seq<Store>, steps: seq<Step>, n: nat)
    requires |states| == |steps| + 1 && 0 < n < |states|
    ensures HarmlessUpTo(states, steps, n) <==> HarmlessUpTo(states, steps, n - 1) && StepHarmless(states, steps, n - 1)
  {
  }

  // ----- verdicts and triage -----

  lemma StepGuards(states: seq<Store>, steps: seq<Step>, k: nat)
    requires Run(states, steps) && k < |steps| && steps[k].Saved?
    ensures AllGuarded(states[k], states[k + 1])
  {
    assert StepFits(states, k, steps[k]);
    SaveGuards(states[k], steps[k].call.fs, ItemsOf(steps[k].call), steps[k].ownId, steps[k].now);
  }

  ghost predicate Decided(store: Store, id: string) {
    id in store.rows && !Mergeable(store.rows[id].status)
  }

  /** While an incident is resolved or closed, nothing about it changes but its triage: not the
      findings it lists, nor its score. */
  lemma {:induction false} VerdictFreezes(states: seq<Store>, steps: seq<Step>, id: string, j: nat, k: nat)
    requires Run(states, steps) && j <= k < |states| && id in states[j].rows
    requires forall m :: j <= m < k ==> Decided(states[m], id)
    ensures id in states[k].rows && states[k].rows[id].incident == states[j].rows[id].incident
    decreases k - j
  {
    if j < k {
      VerdictFreezes(states, steps, id, j, k - 1);
      assert Decided(states[k - 1], id);
      assert StepFits(states, k - 1, steps[k - 1]);
      if steps[k - 1].Saved? {
        StepGuards(states, steps, k - 1);
        assert Guarded(states[k - 1].rows[id], states[k].rows[id]);
      }
    }
  }

  /** A save never changes what an analyst set. */
  lemma TriageSurvives(states: seq<Store>, steps: seq<Step>, k: nat, id: string)
    requires Run(states, steps) && k < |steps| && steps[k].Saved? && id in states[k].rows
    ensures id in states[k + 1].rows
    ensures var row, after := states[k].rows[id], states[k + 1].rows[id];
      after.status == row.status && after.assignee == row.assignee && after.resolution == row.resolution
  {
    StepGuards(states, steps, k);
    assert Guarded(states[k].rows[id], states[k + 1].rows[id]);
  }

  /** The findings under a decided incident are not frozen with it: a save leaves them as they were
      if and only if it carries none of them with other contents. */
  lemma DecidedFindingsStayIff(states: seq<Store>, steps: seq<Step>, k: nat, id: string)
    requires Run(states, steps) && DistinctBatches(steps) && k < |steps| && steps[k].Saved?
    requires Known(states[k]) && Decided(states[k], id)
    ensures var ids, fs := states[k].rows[id].incident.findingIds, steps[k].call.fs;
      && id in states[k + 1].rows && states[k + 1].rows[id] == states[k].rows[id]
      && (FindingsByIds(states[k + 1], ids) == FindingsByIds(states[k], ids) <==>
        forall i :: 0 <= i < |fs| && fs[i].findingId in ids ==> states[k].findings[fs[i].findingId] == fs[i])
  {
    var step, ids := steps[k], states[k].rows[id].incident.findingIds;
    assert StepFits(states, k, step);
    StepGuards(states, steps, k);
    assert Guarded(states[k].rows[id], states[k + 1].rows[id]);
    var inserted := Inserted(states[k], step.call.fs);
    SaveItemsGuard(inserted, step.call.fs, ItemsOf(step.call), step.ownId, step.now);
    FindingsStayIff(states[k], step.call.fs, ids);
    assert FindingsByIds(states[k + 1], ids) == FindingsByIds(inserted, ids);
  }

  // ----- nothing is lost -----

  lemma HomeIsItem(c: Call, h: nat) returns (n: nat)
    requires h < |Homes(c.started, c.merges)|
    ensures n < |ItemsOf(c)| && Brings(ItemsOf(c)[n]) == Homes(c.started, c.merges)[h]
  {
    var all := StartedItems(c.started) + MergeItems(c.merges);
    SortedMembers(all, Rank);
    assert Brings(all[h]) == Homes(c.started, c.merges)[h];
    assert all[h] in all && all[h] in ItemsOf(c);
    n :| 0 <= n < |ItemsOf(c)| && ItemsOf(c)[n] == all[h];
  }

  /** When the pipeline read it, the finding `g` was held by an incident for the same rule and event. */
  ghost predicate StandsFor(stored: seq<StoredIncident>, g: Finding, f: Finding) {
    g.ruleId == f.ruleId && g.eventId == f.eventId && exists x :: x in stored && g in x.findings
  }

  lemma HeldIsListed(store: Store, x: StoredIncident, g: Finding)
    requires Known(store) && ReadFrom(store, x) && g in x.findings
    ensures InSomeRow(store, g.findingId)
  {
    var ids := x.incident.findingIds;
    LookupAll(store.findings, ids);
    InTimeMembers(Lookup(store.findings, ids));
    var k :| 0 <= k < |ids| && Lookup(store.findings, ids)[k] == g;
    assert ids[k] in ids && g.findingId == ids[k];
    assert g.findingId in store.rows[x.incident.incidentId].incident.findingIds;
  }

  lemma RedeliveryStands(store: Store, c: Call, f: Finding) returns (g: Finding)
    requires Known(store) && Computed(store, c) && Redelivered(c.stored, f)
    ensures StandsFor(c.stored, g, f) && InSomeRow(store, g.findingId)
  {
    var x :| x in c.stored && Held(x.findings, f);
    var k :| 0 <= k < |x.findings| && x.findings[k].ruleId == f.ruleId && x.findings[k].eventId == f.eventId;
    g := x.findings[k];
    HeldIsListed(store, x, g);
  }

  lemma SavedIsInRow(states: seq<Store>, steps: seq<Step>, k: nat, i: nat)
    requires Run(states, steps) && k < |steps| && steps[k].Saved? && Known(states[k]) && i < |steps[k].call.fs|
    requires Lands(Homes(steps[k].call.started, steps[k].call.merges), steps[k].call.fs[i].findingId)
    ensures InSomeRow(states[k + 1], steps[k].call.fs[i].findingId)
  {
    var step, c := steps[k], steps[k].call;
    assert StepFits(states, k, step);
    var h :| 0 <= h < |Homes(c.started, c.merges)| && c.fs[i].findingId in Homes(c.started, c.merges)[h];
    var n := HomeIsItem(c, h);
    InsertKeys(states[k].findings, c.fs);
    ItemsAreBrought(states[k], c);
    SaveItemsLand(Inserted(states[k], c.fs), c.fs, ItemsOf(c), step.ownId, step.now, n, i);
  }

  /** Every finding a pipeline saves is, from then on, listed by some incident; or it was a redelivery,
      and the finding it repeats is. */
  lemma NoFindingIsLost(states: seq<Store>, steps: seq<Step>, k: nat, m: nat, i: nat)
    requires Run(states, steps) && Known(states[0])
    requires k < |steps| && k < m < |states| && steps[k].Saved? && i < |steps[k].call.fs|
    ensures var c := steps[k].call;
      InSomeRow(states[m], c.fs[i].findingId) || exists g ::
        StandsFor(c.stored, g, c.fs[i]) && InSomeRow(states[m], g.findingId)
  {
    var c := steps[k].call;
    assert StepFits(states, k, steps[k]);
    FindingLands(c, i);
    if Lands(Homes(c.started, c.merges), c.fs[i].findingId) {
      RunIsKnown(states, steps, 0, k);
      SavedIsInRow(states, steps, k, i);
      RunIsKnown(states, steps, k + 1, m);
      LastsInRow(states[k + 1], states[m], c.fs[i].findingId);
    } else {
      var seen := steps[k].seen;
      RunIsKnown(states, steps, 0, seen);
      var g := RedeliveryStands(states[seen], c, c.fs[i]);
      RunIsKnown(states, steps, seen, m);
      LastsInRow(states[seen], states[m], g.findingId);
    }
  }
}
