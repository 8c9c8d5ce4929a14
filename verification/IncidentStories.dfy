/** Over whole runs, every incident is one connected story, unless a verdict that falls between a read
    and its save makes findings open an incident together that only their target connected. */
module IncidentStories {
  import opened Common
  import opened Schemas
  import opened Sorting
  import opened Correlation
  import opened Incidents
  import opened Merging
  import opened MergeStories
  import opened MergeLanding
  import opened IncidentStore
  import opened IncidentGuards
  import opened IncidentReplacement
  import opened IncidentRuns

  // ----- runs in which no finding is replaced -----

  /** The tables start right, and a finding that is saved again is the same finding. */
  ghost predicate Agreed(states: seq<Store>, steps: seq<Step>) {
    && Run(states, steps) && StoreOk(states[0])
    && forall k :: 0 <= k < |steps| && steps[k].Saved? ==> Agreeing(states[k].findings, steps[k].call.fs)
  }

  lemma SavedStepKeeps(states: seq<Store>, steps: seq<Step>, k: nat)
    requires Agreed(states, steps) && k < |steps| && steps[k].Saved? && StoreOk(states[k])
    ensures StoreOk(states[k + 1]) && Kept(states[k], states[k + 1])
    ensures var store := Inserted(states[k], steps[k].call.fs);
      && StoreOk(store) && Kept(states[k], store) && ItemsOk(store, ItemsOf(steps[k].call))
      && StoredAs(store.findings, steps[k].call.fs)
  {
    var step := steps[k];
    assert StepFits(states, k, step);
    InsertedOk(states[k], step.call.fs);
    ItemsAreOk(Inserted(states[k], step.call.fs), step.call);
    SaveKeeps(states[k], step.call.fs, ItemsOf(step.call), step.ownId, step.now);
  }

  /** No finding is replaced and no incident loses one. */
  ghost predicate Lasts(before: Store, after: Store) {
    IncidentStore.Extends(before.findings, after.findings) && AllIdsLast(before, after)
  }

  lemma LastsTrans(a: Store, b: Store, c: Store)
    requires Lasts(a, b) && Lasts(b, c)
    ensures Lasts(a, c)
  {
    AllIdsLastTrans(a, b, c);
  }

  lemma KeptLasts(before: Store, after: Store)
    requires Kept(before, after)
    ensures Lasts(before, after)
  {
    forall id | id in before.rows ensures id in after.rows && IdsLast(before.rows[id], after.rows[id]) {
      assert RowKept(before.rows[id], after.rows[id]);
    }
  }

  lemma TriagedStepKeeps(before: Store, after: Store, step: Step)
    requires step.Triaged? && StoreOk(before)
    requires UpdateIncident(before, step.incidentId, step.status, step.assignee, step.resolution) == Some(after)
    ensures StoreOk(after) && Lasts(before, after)
  {
    UpdateKeeps(before, step.incidentId, step.status, step.assignee, step.resolution);
  }

  lemma AgreedStep(states: seq<Store>, steps: seq<Step>, k: nat)
    requires Agreed(states, steps) && k < |steps| && StoreOk(states[k])
    ensures StoreOk(states[k + 1]) && Lasts(states[k], states[k + 1])
  {
    var step := steps[k];
    assert StepFits(states, k, step);
    if step.Saved? {
      SavedStepKeeps(states, steps, k);
      KeptLasts(states[k], states[k + 1]);
    } else {
      TriagedStepKeeps(states[k], states[k + 1], step);
    }
  }

  ghost predicate StepLasts(states: seq<Store>, k: nat)
    requires k + 1 < |states|
  {
    StoreOk(states[k]) ==> StoreOk(states[k + 1]) && Lasts(states[k], states[k + 1])
  }

  ghost predicate StepsLast(states: seq<Store>) {
    forall k :: 0 <= k < |states| - 1 ==> StepLasts(states, k)
  }

  lemma AgreedSteps(states: seq<Store>, steps: seq<Step>)
    requires Agreed(states, steps)
    ensures StepsLast(states) && |states| > 0 && StoreOk(states[0])
  {
    forall k | 0 <= k < |states| - 1 ensures StepLasts(states, k) {
      if StoreOk(states[k]) { AgreedStep(states, steps, k); }
    }
  }

  lemma LastsSelf(store: Store)
    ensures Lasts(store, store)
  {
  }

  lemma {:induction false} OkFrom(states: seq<Store>, j: nat, k: nat)
    requires StepsLast(states) && j <= k < |states| && StoreOk(states[j])
    ensures StoreOk(states[k]) && Lasts(states[j], states[k])
    decreases k - j
  {
    if j < k {
      OkFrom(states, j, k - 1);
      assert StepLasts(states, k - 1);
      LastsTrans(states[j], states[k - 1], states[k]);
    } else {
      LastsSelf(states[j]);
    }
  }

  lemma AgreedIsOk(states: seq<Store>, steps: seq<Step>, k: nat)
    requires Agreed(states, steps) && k < |states|
    ensures StoreOk(states[k])
  {
    AgreedSteps(states, steps);
    OkFrom(states, 0, k);
  }

  lemma RunLasts(states: seq<Store>, steps: seq<Step>, j: nat, k: nat)
    requires Agreed(states, steps) && j <= k < |states|
    ensures Lasts(states[j], states[k])
  {
    AgreedSteps(states, steps);
    OkFrom(states, 0, j);
    OkFrom(states, j, k);
  }

  // ----- one story each -----

  /** Redeliveries carry the same time and entities, whichever batch or table they are in. */
  ghost predicate NoFalseTwins(states: seq<Store>, steps: seq<Step>) {
    forall j, k :: 0 <= j < |states| && 0 <= k < |steps| && steps[k].Saved? ==> TwinsOf(states[j], steps[k].call.fs)
  }

  ghost predicate TwinsOf(store: Store, fs: seq<Finding>) {
    forall id, f :: id in store.findings && f in fs ==> Twin(store.findings[id], f)
  }

  ghost predicate AllStories(store: Store, window: int) {
    forall id :: id in store.rows ==> OneStory(FindingsOf(store, id), window)
  }

  /** Two stories with a finding in common are one. */
  lemma StoriesMeet(a: seq<Finding>, b: seq<Finding>, all: seq<Finding>, window: int, shared: Finding)
    requires OneStory(a, window) && OneStory(b, window) && shared in a && shared in b
    requires Within(a, all) && Within(b, all) && forall f :: f in all ==> f in a || f in b
    ensures OneStory(all, window)
  {
    forall f | f in all ensures Reaches(all, window, f, shared) {
      if f in a {
        ReachMore(a, all, window, f, shared);
      } else {
        ReachMore(b, all, window, f, shared);
      }
    }
    OneStoryFrom(all, window, shared);
  }

  lemma MembersOf(store: Store, id: string, f: Finding)
    requires StoreOk(store) && id in store.rows
    ensures f in FindingsOf(store, id) <==>
      exists fid :: fid in store.rows[id].incident.findingIds && fid in store.findings && store.findings[fid] == f
  {
    assert RowOk(store, id);
    var ids := store.rows[id].incident.findingIds;
    LookupStored(store, ids);
    if f in FindingsOf(store, id) {
      var k :| 0 <= k < |ids| && store.findings[ids[k]] == f;
      assert ids[k] in ids;
    }
    if fid :| fid in ids && fid in store.findings && store.findings[fid] == f {
      var k :| 0 <= k < |ids| && ids[k] == fid;
    }
  }

  lemma FindingsLast(before: Store, after: Store, id: string)
    requires StoreOk(before) && StoreOk(after) && Lasts(before, after) && id in before.rows
    ensures id in after.rows && Within(FindingsOf(before, id), FindingsOf(after, id))
  {
    assert IdsLast(before.rows[id], after.rows[id]);
    forall f | f in FindingsOf(before, id) ensures f in FindingsOf(after, id) {
      MembersOf(before, id, f);
      MembersOf(after, id, f);
    }
  }

  lemma StoredTwin(store: Store, fs: seq<Finding>, id: string, f: Finding, g: Finding)
    requires StoreOk(store) && id in store.rows && TwinsOf(store, fs) && f in FindingsOf(store, id) && g in fs
    ensures Twin(f, g)
  {
    MembersOf(store, id, f);
    var fid :| fid in store.rows[id].incident.findingIds && fid in store.findings && store.findings[fid] == f;
    assert Twin(store.findings[fid], g);
  }

  lemma ReadTwins(store: Store, fs: seq<Finding>, id: string)
    requires StoreOk(store) && id in store.rows && TwinsOf(store, fs)
    ensures Twins(FindingsOf(store, id), fs)
  {
    var held := FindingsOf(store, id);
    forall f, g | f in held && g in fs ensures Twin(f, g) {
      StoredTwin(store, fs, id, f, g);
    }
  }

  lemma ReadIsStory(store: Store, fs: seq<Finding>, x: StoredIncident, window: int)
    requires StoreOk(store) && ReadFrom(store, x) && AllStories(store, window) && TwinsOf(store, fs)
    ensures OneStory(x.findings, window) && Twins(x.findings, fs)
  {
    var id := x.incident.incidentId;
    assert x.findings == FindingsOf(store, id);
    ReadTwins(store, fs, id);
  }

  /** What the pipeline read gives connected merges. */
  lemma CallStories(store: Store, c: Call)
    requires StoreOk(store) && Computed(store, c) && AllStories(store, c.window) && TwinsOf(store, c.fs)
    ensures forall k :: 0 <= k < |c.sources| ==> OneStory(ClustersOf(c.fs, c.groups)[c.sources[k]], c.window)
    ensures forall k :: 0 <= k < |c.merges| ==> OneStory(c.merges[k].findings, c.window)
  {
    forall x | x in c.stored ensures OneStory(x.findings, c.window) && Twins(x.findings, c.fs) {
      assert ReadFrom(store, x);
      ReadIsStory(store, c.fs, x, c.window);
    }
    MergingKeepsStories(c.fs, c.groups, c.stored, c.window, c.newId, c.now, c.started, c.merges, c.sources, c.targets);
  }

  /** `b` connects what a merge adds to what its target holds. */
  ghost predicate Bridge(store: Store, item: Item, b: seq<Finding>, window: int) {
    var id := item.incident.incidentId;
    && item.newIds.Some? && id in store.rows && Mergeable(store.rows[id].status) && OneStory(b, window)
    && (exists f :: f in b && f in FindingsOf(store, id))
    && (forall f :: f in b ==> f in FindingsOf(store, id) || f.findingId in item.newIds.value)
    && (forall f :: f in b ==> f.findingId in store.findings && store.findings[f.findingId] == f)
    && forall fid :: fid in item.newIds.value ==> fid in store.findings && store.findings[fid] in b
  }

  ghost predicate ItemStory(store: Store, item: Item, window: int) {
    if item.newIds.None? then OneStory(FindingsByIds(store, item.incident.findingIds), window)
    else exists b :: Bridge(store, item, b, window)
  }

  lemma ItemStoryLasts(before: Store, after: Store, item: Item, window: int)
    requires StoreOk(before) && StoreOk(after) && Kept(before, after) && after.findings == before.findings
    requires ItemStory(before, item, window)
    ensures ItemStory(after, item, window)
  {
    if item.newIds.None? {
      assert FindingsByIds(after, item.incident.findingIds) == FindingsByIds(before, item.incident.findingIds);
    } else {
      var b :| Bridge(before, item, b, window);
      var id := item.incident.incidentId;
      KeptLasts(before, after);
      FindingsLast(before, after, id);
      assert RowKept(before.rows[id], after.rows[id]);
      assert Bridge(after, item, b, window);
    }
  }

  lemma MergeStays(store: Store, item: Item, window: int, b: seq<Finding>)
    requires StoreOk(store) && ItemOk(store, item) && Bridge(store, item, b, window)
    requires OneStory(FindingsOf(store, item.incident.incidentId), window)
    ensures var after := MergeIncident(store, item.incident.incidentId, item.newIds.value).value;
      OneStory(FindingsOf(after, item.incident.incidentId), window)
  {
    var id, newIds := item.incident.incidentId, item.newIds.value;
    var after := MergeIncident(store, id, newIds).value;
    MergeIsOk(store, id, newIds);
    MergeKeeps(store, id, newIds);
    KeptLasts(store, after);
    FindingsLast(store, after, id);
    var held, all := FindingsOf(store, id), FindingsOf(after, id);
    forall f | f in b ensures f in all {
      if f !in held { MembersOf(after, id, f); }
    }
    forall f | f in all ensures f in held || f in b {
      MembersOf(after, id, f);
      MembersOf(store, id, f);
    }
    var shared :| shared in b && shared in held;
    StoriesMeet(held, b, all, window, shared);
  }

  /** What a late item opens: its target was decided, so the new findings are on their own. */
  ghost predicate Late(store: Store, item: Item) {
    item.newIds.Some? && MergeIncident(store, item.incident.incidentId, item.newIds.value).None?
  }

  /** A late item's findings are connected by themselves. */
  ghost predicate OwnStory(fs: seq<Finding>, item: Item, window: int) {
    item.newIds.Some? ==> OneStory(Chosen(fs, item.newIds.value), window)
  }

  lemma RowUntouched(store: Store, fs: seq<Finding>, item: Item, ownId: string, now: int, id: string)
    requires id in store.rows && NewKey(item, ownId) !in store.rows && !MergesInto(item, id)
    ensures var after := SaveItem(store, fs, item, ownId, now);
      id in after.rows && FindingsOf(after, id) == FindingsOf(store, id)
  {
  }

  lemma TargetStays(store: Store, fs: seq<Finding>, item: Item, ownId: string, now: int, id: string, window: int)
    requires StoreOk(store) && ItemOk(store, item) && id in store.rows && NewKey(item, ownId) !in store.rows
    requires OneStory(FindingsOf(store, id), window) && (!Late(store, item) ==> ItemStory(store, item, window))
    ensures var after := SaveItem(store, fs, item, ownId, now);
      id in after.rows && OneStory(FindingsOf(after, id), window)
  {
    if !MergesInto(item, id) {
      RowUntouched(store, fs, item, ownId, now, id);
    } else if Late(store, item) {
      var after := SaveItem(store, fs, item, ownId, now);
      assert FindingsOf(after, id) == FindingsOf(store, id);
    } else {
      var b :| Bridge(store, item, b, window);
      MergeStays(store, item, window, b);
    }
  }

  lemma {:induction false} ChosenStory(store: Store, fs: seq<Finding>, newIds: seq<string>, ownId: string, now: int,
          window: int)
    requires StoredAs(store.findings, fs) && DistinctIds(fs)
    ensures FindingsByIds(store, IncidentFrom(Chosen(fs, newIds), ownId, now).findingIds) == InTime(Chosen(fs, newIds))
    ensures OneStory(InTime(Chosen(fs, newIds)), window) <==> OneStory(Chosen(fs, newIds), window)
  {
    var all := Chosen(fs, newIds);
    ChosenFacts(fs, newIds);
    InTimeMembers(all);
    var sorted := InTime(all);
    forall m | 0 <= m < |sorted|
      ensures sorted[m].findingId in store.findings && store.findings[sorted[m].findingId] == sorted[m]
    {
      assert sorted[m] in sorted && sorted[m] in fs;
      var i :| 0 <= i < |fs| && fs[i] == sorted[m];
    }
    LookupIds(store.findings, sorted);
    InTimeTwice(all);
    if OneStory(all, window) { SameStory(all, sorted, window); }
    if OneStory(sorted, window) { SameStory(sorted, all, window); }
  }

  /** The incident an item opens is a story: always if it is new, and if it is late, exactly when its
      findings are one by themselves. */
  lemma OpenedStoryIff(store: Store, fs: seq<Finding>, item: Item, ownId: string, now: int, window: int)
    requires StoredAs(store.findings, fs) && DistinctIds(fs)
    requires if item.newIds.None? then ItemStory(store, item, window) else Late(store, item)
    ensures var after, id := SaveItem(store, fs, item, ownId, now), NewKey(item, ownId);
      id in after.rows && (OneStory(FindingsOf(after, id), window) <==> OwnStory(fs, item, window))
  {
    var after, id := SaveItem(store, fs, item, ownId, now), NewKey(item, ownId);
    if item.newIds.None? {
      assert FindingsOf(after, id) == FindingsByIds(store, item.incident.findingIds);
    } else {
      ChosenStory(store, fs, item.newIds.value, ownId, now, window);
      var ids := IncidentFrom(Chosen(fs, item.newIds.value), ownId, now).findingIds;
      assert FindingsOf(after, id) == FindingsByIds(store, ids);
    }
  }

  /** Whether an item opens an incident. */
  ghost predicate Opened(store: Store, item: Item) {
    item.newIds.None? || Late(store, item)
  }

  ghost predicate OldStories(store: Store, after: Store, window: int) {
    forall id :: id in store.rows ==> id in after.rows && OneStory(FindingsOf(after, id), window)
  }

  ghost predicate OpenedStories(store: Store, after: Store, fs: seq<Finding>, items: seq<Item>, ownId: nat -> string,
          window: int)
  {
    forall k :: 0 <= k < |items| ==> OpenedStory(store, after, fs, items[k], ownId(k), window)
  }

  ghost predicate OpenedStory(store: Store, after: Store, fs: seq<Finding>, item: Item, ownId: string, window: int) {
    Opened(store, item) ==>
      var id := NewKey(item, ownId);
      id in after.rows && (OneStory(FindingsOf(after, id), window) <==> OwnStory(fs, item, window))
  }

  /** The rows of `after` are the old ones and those that were opened. */
  ghost predicate OnlyOpened(store: Store, after: Store, items: seq<Item>, ownId: nat -> string) {
    forall id :: id in after.rows ==> id in store.rows || OpenedAs(store, items, ownId, id)
  }

  ghost predicate OpenedAs(store: Store, items: seq<Item>, ownId: nat -> string, id: string) {
    exists k :: 0 <= k < |items| && Opened(store, items[k]) && id == NewKey(items[k], ownId(k))
  }

  ghost predicate ItemStories(store: Store, items: seq<Item>, window: int) {
    forall k :: 0 <= k < |items| ==> Late(store, items[k]) || ItemStory(store, items[k], window)
  }

  /** Merging into open incidents in between changes nothing about who is late. */
  lemma LateLasts(before: Store, after: Store, item: Item)
    requires AllGuarded(before, after) && (item.newIds.Some? ==> item.incident.incidentId in before.rows)
    ensures Late(after, item) <==> Late(before, item)
  {
    if item.newIds.Some? {
      var id := item.incident.incidentId;
      assert Guarded(before.rows[id], after.rows[id]);
    }
  }

  ghost predicate TargetsKnown(store: Store, items: seq<Item>) {
    forall k :: 0 <= k < |items| && items[k].newIds.Some? ==> items[k].incident.incidentId in store.rows
  }

  ghost predicate Storied(store: Store, after: Store, fs: seq<Finding>, items: seq<Item>, ownId: nat -> string,
          window: int)
  {
    && OldStories(store, after, window) && OpenedStories(store, after, fs, items, ownId, window)
    && OnlyOpened(store, after, items, ownId)
  }

  /** What an earlier item opened is not touched by a later one. */
  lemma OpenedStoryStays(store: Store, mid: Store, fs: seq<Finding>, earlier: Item, key: string, item: Item,
          ownId: string, now: int, window: int)
    requires OpenedStory(store, mid, fs, earlier, key, window) && NewKey(earlier, key) !in store.rows
    requires NewKey(item, ownId) !in mid.rows && (item.newIds.Some? ==> item.incident.incidentId in store.rows)
    ensures OpenedStory(store, SaveItem(mid, fs, item, ownId, now), fs, earlier, key, window)
  {
    if Opened(store, earlier) { RowUntouched(mid, fs, item, ownId, now, NewKey(earlier, key)); }
  }

  lemma OpenedAsMore(store: Store, items: seq<Item>, ownId: nat -> string, id: string)
    requires items != []
    requires OpenedAs(store, items[..|items| - 1], ownId, id)
      || (Opened(store, items[|items| - 1]) && id == NewKey(items[|items| - 1], ownId(|items| - 1)))
    ensures OpenedAs(store, items, ownId, id)
  {
    var n := |items| - 1;
    if OpenedAs(store, items[..n], ownId, id) {
      var k :| 0 <= k < |items[..n]| && Opened(store, items[..n][k]) && id == NewKey(items[..n][k], ownId(k));
      assert items[k] == items[..n][k];
    }
  }

  /** A merge adds no row; an item that opens an incident adds one under its own key. */
  lemma NewRowIsOpened(store: Store, fs: seq<Finding>, item: Item, ownId: string, now: int, id: string)
    requires id in SaveItem(store, fs, item, ownId, now).rows && id !in store.rows
    ensures Opened(store, item) && id == NewKey(item, ownId)
  {
  }

  lemma OpenedAt(store: Store, mid: Store, fs: seq<Finding>, items: seq<Item>, ownId: nat -> string, window: int,
          k: nat)
    requires k < |items| - 1 && OpenedStories(store, mid, fs, items[..|items| - 1], ownId, window)
    ensures OpenedStory(store, mid, fs, items[k], ownId(k), window)
  {
    assert items[..|items| - 1][k] == items[k];
  }

  lemma OpenedStoriesSnoc(store: Store, mid: Store, after: Store, fs: seq<Finding>, items: seq<Item>,
          ownId: nat -> string, window: int, now: int)
    requires items != [] && after == SaveItem(mid, fs, items[|items| - 1], ownId(|items| - 1), now)
    requires OpenedStories(store, mid, fs, items[..|items| - 1], ownId, window)
    requires TargetsKnown(store, items) && NewKeys(store, items, ownId)
    requires NewKey(items[|items| - 1], ownId(|items| - 1)) !in mid.rows
    requires OpenedStory(store, after, fs, items[|items| - 1], ownId(|items| - 1), window)
    ensures OpenedStories(store, after, fs, items, ownId, window)
  {
    var n := |items| - 1;
    forall k | 0 <= k < |items| ensures OpenedStory(store, after, fs, items[k], ownId(k), window) {
      if k < n {
        OpenedAt(store, mid, fs, items, ownId, window, k);
        OpenedStoryStays(store, mid, fs, items[k], ownId(k), items[n], ownId(n), now, window);
      }
    }
  }

  lemma OnlyOpenedSnoc(store: Store, mid: Store, after: Store, fs: seq<Finding>, items: seq<Item>, ownId: nat -> string,
          now: int)
    requires items != [] && after == SaveItem(mid, fs, items[|items| - 1], ownId(|items| - 1), now)
    requires OnlyOpened(store, mid, items[..|items| - 1], ownId)
    requires Late(mid, items[|items| - 1]) <==> Late(store, items[|items| - 1])
    ensures OnlyOpened(store, after, items, ownId)
  {
    var n := |items| - 1;
    forall id | id in after.rows && id !in store.rows ensures OpenedAs(store, items, ownId, id) {
      if id !in mid.rows { NewRowIsOpened(mid, fs, items[n], ownId(n), now, id); }
      OpenedAsMore(store, items, ownId, id);
    }
  }

  lemma StoriedSnoc(store: Store, mid: Store, after: Store, fs: seq<Finding>, items: seq<Item>, ownId: nat -> string,
          window: int, now: int)
    requires items != [] && after == SaveItem(mid, fs, items[|items| - 1], ownId(|items| - 1), now)
    requires Storied(store, mid, fs, items[..|items| - 1], ownId, window) && OldStories(store, after, window)
    requires TargetsKnown(store, items) && NewKeys(store, items, ownId)
    requires NewKey(items[|items| - 1], ownId(|items| - 1)) !in mid.rows
    requires Late(mid, items[|items| - 1]) <==> Late(store, items[|items| - 1])
    requires OpenedStory(store, after, fs, items[|items| - 1], ownId(|items| - 1), window)
    ensures Storied(store, after, fs, items, ownId, window)
  {
    OpenedStoriesSnoc(store, mid, after, fs, items, ownId, window, now);
    OnlyOpenedSnoc(store, mid, after, fs, items, ownId, now);
  }

  lemma StoriesPrefix(store: Store, items: seq<Item>, window: int)
    requires items != [] && ItemStories(store, items, window) && TargetsKnown(store, items)
    ensures ItemStories(store, items[..|items| - 1], window) && TargetsKnown(store, items[..|items| - 1])
  {
    assert forall k :: 0 <= k < |items| - 1 ==> items[..|items| - 1][k] == items[k];
  }

  /** Earlier items change nothing about the last one. */
  lemma LastItemLasts(store: Store, mid: Store, item: Item, window: int)
    requires StoreOk(store) && StoreOk(mid) && Kept(store, mid) && mid.findings == store.findings
    requires AllGuarded(store, mid) && (item.newIds.Some? ==> item.incident.incidentId in store.rows)
    requires Late(store, item) || ItemStory(store, item, window)
    ensures Late(mid, item) <==> Late(store, item)
    ensures !Late(mid, item) ==> ItemStory(mid, item, window)
  {
    LateLasts(store, mid, item);
    if !Late(store, item) { ItemStoryLasts(store, mid, item, window); }
  }

  lemma {:induction false} MidIsKept(store: Store, fs: seq<Finding>, items: seq<Item>, ownId: nat -> string, now: int)
    requires StoreOk(store) && StoredAs(store.findings, fs) && DistinctIds(fs)
    requires ItemsOk(store, items) && NewKeys(store, items, ownId)
    ensures var mid := SaveItems(store, fs, items, ownId, now);
      StoreOk(mid) && Kept(store, mid) && mid.findings == store.findings && AllGuarded(store, mid)
  {
    SaveItemsKeep(store, fs, items, ownId, now);
    SaveItemsGuard(store, fs, items, ownId, now);
  }

  lemma StoriesStep(store: Store, mid: Store, fs: seq<Finding>, items: seq<Item>, ownId: nat -> string, now: int,
          window: int)
    requires StoreOk(store) && StoredAs(store.findings, fs) && DistinctIds(fs) && items != []
    requires ItemsOk(store, items) && NewKeys(store, items, ownId)
    requires ItemStories(store, items, window) && TargetsKnown(store, items)
    requires mid == SaveItems(store, fs, items[..|items| - 1], ownId, now)
    requires Storied(store, mid, fs, items[..|items| - 1], ownId, window)
    ensures Storied(store, SaveItem(mid, fs, items[|items| - 1], ownId(|items| - 1), now), fs, items, ownId, window)
  {
    var n := |items| - 1;
    BeforeLast(store, fs, items, ownId, now);
    MidIsKept(store, fs, items[..n], ownId, now);
    LastItemLasts(store, mid, items[n], window);
    LastItemStories(store, mid, fs, items, ownId, now, window);
  }

  lemma {:induction false} SaveItemsStories(store: Store, fs: seq<Finding>, items: seq<Item>, ownId: nat -> string,
          now: int, window: int)
    requires StoreOk(store) && StoredAs(store.findings, fs) && DistinctIds(fs)
    requires ItemsOk(store, items) && NewKeys(store, items, ownId) && AllStories(store, window)
    requires ItemStories(store, items, window) && TargetsKnown(store, items)
    ensures Storied(store, SaveItems(store, fs, items, ownId, now), fs, items, ownId, window)
    decreases |items|
  {
    if items != [] {
      var init := items[..|items| - 1];
      StoriesPrefix(store, items, window);
      BeforeLast(store, fs, items, ownId, now);
      SaveItemsStories(store, fs, init, ownId, now, window);
      StoriesStep(store, SaveItems(store, fs, init, ownId, now), fs, items, ownId, now, window);
    }
  }

  lemma LastItemStories(store: Store, mid: Store, fs: seq<Finding>, items: seq<Item>, ownId: nat -> string, now: int,
          window: int)
    requires items != [] && Storied(store, mid, fs, items[..|items| - 1], ownId, window)
    requires StoreOk(mid) && StoredAs(mid.findings, fs) && DistinctIds(fs) && ItemOk(mid, items[|items| - 1])
    requires NewKeys(store, items, ownId) && NewKey(items[|items| - 1], ownId(|items| - 1)) !in mid.rows
    requires TargetsKnown(store, items) && (Late(mid, items[|items| - 1]) <==> Late(store, items[|items| - 1]))
    requires !Late(mid, items[|items| - 1]) ==> ItemStory(mid, items[|items| - 1], window)
    ensures Storied(store, SaveItem(mid, fs, items[|items| - 1], ownId(|items| - 1), now), fs, items, ownId, window)
  {
    var n := |items| - 1;
    var after := SaveItem(mid, fs, items[n], ownId(n), now);
    forall id | id in store.rows ensures id in after.rows && OneStory(FindingsOf(after, id), window) {
      TargetStays(mid, fs, items[n], ownId(n), now, id, window);
    }
    if Opened(store, items[n]) { OpenedStoryIff(mid, fs, items[n], ownId(n), now, window); }
    StoriedSnoc(store, mid, after, fs, items, ownId, window, now);
  }

  /** No late item of the save brings findings that only its target connected. */
  ghost predicate SplitsNothing(store: Store, fs: seq<Finding>, items: seq<Item>, window: int) {
    forall k :: 0 <= k < |items| && Late(store, items[k]) ==> OwnStory(fs, items[k], window)
  }

  lemma StoriedIff(store: Store, after: Store, fs: seq<Finding>, items: seq<Item>, ownId: nat -> string, window: int)
    requires Storied(store, after, fs, items, ownId, window)
    ensures AllStories(after, window) <==> SplitsNothing(store, fs, items, window)
  {
    if SplitsNothing(store, fs, items, window) {
      forall id | id in after.rows ensures OneStory(FindingsOf(after, id), window) {
        if id !in store.rows {
          assert OpenedAs(store, items, ownId, id);
          var k :| 0 <= k < |items| && Opened(store, items[k]) && id == NewKey(items[k], ownId(k));
          assert OwnStory(fs, items[k], window) && OpenedStory(store, after, fs, items[k], ownId(k), window);
        }
      }
    }
    if AllStories(after, window) {
      forall k | 0 <= k < |items| && Late(store, items[k]) ensures OwnStory(fs, items[k], window) {
        var id := NewKey(items[k], ownId(k));
        assert OpenedStory(store, after, fs, items[k], ownId(k), window);
        assert id in after.rows && OneStory(FindingsOf(after, id), window);
      }
    }
  }

  // ----- the items of a result -----

  lemma InTimeStored(findings: map<string, Finding>, all: seq<Finding>)
    requires StoredAs(findings, all)
    ensures StoredAs(findings, InTime(all))
  {
    InTimeMembers(all);
    forall m | 0 <= m < |InTime(all)|
      ensures InTime(all)[m].findingId in findings && findings[InTime(all)[m].findingId] == InTime(all)[m]
    {
      assert InTime(all)[m] in all;
    }
  }

  lemma BuiltStory(store: Store, all: seq<Finding>, id: string, now: int, window: int)
    requires StoredAs(store.findings, all) && OneStory(all, window)
    ensures ItemStory(store, Item(IncidentFrom(all, id, now), None), window)
  {
    InTimeStored(store.findings, all);
    LookupIds(store.findings, InTime(all));
    InTimeTwice(all);
    InTimeMembers(all);
    SameStory(all, InTime(all), window);
  }

  lemma StartedIs(c: Call, k: nat)
    requires Result(c) && k < |c.started|
    ensures k < |c.sources| && c.sources[k] < |c.groups|
    ensures c.started[k] == IncidentFrom(ClustersOf(c.fs, c.groups)[c.sources[k]], c.newId(k), c.now)
  {
  }

  lemma StartedStory(store: Store, c: Call, k: nat)
    requires StoredAs(store.findings, c.fs) && DistinctIds(c.fs) && Result(c) && k < |c.started|
    requires OneStory(ClustersOf(c.fs, c.groups)[c.sources[k]], c.window)
    ensures ItemStory(store, Item(c.started[k], None), c.window)
  {
    StartedIs(c, k);
    ClusterStored(store.findings, c.fs, c.groups, c.window, c.sources[k]);
    BuiltStory(store, ClustersOf(c.fs, c.groups)[c.sources[k]], c.newId(k), c.now, c.window);
  }

  /** What a merge adds is in its findings, and stored. */
  lemma AddedIsStored(store: Store, c: Call, k: nat, fid: string)
    requires StoredAs(store.findings, c.fs) && Result(c) && k < |c.merges| && fid in c.merges[k].newFindingIds
    ensures fid in store.findings && store.findings[fid] in c.merges[k].findings
  {
    var x := Candidates(c.stored)[c.targets[k]];
    var added := AddedTo(ClustersOf(c.fs, c.groups), Candidates(c.stored), c.window, c.targets[k]);
    InTimeMembers(x.findings + added);
    InAdded(added, fid);
    var f :| f in added && f.findingId == fid;
    AddedFromBatch(c, c.targets[k], f);
  }

  /** A finding of a merge was held by its target or is added. */
  lemma MergedFrom(c: Call, k: nat, f: Finding)
    requires Result(c) && k < |c.merges| && f in c.merges[k].findings
    ensures f in Candidates(c.stored)[c.targets[k]].findings || (f in c.fs && f.findingId in c.merges[k].newFindingIds)
  {
    var x := Candidates(c.stored)[c.targets[k]];
    var added := AddedTo(ClustersOf(c.fs, c.groups), Candidates(c.stored), c.window, c.targets[k]);
    InTimeMembers(x.findings + added);
    if f in added {
      InAdded(added, f.findingId);
      AddedFromBatch(c, c.targets[k], f);
    }
  }

  /** The target as it is now, holding at least what the pipeline read. */
  lemma TargetGrew(seen: Store, store: Store, c: Call, k: nat)
    requires StoreOk(seen) && Computed(seen, c) && StoreOk(store) && Lasts(seen, store) && k < |c.merges|
    ensures var x, id := Candidates(c.stored)[c.targets[k]], c.merges[k].incident.incidentId;
      && id in store.rows && x.findings != [] && Within(x.findings, FindingsOf(store, id))
        && Within(x.findings, c.merges[k].findings)
  {
    MergeHolds(c, k);
    CandidatesFacts(c.stored);
    var x := Candidates(c.stored)[c.targets[k]];
    assert x in Candidates(c.stored);
    ReadGrew(seen, store, x);
  }

  lemma ReadGrew(seen: Store, store: Store, x: StoredIncident)
    requires StoreOk(seen) && ReadFrom(seen, x) && StoreOk(store) && Lasts(seen, store)
    ensures x.incident.incidentId in store.rows && Within(x.findings, FindingsOf(store, x.incident.incidentId))
  {
    FindingsLast(seen, store, x.incident.incidentId);
  }

  lemma MergeHolds(c: Call, k: nat)
    requires Result(c) && k < |c.merges|
    ensures c.targets[k] < |Candidates(c.stored)|
    ensures var x := Candidates(c.stored)[c.targets[k]];
      && c.merges[k].incident.incidentId == x.incident.incidentId && x.findings != []
        && Within(x.findings, c.merges[k].findings)
  {
    InTimeMembers(Candidates(c.stored)[c.targets[k]].findings
      + AddedTo(ClustersOf(c.fs, c.groups), Candidates(c.stored), c.window, c.targets[k]));
    TargetHolds(c, c.targets[k]);
  }

  lemma MergeBridges(seen: Store, store: Store, c: Call, k: nat)
    requires StoreOk(seen) && Computed(seen, c) && StoreOk(store) && Lasts(seen, store)
    requires StoredAs(store.findings, c.fs) && k < |c.merges| && OneStory(c.merges[k].findings, c.window)
    requires !Late(store, Item(c.merges[k].incident, Some(c.merges[k].newFindingIds)))
    ensures ItemStory(store, Item(c.merges[k].incident, Some(c.merges[k].newFindingIds)), c.window)
  {
    var item, b := Item(c.merges[k].incident, Some(c.merges[k].newFindingIds)), c.merges[k].findings;
    var x, id := Candidates(c.stored)[c.targets[k]], c.merges[k].incident.incidentId;
    TargetGrew(seen, store, c, k);
    assert x.findings[0] in x.findings;
    forall f | f in b
      ensures f in FindingsOf(store, id) || f.findingId in item.newIds.value
      ensures f.findingId in store.findings && store.findings[f.findingId] == f
    {
      MergedFrom(c, k, f);
      if f in x.findings { MembersOf(store, id, f); }
    }
    forall fid | fid in item.newIds.value ensures fid in store.findings && store.findings[fid] in b {
      AddedIsStored(store, c, k, fid);
    }
    assert Bridge(store, item, b, c.window);
  }

  lemma TargetHolds(c: Call, t: nat)
    requires Result(c) && t < |Candidates(c.stored)|
    requires AddedTo(ClustersOf(c.fs, c.groups), Candidates(c.stored), c.window, t) != []
    ensures Candidates(c.stored)[t].findings != []
  {
    var clusters, candidates := ClustersOf(c.fs, c.groups), Candidates(c.stored);
    var f := AddedTo(clusters, candidates, c.window, t)[0];
    assert f in AddedTo(clusters, candidates, c.window, t);
    NewForMembers(clusters, candidates, c.window, t, f);
    var a :| 0 <= a < |clusters| && Target(clusters[a], candidates, c.window) == Some(t) && f in clusters[a];
    TargetLinks(clusters[a], candidates, c.window);
    LinkedHolds(clusters[a], candidates[t].findings, c.window);
  }

  /** What the pipeline computed is ready to be saved into the grown tables. */
  lemma CallItemStory(seen: Store, store: Store, c: Call, item: Item)
    requires StoreOk(seen) && Computed(seen, c) && StoreOk(store) && Lasts(seen, store)
    requires StoredAs(store.findings, c.fs) && DistinctIds(c.fs) && item in ItemsOf(c)
    requires forall k :: 0 <= k < |c.sources| ==> OneStory(ClustersOf(c.fs, c.groups)[c.sources[k]], c.window)
    requires forall k :: 0 <= k < |c.merges| ==> OneStory(c.merges[k].findings, c.window)
    ensures Late(store, item) || ItemStory(store, item, c.window)
    ensures item.newIds.Some? ==> item.incident.incidentId in store.rows
  {
    ItemOfCall(c, item);
    if item.newIds.None? {
      var k :| 0 <= k < |c.started| && item == Item(c.started[k], None);
      StartedStory(store, c, k);
    } else {
      var k :| 0 <= k < |c.merges| && item == Item(c.merges[k].incident, Some(c.merges[k].newFindingIds));
      TargetGrew(seen, store, c, k);
      if !Late(store, item) { MergeBridges(seen, store, c, k); }
    }
  }

  lemma SameIncidents(before: Store, after: Store, window: int)
    requires AllStories(before, window) && after.findings == before.findings && after.rows.Keys == before.rows.Keys
    requires forall id :: id in before.rows ==> after.rows[id].incident == before.rows[id].incident
    ensures AllStories(after, window)
  {
    forall id | id in after.rows ensures OneStory(FindingsOf(after, id), window) {
      assert id in before.rows && FindingsOf(after, id) == FindingsOf(before, id);
    }
  }

  lemma InsertedStories(store: Store, fs: seq<Finding>, window: int)
    requires StoreOk(store) && Agreeing(store.findings, fs) && AllStories(store, window)
    ensures AllStories(Inserted(store, fs), window)
  {
    InsertedOk(store, fs);
    var after := Inserted(store, fs);
    forall id | id in after.rows ensures OneStory(FindingsOf(after, id), window) {
      assert RowOk(store, id);
      LookupStays(store.findings, after.findings, store.rows[id].incident.findingIds);
      assert FindingsOf(after, id) == FindingsOf(store, id);
    }
  }

  /** The assumptions of the theorem below: no finding is replaced, redeliveries carry the same time
      and entities, one window, and connected incidents to begin with. */
  ghost predicate Steady(states: seq<Store>, steps: seq<Step>, window: int) {
    && Agreed(states, steps) && AllStories(states[0], window) && NoFalseTwins(states, steps)
    && forall k :: 0 <= k < |steps| && steps[k].Saved? ==> steps[k].call.window == window
  }

  /** The save at step `k` merges only into incidents that are still open, or, where a verdict came
      first, brings findings that are connected by themselves. */
  ghost predicate StepSplitsNothing(states: seq<Store>, steps: seq<Step>, k: nat, window: int)
    requires k < |steps| && k < |states|
  {
    steps[k].Saved? ==> SplitsNothing(states[k], steps[k].call.fs, ItemsOf(steps[k].call), window)
  }

  lemma SaveStories(states: seq<Store>, steps: seq<Step>, k: nat, window: int)
    requires Steady(states, steps, window) && k < |steps| && steps[k].Saved? && steps[k].seen <= k
    requires AllStories(states[k], window) && AllStories(states[steps[k].seen], window)
    ensures var c := steps[k].call; var store := Inserted(states[k], c.fs);
      && AllStories(store, window) && ItemStories(store, ItemsOf(c), window) && TargetsKnown(store, ItemsOf(c))
  {
    AgreedIsOk(states, steps, k);
    AgreedIsOk(states, steps, steps[k].seen);
    assert StepFits(states, k, steps[k]);
    SavedStepKeeps(states, steps, k);
    var c, seen := steps[k].call, states[steps[k].seen];
    var store := Inserted(states[k], c.fs);
    InsertedStories(states[k], c.fs, window);
    assert TwinsOf(seen, c.fs);
    CallStories(seen, c);
    RunLasts(states, steps, steps[k].seen, k);
    KeptLasts(states[k], store);
    LastsTrans(seen, states[k], store);
    forall n | 0 <= n < |ItemsOf(c)|
      ensures Late(store, ItemsOf(c)[n]) || ItemStory(store, ItemsOf(c)[n], window)
      ensures ItemsOf(c)[n].newIds.Some? ==> ItemsOf(c)[n].incident.incidentId in store.rows
    {
      CallItemStory(seen, store, c, ItemsOf(c)[n]);
    }
  }

  lemma SameLate(store: Store, fs: seq<Finding>, items: seq<Item>, window: int)
    ensures SplitsNothing(Inserted(store, fs), fs, items, window) <==> SplitsNothing(store, fs, items, window)
  {
    assert forall k :: 0 <= k < |items| ==> (Late(Inserted(store, fs), items[k]) <==> Late(store, items[k]));
  }

  lemma StepStoriesIff(states: seq<Store>, steps: seq<Step>, k: nat, window: int)
    requires Steady(states, steps, window) && k < |steps| && AllStories(states[k], window)
    requires steps[k].Saved? ==> steps[k].seen <= k && AllStories(states[steps[k].seen], window)
    ensures AllStories(states[k + 1], window) <==> StepSplitsNothing(states, steps, k, window)
  {
    AgreedIsOk(states, steps, k);
    var step := steps[k];
    assert StepFits(states, k, step);
    if step.Triaged? {
      UpdateKeeps(states[k], step.incidentId, step.status, step.assignee, step.resolution);
      SameIncidents(states[k], states[k + 1], window);
    } else {
      var c, store := step.call, Inserted(states[k], step.call.fs);
      SavedStepKeeps(states, steps, k);
      SaveStories(states, steps, k, window);
      SaveItemsStories(store, c.fs, ItemsOf(c), step.ownId, step.now, window);
      StoriedIff(store, states[k + 1], c.fs, ItemsOf(c), step.ownId, window);
      SameLate(states[k], c.fs, ItemsOf(c), window);
    }
  }

  ghost predicate StoriesUpTo(states: seq<Store>, window: int, n: nat) {
    forall j :: 0 <= j <= n && j < |states| ==> AllStories(states[j], window)
  }

  ghost predicate NothingSplitUpTo(states: seq<Store>, steps: seq<Step>, window: int, n: nat)
    requires |states| == |steps| + 1
  {
    forall k :: 0 <= k < n && k < |steps| ==> StepSplitsNothing(states, steps, k, window)
  }

  lemma StoryAt(states: seq<Store>, window: int, n: nat, j: nat)
    requires StoriesUpTo(states, window, n) && j <= n && j < |states|
    ensures AllStories(states[j], window)
  {
  }

  lemma StoriesSnoc(states: seq<Store>, window: int, n: nat)
    requires 0 < n < |states|
    ensures StoriesUpTo(states, window, n) <==> StoriesUpTo(states, window, n - 1) && AllStories(states[n], window)
  {
  }

  lemma SplitSnoc(states: seq<Store>, steps: seq<Step>, window: int, n: nat)
    requires |states| == |steps| + 1 && 0 < n < |states|
    ensures NothingSplitUpTo(states, steps, window, n) <==>
      NothingSplitUpTo(states, steps, window, n - 1) && StepSplitsNothing(states, steps, n - 1, window)
  {
  }

  lemma SeenBefore(states: seq<Store>, steps: seq<Step>, k: nat)
    requires Run(states, steps) && k < |steps| && steps[k].Saved?
    ensures steps[k].seen <= k
  {
    assert StepFits(states, k, steps[k]);
  }

  lemma StoryStep(states: seq<Store>, steps: seq<Step>, k: nat, window: int)
    requires Steady(states, steps, window) && k < |steps| && StoriesUpTo(states, window, k)
    ensures AllStories(states[k + 1], window) <==> StepSplitsNothing(states, steps, k, window)
  {
    StoryAt(states, window, k, k);
    if steps[k].Saved? {
      SeenBefore(states, steps, k);
      StoryAt(states, window, k, steps[k].seen);
    }
    StepStoriesIff(states, steps, k, window);
  }

  ghost predicate StepDecides(states: seq<Store>, steps: seq<Step>, window: int, k: nat)
    requires k < |steps| && k + 1 < |states|
  {
    StoriesUpTo(states, window, k) ==>
      (AllStories(states[k + 1], window) <==> StepSplitsNothing(states, steps, k, window))
  }

  ghost predicate StepsDecide(states: seq<Store>, steps: seq<Step>, window: int) {
    && |states| == |steps| + 1 && AllStories(states[0], window)
    && forall k :: 0 <= k < |steps| ==> StepDecides(states, steps, window, k)
  }

  lemma SteadyDecides(states: seq<Store>, steps: seq<Step>, window: int)
    requires Steady(states, steps, window)
    ensures StepsDecide(states, steps, window)
  {
    forall k | 0 <= k < |steps| ensures StepDecides(states, steps, window, k) {
      if StoriesUpTo(states, window, k) { StoryStep(states, steps, k, window); }
    }
  }

  lemma {:induction false} DecidedUpTo(states: seq<Store>, steps: seq<Step>, n: nat, window: int)
    requires StepsDecide(states, steps, window) && n < |states|
    ensures StoriesUpTo(states, window, n) <==> NothingSplitUpTo(states, steps, window, n)
  {
    if n > 0 {
      DecidedUpTo(states, steps, n - 1, window);
      DecidesAt(states, steps, n - 1, window);
      DecidedSnoc(states, steps, n, window);
    } else {
      NothingYet(states, steps, window);
    }
  }

  lemma DecidesAt(states: seq<Store>, steps: seq<Step>, k: nat, window: int)
    requires StepsDecide(states, steps, window) && k < |steps|
    ensures StepDecides(states, steps, window, k)
  {
  }

  lemma NothingYet(states: seq<Store>, steps: seq<Step>, window: int)
    requires StepsDecide(states, steps, window)
    ensures StoriesUpTo(states, window, 0) && NothingSplitUpTo(states, steps, window, 0)
  {
  }

  lemma DecidedSnoc(states: seq<Store>, steps: seq<Step>, n: nat, window: int)
    requires |states| == |steps| + 1 && 0 < n < |states| && StepDecides(states, steps, window, n - 1)
    requires StoriesUpTo(states, window, n - 1) <==> NothingSplitUpTo(states, steps, window, n - 1)
    ensures StoriesUpTo(states, window, n) <==> NothingSplitUpTo(states, steps, window, n)
  {
    StoriesSnoc(states, window, n);
    SplitSnoc(states, steps, window, n);
  }

  /** Every incident of every state so far is one connected story if and only if every save either found
      the targets of its merges still open, or brought findings connected by themselves. */
  lemma EveryIncidentIsOneStory(states: seq<Store>, steps: seq<Step>, n: nat, window: int)
    requires Steady(states, steps, window) && n < |states|
    ensures StoriesUpTo(states, window, n) <==> NothingSplitUpTo(states, steps, window, n)
  {
    SteadyDecides(states, steps, window);
    DecidedUpTo(states, steps, n, window);
  }
}
