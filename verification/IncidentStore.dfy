/** The incident side of src/autosiem/storage.py: saving a pipeline result, merging under the row lock
    and analysts' triage, as functions on the tables. */
module IncidentStore {
  import opened Common
  import opened Schemas
  import opened Sorting
  import opened Incidents

  datatype Status = Open | Investigating | Resolved | Closed

  datatype Row = Row(incident: Incident, status: Status, assignee: Option<string>, resolution: Option<string>)

  datatype Store = Store(findings: map<string, Finding>, rows: map<string, Row>)

  /** An incident of a result; for a merge, the ids of the findings it adds. */
  datatype Item = Item(incident: Incident, newIds: Option<seq<string>>)

  predicate Mergeable(status: Status) {
    status.Open? || status.Investigating?
  }

  // ----- findings -----

  /** `insert or replace` */
  function InsertFindings(findings: map<string, Finding>, fs: seq<Finding>): map<string, Finding> {
    if fs == [] then findings
    else
      var last := fs[|fs| - 1];
      InsertFindings(findings, fs[..|fs| - 1])[last.findingId := last]
  }

  function Lookup(findings: map<string, Finding>, ids: seq<string>): seq<Finding> {
    if ids == [] then []
    else
      var rest, last := Lookup(findings, ids[..|ids| - 1]), ids[|ids| - 1];
      if last in findings then rest + [findings[last]] else rest
  }

  /** The findings with these ids, by time. */
  function FindingsByIds(store: Store, ids: seq<string>): seq<Finding> {
    InTime(Lookup(store.findings, ids))
  }

  /** The findings of a stored incident. */
  function FindingsOf(store: Store, id: string): seq<Finding>
    requires id in store.rows
  {
    FindingsByIds(store, store.rows[id].incident.findingIds)
  }

  /** `dict.fromkeys([*known, *more])` */
  function Deduped(known: seq<string>, more: seq<string>): seq<string>
    decreases |more|
  {
    if more == [] then known
    else
      var rest := Deduped(known, more[..|more| - 1]);
      if more[|more| - 1] in rest then rest else rest + [more[|more| - 1]]
  }

  // ----- one save -----

  /** `None` if the incident no longer takes findings. */
  function MergeIncident(store: Store, incidentId: string, newIds: seq<string>): Option<Store> {
    if incidentId !in store.rows || !Mergeable(store.rows[incidentId].status) then None
    else
      var row := store.rows[incidentId];
      var ids := Deduped(row.incident.findingIds, newIds);
      var incident := IncidentFrom(FindingsByIds(store, ids), incidentId, row.incident.createdAt);
      Some(store.(rows := store.rows[incidentId := row.(incident := incident)]))
  }

  function Chosen(fs: seq<Finding>, ids: seq<string>): seq<Finding> {
    if fs == [] then []
    else
      var rest, last := Chosen(fs[..|fs| - 1], ids), fs[|fs| - 1];
      if last.findingId in ids then rest + [last] else rest
  }

  function InsertIncident(store: Store, incident: Incident): Store {
    store.(rows := store.rows[incident.incidentId := Row(incident, Open, None, None)])
  }

  /** If a verdict came first, the new findings open an incident of their own, `ownId`. */
  function SaveItem(store: Store, fs: seq<Finding>, item: Item, ownId: string, now: int): Store {
    match item.newIds
    case None => InsertIncident(store, item.incident)
    case Some(newIds) =>
      match MergeIncident(store, item.incident.incidentId, newIds)
      case Some(merged) => merged
      case None => InsertIncident(store, IncidentFrom(Chosen(fs, newIds), ownId, now))
  }

  function SaveItems(store: Store, fs: seq<Finding>, items: seq<Item>, ownId: nat -> string, now: int): Store {
    if items == [] then store
    else
      SaveItem(SaveItems(store, fs, items[..|items| - 1], ownId, now), fs, items[|items| - 1], ownId(|items| - 1), now)
  }

  function Save(store: Store, fs: seq<Finding>, items: seq<Item>, ownId: nat -> string, now: int): Store {
    SaveItems(store.(findings := InsertFindings(store.findings, fs)), fs, items, ownId, now)
  }

  function UpdateIncident(store: Store, incidentId: string, status: Option<Status>, assignee: Option<string>,
          resolution: Option<string>): Option<Store>
  {
    if incidentId !in store.rows then None
    else
      var row := store.rows[incidentId];
      var updated := row.(
        status := if status.Some? then status.value else row.status,
        assignee := if assignee.Some? then assignee else row.assignee,
        resolution := if resolution.Some? then resolution else row.resolution);
      Some(store.(rows := store.rows[incidentId := updated]))
  }

  // ----- what always holds -----

  ghost predicate KeyedById(findings: map<string, Finding>) {
    forall id :: id in findings ==> findings[id].findingId == id
  }

  ghost predicate AllIn(ids: seq<string>, findings: map<string, Finding>) {
    forall id :: id in ids ==> id in findings
  }

  /** A row's incident is the one its stored findings give. */
  ghost predicate RowOk(store: Store, incidentId: string)
    requires incidentId in store.rows
  {
    var incident := store.rows[incidentId].incident;
    && NoDup(incident.findingIds) && AllIn(incident.findingIds, store.findings)
    && incident == IncidentFrom(FindingsByIds(store, incident.findingIds), incidentId, incident.createdAt)
  }

  ghost predicate StoreOk(store: Store) {
    KeyedById(store.findings) && forall id :: id in store.rows ==> RowOk(store, id)
  }

  /** An incident is stored under its id and lists stored findings, each once. */
  ghost predicate RowLists(store: Store, incidentId: string)
    requires incidentId in store.rows
  {
    var incident := store.rows[incidentId].incident;
    incident.incidentId == incidentId && NoDup(incident.findingIds) && AllIn(incident.findingIds, store.findings)
  }

  ghost predicate ListsOk(store: Store) {
    KeyedById(store.findings) && forall id :: id in store.rows ==> RowLists(store, id)
  }

  lemma OkIsListed(store: Store)
    requires StoreOk(store)
    ensures ListsOk(store)
  {
    forall id | id in store.rows ensures RowLists(store, id) {
      assert RowOk(store, id);
    }
  }

  /** Saved again, a finding is the same finding. */
  ghost predicate Agreeing(findings: map<string, Finding>, fs: seq<Finding>) {
    && (forall i :: 0 <= i < |fs| && fs[i].findingId in findings ==> findings[fs[i].findingId] == fs[i])
    && DistinctIds(fs)
  }

  ghost predicate Extends(findings: map<string, Finding>, more: map<string, Finding>) {
    forall id :: id in findings ==> id in more && more[id] == findings[id]
  }

  lemma {:induction false} InsertFacts(findings: map<string, Finding>, fs: seq<Finding>)
    requires KeyedById(findings) && Agreeing(findings, fs)
    ensures KeyedById(InsertFindings(findings, fs)) && Extends(findings, InsertFindings(findings, fs))
    ensures StoredAs(InsertFindings(findings, fs), fs)
  {
    if fs != [] {
      var init := fs[..|fs| - 1];
      assert forall i :: 0 <= i < |init| ==> init[i] == fs[i];
      InsertFacts(findings, init);
    }
  }

  lemma {:induction false} LookupAll(findings: map<string, Finding>, ids: seq<string>)
    requires AllIn(ids, findings)
    ensures |Lookup(findings, ids)| == |ids|
    ensures forall k :: 0 <= k < |ids| ==> Lookup(findings, ids)[k] == findings[ids[k]]
  {
    if ids != [] {
      var init := ids[..|ids| - 1];
      assert ids == init + [ids[|ids| - 1]];
      LookupAll(findings, init);
      assert ids[|ids| - 1] in ids;
    }
  }

  lemma {:induction false} LookupStays(findings: map<string, Finding>, more: map<string, Finding>, ids: seq<string>)
    requires AllIn(ids, findings) && Extends(findings, more)
    ensures Lookup(more, ids) == Lookup(findings, ids)
  {
    LookupAll(findings, ids);
    assert AllIn(ids, more);
    LookupAll(more, ids);
    assert forall k :: 0 <= k < |ids| ==> ids[k] in ids;
  }

  /** Looking up the ids of stored findings gives the findings. */
  lemma {:induction false} LookupIds(findings: map<string, Finding>, all: seq<Finding>)
    requires forall k :: 0 <= k < |all| ==> all[k].findingId in findings && findings[all[k].findingId] == all[k]
    ensures Lookup(findings, IdsOf(all)) == all
  {
    LookupAll(findings, IdsOf(all));
  }

  // ----- sorting again changes nothing -----

  lemma {:induction false} InsertLast(s: seq<Finding>, f: Finding)
    requires forall k :: 0 <= k < |s| ==> When(s[k]) <= When(f)
    ensures Insert(s, f, When) == s + [f]
  {
  }

  lemma {:induction false} SortedFixed(s: seq<Finding>)
    requires Ascending(s, When)
    ensures InTime(s) == s
  {
    if s != [] {
      var init, last := s[..|s| - 1], s[|s| - 1];
      SortedFixed(init);
      InsertLast(init, last);
      assert s == init + [last];
    }
  }

  lemma InTimeTwice(s: seq<Finding>)
    ensures InTime(InTime(s)) == InTime(s)
  {
    SortedFacts(s, When);
    SortedFixed(InTime(s));
  }

  ghost predicate StoredAs(findings: map<string, Finding>, all: seq<Finding>) {
    forall k :: 0 <= k < |all| ==> all[k].findingId in findings && findings[all[k].findingId] == all[k]
  }

  /** Any incident built from stored findings is the one its own ids give back. */
  lemma BuiltIsOk(store: Store, all: seq<Finding>, incidentId: string, createdAt: int)
    requires StoredAs(store.findings, all) && NoDup(IdsOf(InTime(all)))
    ensures var incident := IncidentFrom(all, incidentId, createdAt);
      && NoDup(incident.findingIds) && AllIn(incident.findingIds, store.findings)
      && incident == IncidentFrom(FindingsByIds(store, incident.findingIds), incidentId, createdAt)
  {
    var incident, cluster := IncidentFrom(all, incidentId, createdAt), InTime(all);
    InTimeMembers(all);
    forall k | 0 <= k < |cluster|
      ensures cluster[k].findingId in store.findings && store.findings[cluster[k].findingId] == cluster[k]
    {
      assert cluster[k] in cluster;
      var m :| 0 <= m < |all| && all[m] == cluster[k];
    }
    LookupIds(store.findings, cluster);
    InTimeTwice(all);
    forall id | id in incident.findingIds ensures id in store.findings {
      var k :| 0 <= k < |incident.findingIds| && incident.findingIds[k] == id;
    }
  }

  lemma {:induction false} InsertDistinct(s: seq<Finding>, f: Finding)
    requires DistinctIds(s) && forall k :: 0 <= k < |s| ==> s[k].findingId != f.findingId
    ensures DistinctIds(Insert(s, f, When))
    ensures forall x :: x in Insert(s, f, When) <==> x in s || x == f
  {
    if s != [] && When(s[|s| - 1]) > When(f) {
      var init, last := s[..|s| - 1], s[|s| - 1];
      assert s == init + [last];
      InsertDistinct(init, f);
      var r := Insert(init, f, When);
      forall k | 0 <= k < |r| ensures r[k].findingId != last.findingId {
        assert r[k] in r;
        if r[k] != f { var m :| 0 <= m < |init| && init[m] == r[k]; }
      }
    }
  }

  lemma {:induction false} InTimeDistinct(all: seq<Finding>)
    requires DistinctIds(all)
    ensures DistinctIds(InTime(all)) && NoDup(IdsOf(InTime(all)))
  {
    if all != [] {
      var init, last := all[..|all| - 1], all[|all| - 1];
      InTimeDistinct(init);
      InTimeMembers(init);
      forall k | 0 <= k < |InTime(init)| ensures InTime(init)[k].findingId != last.findingId {
        assert InTime(init)[k] in InTime(init);
        var m :| 0 <= m < |init| && init[m] == InTime(init)[k];
        assert all[m] == init[m];
      }
      InsertDistinct(InTime(init), last);
    }
  }

  // ----- one save keeps the tables right -----

  lemma {:induction false} DedupedFacts(known: seq<string>, more: seq<string>)
    requires NoDup(known)
    ensures NoDup(Deduped(known, more))
    ensures forall id :: id in Deduped(known, more) <==> id in known || id in more
    decreases |more|
  {
    if more != [] {
      var init := more[..|more| - 1];
      assert more == init + [more[|more| - 1]];
      DedupedFacts(known, init);
    }
  }

  /** Triage stays as the analyst set it, and an incident that is no longer open stays altogether. */
  ghost predicate Guarded(row: Row, after: Row) {
    && after.status == row.status && after.assignee == row.assignee && after.resolution == row.resolution
    && (!Mergeable(row.status) ==> after == row)
  }

  ghost predicate RowKept(row: Row, after: Row) {
    Guarded(row, after) && forall id :: id in row.incident.findingIds ==> id in after.incident.findingIds
  }

  ghost predicate Kept(before: Store, after: Store) {
    && Extends(before.findings, after.findings)
    && forall id :: id in before.rows ==> id in after.rows && RowKept(before.rows[id], after.rows[id])
  }

  lemma KeptTrans(a: Store, b: Store, c: Store)
    requires Kept(a, b) && Kept(b, c)
    ensures Kept(a, c)
  {
    forall id | id in a.rows ensures id in c.rows && RowKept(a.rows[id], c.rows[id]) {
      assert RowKept(a.rows[id], b.rows[id]) && RowKept(b.rows[id], c.rows[id]);
    }
  }

  ghost predicate InSomeRow(store: Store, findingId: string) {
    exists id :: id in store.rows && findingId in store.rows[id].incident.findingIds
  }

  lemma LookupStored(store: Store, ids: seq<string>)
    requires KeyedById(store.findings) && NoDup(ids) && AllIn(ids, store.findings)
    ensures StoredAs(store.findings, FindingsByIds(store, ids)) && NoDup(IdsOf(InTime(FindingsByIds(store, ids))))
    ensures forall f :: f in FindingsByIds(store, ids) <==> exists k :: 0 <= k < |ids| && store.findings[ids[k]] == f
  {
    LookupAll(store.findings, ids);
    var all := Lookup(store.findings, ids);
    assert forall k :: 0 <= k < |ids| ==> ids[k] in ids && all[k].findingId == ids[k];
    InTimeDistinct(all);
    InTimeTwice(all);
    InTimeMembers(all);
    var sorted := InTime(all);
    forall k | 0 <= k < |sorted|
      ensures sorted[k].findingId in store.findings && store.findings[sorted[k].findingId] == sorted[k]
    {
      assert sorted[k] in sorted && sorted[k] in all;
      var m :| 0 <= m < |all| && all[m] == sorted[k];
    }
  }

  lemma MergeIsOk(store: Store, incidentId: string, newIds: seq<string>)
    requires ListsOk(store) && AllIn(newIds, store.findings) && MergeIncident(store, incidentId, newIds).Some?
    ensures var after := MergeIncident(store, incidentId, newIds).value;
      && RowOk(after, incidentId)
      && forall id :: id in after.rows[incidentId].incident.findingIds <==>
        id in store.rows[incidentId].incident.findingIds || id in newIds
  {
    var row := store.rows[incidentId];
    var after := MergeIncident(store, incidentId, newIds).value;
    assert RowLists(store, incidentId);
    DedupedFacts(row.incident.findingIds, newIds);
    var ids := Deduped(row.incident.findingIds, newIds);
    LookupStored(store, ids);
    BuiltIsOk(store, FindingsByIds(store, ids), incidentId, row.incident.createdAt);
    assert FindingsByIds(after, after.rows[incidentId].incident.findingIds)
      == FindingsByIds(store, after.rows[incidentId].incident.findingIds);
    MergedIds(store, ids, incidentId, row.incident.createdAt);
  }

  lemma MergedIds(store: Store, ids: seq<string>, incidentId: string, createdAt: int)
    requires KeyedById(store.findings) && NoDup(ids) && AllIn(ids, store.findings)
    ensures forall id :: id in IncidentFrom(FindingsByIds(store, ids), incidentId, createdAt).findingIds <==> id in ids
  {
    LookupStored(store, ids);
    var all := FindingsByIds(store, ids);
    IncidentIds(all, incidentId, createdAt);
    var got := IncidentFrom(all, incidentId, createdAt).findingIds;
    forall id ensures id in got <==> id in ids {
      if id in ids {
        var k :| 0 <= k < |ids| && ids[k] == id;
        assert store.findings[ids[k]] in all;
      }
      if id in got {
        var f :| f in all && f.findingId == id;
        var k :| 0 <= k < |ids| && store.findings[ids[k]] == f;
        assert ids[k] in ids;
      }
    }
  }

  lemma MergeKeeps(store: Store, incidentId: string, newIds: seq<string>)
    requires StoreOk(store) && AllIn(newIds, store.findings) && MergeIncident(store, incidentId, newIds).Some?
    ensures StoreOk(MergeIncident(store, incidentId, newIds).value)
    ensures Kept(store, MergeIncident(store, incidentId, newIds).value)
  {
    OkIsListed(store);
    MergeIsOk(store, incidentId, newIds);
    var after := MergeIncident(store, incidentId, newIds).value;
    forall id | id in after.rows ensures RowOk(after, id) {
      if id != incidentId { OtherRowOk(store, after, id); }
    }
    MergeLeavesRest(store, incidentId, newIds);
  }

  lemma OtherRowOk(store: Store, after: Store, id: string)
    requires StoreOk(store) && after.findings == store.findings && id in store.rows && id in after.rows
    requires after.rows[id].incident == store.rows[id].incident
    ensures RowOk(after, id)
  {
    assert RowOk(store, id);
    assert FindingsByIds(after, store.rows[id].incident.findingIds)
      == FindingsByIds(store, store.rows[id].incident.findingIds);
  }

  lemma MergeLeavesRest(store: Store, incidentId: string, newIds: seq<string>)
    requires StoreOk(store) && AllIn(newIds, store.findings) && MergeIncident(store, incidentId, newIds).Some?
    ensures Kept(store, MergeIncident(store, incidentId, newIds).value)
  {
    OkIsListed(store);
    MergeIsOk(store, incidentId, newIds);
    var after := MergeIncident(store, incidentId, newIds).value;
    forall id | id in store.rows ensures id in after.rows && RowKept(store.rows[id], after.rows[id]) {}
  }

  ghost predicate IncidentOk(store: Store, incident: Incident) {
    && NoDup(incident.findingIds) && AllIn(incident.findingIds, store.findings)
    && incident == IncidentFrom(FindingsByIds(store, incident.findingIds), incident.incidentId, incident.createdAt)
  }

  lemma NewRowOk(store: Store, incident: Incident)
    requires IncidentOk(store, incident)
    ensures RowOk(InsertIncident(store, incident), incident.incidentId)
  {
    var after := InsertIncident(store, incident);
    assert FindingsByIds(after, incident.findingIds) == FindingsByIds(store, incident.findingIds);
  }

  lemma InsertOk(store: Store, incident: Incident)
    requires StoreOk(store) && incident.incidentId !in store.rows && IncidentOk(store, incident)
    ensures StoreOk(InsertIncident(store, incident))
  {
    var after := InsertIncident(store, incident);
    forall id | id in after.rows ensures RowOk(after, id) {
      if id == incident.incidentId { NewRowOk(store, incident); } else { OtherRowOk(store, after, id); }
    }
  }

  lemma InsertKept(store: Store, incident: Incident)
    requires incident.incidentId !in store.rows
    ensures Kept(store, InsertIncident(store, incident))
  {
  }

  lemma InsertKeeps(store: Store, incident: Incident)
    requires StoreOk(store) && incident.incidentId !in store.rows && IncidentOk(store, incident)
    ensures StoreOk(InsertIncident(store, incident)) && Kept(store, InsertIncident(store, incident))
  {
    InsertOk(store, incident);
    InsertKept(store, incident);
  }

  lemma {:induction false} ChosenFacts(fs: seq<Finding>, ids: seq<string>)
    ensures forall f :: f in Chosen(fs, ids) <==> f in fs && f.findingId in ids
    ensures DistinctIds(fs) ==> DistinctIds(Chosen(fs, ids))
  {
    if fs != [] {
      var init, last := fs[..|fs| - 1], fs[|fs| - 1];
      assert fs == init + [last];
      ChosenFacts(init, ids);
      var rest := Chosen(init, ids);
      if DistinctIds(fs) {
        forall k | 0 <= k < |rest| ensures rest[k].findingId != last.findingId {
          assert rest[k] in rest && rest[k] in init;
          var m :| 0 <= m < |init| && init[m] == rest[k];
          assert fs[m] == init[m];
        }
      }
    }
  }

  lemma {:induction false} ChosenIsOk(store: Store, fs: seq<Finding>, ids: seq<string>, incidentId: string, now: int)
    requires StoredAs(store.findings, fs) && DistinctIds(fs)
    ensures IncidentOk(store, IncidentFrom(Chosen(fs, ids), incidentId, now))
  {
    ChosenFacts(fs, ids);
    var all := Chosen(fs, ids);
    forall k | 0 <= k < |all| ensures all[k].findingId in store.findings && store.findings[all[k].findingId] == all[k] {
      assert all[k] in all && all[k] in fs;
      var m :| 0 <= m < |fs| && fs[m] == all[k];
    }
    InTimeDistinct(all);
    BuiltIsOk(store, all, incidentId, now);
  }

  /** An item a save can be given. */
  ghost predicate ItemOk(store: Store, item: Item) {
    match item.newIds
    case None => IncidentOk(store, item.incident)
    case Some(newIds) => AllIn(newIds, store.findings)
  }

  function NewKey(item: Item, ownId: string): string {
    if item.newIds.None? then item.incident.incidentId else ownId
  }

  lemma SaveItemKeeps(store: Store, fs: seq<Finding>, item: Item, ownId: string, now: int)
    requires StoreOk(store) && StoredAs(store.findings, fs) && DistinctIds(fs) && ItemOk(store, item)
    requires NewKey(item, ownId) !in store.rows
    ensures StoreOk(SaveItem(store, fs, item, ownId, now)) && Kept(store, SaveItem(store, fs, item, ownId, now))
    ensures SaveItem(store, fs, item, ownId, now).findings == store.findings
    ensures forall id :: id in SaveItem(store, fs, item, ownId, now).rows ==>
      id in store.rows || id == NewKey(item, ownId)
  {
    match item.newIds
    case None => InsertKeeps(store, item.incident);
    case Some(newIds) =>
      if MergeIncident(store, item.incident.incidentId, newIds).Some? {
        MergeKeeps(store, item.incident.incidentId, newIds);
      } else {
        ChosenIsOk(store, fs, newIds, ownId, now);
        InsertKeeps(store, IncidentFrom(Chosen(fs, newIds), ownId, now));
      }
  }

  /** The findings an item brings. */
  function Brings(item: Item): seq<string> {
    if item.newIds.None? then item.incident.findingIds else item.newIds.value
  }

  /** Every incident id a save makes up is new. */
  ghost predicate NewKeys(store: Store, items: seq<Item>, ownId: nat -> string) {
    && (forall k :: 0 <= k < |items| ==> NewKey(items[k], ownId(k)) !in store.rows)
    && forall j, k :: 0 <= j < k < |items| ==> NewKey(items[j], ownId(j)) != NewKey(items[k], ownId(k))
  }

  ghost predicate ItemsOk(store: Store, items: seq<Item>) {
    forall k :: 0 <= k < |items| ==> ItemOk(store, items[k])
  }

  lemma SameItemOk(store: Store, other: Store, item: Item)
    requires store.findings == other.findings && ItemOk(store, item)
    ensures ItemOk(other, item)
  {
    if item.newIds.None? {
      assert FindingsByIds(store, item.incident.findingIds) == FindingsByIds(other, item.incident.findingIds);
    }
  }

  /** The rows that saving these items may add. */
  ghost predicate NewRow(items: seq<Item>, ownId: nat -> string, id: string) {
    exists k :: 0 <= k < |items| && id == NewKey(items[k], ownId(k))
  }

  ghost predicate OnlyNewRows(store: Store, after: Store, items: seq<Item>, ownId: nat -> string) {
    forall id :: id in after.rows ==> id in store.rows || NewRow(items, ownId, id)
  }

  lemma NewRowMore(items: seq<Item>, ownId: nat -> string, id: string)
    requires items != []
      && (NewRow(items[..|items| - 1], ownId, id) || id == NewKey(items[|items| - 1], ownId(|items| - 1)))
    ensures NewRow(items, ownId, id)
  {
    var n := |items| - 1;
    if NewRow(items[..n], ownId, id) {
      var k :| 0 <= k < |items[..n]| && id == NewKey(items[..n][k], ownId(k));
      assert items[k] == items[..n][k];
    }
  }

  lemma LastKeyIsNew(store: Store, mid: Store, items: seq<Item>, ownId: nat -> string)
    requires items != [] && NewKeys(store, items, ownId) && OnlyNewRows(store, mid, items[..|items| - 1], ownId)
    ensures NewKey(items[|items| - 1], ownId(|items| - 1)) !in mid.rows
  {
    var n := |items| - 1;
    assert forall k :: 0 <= k < n ==> items[..n][k] == items[k];
  }

  lemma {:induction false} SaveItemsKeep(store: Store, fs: seq<Finding>, items: seq<Item>, ownId: nat -> string,
          now: int)
    requires StoreOk(store) && StoredAs(store.findings, fs) && DistinctIds(fs)
    requires ItemsOk(store, items) && NewKeys(store, items, ownId)
    ensures var after := SaveItems(store, fs, items, ownId, now);
      && StoreOk(after) && Kept(store, after) && after.findings == store.findings
      && OnlyNewRows(store, after, items, ownId)
  {
    if items != [] {
      var n := |items| - 1;
      var init := items[..n];
      assert forall k :: 0 <= k < n ==> init[k] == items[k];
      SaveItemsKeep(store, fs, init, ownId, now);
      var mid := SaveItems(store, fs, init, ownId, now);
      SameItemOk(store, mid, items[n]);
      LastKeyIsNew(store, mid, items, ownId);
      SaveItemKeeps(mid, fs, items[n], ownId(n), now);
      var after := SaveItem(mid, fs, items[n], ownId(n), now);
      KeptTrans(store, mid, after);
      forall id | id in after.rows && id !in store.rows ensures NewRow(items, ownId, id) {
        NewRowMore(items, ownId, id);
      }
    }
  }

  /** The state in which the last item is saved. */
  lemma BeforeLast(store: Store, fs: seq<Finding>, items: seq<Item>, ownId: nat -> string, now: int)
    requires StoreOk(store) && StoredAs(store.findings, fs) && DistinctIds(fs)
    requires ItemsOk(store, items) && NewKeys(store, items, ownId) && items != []
    ensures var n := |items| - 1; var mid := SaveItems(store, fs, items[..n], ownId, now);
      && ItemsOk(store, items[..n]) && NewKeys(store, items[..n], ownId)
      && StoreOk(mid) && StoredAs(mid.findings, fs) && ItemOk(mid, items[n]) && NewKey(items[n], ownId(n)) !in mid.rows
  {
    var n := |items| - 1;
    var init := items[..n];
    assert forall m :: 0 <= m < n ==> init[m] == items[m];
    SaveItemsKeep(store, fs, init, ownId, now);
    SameItemOk(store, SaveItems(store, fs, init, ownId, now), items[n]);
    LastKeyIsNew(store, SaveItems(store, fs, init, ownId, now), items, ownId);
  }

  function Inserted(store: Store, fs: seq<Finding>): Store {
    store.(findings := InsertFindings(store.findings, fs))
  }

  lemma InsertedOk(store: Store, fs: seq<Finding>)
    requires StoreOk(store) && Agreeing(store.findings, fs)
    ensures StoreOk(Inserted(store, fs)) && Kept(store, Inserted(store, fs))
      && StoredAs(Inserted(store, fs).findings, fs)
  {
    InsertFacts(store.findings, fs);
    var after := Inserted(store, fs);
    forall id | id in after.rows ensures RowOk(after, id) {
      assert RowOk(store, id);
      LookupStays(store.findings, after.findings, store.rows[id].incident.findingIds);
    }
  }

  /** A save keeps every stored incident equal to what its findings give, never touches triage, never
      changes an incident that is no longer open, and drops no finding from any incident. */
  lemma SaveKeeps(store: Store, fs: seq<Finding>, items: seq<Item>, ownId: nat -> string, now: int)
    requires StoreOk(store) && Agreeing(store.findings, fs)
    requires ItemsOk(Inserted(store, fs), items) && NewKeys(store, items, ownId)
    ensures StoreOk(Save(store, fs, items, ownId, now)) && Kept(store, Save(store, fs, items, ownId, now))
  {
    InsertedOk(store, fs);
    SaveItemsKeep(Inserted(store, fs), fs, items, ownId, now);
    KeptTrans(store, Inserted(store, fs), Save(store, fs, items, ownId, now));
  }

  /** Triage changes no findings. */
  lemma UpdateKeeps(store: Store, incidentId: string, status: Option<Status>, assignee: Option<string>,
          resolution: Option<string>)
    requires StoreOk(store) && UpdateIncident(store, incidentId, status, assignee, resolution).Some?
    ensures var after := UpdateIncident(store, incidentId, status, assignee, resolution).value;
      && StoreOk(after) && after.findings == store.findings && after.rows.Keys == store.rows.Keys
      && forall id :: id in store.rows ==> after.rows[id].incident == store.rows[id].incident
  {
    var after := UpdateIncident(store, incidentId, status, assignee, resolution).value;
    forall id | id in after.rows ensures RowOk(after, id) {
      assert RowOk(store, id);
      assert FindingsByIds(after, store.rows[id].incident.findingIds)
        == FindingsByIds(store, store.rows[id].incident.findingIds);
    }
  }
}
