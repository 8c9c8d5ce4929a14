/** What a save keeps of src/autosiem/storage.py's tables whatever the findings it carries, even if
    they replace stored ones: triage, decided incidents, and the ids every incident lists. */
module IncidentGuards {
  import opened Common
  import opened Schemas
  import opened Sorting
  import opened Incidents
  import opened IncidentStore

  // ----- triage and verdicts -----

  ghost predicate AllGuarded(before: Store, after: Store) {
    forall id :: id in before.rows ==> id in after.rows && Guarded(before.rows[id], after.rows[id])
  }

  lemma SaveItemGuards(store: Store, fs: seq<Finding>, item: Item, ownId: string, now: int)
    requires NewKey(item, ownId) !in store.rows
    ensures AllGuarded(store, SaveItem(store, fs, item, ownId, now))
    ensures SaveItem(store, fs, item, ownId, now).findings == store.findings
    ensures forall id :: id in SaveItem(store, fs, item, ownId, now).rows ==>
      id in store.rows || id == NewKey(item, ownId)
  {
  }

  lemma {:induction false} SaveItemsGuard(store: Store, fs: seq<Finding>, items: seq<Item>, ownId: nat -> string,
          now: int)
    requires NewKeys(store, items, ownId)
    ensures var after := SaveItems(store, fs, items, ownId, now);
      AllGuarded(store, after) && after.findings == store.findings && OnlyNewRows(store, after, items, ownId)
  {
    if items != [] {
      var n := |items| - 1;
      assert forall k :: 0 <= k < n ==> items[..n][k] == items[k];
      SaveItemsGuard(store, fs, items[..n], ownId, now);
      var mid := SaveItems(store, fs, items[..n], ownId, now);
      LastKeyIsNew(store, mid, items, ownId);
      SaveItemGuards(mid, fs, items[n], ownId(n), now);
      var after := SaveItem(mid, fs, items[n], ownId(n), now);
      forall id | id in store.rows ensures id in after.rows && Guarded(store.rows[id], after.rows[id]) {
        assert Guarded(store.rows[id], mid.rows[id]) && Guarded(mid.rows[id], after.rows[id]);
      }
      forall id | id in after.rows && id !in store.rows ensures NewRow(items, ownId, id) {
        NewRowMore(items, ownId, id);
      }
    }
  }

  /** No save changes status, assignee or resolution, or anything of an incident that is decided. */
  lemma SaveGuards(store: Store, fs: seq<Finding>, items: seq<Item>, ownId: nat -> string, now: int)
    requires NewKeys(store, items, ownId)
    ensures AllGuarded(store, Save(store, fs, items, ownId, now))
  {
    SaveItemsGuard(Inserted(store, fs), fs, items, ownId, now);
  }

  // ----- listed ids -----

  /** Every incident is stored under its id and lists only stored findings. */
  ghost predicate Known(store: Store) {
    && KeyedById(store.findings)
    && forall id :: id in store.rows ==>
      store.rows[id].incident.incidentId == id && AllIn(store.rows[id].incident.findingIds, store.findings)
  }

  lemma {:induction false} InsertKeys(findings: map<string, Finding>, fs: seq<Finding>)
    ensures KeyedById(findings) ==> KeyedById(InsertFindings(findings, fs))
    ensures forall id :: id in findings ==> id in InsertFindings(findings, fs)
    ensures forall f :: f in fs ==> f.findingId in InsertFindings(findings, fs)
  {
    if fs != [] {
      InsertKeys(findings, fs[..|fs| - 1]);
      assert fs == fs[..|fs| - 1] + [fs[|fs| - 1]];
    }
  }

  lemma {:induction false} DedupedMembers(known: seq<string>, more: seq<string>)
    ensures forall id :: id in Deduped(known, more) <==> id in known || id in more
    decreases |more|
  {
    if more != [] {
      DedupedMembers(known, more[..|more| - 1]);
      assert more == more[..|more| - 1] + [more[|more| - 1]];
    }
  }

  /** An incident built from stored findings lists exactly the ids they were found by. */
  lemma IdsGiven(store: Store, ids: seq<string>, incidentId: string, createdAt: int)
    requires KeyedById(store.findings) && AllIn(ids, store.findings)
    ensures forall id :: id in IncidentFrom(FindingsByIds(store, ids), incidentId, createdAt).findingIds <==> id in ids
  {
    var all := Lookup(store.findings, ids);
    LookupAll(store.findings, ids);
    InTimeMembers(all);
    IncidentIds(InTime(all), incidentId, createdAt);
    forall id ensures id in ids <==> exists f :: f in InTime(all) && f.findingId == id {
      if id in ids {
        var k :| 0 <= k < |ids| && ids[k] == id;
        assert all[k] in all;
      }
      if f :| f in InTime(all) && f.findingId == id {
        var k :| 0 <= k < |all| && all[k] == f;
        assert ids[k] in ids;
      }
    }
  }

  lemma MergeGives(store: Store, incidentId: string, newIds: seq<string>)
    requires Known(store) && AllIn(newIds, store.findings) && MergeIncident(store, incidentId, newIds).Some?
    ensures var after := MergeIncident(store, incidentId, newIds).value;
      forall id :: id in after.rows[incidentId].incident.findingIds <==>
        id in store.rows[incidentId].incident.findingIds || id in newIds
  {
    var row := store.rows[incidentId];
    DedupedMembers(row.incident.findingIds, newIds);
    IdsGiven(store, Deduped(row.incident.findingIds, newIds), incidentId, row.incident.createdAt);
  }

  ghost predicate IdsLast(before: Row, after: Row) {
    forall f :: f in before.incident.findingIds ==> f in after.incident.findingIds
  }

  /** No finding row goes, and no incident goes or loses an id. */
  ghost predicate AllIdsLast(before: Store, after: Store) {
    && (forall id :: id in before.findings ==> id in after.findings)
    && forall id :: id in before.rows ==> id in after.rows && IdsLast(before.rows[id], after.rows[id])
  }

  lemma AllIdsLastTrans(a: Store, b: Store, c: Store)
    requires AllIdsLast(a, b) && AllIdsLast(b, c)
    ensures AllIdsLast(a, c)
  {
    forall id | id in a.rows ensures id in c.rows && IdsLast(a.rows[id], c.rows[id]) {
      assert IdsLast(a.rows[id], b.rows[id]) && IdsLast(b.rows[id], c.rows[id]);
    }
  }

  ghost predicate Brought(store: Store, item: Item) {
    AllIn(Brings(item), store.findings)
  }

  ghost predicate AllBrought(store: Store, items: seq<Item>) {
    forall k :: 0 <= k < |items| ==> Brought(store, items[k])
  }

  lemma {:induction false} OwnIncidentIds(fs: seq<Finding>, newIds: seq<string>, ownId: string, now: int)
    ensures forall id :: id in IncidentFrom(Chosen(fs, newIds), ownId, now).findingIds <==>
      exists f :: f in fs && f.findingId == id && id in newIds
  {
    ChosenFacts(fs, newIds);
    IncidentIds(Chosen(fs, newIds), ownId, now);
  }

  lemma InsertIsKnown(store: Store, incident: Incident)
    requires Known(store) && incident.incidentId !in store.rows && AllIn(incident.findingIds, store.findings)
    ensures Known(InsertIncident(store, incident)) && AllIdsLast(store, InsertIncident(store, incident))
  {
  }

  lemma MergeIsKnown(store: Store, incidentId: string, newIds: seq<string>)
    requires Known(store) && AllIn(newIds, store.findings) && MergeIncident(store, incidentId, newIds).Some?
    ensures Known(MergeIncident(store, incidentId, newIds).value)
    ensures AllIdsLast(store, MergeIncident(store, incidentId, newIds).value)
  {
    MergeGives(store, incidentId, newIds);
  }

  lemma SaveItemKnown(store: Store, fs: seq<Finding>, item: Item, ownId: string, now: int)
    requires Known(store) && Brought(store, item) && NewKey(item, ownId) !in store.rows
    ensures Known(SaveItem(store, fs, item, ownId, now)) && AllIdsLast(store, SaveItem(store, fs, item, ownId, now))
  {
    match item.newIds
    case None => InsertIsKnown(store, item.incident);
    case Some(newIds) =>
      if MergeIncident(store, item.incident.incidentId, newIds).Some? {
        MergeIsKnown(store, item.incident.incidentId, newIds);
      } else {
        OwnIncidentIds(fs, newIds, ownId, now);
        InsertIsKnown(store, IncidentFrom(Chosen(fs, newIds), ownId, now));
      }
  }

  lemma {:induction false} SaveItemsKnown(store: Store, fs: seq<Finding>, items: seq<Item>, ownId: nat -> string,
          now: int)
    requires Known(store) && NewKeys(store, items, ownId) && AllBrought(store, items)
    ensures Known(SaveItems(store, fs, items, ownId, now)) && AllIdsLast(store, SaveItems(store, fs, items, ownId, now))
  {
    if items != [] {
      var n := |items| - 1;
      assert forall k :: 0 <= k < n ==> items[..n][k] == items[k];
      SaveItemsKnown(store, fs, items[..n], ownId, now);
      SaveItemsGuard(store, fs, items[..n], ownId, now);
      var mid := SaveItems(store, fs, items[..n], ownId, now);
      LastKeyIsNew(store, mid, items, ownId);
      SaveItemKnown(mid, fs, items[n], ownId(n), now);
      AllIdsLastTrans(store, mid, SaveItem(mid, fs, items[n], ownId(n), now));
    }
  }

  /** Everything an item brings is in some incident afterwards, whether or not its target is still open. */
  lemma SaveItemLands(store: Store, fs: seq<Finding>, item: Item, ownId: string, now: int, i: nat)
    requires Known(store) && Brought(store, item) && i < |fs| && fs[i].findingId in Brings(item)
    ensures InSomeRow(SaveItem(store, fs, item, ownId, now), fs[i].findingId)
  {
    var after, id := SaveItem(store, fs, item, ownId, now), fs[i].findingId;
    match item.newIds
    case None => assert id in after.rows[item.incident.incidentId].incident.findingIds;
    case Some(newIds) =>
      if MergeIncident(store, item.incident.incidentId, newIds).Some? {
        MergeGives(store, item.incident.incidentId, newIds);
        assert id in after.rows[item.incident.incidentId].incident.findingIds;
      } else {
        OwnIncidentIds(fs, newIds, ownId, now);
        assert fs[i] in fs && id in after.rows[ownId].incident.findingIds;
      }
  }

  lemma LastsInRow(before: Store, after: Store, findingId: string)
    requires AllIdsLast(before, after) && InSomeRow(before, findingId)
    ensures InSomeRow(after, findingId)
  {
    var id :| id in before.rows && findingId in before.rows[id].incident.findingIds;
    assert IdsLast(before.rows[id], after.rows[id]);
  }

  lemma BeforeLastKnown(store: Store, fs: seq<Finding>, items: seq<Item>, ownId: nat -> string, now: int)
    requires Known(store) && NewKeys(store, items, ownId) && AllBrought(store, items) && items != []
    ensures var n := |items| - 1; var mid := SaveItems(store, fs, items[..n], ownId, now);
      && NewKeys(store, items[..n], ownId) && AllBrought(store, items[..n])
      && Known(mid) && Brought(mid, items[n]) && NewKey(items[n], ownId(n)) !in mid.rows
  {
    var n := |items| - 1;
    assert forall m :: 0 <= m < n ==> items[..n][m] == items[m];
    SaveItemsKnown(store, fs, items[..n], ownId, now);
    SaveItemsGuard(store, fs, items[..n], ownId, now);
    LastKeyIsNew(store, SaveItems(store, fs, items[..n], ownId, now), items, ownId);
  }

  /** What is in some row before the last item, or comes with it, is in some row after it. */
  lemma LastItemLands(store: Store, fs: seq<Finding>, items: seq<Item>, ownId: nat -> string, now: int, i: nat)
    requires Known(store) && NewKeys(store, items, ownId) && AllBrought(store, items) && items != [] && i < |fs|
    requires fs[i].findingId in Brings(items[|items| - 1])
      || InSomeRow(SaveItems(store, fs, items[..|items| - 1], ownId, now), fs[i].findingId)
    ensures InSomeRow(SaveItems(store, fs, items, ownId, now), fs[i].findingId)
  {
    var n := |items| - 1;
    BeforeLastKnown(store, fs, items, ownId, now);
    StillLands(SaveItems(store, fs, items[..n], ownId, now), fs, items[n], ownId(n), now, i);
  }

  lemma BroughtPrefix(store: Store, items: seq<Item>, ownId: nat -> string)
    requires NewKeys(store, items, ownId) && AllBrought(store, items) && items != []
    ensures NewKeys(store, items[..|items| - 1], ownId) && AllBrought(store, items[..|items| - 1])
  {
    assert forall m :: 0 <= m < |items| - 1 ==> items[..|items| - 1][m] == items[m];
  }

  lemma {:induction false} SaveItemsLand(store: Store, fs: seq<Finding>, items: seq<Item>, ownId: nat -> string,
          now: int, k: nat, i: nat)
    requires Known(store) && NewKeys(store, items, ownId) && AllBrought(store, items)
    requires k < |items| && i < |fs| && fs[i].findingId in Brings(items[k])
    ensures InSomeRow(SaveItems(store, fs, items, ownId, now), fs[i].findingId)
    decreases |items|
  {
    var n := |items| - 1;
    if k < n {
      BroughtPrefix(store, items, ownId);
      assert items[..n][k] == items[k];
      SaveItemsLand(store, fs, items[..n], ownId, now, k, i);
    }
    LastItemLands(store, fs, items, ownId, now, i);
  }

  lemma StillLands(store: Store, fs: seq<Finding>, item: Item, ownId: string, now: int, i: nat)
    requires Known(store) && Brought(store, item) && NewKey(item, ownId) !in store.rows && i < |fs|
    requires fs[i].findingId in Brings(item) || InSomeRow(store, fs[i].findingId)
    ensures InSomeRow(SaveItem(store, fs, item, ownId, now), fs[i].findingId)
  {
    if fs[i].findingId in Brings(item) {
      SaveItemLands(store, fs, item, ownId, now, i);
    } else {
      SaveItemKnown(store, fs, item, ownId, now);
      LastsInRow(store, SaveItem(store, fs, item, ownId, now), fs[i].findingId);
    }
  }

  // ----- the findings of an incident -----

  /** The findings an incident lists keep their contents exactly when the save carries none of them
      with other contents, whether or not the incident is decided. */
  lemma FindingsStayIff(store: Store, fs: seq<Finding>, ids: seq<string>)
    requires KeyedById(store.findings) && DistinctIds(fs) && AllIn(ids, store.findings)
    ensures FindingsByIds(Inserted(store, fs), ids) == FindingsByIds(store, ids) <==>
      forall i :: 0 <= i < |fs| && fs[i].findingId in ids ==> store.findings[fs[i].findingId] == fs[i]
  {
    var after := InsertFindings(store.findings, fs);
    InsertKeys(store.findings, fs);
    InsertedAs(store.findings, fs);
    LookupAll(store.findings, ids);
    LookupAll(after, ids);
    var was, now := Lookup(store.findings, ids), Lookup(after, ids);
    if FindingsByIds(Inserted(store, fs), ids) == FindingsByIds(store, ids) {
      InTimeMembers(was);
      InTimeMembers(now);
      forall i | 0 <= i < |fs| && fs[i].findingId in ids ensures store.findings[fs[i].findingId] == fs[i] {
        var k :| 0 <= k < |ids| && ids[k] == fs[i].findingId;
        assert now[k] == fs[i] && now[k] in InTime(now) && now[k] in was;
        var m :| 0 <= m < |was| && was[m] == now[k];
        assert ids[m] in ids;
      }
    }
    if forall i :: 0 <= i < |fs| && fs[i].findingId in ids ==> store.findings[fs[i].findingId] == fs[i] {
      forall k | 0 <= k < |ids| ensures now[k] == was[k] {
        assert ids[k] in ids;
      }
      assert now == was;
    }
  }

  /** With distinct ids, each finding of a batch ends up stored, and nothing else changes. */
  lemma {:induction false} OnlyInserted(findings: map<string, Finding>, fs: seq<Finding>, id: string)
    requires id in InsertFindings(findings, fs)
    ensures id in findings || exists i :: 0 <= i < |fs| && fs[i].findingId == id
  {
    if fs != [] {
      var n := |fs| - 1;
      if id == fs[n].findingId {
      } else {
        OnlyInserted(findings, fs[..n], id);
        if i :| 0 <= i < n && fs[..n][i].findingId == id { assert fs[i].findingId == id; }
      }
    }
  }

  lemma {:induction false} NotInserted(findings: map<string, Finding>, fs: seq<Finding>, id: string)
    requires id in findings && forall i :: 0 <= i < |fs| ==> fs[i].findingId != id
    ensures id in InsertFindings(findings, fs) && InsertFindings(findings, fs)[id] == findings[id]
  {
    if fs != [] {
      var n := |fs| - 1;
      assert forall i :: 0 <= i < n ==> fs[..n][i] == fs[i];
      NotInserted(findings, fs[..n], id);
    }
  }

  lemma {:induction false} InsertedStored(findings: map<string, Finding>, fs: seq<Finding>)
    requires DistinctIds(fs)
    ensures StoredAs(InsertFindings(findings, fs), fs)
  {
    if fs != [] {
      var n := |fs| - 1;
      assert forall i :: 0 <= i < n ==> fs[..n][i] == fs[i];
      InsertedStored(findings, fs[..n]);
    }
  }

  lemma InsertedAs(findings: map<string, Finding>, fs: seq<Finding>)
    requires DistinctIds(fs)
    ensures StoredAs(InsertFindings(findings, fs), fs)
    ensures forall id :: id in findings && (forall i :: 0 <= i < |fs| ==> fs[i].findingId != id) ==>
      id in InsertFindings(findings, fs) && InsertFindings(findings, fs)[id] == findings[id]
    ensures forall id :: id in InsertFindings(findings, fs) ==>
      id in findings || exists i :: 0 <= i < |fs| && fs[i].findingId == id
  {
    InsertedStored(findings, fs);
    forall id | id in findings && forall i :: 0 <= i < |fs| ==> fs[i].findingId != id
      ensures id in InsertFindings(findings, fs) && InsertFindings(findings, fs)[id] == findings[id]
    {
      NotInserted(findings, fs, id);
    }
    forall id | id in InsertFindings(findings, fs)
      ensures id in findings || exists i :: 0 <= i < |fs| && fs[i].findingId == id
    {
      OnlyInserted(findings, fs, id);
    }
  }
}
