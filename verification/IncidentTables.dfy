/** The store itself: the methods of src/autosiem/storage.py that insert and update incident rows,
    proved against the functions of IncidentStore. Each method is one transaction. */
module IncidentTables {
  import opened Common
  import opened Schemas
  import opened Incidents
  import opened IncidentStore
  import opened IncidentGuards
  import opened IncidentRuns

  class RelationalStorage {
    var findings: map<string, Finding>
    var rows: map<string, Row>

    constructor ()
      ensures State() == Store(map[], map[])
    {
      findings, rows := map[], map[];
    }

    ghost function State(): Store
      reads this
    {
      Store(findings, rows)
    }

    /** False if the incident is missing or no longer open. */
    method MergeIncident(incidentId: string, newIds: seq<string>) returns (merged: bool)
      modifies this
      ensures IncidentStore.MergeIncident(old(State()), incidentId, newIds) == if merged then Some(State()) else None
      ensures !merged ==> State() == old(State())
    {
      if incidentId !in rows || !Mergeable(rows[incidentId].status) { return false; }
      var row := rows[incidentId];
      var ids := row.incident.findingIds;
      for k := 0 to |newIds|
        invariant ids == Deduped(row.incident.findingIds, newIds[..k])
      {
        assert newIds[..k + 1][..k] == newIds[..k];
        if newIds[k] !in ids { ids := ids + [newIds[k]]; }
      }
      assert newIds[..|newIds|] == newIds;
      var held := InTime(Lookup(findings, ids));
      var incident := IncidentFrom(held, incidentId, row.incident.createdAt);
      rows := rows[incidentId := row.(incident := incident)];
      merged := true;
    }

    method InsertIncident(incident: Incident)
      modifies this
      ensures State() == IncidentStore.InsertIncident(old(State()), incident)
    {
      rows := rows[incident.incidentId := Row(incident, Open, None, None)];
    }

    method SaveItem(fs: seq<Finding>, item: Item, ownId: string, now: int)
      modifies this
      ensures State() == IncidentStore.SaveItem(old(State()), fs, item, ownId, now)
    {
      if item.newIds.None? {
        InsertIncident(item.incident);
      } else {
        var merged := MergeIncident(item.incident.incidentId, item.newIds.value);
        if !merged {
          InsertIncident(IncidentFrom(Chosen(fs, item.newIds.value), ownId, now));
        }
      }
    }

    method SavePipelineResult(fs: seq<Finding>, items: seq<Item>, ownId: nat -> string, now: int)
      modifies this
      ensures State() == Save(old(State()), fs, items, ownId, now)
    {
      for i := 0 to |fs|
        invariant State() == Store(InsertFindings(old(findings), fs[..i]), old(rows))
      {
        assert fs[..i + 1][..i] == fs[..i];
        findings := findings[fs[i].findingId := fs[i]];
      }
      assert fs[..|fs|] == fs;
      ghost var inserted := State();
      for k := 0 to |items|
        invariant State() == SaveItems(inserted, fs, items[..k], ownId, now)
      {
        assert items[..k + 1][..k] == items[..k];
        SaveItem(fs, items[k], ownId(k), now);
      }
      assert items[..|items|] == items;
    }

    method UpdateIncident(incidentId: string, status: Option<Status>, assignee: Option<string>,
            resolution: Option<string>)
      returns (found: bool)
      modifies this
      ensures IncidentStore.UpdateIncident(old(State()), incidentId, status, assignee, resolution) ==
        if found then Some(State()) else None
      ensures !found ==> State() == old(State())
    {
      if incidentId !in rows { return false; }
      var current := rows[incidentId];
      if status.Some? { current := current.(status := status.value); }
      if assignee.Some? { current := current.(assignee := assignee); }
      if resolution.Some? { current := current.(resolution := resolution); }
      rows := rows[incidentId := current];
      found := true;
    }

    /** `recent` is the query's answer: the most recently active open incidents, up to the limit. */
    method OpenIncidentsForEntities(entities: set<string>, recent: seq<string>) returns (matches: seq<StoredIncident>)
      requires forall k :: 0 <= k < |recent| ==> recent[k] in rows && Mergeable(rows[recent[k]].status)
      requires Known(State())
      ensures forall x :: x in matches ==> ReadFrom(State(), x) && |x.incident.findingIds| < MAX_INCIDENT_FINDINGS
      ensures forall k :: 0 <= k < |recent| ==>
        (|rows[recent[k]].incident.findingIds| < MAX_INCIDENT_FINDINGS
          && entities * rows[recent[k]].incident.entities != {} ==>
          exists x :: x in matches && x.incident == rows[recent[k]].incident)
    {
      matches := [];
      for k := 0 to |recent|
        invariant forall x :: x in matches ==> ReadFrom(State(), x) && |x.incident.findingIds| < MAX_INCIDENT_FINDINGS
        invariant forall j :: 0 <= j < k ==>
          (|rows[recent[j]].incident.findingIds| < MAX_INCIDENT_FINDINGS
            && entities * rows[recent[j]].incident.entities != {} ==>
            exists x :: x in matches && x.incident == rows[recent[j]].incident)
      {
        var incident := rows[recent[k]].incident;

        if |incident.findingIds| < MAX_INCIDENT_FINDINGS && entities * incident.entities != {} {
          var item := StoredIncident(incident, InTime(Lookup(findings, incident.findingIds)));
          assert ReadFrom(State(), item);
          ghost var before := matches;
          matches := matches + [item];
          assert item in matches && forall x :: x in before ==> x in matches;
        }
      }
    }
  }
}
