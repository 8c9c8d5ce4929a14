/** Findings that are saved again with other contents, as `insert or replace` in
    src/autosiem/storage.py allows: exactly when the stored incidents stay right. */
module IncidentReplacement {
  import opened Common
  import opened Schemas
  import opened Sorting
  import opened Correlation
  import opened Incidents
  import opened IncidentStore
  import opened IncidentGuards

  // ----- replaced findings -----

  /** What is stored under the finding's id once the batch is. */
  function Replacing(f: Finding, fs: seq<Finding>): Finding {
    if fs == [] then f
    else if fs[|fs| - 1].findingId == f.findingId then fs[|fs| - 1]
    else Replacing(f, fs[..|fs| - 1])
  }

  function SwapAll(s: seq<Finding>, fs: seq<Finding>): (r: seq<Finding>)
    ensures |r| == |s| && forall k :: 0 <= k < |s| ==> r[k] == Replacing(s[k], fs)
  {
    seq(|s|, k requires 0 <= k < |s| => Replacing(s[k], fs))
  }

  lemma {:induction false} ReplacingKeepsId(f: Finding, fs: seq<Finding>)
    ensures Replacing(f, fs).findingId == f.findingId
  {
    if fs != [] { ReplacingKeepsId(f, fs[..|fs| - 1]); }
  }

  lemma SwapKeepsIds(s: seq<Finding>, fs: seq<Finding>)
    ensures IdsOf(SwapAll(s, fs)) == IdsOf(s)
    ensures DistinctIds(s) ==> DistinctIds(SwapAll(s, fs))
  {
    forall k | 0 <= k < |s| ensures SwapAll(s, fs)[k].findingId == s[k].findingId {
      ReplacingKeepsId(s[k], fs);
    }
  }

  lemma {:induction false} InsertedIs(findings: map<string, Finding>, fs: seq<Finding>, id: string)
    requires KeyedById(findings) && id in findings
    ensures id in InsertFindings(findings, fs) && InsertFindings(findings, fs)[id] == Replacing(findings[id], fs)
  {
    if fs != [] { InsertedIs(findings, fs[..|fs| - 1], id); }
  }

  lemma {:induction false} LookupSwapped(findings: map<string, Finding>, fs: seq<Finding>, ids: seq<string>)
    requires KeyedById(findings) && AllIn(ids, findings)
    ensures AllIn(ids, InsertFindings(findings, fs))
    ensures Lookup(InsertFindings(findings, fs), ids) == SwapAll(Lookup(findings, ids), fs)
  {
    forall id | id in ids ensures id in InsertFindings(findings, fs) { InsertedIs(findings, fs, id); }
    LookupAll(findings, ids);
    LookupAll(InsertFindings(findings, fs), ids);
    forall k | 0 <= k < |ids|
      ensures Lookup(InsertFindings(findings, fs), ids)[k] == Replacing(Lookup(findings, ids)[k], fs)
    {
      assert ids[k] in ids;
      InsertedIs(findings, fs, ids[k]);
    }
  }

  // ----- when an incident stays right -----

  /** The placeholder stands for no entities. */
  function Shown(entities: set<string>): set<string> {
    if entities == {} then {UNKNOWN_ENTITY} else entities
  }

  /** Nothing an incident says depends on which of the two lists of findings it holds: the new times
      leave the list in order, the capped sums and the top severities agree, the entities come to the
      same, and so do the techniques as they are first met. */
  ghost predicate Indifferent(was: seq<Finding>, now: seq<Finding>) {
    && Ascending(now, When)
    && Min(MAX_RISK, Points(now)) == Min(MAX_RISK, Points(was))
    && TopSeverity(now) == TopSeverity(was)
    && Shown(EntitiesOf(now)) == Shown(EntitiesOf(was))
    && KillChain(now) == KillChain(was)
  }

  /** The findings of a right incident, in the order it lists them. */
  lemma RightOrder(store: Store, id: string)
    requires StoreOk(store) && id in store.rows
    ensures var ids, held := store.rows[id].incident.findingIds, FindingsOf(store, id);
      && NoDup(ids) && AllIn(ids, store.findings) && InTime(held) == held && IdsOf(held) == ids
      && DistinctIds(held) && Lookup(store.findings, ids) == held
  {
    var ids, held := store.rows[id].incident.findingIds, FindingsOf(store, id);
    assert RowOk(store, id);
    InTimeTwice(Lookup(store.findings, ids));
    assert ids == IdsOf(held);
    LookupStored(store, ids);
    LookupAll(store.findings, ids);
    LookupIds(store.findings, held);
  }

  lemma SameOrder(now: seq<Finding>)
    requires DistinctIds(now)
    ensures IdsOf(InTime(now)) == IdsOf(now) <==> Ascending(now, When)
  {
    SortedFacts(now, When);
    if Ascending(now, When) { SortedFixed(now); }
    if IdsOf(InTime(now)) == IdsOf(now) {
      InTimeMembers(now);
      forall k | 0 <= k < |now| ensures InTime(now)[k] == now[k] {
        assert IdsOf(InTime(now))[k] == IdsOf(now)[k] && InTime(now)[k] in InTime(now);
        var m :| 0 <= m < |now| && now[m] == InTime(now)[k];
      }
      assert InTime(now) == now;
    }
  }

  lemma FieldsIff(was: seq<Finding>, now: seq<Finding>, incidentId: string, createdAt: int)
    requires InTime(was) == was && IdsOf(was) == IdsOf(now) && DistinctIds(now)
    ensures IncidentFrom(InTime(now), incidentId, createdAt) == IncidentFrom(was, incidentId, createdAt) <==>
      Indifferent(was, now)
  {
    SameOrder(now);
    InTimeTwice(now);
    if Ascending(now, When) {
      SortedFixed(now);
      SameFieldsIff(was, now, incidentId, createdAt);
    }
  }

  lemma {:induction false} SameFieldsIff(a: seq<Finding>, b: seq<Finding>, incidentId: string, createdAt: int)
    requires InTime(a) == a && InTime(b) == b && IdsOf(a) == IdsOf(b)
    ensures IncidentFrom(b, incidentId, createdAt) == IncidentFrom(a, incidentId, createdAt) <==>
      && Min(MAX_RISK, Points(b)) == Min(MAX_RISK, Points(a)) && TopSeverity(b) == TopSeverity(a)
      && Shown(EntitiesOf(b)) == Shown(EntitiesOf(a)) && KillChain(b) == KillChain(a)
  {
  }

  /** Inserting a batch leaves an incident right if and only if it is indifferent to what the batch
      replaces among its findings. */
  lemma RowStaysIff(store: Store, fs: seq<Finding>, id: string)
    requires StoreOk(store) && id in store.rows
    ensures RowOk(Inserted(store, fs), id) <==> Indifferent(FindingsOf(store, id), SwapAll(FindingsOf(store, id), fs))
  {
    var incident, held := store.rows[id].incident, FindingsOf(store, id);
    RightOrder(store, id);
    LookupSwapped(store.findings, fs, incident.findingIds);
    SwapKeepsIds(held, fs);
    assert RowOk(store, id);
    FieldsIff(held, SwapAll(held, fs), id, incident.createdAt);
    assert FindingsByIds(Inserted(store, fs), incident.findingIds) == InTime(SwapAll(held, fs));
  }

  // ----- one replaced finding -----

  function SwapOne(f: Finding, g: Finding): Finding {
    if f.findingId == g.findingId then g else f
  }

  /** The same findings with `g` in place of the one that has its id. */
  function Swap(s: seq<Finding>, g: Finding): (r: seq<Finding>)
    ensures |r| == |s| && forall k :: 0 <= k < |s| ==> r[k] == SwapOne(s[k], g)
  {
    seq(|s|, k requires 0 <= k < |s| => SwapOne(s[k], g))
  }

  lemma SwapIsSwapAll(s: seq<Finding>, g: Finding)
    ensures SwapAll(s, [g]) == Swap(s, g)
  {
    assert [g][..0] == [];
    forall k | 0 <= k < |s| ensures Replacing(s[k], [g]) == SwapOne(s[k], g) {
      assert Replacing(s[k], []) == s[k];
    }
  }

  lemma SwapSnoc(s: seq<Finding>, f: Finding, g: Finding)
    ensures Swap(s + [f], g) == Swap(s, g) + [SwapOne(f, g)]
  {
  }

  lemma SwapAbsent(s: seq<Finding>, g: Finding)
    requires forall k :: 0 <= k < |s| ==> s[k].findingId != g.findingId
    ensures Swap(s, g) == s
  {
  }

  lemma PointsSnoc(s: seq<Finding>, f: Finding)
    ensures Points(s + [f]) == Points(s) + f.riskPoints
  {
    assert (s + [f])[..|s|] == s;
  }

  lemma DistinctSnoc(s: seq<Finding>, f: Finding)
    requires DistinctIds(s + [f])
    ensures DistinctIds(s) && forall k :: 0 <= k < |s| ==> s[k].findingId != f.findingId
  {
    var all := s + [f];
    assert all[|s|] == f && forall k :: 0 <= k < |s| ==> all[k] == s[k];
  }

  lemma {:induction false} SwapPoints(s: seq<Finding>, g: Finding, m: nat)
    requires DistinctIds(s) && m < |s| && s[m].findingId == g.findingId
    ensures Points(Swap(s, g)) == Points(s) - s[m].riskPoints + g.riskPoints
  {
    var init, last := s[..|s| - 1], s[|s| - 1];
    assert s == init + [last];
    DistinctSnoc(init, last);
    SwapSnoc(init, last, g);
    PointsSnoc(init, last);
    PointsSnoc(Swap(init, g), SwapOne(last, g));
    if m < |init| {
      assert init[m] == s[m];
      SwapPoints(init, g, m);
    } else {
      SwapAbsent(init, g);
    }
  }

  /** Another finding is at least as severe as both. */
  ghost predicate Outdone(all: seq<Finding>, f: Finding, g: Finding) {
    exists h :: h in all && h.findingId != g.findingId && h.severity >= f.severity && h.severity >= g.severity
  }

  lemma SwapMember(s: seq<Finding>, g: Finding, h: Finding)
    requires h in s && h.findingId != g.findingId
    ensures h in Swap(s, g)
  {
    var k :| 0 <= k < |s| && s[k] == h;
    assert Swap(s, g)[k] == h;
  }

  lemma SwapMembers(s: seq<Finding>, g: Finding, h: Finding)
    requires h in Swap(s, g)
    ensures h == g || (h in s && h.findingId != g.findingId)
  {
    var k :| 0 <= k < |s| && Swap(s, g)[k] == h;
  }

  lemma TopOutdoes(s: seq<Finding>, f: Finding, g: Finding, top: Finding, now: Finding)
    requires top in s && (top.findingId == g.findingId ==> top == f)
    requires now == g || (now in s && now.findingId != g.findingId)
    requires f.severity <= top.severity && g.severity <= now.severity && top.severity == now.severity
    requires f.severity != g.severity
    ensures Outdone(s, f, g)
  {
  }

  /** If one of the two findings alone is on top, replacing it moves the top. */
  lemma {:induction false} TopMoves(s: seq<Finding>, g: Finding, m: nat)
    requires DistinctIds(s) && m < |s| && s[m].findingId == g.findingId
    requires TopSeverity(Swap(s, g)) == TopSeverity(s) && s[m].severity != g.severity
    ensures Outdone(s, s[m], g)
  {
    var after := Swap(s, g);
    TopSeverityIsMax(s);
    TopSeverityIsMax(after);
    assert s[m] in s && after[m] == g && g in after;
    var top :| top in s && top.severity == TopSeverity(s);
    var now :| now in after && now.severity == TopSeverity(after);
    SwapMembers(s, g, now);
    OnlyOne(s, g, m, top);
    TopOutdoes(s, s[m], g, top, now);
  }

  ghost predicate NoneAbove(a: seq<Finding>, severity: int) {
    forall f :: f in a ==> f.severity <= severity
  }

  lemma {:induction false} NotAbove(a: seq<Finding>, severity: int)
    requires a != [] && NoneAbove(a, severity)
    ensures TopSeverity(a) <= severity
  {
    TopSeverityIsMax(a);
    var top :| top in a && top.severity == TopSeverity(a);
  }

  lemma {:induction false} TopBelow(s: seq<Finding>, g: Finding, h: Finding)
    requires s != [] && h in s && h.severity >= g.severity
    ensures TopSeverity(Swap(s, g)) <= TopSeverity(s)
  {
    TopSeverityIsMax(s);
    forall f | f in Swap(s, g) ensures f.severity <= TopSeverity(s) { SwapMembers(s, g, f); }
    NotAbove(Swap(s, g), TopSeverity(s));
  }

  lemma {:induction false} TopAbove(s: seq<Finding>, g: Finding, m: nat, h: Finding)
    requires DistinctIds(s) && m < |s| && s[m].findingId == g.findingId
    requires h in s && h.findingId != g.findingId && h.severity >= s[m].severity
    ensures TopSeverity(s) <= TopSeverity(Swap(s, g))
  {
    var after := Swap(s, g);
    TopSeverityIsMax(after);
    SwapMember(s, g, h);
    forall f | f in s ensures f.severity <= TopSeverity(after) {
      OnlyOne(s, g, m, f);
      if f != s[m] { SwapMember(s, g, f); }
    }
    NotAbove(s, TopSeverity(after));
  }

  /** If another finding is as severe as both, the top is the same before and after. */
  lemma {:induction false} TopStays(s: seq<Finding>, g: Finding, m: nat)
    requires DistinctIds(s) && m < |s| && s[m].findingId == g.findingId && Outdone(s, s[m], g)
    ensures TopSeverity(Swap(s, g)) == TopSeverity(s)
  {
    var h :| h in s && h.findingId != g.findingId && h.severity >= s[m].severity && h.severity >= g.severity;
    TopBelow(s, g, h);
    TopAbove(s, g, m, h);
  }

  lemma {:induction false} SameSeverities(s: seq<Finding>, g: Finding)
    requires forall k :: 0 <= k < |s| && s[k].findingId == g.findingId ==> s[k].severity == g.severity
    ensures TopSeverity(Swap(s, g)) == TopSeverity(s)
  {
    if |s| > 1 {
      var init := s[..|s| - 1];
      assert s == init + [s[|s| - 1]];
      SwapSnoc(init, s[|s| - 1], g);
      assert Swap(s, g)[..|s| - 1] == Swap(init, g);
      SameSeverities(init, g);
    }
  }

  lemma {:induction false} SwapSeverityIff(s: seq<Finding>, g: Finding, m: nat)
    requires DistinctIds(s) && m < |s| && s[m].findingId == g.findingId
    ensures TopSeverity(Swap(s, g)) == TopSeverity(s) <==> s[m].severity == g.severity || Outdone(s, s[m], g)
  {
    if s[m].severity == g.severity {
      forall k | 0 <= k < |s| && s[k].findingId == g.findingId ensures k == m {}
      SameSeverities(s, g);
    } else if Outdone(s, s[m], g) {
      TopStays(s, g, m);
    } else if TopSeverity(Swap(s, g)) == TopSeverity(s) {
      TopMoves(s, g, m);
    }
  }

  lemma OnlyOne(s: seq<Finding>, g: Finding, m: nat, h: Finding)
    requires DistinctIds(s) && m < |s| && s[m].findingId == g.findingId && h in s
    ensures h == s[m] || h.findingId != g.findingId
  {
    var k :| 0 <= k < |s| && s[k] == h;
  }

  /** The entities of the findings that keep their contents. */
  function OtherEntities(all: seq<Finding>, id: string): set<string> {
    set k, e | 0 <= k < |all| && all[k].findingId != id && e in all[k].entities :: e
  }

  function EntitySet(f: Finding): set<string> {
    set e | e in f.entities
  }

  lemma SwapEntities(s: seq<Finding>, g: Finding, m: nat)
    requires DistinctIds(s) && m < |s| && s[m].findingId == g.findingId
    ensures EntitiesOf(s) == OtherEntities(s, g.findingId) + EntitySet(s[m])
    ensures EntitiesOf(Swap(s, g)) == OtherEntities(s, g.findingId) + EntitySet(g)
  {
    var after := Swap(s, g);
    forall e ensures e in EntitiesOf(s) <==> e in OtherEntities(s, g.findingId) + EntitySet(s[m]) {
      if e in EntitiesOf(s) {
        var k :| 0 <= k < |s| && e in s[k].entities;
      }
    }
    forall e ensures e in EntitiesOf(after) <==> e in OtherEntities(s, g.findingId) + EntitySet(g) {
      if e in EntitiesOf(after) {
        var k :| 0 <= k < |after| && e in after[k].entities;
        assert k == m || after[k] == s[k];
      }
      if e in EntitySet(g) { assert after[m] == g; }
      if e in OtherEntities(s, g.findingId) {
        var k :| 0 <= k < |s| && s[k].findingId != g.findingId && e in s[k].entities;
        assert after[k] == s[k];
      }
    }
  }

  /** Over one replaced finding: the new time keeps the order; the points are equal or both sums reach
      the cap; the severities are equal or another finding is as severe as both; the entities come to the
      same with those of the other findings; and the techniques are met in the same order. */
  ghost predicate IndifferentTo(all: seq<Finding>, f: Finding, g: Finding) {
    && Ascending(Swap(all, g), When)
    && (f.riskPoints == g.riskPoints
      || (Points(all) >= MAX_RISK && Points(all) - f.riskPoints + g.riskPoints >= MAX_RISK))
    && (f.severity == g.severity || Outdone(all, f, g))
    && Shown(OtherEntities(all, g.findingId) + EntitySet(f)) == Shown(OtherEntities(all, g.findingId) + EntitySet(g))
    && KillChain(Swap(all, g)) == KillChain(all)
  }

  lemma OneSwapIff(all: seq<Finding>, g: Finding, m: nat)
    requires DistinctIds(all) && m < |all| && all[m].findingId == g.findingId
    ensures Indifferent(all, Swap(all, g)) <==> IndifferentTo(all, all[m], g)
  {
    SwapPoints(all, g, m);
    SwapSeverityIff(all, g, m);
    SwapEntities(all, g, m);
  }

  lemma NothingSwapped(all: seq<Finding>, g: Finding)
    requires InTime(all) == all && forall k :: 0 <= k < |all| ==> all[k].findingId != g.findingId
    ensures Indifferent(all, Swap(all, g))
  {
    SwapAbsent(all, g);
    SortedFacts(all, When);
  }

  /** Replacing one stored finding leaves an incident right if and only if it does not list the finding,
      or is indifferent to the change. */
  lemma ReplacedKeepsRowIff(store: Store, g: Finding, id: string)
    requires StoreOk(store) && id in store.rows && g.findingId in store.findings
    ensures RowOk(Inserted(store, [g]), id) <==>
      (g.findingId in store.rows[id].incident.findingIds ==>
        IndifferentTo(FindingsOf(store, id), store.findings[g.findingId], g))
  {
    var ids, held := store.rows[id].incident.findingIds, FindingsOf(store, id);
    RightOrder(store, id);
    RowStaysIff(store, [g], id);
    SwapIsSwapAll(held, g);
    LookupAll(store.findings, ids);
    if g.findingId in ids {
      var m :| 0 <= m < |ids| && ids[m] == g.findingId;
      OneSwapIff(held, g, m);
    } else {
      forall k | 0 <= k < |held| ensures held[k].findingId != g.findingId { assert IdsOf(held)[k] in ids; }
      NothingSwapped(held, g);
    }
  }

  // ----- a whole save -----

  /** An incident still open that some item of the save merges into. */
  ghost predicate MergedBy(store: Store, items: seq<Item>, id: string)
    requires id in store.rows
  {
    Mergeable(store.rows[id].status) && exists k :: 0 <= k < |items| && MergesInto(items[k], id)
  }

  predicate MergesInto(item: Item, id: string) {
    item.newIds.Some? && item.incident.incidentId == id
  }

  lemma SameRow(store: Store, after: Store, id: string)
    requires id in store.rows && id in after.rows && after.findings == store.findings
    requires after.rows[id].incident == store.rows[id].incident
    ensures RowOk(after, id) <==> RowOk(store, id)
  {
    var ids := store.rows[id].incident.findingIds;
    assert FindingsByIds(after, ids) == FindingsByIds(store, ids);
  }

  lemma InsertedRowOk(store: Store, incident: Incident)
    requires IncidentOk(store, incident)
    ensures RowOk(InsertIncident(store, incident), incident.incidentId)
  {
    var after := InsertIncident(store, incident);
    assert FindingsByIds(after, incident.findingIds) == FindingsByIds(store, incident.findingIds);
  }

  /** Right after the item is saved: a new incident, one that was right, or one it was merged into. */
  ghost predicate RightedBy(store: Store, after: Store, item: Item, id: string)
    requires id in after.rows
  {
    RowOk(after, id) <==> (id !in store.rows || RowOk(store, id)
      || (MergesInto(item, id) && Mergeable(store.rows[id].status)))
  }

  /** Saving one item makes right the incident it opens or merges into, and touches no other. */
  lemma SaveItemRows(store: Store, fs: seq<Finding>, item: Item, ownId: string, now: int)
    requires ListsOk(store) && StoredAs(store.findings, fs) && DistinctIds(fs) && ItemOk(store, item)
    requires NewKey(item, ownId) !in store.rows
    ensures var after := SaveItem(store, fs, item, ownId, now);
      forall id :: id in after.rows ==> RightedBy(store, after, item, id)
  {
    var after := SaveItem(store, fs, item, ownId, now);
    if item.newIds.None? {
      InsertedRowOk(store, item.incident);
    } else if MergeIncident(store, item.incident.incidentId, item.newIds.value).Some? {
      MergeIsOk(store, item.incident.incidentId, item.newIds.value);
    } else {
      ChosenIsOk(store, fs, item.newIds.value, ownId, now);
      InsertedRowOk(store, IncidentFrom(Chosen(fs, item.newIds.value), ownId, now));
    }
    forall id | id in after.rows ensures RightedBy(store, after, item, id) {
      if id in store.rows && !(MergesInto(item, id) && Mergeable(store.rows[id].status)) { SameRow(store, after, id); }
    }
  }

  lemma SaveItemLists(store: Store, fs: seq<Finding>, item: Item, ownId: string, now: int)
    requires ListsOk(store) && StoredAs(store.findings, fs) && DistinctIds(fs) && ItemOk(store, item)
    requires NewKey(item, ownId) !in store.rows
    ensures ListsOk(SaveItem(store, fs, item, ownId, now))
  {
    if item.newIds.None? {
      OpenedLists(store, item.incident);
    } else if MergeIncident(store, item.incident.incidentId, item.newIds.value).Some? {
      MergedLists(store, item.incident.incidentId, item.newIds.value);
    } else {
      ChosenIsOk(store, fs, item.newIds.value, ownId, now);
      OpenedLists(store, IncidentFrom(Chosen(fs, item.newIds.value), ownId, now));
    }
  }

  lemma OpenedLists(store: Store, incident: Incident)
    requires ListsOk(store) && NoDup(incident.findingIds) && AllIn(incident.findingIds, store.findings)
    ensures ListsOk(InsertIncident(store, incident))
  {
    forall id | id in InsertIncident(store, incident).rows ensures RowLists(InsertIncident(store, incident), id) {
      if id != incident.incidentId { assert RowLists(store, id); }
    }
  }

  lemma MergedLists(store: Store, incidentId: string, newIds: seq<string>)
    requires ListsOk(store) && AllIn(newIds, store.findings) && MergeIncident(store, incidentId, newIds).Some?
    ensures ListsOk(MergeIncident(store, incidentId, newIds).value)
  {
    MergeIsOk(store, incidentId, newIds);
    var after := MergeIncident(store, incidentId, newIds).value;
    forall id | id in after.rows ensures RowLists(after, id) {
      if id != incidentId { assert RowLists(store, id); }
    }
  }

  ghost predicate Righted(store: Store, after: Store, items: seq<Item>) {
    forall id :: id in after.rows ==>
      (RowOk(after, id) <==> id !in store.rows || RowOk(store, id) || MergedBy(store, items, id))
  }

  lemma {:induction false} SaveItemsRows(store: Store, fs: seq<Finding>, items: seq<Item>, ownId: nat -> string,
          now: int)
    requires ListsOk(store) && StoredAs(store.findings, fs) && DistinctIds(fs)
    requires ItemsOk(store, items) && NewKeys(store, items, ownId)
    ensures ListsOk(SaveItems(store, fs, items, ownId, now))
      && Righted(store, SaveItems(store, fs, items, ownId, now), items)
  {
    if items != [] {
      var n := |items| - 1;
      assert forall k :: 0 <= k < n ==> items[..n][k] == items[k];
      SaveItemsRows(store, fs, items[..n], ownId, now);
      SaveItemsGuard(store, fs, items[..n], ownId, now);
      var mid := SaveItems(store, fs, items[..n], ownId, now);
      LastKeyIsNew(store, mid, items, ownId);
      SameItemOk(store, mid, items[n]);
      SaveItemRows(mid, fs, items[n], ownId(n), now);
      SaveItemLists(mid, fs, items[n], ownId(n), now);
      SaveItemGuards(mid, fs, items[n], ownId(n), now);
      RightedSnoc(store, mid, SaveItem(mid, fs, items[n], ownId(n), now), items);
    }
  }

  lemma RightedSnoc(store: Store, mid: Store, after: Store, items: seq<Item>)
    requires items != [] && Righted(store, mid, items[..|items| - 1]) && AllGuarded(store, mid)
      && AllGuarded(mid, after)
    requires forall id :: id in after.rows ==> RightedBy(mid, after, items[|items| - 1], id)
    ensures Righted(store, after, items)
  {
    var n := |items| - 1;
    forall id | id in after.rows
      ensures RowOk(after, id) <==> id !in store.rows || RowOk(store, id) || MergedBy(store, items, id)
    {
      assert RightedBy(mid, after, items[n], id);
      if id in store.rows {
        assert id in mid.rows && Guarded(store.rows[id], mid.rows[id]);
        assert RowOk(mid, id) <==> RowOk(store, id) || MergedBy(store, items[..n], id);
        MergedSnoc(store, items, id);
      } else if id in mid.rows {
        assert RowOk(mid, id);
      }
    }
  }

  lemma MergedSnoc(store: Store, items: seq<Item>, id: string)
    requires items != [] && id in store.rows
    ensures MergedBy(store, items, id) <==>
      MergedBy(store, items[..|items| - 1], id)
        || (MergesInto(items[|items| - 1], id) && Mergeable(store.rows[id].status))
  {
    var n := |items| - 1;
    if MergedBy(store, items[..n], id) {
      var k :| 0 <= k < |items[..n]| && MergesInto(items[..n][k], id);
      assert MergesInto(items[k], id);
    }
    if MergedBy(store, items, id) {
      var k :| 0 <= k < |items| && MergesInto(items[k], id);
      if k < n { assert MergesInto(items[..n][k], id); }
    }
  }

  /** The save leaves no incident that its replaced findings falsify: each is indifferent to what the
      batch replaces among its findings, or this save merges into it, which recomputes it. */
  ghost predicate Harmless(store: Store, fs: seq<Finding>, items: seq<Item>) {
    forall id :: id in store.rows ==>
      Indifferent(FindingsOf(store, id), SwapAll(FindingsOf(store, id), fs)) || MergedBy(store, items, id)
  }

  lemma InsertedLists(store: Store, fs: seq<Finding>)
    requires ListsOk(store)
    ensures ListsOk(Inserted(store, fs))
  {
    InsertKeys(store.findings, fs);
    forall id | id in store.rows ensures RowLists(Inserted(store, fs), id) {
      assert RowLists(store, id);
    }
  }

  lemma InsertedRows(store: Store, fs: seq<Finding>)
    requires StoreOk(store)
    ensures forall id :: id in store.rows ==>
      (RowOk(Inserted(store, fs), id) <==> Indifferent(FindingsOf(store, id), SwapAll(FindingsOf(store, id), fs)))
  {
    forall id | id in store.rows
      ensures RowOk(Inserted(store, fs), id) <==> Indifferent(FindingsOf(store, id), SwapAll(FindingsOf(store, id), fs))
    {
      RowStaysIff(store, fs, id);
    }
  }

  /** A save leaves every incident right if and only if its replaced findings are harmless. */
  lemma SaveKeepsIff(store: Store, fs: seq<Finding>, items: seq<Item>, ownId: nat -> string, now: int)
    requires StoreOk(store) && DistinctIds(fs)
    requires ItemsOk(Inserted(store, fs), items) && NewKeys(store, items, ownId)
    ensures StoreOk(Save(store, fs, items, ownId, now)) <==> Harmless(store, fs, items)
  {
    var inserted, after := Inserted(store, fs), Save(store, fs, items, ownId, now);
    OkIsListed(store);
    InsertedLists(store, fs);
    InsertedAs(store.findings, fs);
    SaveItemsRows(inserted, fs, items, ownId, now);
    SaveItemsGuard(inserted, fs, items, ownId, now);
    InsertedRows(store, fs);
    forall id | id in store.rows
      ensures id in after.rows && (MergedBy(inserted, items, id) <==> MergedBy(store, items, id))
    {
      assert Guarded(inserted.rows[id], after.rows[id]);
    }
    if StoreOk(after) {
      forall id | id in store.rows ensures RowOk(inserted, id) || MergedBy(store, items, id) {
        assert RowOk(after, id);
      }
    }
  }

  /** A save that only carries new findings, or stored ones unchanged, is harmless. */
  lemma AgreeingIsHarmless(store: Store, fs: seq<Finding>, items: seq<Item>)
    requires StoreOk(store) && Agreeing(store.findings, fs)
    ensures Harmless(store, fs, items)
  {
    InsertedOk(store, fs);
    InsertedRows(store, fs);
  }

  /** Saving one finding again, alone, keeps the tables right if and only if every incident that
      lists it is indifferent to the change. */
  lemma ReplacementKeepsIff(store: Store, g: Finding, ownId: nat -> string, now: int)
    requires StoreOk(store) && g.findingId in store.findings
    ensures StoreOk(Save(store, [g], [], ownId, now)) <==>
      forall id :: id in store.rows && g.findingId in store.rows[id].incident.findingIds ==>
        IndifferentTo(FindingsOf(store, id), store.findings[g.findingId], g)
  {
    SaveKeepsIff(store, [g], [], ownId, now);
    InsertedRows(store, [g]);
    forall id | id in store.rows
      ensures RowOk(Inserted(store, [g]), id) <==> (g.findingId in store.rows[id].incident.findingIds ==>
        IndifferentTo(FindingsOf(store, id), store.findings[g.findingId], g))
    {
      ReplacedKeepsRowIff(store, g, id);
    }
  }

  /** So an incident of one finding goes stale when that finding is saved again with more points. */
  lemma ReplacedFindingGoesStale(f: Finding, points: int, incidentId: string, createdAt: int)
    requires f.riskPoints < points && f.riskPoints < MAX_RISK
    ensures var store := OneIncident(f, incidentId, createdAt);
      StoreOk(store) && !StoreOk(Save(store, [f.(riskPoints := points)], [], k => "", 0))
  {
    var again := f.(riskPoints := points);
    var store := OneIncident(f, incidentId, createdAt);
    OneIncidentOk(f, incidentId, createdAt);
    ReplacementKeepsIff(store, again, k => "", 0);
    PointsOne(f);
    assert incidentId in store.rows && !IndifferentTo([f], f, again);
  }

  function OneIncident(f: Finding, incidentId: string, createdAt: int): Store {
    Store(map[f.findingId := f], map[incidentId := Row(IncidentFrom([f], incidentId, createdAt), Open, None, None)])
  }

  lemma OneIncidentReads(f: Finding, incidentId: string, createdAt: int)
    ensures IncidentFrom([f], incidentId, createdAt).findingIds == [f.findingId]
    ensures FindingsByIds(OneIncident(f, incidentId, createdAt), [f.findingId]) == [f]
  {
    SortedFixed([f]);
    LookupIds(OneIncident(f, incidentId, createdAt).findings, [f]);
    assert IdsOf([f]) == [f.findingId];
  }

  lemma OneIncidentOk(f: Finding, incidentId: string, createdAt: int)
    ensures var store := OneIncident(f, incidentId, createdAt);
      var ids := store.rows[incidentId].incident.findingIds;
      StoreOk(store) && ids == [f.findingId] && FindingsByIds(store, ids) == [f]
  {
    var store := OneIncident(f, incidentId, createdAt);
    OneIncidentReads(f, incidentId, createdAt);
    assert RowOk(store, incidentId);
  }
}
