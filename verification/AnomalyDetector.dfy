/** The detector object of src/autosiem/anomaly.py: counters updated in place. */
module Detector {
  import opened Common
  import opened Schemas
  import opened Anomaly
  import opened AnomalyHistory

  lemma {:induction false} LearnNext(s: Baseline, event: Event, entities: seq<Entity>, i: nat)
    requires i < |entities|
    ensures LearnEntities(s, event, entities[..i + 1])
      == LearnEntity(LearnEntities(s, event, entities[..i]), event, entities[i])
  {
    assert entities[..i + 1][..i] == entities[..i];
  }

  class AnomalyDetector {
    var actions: map<Entity, Counter<string>>
    var srcIps: map<string, Counter<string>>
    var hosts: map<string, Counter<string>>
    var hours: map<Entity, Counter<nat>>
    var observations: Counter<Entity>
    var actionTotals: Counter<string>
    var peers: map<Kind, Counter<string>>
    var total: nat
    var recent: map<Entity, seq<int>>

    function State(): Baseline
      reads this
    {
      Baseline(actions, srcIps, hosts, hours, observations, actionTotals, peers, total, recent)
    }

    constructor ()
      ensures State() == EMPTY
    {
      actions, srcIps, hosts, hours := map[], map[], map[], map[];
      observations, actionTotals, peers, total, recent := map[], map[], map[], 0, map[];
    }

    /** Replaces the learned state by the one the document was taken of, provided its windows were
        within their bound; whatever the document, the windows are within it afterwards. */
    method Restore(document: Document)
      modifies this
      ensures State() == FromDict(document)
      ensures forall s :: ToDict(s) == document ==> (State() == s <==> WithinBounds(s))
      ensures WithinBounds(State())
    {
      forall s | ToDict(s) == document ensures FromDict(document) == s <==> WithinBounds(s) {
        SnapshotRoundTripIff(s);
      }
      var s := FromDict(document);
      actions, srcIps, hosts, hours := s.actions, s.srcIps, s.hosts, s.hours;
      observations, actionTotals, peers, total, recent := s.observations, s.actionTotals, s.peers, s.total, s.recent;
    }

    method Update(event: Event)
      modifies this
      ensures State() == Learn(old(State()), event)
    {
      var entities := EntityKeys(event);
      var i := 0;
      while i < |entities|
        invariant 0 <= i <= |entities|
        invariant State() == LearnEntities(old(State()), event, entities[..i])
      {
        LearnNext(old(State()), event, entities, i);
        UpdateEntity(event, entities[i]);
        i := i + 1;
      }
      assert entities[..i] == entities;
      UpdateTotals(event);
    }

    method UpdateEntity(event: Event, e: Entity)
      modifies this
      ensures State() == LearnEntity(old(State()), event, e)
    {
      if At(CounterOf(actions, e), event.action) == 0 {
        peers := peers[e.kind := Bump(CounterOf(peers, e.kind), event.action)];
      }
      actions := actions[e := Bump(CounterOf(actions, e), event.action)];
      hours := hours[e := Bump(CounterOf(hours, e), event.hour)];
      observations := Bump(observations, e);
      recent := recent[e := Last(TimesOf(recent, e) + [event.timestamp], MAX_TRACKED_TIMES)];
    }

    method UpdateTotals(event: Event)
      modifies this
      ensures State() == LearnTotals(old(State()), event)
    {
      if Present(event.user) && Present(event.srcIp) {
        srcIps := srcIps[event.user.value := Bump(CounterOf(srcIps, event.user.value), event.srcIp.value)];
      }
      if Present(event.user) && Present(event.host) {
        hosts := hosts[event.user.value := Bump(CounterOf(hosts, event.user.value), event.host.value)];
      }
      actionTotals := Bump(actionTotals, event.action);
      total := total + 1;
    }

    method PeerSignals(event: Event) returns (found: seq<Signal>)
      ensures found == AnomalyHistory.PeerSignals(State(), event.action, EntityKeys(event))
    {
      var entities := EntityKeys(event);
      found := [];
      var i := 0;
      while i < |entities|
        invariant 0 <= i <= |entities|
        invariant found == AnomalyHistory.PeerSignals(State(), event.action, entities[..i])
      {
        assert entities[..i + 1][..i] == entities[..i];
        var signal := PeerSignal(State(), event.action, entities[i]);
        if signal.Some? {
          found := found + [signal.value];
        }
        i := i + 1;
      }
      assert entities[..i] == entities;
    }
  }
}
