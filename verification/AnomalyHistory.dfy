/** What the learned counters mean: after any events they agree with definitions that look
    at the whole history at once. */
module AnomalyHistory {
  import opened Common
  import opened Schemas
  import opened Anomaly

  /** One entity taking part in one event. */
  datatype Obs = Obs(entity: Entity, action: string, hour: nat, time: int)

  function ObsOf(event: Event, entities: seq<Entity>): seq<Obs> {
    if entities == [] then []
    else
      ObsOf(event, entities[..|entities| - 1])
      + [Obs(entities[|entities| - 1], event.action, event.hour, event.timestamp)]
  }

  function History(events: seq<Event>): seq<Obs> {
    if events == [] then []
    else
      var event := events[|events| - 1];
      History(events[..|events| - 1]) + ObsOf(event, EntityKeys(event))
  }

  // ----- definitions over the history -----

  /** Entities of a kind that performed the action at least once. */
  ghost function Doers(obs: seq<Obs>, kind: Kind, action: string): set<Entity> {
    set o | o in obs && o.entity.kind == kind && o.action == action :: o.entity
  }

  /** Entities of a kind that were observed at all. */
  ghost function Members(obs: seq<Obs>, kind: Kind): set<Entity> {
    set o | o in obs && o.entity.kind == kind :: o.entity
  }

  function Performed(obs: seq<Obs>, e: Entity, action: string): nat {
    if obs == [] then 0
    else
      var o := obs[|obs| - 1];
      Performed(obs[..|obs| - 1], e, action) + (if o.entity == e && o.action == action then 1 else 0)
  }

  function Observed(obs: seq<Obs>, e: Entity): nat {
    if obs == [] then 0
    else Observed(obs[..|obs| - 1], e) + (if obs[|obs| - 1].entity == e then 1 else 0)
  }

  function ActiveAt(obs: seq<Obs>, e: Entity, hour: nat): nat {
    if obs == [] then 0
    else
      var o := obs[|obs| - 1];
      ActiveAt(obs[..|obs| - 1], e, hour) + (if o.entity == e && o.hour == hour then 1 else 0)
  }

  function Times(obs: seq<Obs>, e: Entity): seq<int> {
    if obs == [] then []
    else
      var o := obs[|obs| - 1];
      Times(obs[..|obs| - 1], e) + (if o.entity == e then [o.time] else [])
  }

  ghost predicate ActionsAgree(actions: map<Entity, Counter<string>>, obs: seq<Obs>) {
    forall e, a :: At(CounterOf(actions, e), a) == Performed(obs, e, a)
  }

  ghost predicate HoursAgree(hours: map<Entity, Counter<nat>>, obs: seq<Obs>) {
    forall e, h :: At(CounterOf(hours, e), h) == ActiveAt(obs, e, h)
  }

  ghost predicate ObservationsAgree(observations: Counter<Entity>, obs: seq<Obs>) {
    forall e :: At(observations, e) == Observed(obs, e) && (e in observations <==> Observed(obs, e) > 0)
  }

  ghost predicate WindowsAgree(recent: map<Entity, seq<int>>, obs: seq<Obs>) {
    forall e :: TimesOf(recent, e) == Last(Times(obs, e), MAX_TRACKED_TIMES)
  }

  ghost predicate PeersAgree(peers: map<Kind, Counter<string>>, obs: seq<Obs>) {
    forall k, a :: At(CounterOf(peers, k), a) == |Doers(obs, k, a)|
  }

  ghost predicate Agrees(s: Baseline, obs: seq<Obs>) {
    && ActionsAgree(s.actions, obs)
    && HoursAgree(s.hours, obs)
    && ObservationsAgree(s.observations, obs)
    && WindowsAgree(s.recent, obs)
    && PeersAgree(s.peers, obs)
  }

  // ----- the proof, one observation at a time -----

  lemma {:induction false} PerformedIffDoer(obs: seq<Obs>, e: Entity, action: string)
    ensures Performed(obs, e, action) > 0 <==> e in Doers(obs, e.kind, action)
  {
    if obs != [] {
      var init, o := obs[..|obs| - 1], obs[|obs| - 1];
      PerformedIffDoer(init, e, action);
      assert obs == init + [o];
      if e in Doers(init, e.kind, action) {
        var p :| p in init && p.entity == e && p.action == action;
        assert p in obs;
      }
      if o.entity == e && o.action == action { assert o in obs; }
    }
  }

  lemma {:induction false} ObservedIffMember(obs: seq<Obs>, e: Entity)
    ensures Observed(obs, e) > 0 <==> e in Members(obs, e.kind)
  {
    if obs != [] {
      var init, o := obs[..|obs| - 1], obs[|obs| - 1];
      ObservedIffMember(init, e);
      assert obs == init + [o];
      if e in Members(init, e.kind) {
        var p :| p in init && p.entity == e;
        assert p in obs;
      }
      if o.entity == e { assert o in obs; }
    }
  }

  lemma DoersSnoc(obs: seq<Obs>, o: Obs, kind: Kind, action: string)
    ensures Doers(obs + [o], kind, action)
         == if o.entity.kind == kind && o.action == action then Doers(obs, kind, action) + {o.entity}
           else Doers(obs, kind, action)
  {
    assert o in obs + [o];
    assert forall p :: p in obs + [o] <==> p in obs || p == o;
  }

  lemma PeersAfter(s: Baseline, event: Event, e: Entity, k: Kind, a: string)
    ensures At(CounterOf(LearnEntity(s, event, e).peers, k), a)
         == At(CounterOf(s.peers, k), a)
            + (if k == e.kind && a == event.action && At(CounterOf(s.actions, e), a) == 0 then 1 else 0)
  {
  }

  lemma {:induction false} DoersGrow(obs: seq<Obs>, o: Obs, k: Kind, a: string)
    ensures |Doers(obs + [o], k, a)|
         == |Doers(obs, k, a)|
           + (if k == o.entity.kind && a == o.action && Performed(obs, o.entity, a) == 0 then 1 else 0)
  {
    DoersSnoc(obs, o, k, a);
    PerformedIffDoer(obs, o.entity, a);
    if k == o.entity.kind && a == o.action && o.entity in Doers(obs, k, a) {
      assert Doers(obs, k, a) + {o.entity} == Doers(obs, k, a);
    }
  }

  lemma ActionsStep(s: Baseline, obs: seq<Obs>, event: Event, o: Obs)
    requires ActionsAgree(s.actions, obs) && o.action == event.action
    ensures ActionsAgree(LearnEntity(s, event, o.entity).actions, obs + [o])
  {
    assert (obs + [o])[..|obs|] == obs;
    forall f, a ensures At(CounterOf(LearnEntity(s, event, o.entity).actions, f), a) == Performed(obs + [o], f, a) {
      assert At(CounterOf(s.actions, f), a) == Performed(obs, f, a);
    }
  }

  lemma ActiveSnoc(obs: seq<Obs>, o: Obs, f: Entity, h: nat)
    ensures ActiveAt(obs + [o], f, h) == ActiveAt(obs, f, h) + (if o.entity == f && o.hour == h then 1 else 0)
  {
    assert (obs + [o])[..|obs|] == obs;
  }

  lemma BumpedHour(hours: map<Entity, Counter<nat>>, e: Entity, hour: nat, f: Entity, h: nat)
    ensures At(CounterOf(hours[e := Bump(CounterOf(hours, e), hour)], f), h)
      == At(CounterOf(hours, f), h) + (if e == f && hour == h then 1 else 0)
  {
  }

  lemma HourStep(s: Baseline, obs: seq<Obs>, event: Event, o: Obs, f: Entity, h: nat)
    requires HoursAgree(s.hours, obs) && o.hour == event.hour
    ensures At(CounterOf(LearnEntity(s, event, o.entity).hours, f), h) == ActiveAt(obs + [o], f, h)
  {
    ActiveSnoc(obs, o, f, h);
    BumpedHour(s.hours, o.entity, event.hour, f, h);
    assert At(CounterOf(s.hours, f), h) == ActiveAt(obs, f, h);
  }

  lemma HoursStep(s: Baseline, obs: seq<Obs>, event: Event, o: Obs)
    requires HoursAgree(s.hours, obs) && o.hour == event.hour
    ensures HoursAgree(LearnEntity(s, event, o.entity).hours, obs + [o])
  {
    forall f, h ensures At(CounterOf(LearnEntity(s, event, o.entity).hours, f), h) == ActiveAt(obs + [o], f, h) {
      HourStep(s, obs, event, o, f, h);
    }
  }

  lemma ObservationsStep(s: Baseline, obs: seq<Obs>, event: Event, o: Obs)
    requires ObservationsAgree(s.observations, obs)
    ensures ObservationsAgree(LearnEntity(s, event, o.entity).observations, obs + [o])
  {
    assert (obs + [o])[..|obs|] == obs;
    forall f ensures At(LearnEntity(s, event, o.entity).observations, f) == Observed(obs + [o], f)
      && (f in LearnEntity(s, event, o.entity).observations <==> Observed(obs + [o], f) > 0)
    {
      assert At(s.observations, f) == Observed(obs, f);
    }
  }

  lemma LastOfLast<T>(s: seq<T>, x: T, n: nat)
    requires n > 0
    ensures Last(Last(s, n) + [x], n) == Last(s + [x], n)
  {
  }

  lemma RecentAfter(s: Baseline, event: Event, e: Entity, f: Entity)
    ensures TimesOf(LearnEntity(s, event, e).recent, f) ==
      if f == e then Last(TimesOf(s.recent, e) + [event.timestamp], MAX_TRACKED_TIMES) else TimesOf(s.recent, f)
  {
  }

  lemma {:induction false} TimesSnoc(obs: seq<Obs>, o: Obs, f: Entity)
    ensures Times(obs + [o], f) == if o.entity == f then Times(obs, f) + [o.time] else Times(obs, f)
  {
    assert (obs + [o])[..|obs|] == obs;
    assert Times(obs, f) + [] == Times(obs, f);
  }

  lemma {:induction false} WindowStep(s: Baseline, obs: seq<Obs>, event: Event, o: Obs, f: Entity)
    requires TimesOf(s.recent, f) == Last(Times(obs, f), MAX_TRACKED_TIMES) && o.time == event.timestamp
    ensures TimesOf(LearnEntity(s, event, o.entity).recent, f) == Last(Times(obs + [o], f), MAX_TRACKED_TIMES)
  {
    RecentAfter(s, event, o.entity, f);
    TimesSnoc(obs, o, f);
    if f == o.entity { LastOfLast(Times(obs, f), o.time, MAX_TRACKED_TIMES); }
  }

  lemma WindowsStep(s: Baseline, obs: seq<Obs>, event: Event, o: Obs)
    requires WindowsAgree(s.recent, obs) && o.time == event.timestamp
    ensures WindowsAgree(LearnEntity(s, event, o.entity).recent, obs + [o])
  {
    forall f
      ensures TimesOf(LearnEntity(s, event, o.entity).recent, f) == Last(Times(obs + [o], f), MAX_TRACKED_TIMES)
    {
      WindowStep(s, obs, event, o, f);
    }
  }

  lemma AgreesStep(s: Baseline, obs: seq<Obs>, event: Event, o: Obs)
    requires Agrees(s, obs)
    requires o.action == event.action && o.hour == event.hour && o.time == event.timestamp
    ensures Agrees(LearnEntity(s, event, o.entity), obs + [o])
  {
    ActionsStep(s, obs, event, o);
    HoursStep(s, obs, event, o);
    ObservationsStep(s, obs, event, o);
    WindowsStep(s, obs, event, o);
    forall k, a ensures At(CounterOf(LearnEntity(s, event, o.entity).peers, k), a) == |Doers(obs + [o], k, a)| {
      PeersAfter(s, event, o.entity, k, a);
      DoersGrow(obs, o, k, a);
      assert At(CounterOf(s.actions, o.entity), a) == Performed(obs, o.entity, a);
    }
  }

  lemma {:induction false} EntitiesAgree(s: Baseline, obs: seq<Obs>, event: Event, entities: seq<Entity>)
    requires Agrees(s, obs)
    ensures Agrees(LearnEntities(s, event, entities), obs + ObsOf(event, entities))
  {
    if entities == [] {
      assert obs + ObsOf(event, entities) == obs;
    } else {
      var init, e := entities[..|entities| - 1], entities[|entities| - 1];
      EntitiesAgree(s, obs, event, init);
      var s1, obs1 := LearnEntities(s, event, init), obs + ObsOf(event, init);
      AgreesStep(s1, obs1, event, Obs(e, event.action, event.hour, event.timestamp));
      assert obs + ObsOf(event, entities) == obs1 + [Obs(e, event.action, event.hour, event.timestamp)];
    }
  }

  // ----- counters of whole events -----

  predicate Names(field: Option<string>, name: string) {
    Present(field) && field.value == name
  }

  /** Events that name both the user and the source address. */
  function SourceUses(events: seq<Event>, user: string, srcIp: string): nat {
    if events == [] then 0
    else
      var e := events[|events| - 1];
      SourceUses(events[..|events| - 1], user, srcIp) + (if Names(e.user, user) && Names(e.srcIp, srcIp) then 1 else 0)
  }

  /** Events that name both the user and the host. */
  function HostUses(events: seq<Event>, user: string, host: string): nat {
    if events == [] then 0
    else
      var e := events[|events| - 1];
      HostUses(events[..|events| - 1], user, host) + (if Names(e.user, user) && Names(e.host, host) then 1 else 0)
  }

  function Taken(events: seq<Event>, action: string): nat {
    if events == [] then 0
    else Taken(events[..|events| - 1], action) + (if events[|events| - 1].action == action then 1 else 0)
  }

  ghost predicate SourcesAgree(srcIps: map<string, Counter<string>>, events: seq<Event>) {
    forall u, ip :: At(CounterOf(srcIps, u), ip) == SourceUses(events, u, ip)
  }

  ghost predicate HostsAgree(hosts: map<string, Counter<string>>, events: seq<Event>) {
    forall u, h :: At(CounterOf(hosts, u), h) == HostUses(events, u, h)
  }

  ghost predicate ActionTotalsAgree(totals: Counter<string>, events: seq<Event>) {
    forall a :: At(totals, a) == Taken(events, a)
  }

  ghost predicate TotalsAgree(s: Baseline, events: seq<Event>) {
    && SourcesAgree(s.srcIps, events) && HostsAgree(s.hosts, events)
    && ActionTotalsAgree(s.actionTotals, events) && s.total == |events|
  }

  lemma {:induction false} EntitiesLeaveTotals(s: Baseline, event: Event, entities: seq<Entity>)
    ensures var after := LearnEntities(s, event, entities);
      after.srcIps == s.srcIps && after.hosts == s.hosts && after.actionTotals == s.actionTotals
        && after.total == s.total
  {
    if entities != [] { EntitiesLeaveTotals(s, event, entities[..|entities| - 1]); }
  }

  lemma BumpIn(m: map<string, Counter<string>>, k: string, x: string, u: string, y: string)
    ensures At(CounterOf(m[k := Bump(CounterOf(m, k), x)], u), y)
      == At(CounterOf(m, u), y) + (if u == k && y == x then 1 else 0)
  {
  }

  lemma {:induction false} UsesSnoc(events: seq<Event>, event: Event, user: string, name: string)
    ensures SourceUses(events + [event], user, name)
      == SourceUses(events, user, name) + (if Names(event.user, user) && Names(event.srcIp, name) then 1 else 0)
    ensures HostUses(events + [event], user, name)
      == HostUses(events, user, name) + (if Names(event.user, user) && Names(event.host, name) then 1 else 0)
    ensures Taken(events + [event], name) == Taken(events, name) + (if event.action == name then 1 else 0)
  {
    assert (events + [event])[..|events|] == events;
  }

  lemma BumpedAt(m: map<string, Counter<string>>, user: Option<string>, name: Option<string>, u: string, n: string)
    ensures At(CounterOf(BumpedFor(m, user, name), u), n)
      == At(CounterOf(m, u), n) + (if Names(user, u) && Names(name, n) then 1 else 0)
  {
    if Present(user) && Present(name) { BumpIn(m, user.value, name.value, u, n); }
  }

  lemma SourcesStep(srcIps: map<string, Counter<string>>, events: seq<Event>, event: Event)
    requires SourcesAgree(srcIps, events)
    ensures SourcesAgree(BumpedFor(srcIps, event.user, event.srcIp), events + [event])
  {
    forall u, ip
      ensures At(CounterOf(BumpedFor(srcIps, event.user, event.srcIp), u), ip) == SourceUses(events + [event], u, ip)
    {
      UsesSnoc(events, event, u, ip);
      BumpedAt(srcIps, event.user, event.srcIp, u, ip);
    }
  }

  lemma HostsStep(hosts: map<string, Counter<string>>, events: seq<Event>, event: Event)
    requires HostsAgree(hosts, events)
    ensures HostsAgree(BumpedFor(hosts, event.user, event.host), events + [event])
  {
    forall u, h
      ensures At(CounterOf(BumpedFor(hosts, event.user, event.host), u), h) == HostUses(events + [event], u, h)
    {
      UsesSnoc(events, event, u, h);
      BumpedAt(hosts, event.user, event.host, u, h);
    }
  }

  lemma ActionTotalsStep(totals: Counter<string>, events: seq<Event>, event: Event)
    requires ActionTotalsAgree(totals, events)
    ensures ActionTotalsAgree(Bump(totals, event.action), events + [event])
  {
    forall a ensures At(Bump(totals, event.action), a) == Taken(events + [event], a) {
      UsesSnoc(events, event, "", a);
      assert At(totals, a) == Taken(events, a);
    }
  }

  lemma TotalsStep(s: Baseline, events: seq<Event>, event: Event)
    requires TotalsAgree(s, events)
    ensures TotalsAgree(LearnTotals(s, event), events + [event])
  {
    SourcesStep(s.srcIps, events, event);
    HostsStep(s.hosts, events, event);
    ActionTotalsStep(s.actionTotals, events, event);
  }

  /** After any event sequence every learned counter, window and peer count is what the whole
      history says it should be. */
  lemma {:induction false} LearnedStateAgrees(events: seq<Event>)
    ensures Agrees(LearnAll(EMPTY, events), History(events)) && TotalsAgree(LearnAll(EMPTY, events), events)
  {
    if events == [] {
      forall k, a ensures |Doers([], k, a)| == 0 {
        assert Doers([], k, a) == {};
      }
      assert LearnAll(EMPTY, events) == EMPTY;
    } else {
      var init, event := events[..|events| - 1], events[|events| - 1];
      LearnedStateAgrees(init);
      var s, obs := LearnAll(EMPTY, init), History(init);
      EntitiesAgree(s, obs, event, EntityKeys(event));
      EntitiesLeaveTotals(s, event, EntityKeys(event));
      TotalsStep(LearnEntities(s, event, EntityKeys(event)), init, event);
      assert init + [event] == events;
    }
  }

  // ----- the peer comparison -----

  /** Distinct observed entities of a kind; the counter's keys are exactly those. */
  function PeerGroup(s: Baseline, kind: Kind): set<Entity> {
    set e | e in s.observations && e.kind == kind
  }

  datatype Signal = Signal(entity: Entity, points: int, otherDoers: int, otherPeers: int)

  /** Python's `round`: to nearest, ties to even, for a non-negative fraction. */
  function RoundHalfEven(num: nat, den: nat): nat
    requires den > 0
  {
    var q, r := num / den, num % den;
    if 2 * r > den || (2 * r == den && q % 2 == 1) then q + 1 else q
  }

  /** `max(1, round(20 * (1 - fraction / 0.20)))` for `fraction == others / peers <= 0.20`. */
  function PeerPoints(others: int, peers: nat): int
    requires 0 < peers && PEER_RARE_ONE_IN * others <= peers
  {
    Max(1, RoundHalfEven(POINTS_PEER_RARE_MAX * (peers - PEER_RARE_ONE_IN * others), peers))
  }

  function PeerSignal(s: Baseline, action: string, e: Entity): Option<Signal> {
    var peers := |PeerGroup(s, e.kind)|;
    if peers < MIN_PEER_GROUP_SIZE then None
    else
      var doers := At(CounterOf(s.peers, e.kind), action);
      var otherDoers := if At(CounterOf(s.actions, e), action) > 0 then doers - 1 else doers;
      var otherPeers := peers - 1;
      if otherPeers <= 0 then None
      else if PEER_RARE_ONE_IN * otherDoers > otherPeers then None
      else Some(Signal(e, PeerPoints(otherDoers, otherPeers), otherDoers, otherPeers))
  }

  function PeerSignals(s: Baseline, action: string, entities: seq<Entity>): seq<Signal> {
    if entities == [] then []
    else
      var rest := PeerSignals(s, action, entities[..|entities| - 1]);
      match PeerSignal(s, action, entities[|entities| - 1])
      case None => rest
      case Some(signal) => rest + [signal]
  }

  lemma RoundBounds(num: nat, den: nat, top: nat)
    requires den > 0 && num <= top * den
    ensures RoundHalfEven(num, den) <= top
  {
    var q, r := num / den, num % den;
    assert num == q * den + r;
    QuotientBound(q, den, r, top);
  }

  lemma QuotientBound(q: nat, den: nat, r: nat, top: nat)
    requires den > 0 && q * den + r <= top * den
    ensures q < top || (q == top && r == 0)
  {
    assert q > top ==> q * den >= (top + 1) * den;
    assert (top + 1) * den == top * den + den;
  }

  lemma PointsRange(others: nat, peers: nat)
    requires 0 < peers && PEER_RARE_ONE_IN * others <= peers
    ensures 1 <= PeerPoints(others, peers) <= POINTS_PEER_RARE_MAX
  {
    RoundBounds(POINTS_PEER_RARE_MAX * (peers - PEER_RARE_ONE_IN * others), peers, POINTS_PEER_RARE_MAX);
  }

  ghost function OtherDoers(obs: seq<Obs>, e: Entity, action: string): set<Entity> {
    Doers(obs, e.kind, action) - {e}
  }

  ghost function OtherMembers(obs: seq<Obs>, e: Entity): set<Entity> {
    Members(obs, e.kind) - {e}
  }

  lemma PeerGroupIsMembers(s: Baseline, obs: seq<Obs>, kind: Kind)
    requires ObservationsAgree(s.observations, obs)
    ensures PeerGroup(s, kind) == Members(obs, kind)
  {
    forall e ensures e in PeerGroup(s, kind) <==> e in Members(obs, kind) {
      if e.kind == kind {
        ObservedIffMember(obs, e);
        assert e in s.observations <==> Observed(obs, e) > 0;
      }
    }
  }

  /** What the two counters read by the comparison are, for one entity and action. */
  lemma {:induction false} PeerInputs(events: seq<Event>, action: string, e: Entity)
    ensures var s, obs := LearnAll(EMPTY, events), History(events);
      && PeerGroup(s, e.kind) == Members(obs, e.kind)
      && At(CounterOf(s.peers, e.kind), action) == |Doers(obs, e.kind, action)|
      && (At(CounterOf(s.actions, e), action) > 0 <==> e in Doers(obs, e.kind, action))
  {
    var s, obs := LearnAll(EMPTY, events), History(events);
    LearnedStateAgrees(events);
    PeerGroupIsMembers(s, obs, e.kind);
    PerformedIffDoer(obs, e, action);
    assert At(CounterOf(s.actions, e), action) == Performed(obs, e, action);
  }

  lemma WithoutOne<T>(s: set<T>, x: T)
    ensures |s - {x}| == if x in s then |s| - 1 else |s|
  {
    if x !in s { assert s - {x} == s; }
  }

  /** For an entity already observed, the comparison counts exactly the other entities that did
      the action against exactly the other entities of its kind, and awards 1 to 20 points. */
  lemma {:induction false} PeerSignalIsExact(events: seq<Event>, action: string, e: Entity)
    requires e in Members(History(events), e.kind)
    ensures var obs := History(events);
      var others, peers := |OtherDoers(obs, e, action)|, |OtherMembers(obs, e)|;
      match PeerSignal(LearnAll(EMPTY, events), action, e)
      case None => peers + 1 < MIN_PEER_GROUP_SIZE || PEER_RARE_ONE_IN * others > peers
      case Some(signal) =>
        && peers + 1 >= MIN_PEER_GROUP_SIZE && PEER_RARE_ONE_IN * others <= peers
        && signal.otherDoers == others && signal.otherPeers == peers
        && 1 <= signal.points <= POINTS_PEER_RARE_MAX
  {
    var obs := History(events);
    PeerInputs(events, action, e);
    WithoutOne(Members(obs, e.kind), e);
    WithoutOne(Doers(obs, e.kind, action), e);
    var signal := PeerSignal(LearnAll(EMPTY, events), action, e);
    if signal.Some? {
      PointsRange(|OtherDoers(obs, e, action)|, |OtherMembers(obs, e)|);
    }
  }

  /** The peer count is right exactly for observed entities: a newcomer's is one too low. */
  lemma {:induction false} PeerCountRightIffObserved(events: seq<Event>, action: string, e: Entity)
    requires PeerSignal(LearnAll(EMPTY, events), action, e).Some?
    ensures PeerSignal(LearnAll(EMPTY, events), action, e).value.otherPeers == |OtherMembers(History(events), e)|
       <==> e in Members(History(events), e.kind)
  {
    PeerInputs(events, action, e);
    WithoutOne(Members(History(events), e.kind), e);
  }
}
