/** The behavioural baseline of src/autosiem/anomaly.py: counters and sliding windows folded
    over the event stream, their serialised form, and the peer comparison that reads them. */
module Anomaly {
  import opened Common
  import opened Schemas
  import Decimal

  const MAX_TRACKED_TIMES: nat := 256
  const MIN_PEER_GROUP_SIZE: nat := 5
  const POINTS_PEER_RARE_MAX: nat := 20
  /** PEER_RARE_MAX_FRACTION is 0.20, that is one in five. */
  const PEER_RARE_ONE_IN: nat := 5

  type Counter<T> = map<T, nat>

  function At<T>(c: Counter<T>, k: T): nat {
    if k in c then c[k] else 0
  }

  function Bump<T>(c: Counter<T>, k: T): Counter<T> {
    c[k := At(c, k) + 1]
  }

  function CounterOf<K, T>(m: map<K, Counter<T>>, k: K): Counter<T> {
    if k in m then m[k] else map[]
  }

  function TimesOf(m: map<Entity, seq<int>>, e: Entity): seq<int> {
    if e in m then m[e] else []
  }

  /** The last `n` elements: what a deque with that maximum length retains. */
  function Last<T>(s: seq<T>, n: nat): seq<T> {
    if |s| <= n then s else s[|s| - n..]
  }

  datatype Baseline = Baseline(
    actions: map<Entity, Counter<string>>,
    srcIps: map<string, Counter<string>>,
    hosts: map<string, Counter<string>>,
    hours: map<Entity, Counter<nat>>,
    observations: Counter<Entity>,
    actionTotals: Counter<string>,
    peers: map<Kind, Counter<string>>,
    total: nat,
    recent: map<Entity, seq<int>>)

  const EMPTY := Baseline(map[], map[], map[], map[], map[], map[], map[], 0, map[])

  // ----- learning -----

  function LearnEntity(s: Baseline, event: Event, e: Entity): Baseline {
    var seen := CounterOf(s.actions, e);
    var s1 :=
      if At(seen, event.action) == 0 then
        s.(peers := s.peers[e.kind := Bump(CounterOf(s.peers, e.kind), event.action)])
      else s;
    s1.(actions := s1.actions[e := Bump(seen, event.action)],
        hours := s1.hours[e := Bump(CounterOf(s1.hours, e), event.hour)],
        observations := Bump(s1.observations, e),
        recent := s1.recent[e := Last(TimesOf(s1.recent, e) + [event.timestamp], MAX_TRACKED_TIMES)])
  }

  function LearnEntities(s: Baseline, event: Event, entities: seq<Entity>): Baseline {
    if entities == [] then s
    else LearnEntity(LearnEntities(s, event, entities[..|entities| - 1]), event, entities[|entities| - 1])
  }

  function Present(name: Option<string>): bool {
    name.Some? && name.value != ""
  }

  /** A counter per user of what else the event names, if it names both. */
  function BumpedFor(m: map<string, Counter<string>>, user: Option<string>,
          name: Option<string>): map<string, Counter<string>>
  {
    if Present(user) && Present(name) then m[user.value := Bump(CounterOf(m, user.value), name.value)] else m
  }

  function LearnTotals(s: Baseline, event: Event): Baseline {
    s.(srcIps := BumpedFor(s.srcIps, event.user, event.srcIp),
       hosts := BumpedFor(s.hosts, event.user, event.host),
       actionTotals := Bump(s.actionTotals, event.action),
       total := s.total + 1)
  }

  function Learn(s: Baseline, event: Event): Baseline {
    LearnTotals(LearnEntities(s, event, EntityKeys(event)), event)
  }

  function LearnAll(s: Baseline, events: seq<Event>): Baseline {
    if events == [] then s else Learn(LearnAll(s, events[..|events| - 1]), events[|events| - 1])
  }

  // ----- serialising -----

  /** An ISO-8601 rendering; only that it identifies the instant matters here. */
  datatype IsoTime = IsoTime(seconds: int)

  datatype Document = Document(
    actions: map<Entity, Counter<string>>,
    srcIps: map<string, Counter<string>>,
    hosts: map<string, Counter<string>>,
    hours: map<Entity, Counter<string>>,
    observations: Counter<Entity>,
    actionTotals: Counter<string>,
    peers: map<Kind, Counter<string>>,
    total: nat,
    recent: map<Entity, seq<IsoTime>>)

  /** Hours are written as JSON object keys, that is as strings. */
  function HoursOut(hours: Counter<nat>): Counter<string> {
    Decimal.ShowIsInjective();
    map h | h in hours :: Decimal.Show(h) := hours[h]
  }

  /** The numbers whose decimal text is a key. */
  function HourKeys(hours: Counter<string>): set<nat> {
    set s | s in hours && Decimal.AllDigits(s) && Decimal.Show(Decimal.Read(s)) == s :: Decimal.Read(s)
  }

  function HoursIn(hours: Counter<string>): Counter<nat> {
    map n | n in HourKeys(hours) :: hours[Decimal.Show(n)]
  }

  function TimesOut(times: seq<int>): (r: seq<IsoTime>)
    ensures |r| == |times|
  {
    seq(|times|, i requires 0 <= i < |times| => IsoTime(times[i]))
  }

  function TimesIn(times: seq<IsoTime>): seq<int> {
    seq(|times|, i requires 0 <= i < |times| => times[i].seconds)
  }

  function ToDict(s: Baseline): Document {
    Document(s.actions, s.srcIps, s.hosts,
      map e | e in s.hours :: HoursOut(s.hours[e]),
      s.observations, s.actionTotals, s.peers, s.total,
      map e | e in s.recent :: TimesOut(s.recent[e]))
  }

  function FromDict(d: Document): Baseline {
    Baseline(d.actions, d.srcIps, d.hosts,
      map e | e in d.hours :: HoursIn(d.hours[e]),
      d.observations, d.actionTotals, d.peers, d.total,
      map e | e in d.recent :: Last(TimesIn(d.recent[e]), MAX_TRACKED_TIMES))
  }

  /** What every learned baseline satisfies: no window is longer than its bound. */
  ghost predicate WithinBounds(s: Baseline) {
    forall e :: e in s.recent ==> |s.recent[e]| <= MAX_TRACKED_TIMES
  }

  lemma HourKeysOut(hours: Counter<nat>)
    ensures HourKeys(HoursOut(hours)) == hours.Keys
  {
    var text := HoursOut(hours);
    forall h | h in hours ensures h in HourKeys(text) {
      Decimal.ReadShow(h);
      assert Decimal.Show(h) in text;
    }
    forall h | h in HourKeys(text) ensures h in hours {
      var s :| s in text && Decimal.AllDigits(s) && Decimal.Read(s) == h;
      var g :| g in hours && Decimal.Show(g) == s;
      Decimal.ReadShow(g);
    }
  }

  lemma HoursRoundTrip(hours: Counter<nat>)
    ensures HoursIn(HoursOut(hours)) == hours
  {
    HourKeysOut(hours);
    forall h | h in hours ensures HoursOut(hours)[Decimal.Show(h)] == hours[h] {
      assert Decimal.Show(h) in HoursOut(hours);
    }
  }

  lemma AllHoursRoundTrip(s: Baseline)
    ensures FromDict(ToDict(s)).hours == s.hours
  {
    var back := FromDict(ToDict(s)).hours;
    assert back.Keys == s.hours.Keys;
    forall e | e in s.hours ensures back[e] == s.hours[e] {
      HoursRoundTrip(s.hours[e]);
    }
  }

  lemma AllTimesRoundTrip(s: Baseline)
    requires WithinBounds(s)
    ensures FromDict(ToDict(s)).recent == s.recent
  {
    var back := FromDict(ToDict(s)).recent;
    assert back.Keys == s.recent.Keys;
    forall e | e in s.recent ensures back[e] == s.recent[e] {
      assert TimesIn(TimesOut(s.recent[e])) == s.recent[e];
    }
  }

  /** Restoring a snapshot gives back exactly the state it was taken of. */
  lemma SnapshotRoundTrip(s: Baseline)
    requires WithinBounds(s)
    ensures FromDict(ToDict(s)) == s
  {
    AllHoursRoundTrip(s);
    AllTimesRoundTrip(s);
  }

  /** The bound is exactly what the round trip needs: a longer window would be cut when restored. */
  lemma SnapshotRoundTripIff(s: Baseline)
    ensures FromDict(ToDict(s)) == s <==> WithinBounds(s)
  {
    if FromDict(ToDict(s)) == s {
      forall e | e in s.recent ensures |s.recent[e]| <= MAX_TRACKED_TIMES {
        assert FromDict(ToDict(s)).recent[e] == s.recent[e];
      }
    } else if WithinBounds(s) {
      SnapshotRoundTrip(s);
    }
  }

  lemma {:induction false} LearnEntitiesBounds(s: Baseline, event: Event, entities: seq<Entity>)
    requires WithinBounds(s)
    ensures WithinBounds(LearnEntities(s, event, entities))
  {
    if entities != [] { LearnEntitiesBounds(s, event, entities[..|entities| - 1]); }
  }

  lemma {:induction false} LearnAllBounds(s: Baseline, events: seq<Event>)
    requires WithinBounds(s)
    ensures WithinBounds(LearnAll(s, events))
  {
    if events != [] {
      var init, event := events[..|events| - 1], events[|events| - 1];
      LearnAllBounds(s, init);
      LearnEntitiesBounds(LearnAll(s, init), event, EntityKeys(event));
    }
  }
}
