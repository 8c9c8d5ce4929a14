/** `BatchingHandler` of src/autosiem/listeners.py with a batch size above one, as a state machine whose
    steps happen under the lock, one at a time. Times are whole milliseconds. */
module Batcher {
  import opened Common

  datatype Place = AtIdle | WaitingIdle | AtFill | WaitingFill(until: int) | Processing | Stopped

  /** `arrived` is every event ever given to the handler, `handed` every batch given to `process`. */
  datatype State = State(
    buffer: seq<nat>,
    firstAt: int,
    closed: bool,
    place: Place,
    arrived: seq<nat>,
    handed: seq<seq<nat>>)

  datatype Event =
    | Arrive(item: nat, now: int)
    | Close
    | Wake
    | Look(now: int)
    | Finish

  const START := State([], 0, false, AtIdle, [], [])

  predicate Asleep(place: Place) {
    place.WaitingIdle? || place.WaitingFill?
  }

  /** Where a woken thread goes on. */
  function Awake(place: Place): Place {
    if place.WaitingIdle? then AtIdle else if place.WaitingFill? then AtFill else place
  }

  function Arrived(maxBatch: nat, s: State, item: nat, now: int): State {
    var first, buffer := s.buffer == [], s.buffer + [item];
    s.(buffer := buffer, firstAt := if first then now else s.firstAt, arrived := s.arrived + [item],
      place := if first || |buffer| >= maxBatch then Awake(s.place) else s.place)
  }

  function Taken(maxBatch: nat, s: State, now: int): State {
    var n := if |s.buffer| < maxBatch then |s.buffer| else maxBatch;
    s.(buffer := s.buffer[n..], firstAt := if n < |s.buffer| then now else s.firstAt,
      handed := s.handed + [s.buffer[..n]], place := Processing)
  }

  function Step(maxBatch: nat, maxWait: int, s: State, event: Event): Option<State> {
    match event
    case Arrive(item, now) => Some(Arrived(maxBatch, s, item, now))
    case Close => Some(s.(closed := true, place := Awake(s.place)))
    case Wake => if Asleep(s.place) then Some(s.(place := Awake(s.place))) else None
    case Look(now) =>
      if s.place.AtIdle? then
        Some(s.(place := if s.buffer != [] then AtFill else if s.closed then Stopped else WaitingIdle))
      else if s.place.AtFill? then
        if |s.buffer| < maxBatch && !s.closed && s.firstAt + maxWait > now then
          Some(s.(place := WaitingFill(s.firstAt + maxWait)))
        else Some(Taken(maxBatch, s, now))
      else None
    case Finish => if s.place.Processing? then Some(s.(place := AtIdle)) else None
  }

  ghost predicate Run(maxBatch: nat, maxWait: int, states: seq<State>, events: seq<Event>) {
    && |states| == |events| + 1 && states[0] == START
    && forall k :: 0 <= k < |events| ==> Step(maxBatch, maxWait, states[k], events[k]) == Some(states[k + 1])
  }

  /** Nothing is lost, repeated or reordered. */
  ghost predicate Conserves(s: State) {
    Flatten(s.handed) + s.buffer == s.arrived
  }

  ghost predicate BatchesFit(maxBatch: nat, s: State) {
    forall k :: 0 <= k < |s.handed| ==> 0 < |s.handed[k]| <= maxBatch
  }

  ghost predicate WaitsRightly(maxBatch: nat, maxWait: int, s: State) {
    && (s.place.WaitingIdle? ==> s.buffer == [] && !s.closed)
    && (s.place.WaitingFill? ==> 0 < |s.buffer| < maxBatch && !s.closed && s.place.until == s.firstAt + maxWait)
    && (s.place.AtFill? ==> s.buffer != [])
  }

  ghost predicate Inv(maxBatch: nat, maxWait: int, s: State) {
    Conserves(s) && BatchesFit(maxBatch, s) && WaitsRightly(maxBatch, maxWait, s)
  }

  lemma TakenKeeps(maxBatch: nat, maxWait: int, s: State, now: int)
    requires Inv(maxBatch, maxWait, s) && s.place.AtFill? && maxBatch > 0
    ensures Inv(maxBatch, maxWait, Taken(maxBatch, s, now))
  {
    var n := if |s.buffer| < maxBatch then |s.buffer| else maxBatch;
    FlattenAppend(s.handed, [s.buffer[..n]]);
    FlattenOne(s.buffer[..n]);
    assert s.buffer[..n] + s.buffer[n..] == s.buffer;
    assert Flatten(s.handed) + s.buffer[..n] + s.buffer[n..] == Flatten(s.handed) + s.buffer;
  }

  lemma StepKeeps(maxBatch: nat, maxWait: int, s: State, event: Event)
    requires Inv(maxBatch, maxWait, s) && maxBatch > 0 && Step(maxBatch, maxWait, s, event).Some?
    ensures Inv(maxBatch, maxWait, Step(maxBatch, maxWait, s, event).value)
  {
    match event
    case Arrive(item, now) => assert Flatten(s.handed) + (s.buffer + [item]) == (Flatten(s.handed) + s.buffer) + [item];
    case Look(now) => if s.place.AtFill? { TakenKeeps(maxBatch, maxWait, s, now); }
    case _ =>
  }

  /** In every reachable state the batches handed over, then the buffer, are exactly what arrived, in
      order; batches are never empty or too large; and the thread sleeps without a limit only over an
      empty buffer. */
  lemma {:induction false} EveryState(maxBatch: nat, maxWait: int, states: seq<State>, events: seq<Event>, k: nat)
    requires maxBatch > 0 && Run(maxBatch, maxWait, states, events) && k < |states|
    ensures Inv(maxBatch, maxWait, states[k])
  {
    if k > 0 {
      EveryState(maxBatch, maxWait, states, events, k - 1);
      assert Step(maxBatch, maxWait, states[k - 1], events[k - 1]) == Some(states[(k - 1) + 1]);
      StepKeeps(maxBatch, maxWait, states[k - 1], events[k - 1]);
    }
  }

  /** When the thread stops, everything that arrived has been handed over. */
  lemma StopsEmpty(maxBatch: nat, maxWait: int, states: seq<State>, events: seq<Event>, k: nat)
    requires maxBatch > 0 && Run(maxBatch, maxWait, states, events) && k < |events|
    requires !states[k].place.Stopped? && states[k + 1].place.Stopped?
    ensures states[k + 1].closed && Flatten(states[k + 1].handed) == states[k + 1].arrived
  {
    EveryState(maxBatch, maxWait, states, events, k + 1);
    assert Step(maxBatch, maxWait, states[k], events[k]) == Some(states[k + 1]);
    assert states[k + 1].buffer == [];
  }
}
