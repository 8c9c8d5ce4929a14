/** `QueueDrainer` of src/autosiem/listeners.py with its producers in src/autosiem/cli.py, as a state
    machine whose steps happen under the lock, one at a time. Times are whole milliseconds. */
module Drainer {
  import opened Common

  datatype Config = Config(maxBatch: nat, maxWait: int, retryInitial: int, retryMax: int)

  /** Where the drainer thread is. `Finishing` lies between the drain's last look at the queue and
      the thread's next step. */
  datatype Place =
    | Checking
    | Waiting(until: Option<int>)
    | Draining(closing: bool)
    | Finishing(closing: bool)
    | Stopped

  /** What the drainer keeps under its lock, and the retry state of its loop. */
  datatype Fields = Fields(arrived: nat, firstAt: int, closed: bool, retryAt: Option<int>, delay: int)

  /** The fields, the thread, and the lines: all ever admitted to the queue, those of them that are
      neither saved nor set aside, and those the drainer has been told of. */
  datatype State = State(
    fields: Fields,
    place: Place,
    known: set<nat>,
    pending: set<nat>,
    told: set<nat>)

  datatype Event =
    | Admit(lines: set<nat>)
    | Notify(lines: set<nat>, now: int)
    | Close
    | Wake
    | Check(now: int)
    | Settle(lines: set<nat>)
    | LastLook
    | Succeed
    | Fail(now: int)

  function Fresh(config: Config): Fields {
    Fields(0, 0, false, None, config.retryInitial)
  }

  function Start(config: Config, waiting: set<nat>): State {
    State(Fresh(config), Checking, waiting, waiting, {})
  }

  // ----- what happens to the fields -----

  function Notified(f: Fields, count: nat, now: int): Fields {
    f.(arrived := f.arrived + count, firstAt := if f.arrived == 0 then now else f.firstAt)
  }

  /** The first line of a batch wakes the thread, and so does the one that fills it. */
  predicate Wakes(config: Config, f: Fields, count: nat) {
    f.arrived == 0 || f.arrived + count >= config.maxBatch
  }

  datatype Choice = Go | SleepUntil(time: int) | Sleep

  /** One turn of the loop in `_wait_for_work`. */
  function Choose(config: Config, f: Fields, now: int): Choice {
    if f.closed then Go
    else if f.retryAt.Some? then if now >= f.retryAt.value then Go else SleepUntil(f.retryAt.value)
    else if f.arrived == 0 then Sleep
    else if f.arrived >= config.maxBatch || now >= f.firstAt + config.maxWait then Go
    else SleepUntil(f.firstAt + config.maxWait)
  }

  function Succeeded(config: Config, f: Fields): Fields {
    f.(retryAt := None, delay := config.retryInitial)
  }

  function Failed(config: Config, f: Fields, now: int): Fields {
    f.(retryAt := Some(now + f.delay), delay := Min(f.delay * 2, config.retryMax))
  }

  // ----- one step -----

  function Woken(place: Place): Place {
    if place.Waiting? then Checking else place
  }

  /** Producers commit lines to the queue first and tell the drainer afterwards. */
  function Told(config: Config, s: State, lines: set<nat>, now: int): State {
    if lines == {} then s
    else
      s.(fields := Notified(s.fields, |lines|, now), told := s.told + lines,
        place := if Wakes(config, s.fields, |lines|) then Woken(s.place) else s.place)
  }

  function Checked(config: Config, s: State, now: int): State {
    match Choose(config, s.fields, now)
    case Go => s.(fields := s.fields.(arrived := 0), place := Draining(s.fields.closed))
    case SleepUntil(time) => s.(place := Waiting(Some(time)))
    case Sleep => s.(place := Waiting(None))
  }

  function AfterDrain(closing: bool): Place {
    if closing then Stopped else Checking
  }

  /** The state after an event; `None` where it cannot happen. */
  function Step(config: Config, s: State, event: Event): Option<State> {
    match event
    case Admit(lines) =>
      if lines !! s.known then Some(s.(known := s.known + lines, pending := s.pending + lines)) else None
    case Notify(lines, now) => if lines <= s.known then Some(Told(config, s, lines, now)) else None
    case Close => Some(s.(fields := s.fields.(closed := true), place := Woken(s.place)))
    case Wake => if s.place.Waiting? then Some(s.(place := Checking)) else None
    case Check(now) => if s.place.Checking? then Some(Checked(config, s, now)) else None
    case Settle(lines) => if s.place.Draining? then Some(s.(pending := s.pending - lines)) else None
    case LastLook =>
      // A drain returns only after it has found the queue empty.
      if s.place.Draining? && s.pending == {} then Some(s.(place := Finishing(s.place.closing))) else None
    case Succeed =>
      if s.place.Finishing? then Some(s.(fields := Succeeded(config, s.fields), place := AfterDrain(s.place.closing)))
      else None
    case Fail(now) =>
      if s.place.Draining? then Some(s.(fields := Failed(config, s.fields, now), place := AfterDrain(s.place.closing)))
      else None
  }

  // ----- every reachable state -----

  ghost predicate Run(config: Config, states: seq<State>, events: seq<Event>, waiting: set<nat>) {
    && |states| == |events| + 1 && states[0] == Start(config, waiting)
    && forall k :: 0 <= k < |events| ==> Step(config, states[k], events[k]) == Some(states[k + 1])
  }

  /** Every line told of and not yet settled will be looked at: it is counted, or a retry or the
      drain in progress covers it. */
  predicate Covered(s: State) {
    s.told * s.pending == {} || s.fields.arrived > 0 || s.fields.retryAt.Some? || s.place.Draining? || s.place.Stopped?
  }

  /** What each kind of wait is for. */
  predicate WaitsRightly(config: Config, s: State) {
    s.place.Waiting? ==>
      && !s.fields.closed
      && s.place.until == (
        if s.fields.retryAt.Some? then s.fields.retryAt
        else if s.fields.arrived == 0 then None
        else Some(s.fields.firstAt + config.maxWait))
      && (s.fields.retryAt.None? ==> s.fields.arrived < config.maxBatch || s.fields.arrived == 0)
  }

  predicate DelayOk(config: Config, s: State) {
    config.retryInitial <= s.fields.delay <= config.retryMax
  }

  predicate FinishedClean(s: State) {
    s.place.Finishing? && s.fields.arrived == 0 ==> s.told * s.pending == {}
  }

  predicate Inv(config: Config, s: State) {
    s.told <= s.known && Covered(s) && WaitsRightly(config, s) && FinishedClean(s)
  }

  lemma StepKeeps(config: Config, s: State, event: Event)
    requires Inv(config, s) && Step(config, s, event).Some?
    ensures Inv(config, Step(config, s, event).value)
  {
    match event
    case Notify(lines, now) => NotifyKeeps(config, s, lines, now);
    case Admit(lines) => assert s.told * (s.pending + lines) == s.told * s.pending;
    case Settle(lines) => assert s.told * (s.pending - lines) == (s.told * s.pending) - lines;
    case _ =>
  }

  lemma NotifyKeeps(config: Config, s: State, lines: set<nat>, now: int)
    requires Inv(config, s) && lines <= s.known
    ensures Inv(config, Told(config, s, lines, now))
  {
    if lines != {} {
      var line :| line in lines;
      assert |lines| >= 1 by { assert lines == {line} + (lines - {line}); }
    }
  }

  lemma {:induction false} EveryState(config: Config, states: seq<State>, events: seq<Event>, waiting: set<nat>, k: nat)
    requires Run(config, states, events, waiting) && k < |states|
    ensures Inv(config, states[k])
  {
    if k > 0 {
      EveryState(config, states, events, waiting, k - 1);
      assert Step(config, states[k - 1], events[k - 1]) == Some(states[(k - 1) + 1]);
      StepKeeps(config, states[k - 1], events[k - 1]);
    }
  }

  /** The drainer never strands a line: whenever its thread waits without a time limit, every line it
      was told of has been saved or set aside, and it is not closed. */
  lemma NeverStrands(config: Config, states: seq<State>, events: seq<Event>, waiting: set<nat>, k: nat)
    requires Run(config, states, events, waiting) && k < |states| && states[k].place == Waiting(None)
    ensures states[k].told * states[k].pending == {} && !states[k].fields.closed && states[k].fields.retryAt == None
  {
    EveryState(config, states, events, waiting, k);
  }

  /** A timed wait ends at the retry time, or when the oldest unlooked-at line has waited long enough;
      and while it lasts the batch is not full. */
  lemma TimedWaitsAreBounded(config: Config, states: seq<State>, events: seq<Event>, waiting: set<nat>, k: nat)
    requires Run(config, states, events, waiting) && k < |states| && states[k].place.Waiting?
      && states[k].place.until.Some?
    ensures var s := states[k];
      if s.fields.retryAt.Some? then s.place.until == s.fields.retryAt
      else
        && 0 < s.fields.arrived < config.maxBatch
        && s.place.until == Some(s.fields.firstAt + config.maxWait)
  {
    EveryState(config, states, events, waiting, k);
  }

  lemma DelayStep(config: Config, s: State, event: Event)
    requires 0 <= config.retryInitial <= config.retryMax && DelayOk(config, s) && Step(config, s, event).Some?
    ensures DelayOk(config, Step(config, s, event).value)
  {
  }

  /** The retry delay stays between its initial and its maximum value. */
  lemma {:induction false} DelayStaysInBounds(config: Config, states: seq<State>, events: seq<Event>, waiting: set<nat>,
          k: nat)
    requires 0 <= config.retryInitial <= config.retryMax
    requires Run(config, states, events, waiting) && k < |states|
    ensures DelayOk(config, states[k])
  {
    if k > 0 {
      DelayStaysInBounds(config, states, events, waiting, k - 1);
      assert Step(config, states[k - 1], events[k - 1]) == Some(states[(k - 1) + 1]);
      DelayStep(config, states[k - 1], events[k - 1]);
    }
  }

  /** The exact condition: the bounds hold in every state if and only if the initial delay is not above
      the maximum. */
  lemma DelayBoundsIff(config: Config, waiting: set<nat>)
    requires config.retryInitial >= 0
    ensures (forall states, events, k :: Run(config, states, events, waiting) && 0 <= k < |states| ==>
      DelayOk(config, states[k]))
       <==> config.retryInitial <= config.retryMax
  {
    if config.retryInitial <= config.retryMax {
      forall states, events, k | Run(config, states, events, waiting) && 0 <= k < |states|
        ensures DelayOk(config, states[k])
      {
        DelayStaysInBounds(config, states, events, waiting, k);
      }
    } else {
      assert Run(config, [Start(config, waiting)], [], waiting);
      assert !DelayOk(config, [Start(config, waiting)][0]);
    }
  }

  // ----- the drainer -----

  const MAX_BATCH_WAIT: int := 3_600_000

  /** Batches hold at least one line, and no line waits longer than an hour for others. */
  function Clamped(maxBatch: int, maxWait: int, retryInitial: int, retryMax: int): (c: Config)
    ensures c.maxBatch >= 1 && 0 <= c.maxWait <= MAX_BATCH_WAIT
  {
    Config(Max(1, maxBatch), if maxWait > 0 then Min(maxWait, MAX_BATCH_WAIT) else 0, retryInitial, retryMax)
  }

  class QueueDrainer {
    const config: Config
    var arrived: nat
    var firstAt: int
    var closed: bool
    var retryAt: Option<int>
    var delay: int

    constructor (maxBatch: int, maxWait: int, retryInitial: int, retryMax: int)
      ensures config == Clamped(maxBatch, maxWait, retryInitial, retryMax)
      ensures Now() == Fresh(config)
    {
      config := Clamped(maxBatch, maxWait, retryInitial, retryMax);
      arrived, firstAt, closed, retryAt, delay := 0, 0, false, None, retryInitial;
    }

    function Now(): Fields
      reads this
    {
      Fields(arrived, firstAt, closed, retryAt, delay)
    }

    /** Returns whether the thread is woken. */
    method Notify(count: nat, now: int) returns (wakes: bool)
      modifies this
      ensures Now() == Notified(old(Now()), count, now) && wakes == Wakes(config, old(Now()), count)
    {
      var first := arrived == 0;
      if first { firstAt := now; }
      arrived := arrived + count;
      wakes := first || arrived >= config.maxBatch;
    }

    method Close()
      modifies this
      ensures Now() == old(Now()).(closed := true)
    {
      closed := true;
    }

    method WaitForWork(now: int) returns (choice: Choice)
      ensures choice == Choose(config, Now(), now)
    {
      if closed { return Go; }
      if retryAt.Some? {
        if now >= retryAt.value { return Go; }
        return SleepUntil(retryAt.value);
      }
      if arrived == 0 { return Sleep; }
      if arrived >= config.maxBatch || now >= firstAt + config.maxWait { return Go; }
      return SleepUntil(firstAt + config.maxWait);
    }

    /** Before a drain the count starts again, and the thread remembers whether it is the last one. */
    method Begin() returns (closing: bool)
      modifies this
      ensures closing == old(closed) && Now() == old(Now()).(arrived := 0)
    {
      closing := closed;
      arrived := 0;
    }

    method End(failed: bool, now: int)
      modifies this
      ensures Now() == if failed then Failed(config, old(Now()), now) else Succeeded(config, old(Now()))
    {
      if failed {
        retryAt := Some(now + delay);
        delay := Min(delay * 2, config.retryMax);
      } else {
        retryAt := None;
        delay := config.retryInitial;
      }
    }
  }
}
