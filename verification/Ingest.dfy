/** The durable ingest protocol of src/autosiem/distributed.py: admit lines to the queue, then
    drain it by processing, saving and acknowledging batches, where every step that leaves the
    process can fail. The outside world is an `Env` of functions of a call counter, so a result
    proved for every `Env` holds for every possible pattern of failures. */
module Ingest {
  import opened Common
  import opened Bus
  import Anomaly
  import Suppression

  const INGEST: string := "ingest"
  const BACKEND_RETRY_SECONDS: int := 60

  // ----- what the pipeline learns from each batch -----

  datatype Learned = Learned(baseline: Anomaly.Baseline, seen: Suppression.Seen)

  type Learner = l: Learned | Anomaly.WithinBounds(l.baseline) witness Learned(Anomaly.EMPTY, map[])

  datatype Snapshot = Snapshot(baseline: Anomaly.Document, seen: Suppression.Seen)

  function TakeSnapshot(l: Learner): Snapshot {
    Snapshot(Anomaly.ToDict(l.baseline), l.seen)
  }

  function Restore(s: Snapshot): Learner {
    Learned(Anomaly.FromDict(s.baseline), s.seen)
  }

  // ----- the outside world -----

  /** An outage to retry unchanged, or anything else. */
  datatype Fault = Transient | Permanent

  datatype AckFate = AckOk(compactionFailsAfter: Option<nat>) | AckFails(fault: Fault)

  /** Making a line a dead letter fails, or it succeeds and only the counting for the warning fails. */
  datatype AsideFate = Accepts | Refuses(fault: Fault) | AcceptsThenFails(fault: Fault)

  datatype BackendFate = Delivers | Unavailable | Crashes(fault: Fault)

  /** Every answer depends on how many calls went before, hence on anything at all. A failing
      processing pass leaves whatever it has learned by then (`garble`). */
  datatype Env = Env(
    process: (nat, seq<string>) -> Option<Fault>,
    learn: (nat, Learner, seq<string>) -> Learner,
    garble: nat -> Learner,
    events: (nat, seq<string>) -> seq<string>,
    persist: (nat, seq<string>) -> Option<Fault>,
    backend: nat -> BackendFate,
    ack: nat -> AckFate,
    setAside: nat -> AsideFate,
    now: nat -> int)

  datatype Config = Config(maxPending: nat, alternateBackend: bool)

  // ----- state -----

  datatype Held = Held(batch: seq<Row>, before: Snapshot, tick: nat)

  /** The history of a run, for stating what it did. */
  datatype Entry =
    | Processed(offsets: seq<nat>)
    | Saved(offsets: seq<nat>, lines: seq<string>, tick: nat)
    | AckedLine(offset: nat)
    | SetAside(offset: nat)
    | Restarted(lost: seq<nat>, learner: Learner)

  datatype State = State(
    queue: Queue,
    held: Option<Held>,
    unacked: seq<nat>,
    learner: Learner,
    backlog: seq<string>,
    dropped: nat,
    retryAt: int,
    delivered: nat,
    calls: nat,
    log: seq<Entry>)

  datatype Outcome = Done(settled: nat) | Raised(fault: Fault)

  function Offsets(batch: seq<Row>): (r: seq<nat>)
    ensures |r| == |batch| && forall i :: 0 <= i < |r| ==> r[i] == batch[i].offset
  {
    seq(|batch|, i requires 0 <= i < |batch| => batch[i].offset)
  }

  function Lines(batch: seq<Row>): (r: seq<string>)
    ensures |r| == |batch| && forall i :: 0 <= i < |r| ==> r[i] == batch[i].payload
  {
    seq(|batch|, i requires 0 <= i < |batch| => batch[i].payload)
  }

  function AckEntries(offsets: seq<nat>): (r: seq<Entry>)
    ensures |r| == |offsets| && forall i :: 0 <= i < |r| ==> r[i] == AckedLine(offsets[i])
  {
    seq(|offsets|, i requires 0 <= i < |offsets| => AckedLine(offsets[i]))
  }

  // ----- the event backend -----

  function FlushBackend(env: Env, cfg: Config, s: State): (State, Option<Fault>) {
    if !cfg.alternateBackend || s.backlog == [] || env.now(s.calls) < s.retryAt then (s, None)
    else
      var called := s.(calls := s.calls + 1);
      match env.backend(s.calls)
      case Delivers => (called.(backlog := [], delivered := s.delivered + |s.backlog|), None)
      case Unavailable => (called.(retryAt := env.now(s.calls + 1) + BACKEND_RETRY_SECONDS), None)
      case Crashes(fault) => (called, Some(fault))
  }

  function SendToBackend(env: Env, cfg: Config, s: State, events: seq<string>): (State, Option<Fault>) {
    if !cfg.alternateBackend then (s, None)
    else
      var all := s.backlog + events;
      var excess := Max(0, |all| - cfg.maxPending);
      FlushBackend(env, cfg, s.(backlog := all[excess..], dropped := s.dropped + excess))
  }

  // ----- saving and acknowledging -----

  function Acknowledge(env: Env, s: State): (State, Option<Fault>) {
    match env.ack(s.calls)
    case AckFails(fault) => (s.(calls := s.calls + 1), Some(fault))
    case AckOk(compactionFailsAfter) =>
      (s.(calls := s.calls + 1,
          queue := AckMany(s.queue, s.unacked, compactionFailsAfter),
          unacked := [],
          log := s.log + AckEntries(s.unacked)), None)
  }

  /** The state right after a successful save: nothing held, everything still to acknowledge. */
  function AfterSave(s: State, held: Held): State {
    s.(calls := s.calls + 1,
       held := None,
       unacked := Offsets(held.batch),
       log := s.log + [Saved(Offsets(held.batch), Lines(held.batch), held.tick)])
  }

  function SaveHeld(env: Env, cfg: Config, s: State): (State, Outcome)
    requires s.held.Some?
  {
    var held := s.held.value;
    match env.persist(s.calls, Lines(held.batch))
    case Some(fault) => (s.(calls := s.calls + 1), Raised(fault))
    case None =>
      var sent := SendToBackend(env, cfg, AfterSave(s, held), env.events(held.tick, Lines(held.batch)));
      if sent.1.Some? then (sent.0, Raised(sent.1.value))
      else
        var acked := Acknowledge(env, sent.0);
        if acked.1.Some? then (acked.0, Raised(acked.1.value)) else (acked.0, Done(|held.batch|))
  }

  // ----- settling a batch -----

  /** What settling leaves: the offsets blamed so far come with a normal return only. */
  datatype Settled = Settled(state: State, outcome: Outcome, suspects: seq<nat>)

  /** A processing pass: on failure the learned state is put back before the error goes on. */
  function Process(env: Env, s: State, batch: seq<Row>): (State, Option<Fault>) {
    var before := TakeSnapshot(s.learner);
    var called := s.(calls := s.calls + 1, log := s.log + [Processed(Offsets(batch))]);
    match env.process(s.calls, Lines(batch))
    case Some(fault) =>
      var garbled := called.(learner := env.garble(s.calls));
      (garbled.(learner := Restore(before)), Some(fault))
    case None =>
      (called.(learner := env.learn(s.calls, s.learner, Lines(batch)),
               held := Some(Held(batch, before, s.calls))), None)
  }

  function Settle(env: Env, cfg: Config, s: State, batch: seq<Row>): Settled
    requires batch != []
    decreases |batch|, 1
  {
    var before := TakeSnapshot(s.learner);
    var processed := Process(env, s, batch);
    if processed.1.Some? then
      Blame(env, cfg, processed.0, before, processed.1.value, batch)
    else
      var saved := SaveHeld(env, cfg, processed.0);
      match saved.1
      case Done(n) => Settled(saved.0, Done(n), [])
      case Raised(fault) => Blame(env, cfg, saved.0, before, fault, batch)
  }

  /** The handler around processing and saving: an outage, or a failure after the save, goes on;
      otherwise the batch is undone and split around whatever fails in it. */
  function Blame(env: Env, cfg: Config, s: State, before: Snapshot, fault: Fault, batch: seq<Row>): Settled
    requires batch != []
    decreases |batch|, 0
  {
    if fault == Transient || s.unacked != [] then Settled(s, Raised(fault), [])
    else
      var undone := if s.held.Some? then s.(held := None, learner := Restore(before)) else s;
      if |batch| == 1 then Settled(undone, Done(0), [batch[0].offset])
      else
        var middle := |batch| / 2;
        var left := Settle(env, cfg, undone, batch[..middle]);
        if left.outcome.Raised? then left
        else
          var right := Settle(env, cfg, left.state, batch[middle..]);
          if right.outcome.Raised? then right
          else
            Settled(right.state, Done(left.outcome.settled + right.outcome.settled), left.suspects + right.suspects)
  }

  /** The state after one line has been made a dead letter. */
  function AfterAside(s: State, offset: nat): State {
    s.(calls := s.calls + 1,
       queue := s.queue.(rows := Mark(s.queue.rows, [offset], DeadLetter)),
       log := s.log + [SetAside(offset)])
  }

  function SetAsideAll(env: Env, s: State, suspects: seq<nat>): (State, Option<Fault>)
    decreases |suspects|
  {
    if suspects == [] then (s, None)
    else
      match env.setAside(s.calls)
      case Refuses(fault) => (s.(calls := s.calls + 1), Some(fault))
      case AcceptsThenFails(fault) => (AfterAside(s, suspects[0]), Some(fault))
      case Accepts => SetAsideAll(env, AfterAside(s, suspects[0]), suspects[1..])
  }

  function SettleBatch(env: Env, cfg: Config, s: State, batch: seq<Row>): (State, Outcome)
    requires batch != []
  {
    var settled := Settle(env, cfg, s, batch);
    if settled.outcome.Raised? then (settled.state, settled.outcome)
    else if settled.suspects != [] && settled.outcome.settled == 0 then (settled.state, Raised(Permanent))
    else
      var aside := SetAsideAll(env, settled.state, settled.suspects);
      (aside.0, if aside.1.Some? then Raised(aside.1.value) else settled.outcome)
  }

  // ----- draining -----

  /** One turn of the drain loop: it goes on, finds nothing left, or raises. */
  datatype Turn = Continues(settled: nat) | Finished | Stops(fault: Fault)

  function TurnOf(outcome: Outcome): Turn {
    match outcome
    case Done(n) => Continues(n)
    case Raised(fault) => Stops(fault)
  }

  function OnTopic(batch: seq<Row>, ingest: bool): seq<Row> {
    if batch == [] then []
    else if (batch[0].topic == INGEST) == ingest then [batch[0]] + OnTopic(batch[1..], ingest)
    else OnTopic(batch[1..], ingest)
  }

  /** Retries a held batch; a save that now fails for good is traced to its line. */
  function RetryHeld(env: Env, cfg: Config, s: State): (State, Outcome)
    requires s.held.Some? && s.held.value.batch != []
  {
    var held := s.held.value;
    var saved := SaveHeld(env, cfg, s);
    match saved.1
    case Done(n) => saved
    case Raised(fault) =>
      if fault == Transient || saved.0.unacked != [] then saved
      else SettleBatch(env, cfg, saved.0.(held := None, learner := Restore(held.before)), held.batch)
  }

  function PullAndSettle(env: Env, cfg: Config, s: State, batchSize: nat): (State, Turn) {
    var pulled := Pull(s.queue.rows, batchSize);
    if pulled == [] then (s, Finished)
    else
      var other, batch := OnTopic(pulled, false), OnTopic(pulled, true);
      if other == [] then SettleLines(env, cfg, s, batch)
      else
        var called := s.(calls := s.calls + 1);
        match env.ack(s.calls)
        case AckFails(fault) => (called, Stops(fault))
        case AckOk(compactionFailsAfter) =>
          SettleLines(env, cfg, called.(queue := AckMany(s.queue, Offsets(other), compactionFailsAfter)), batch)
  }

  /** What is left of a pull once other messages are acknowledged. */
  function SettleLines(env: Env, cfg: Config, s: State, batch: seq<Row>): (State, Turn) {
    if batch == [] then (s, Continues(0))
    else
      var settled := SettleBatch(env, cfg, s, batch);
      (settled.0, TurnOf(settled.1))
  }

  function DrainTurn(env: Env, cfg: Config, s: State, batchSize: nat): (State, Turn)
    requires s.held.Some? ==> s.held.value.batch != []
  {
    var acked := if s.unacked != [] then Acknowledge(env, s) else (s, None);
    if acked.1.Some? then (acked.0, Stops(acked.1.value))
    else if acked.0.held.Some? then
      var retried := RetryHeld(env, cfg, acked.0);
      (retried.0, TurnOf(retried.1))
    else
      PullAndSettle(env, cfg, acked.0, batchSize)
  }

  // ----- admitting -----

  function Admit(cfg: Config, s: State, lines: seq<string>): State {
    s.(queue := PushMany(s.queue, INGEST, lines, Some(cfg.maxPending)))
  }
}
