/** The pipeline object of src/autosiem/distributed.py. Its fields change in place; each method
    is proved to do to them exactly what the protocol's specification says. An exception is an
    `Outcome` or a fault returned. */
module Distributed {
  import opened Common
  import opened Bus
  import opened Ingest
  import opened IngestSafety
  import opened IngestRuns
  import Durable

  class DistributedPipeline {
    const env: Env
    const cfg: Config
    const queue: Durable.DurableQueue
    ghost const start: Learner

    var held: Option<Held>
    var unacked: seq<nat>
    var learner: Learner
    var backlog: seq<string>
    var dropped: nat
    var retryAt: int
    var calls: nat
    ghost var delivered: nat
    ghost var log: seq<Entry>

    ghost function Abstract(): State
      reads this, queue
    {
      State(queue.State(), held, unacked, learner, backlog, dropped, retryAt, delivered, calls, log)
    }

    constructor (env: Env, cfg: Config, queue: Durable.DurableQueue, learner: Learner)
      ensures this.env == env && this.cfg == cfg && this.queue == queue && start == learner
      ensures Abstract() == Initial(learner).(queue := queue.State())
    {
      this.env, this.cfg, this.queue, this.learner, start := env, cfg, queue, learner, learner;
      held, unacked, backlog, dropped, retryAt, calls := None, [], [], 0, 0, 0;
      delivered, log := 0, [];
    }

    /** Makes lines durable; returns how many the queue had room for. */
    method Admit(lines: seq<string>) returns (accepted: nat)
      modifies queue
      ensures Abstract() == Ingest.Admit(cfg, old(Abstract()), lines)
      ensures accepted == Room(old(queue.State()), |lines|, Some(cfg.maxPending))
    {
      var offsets := queue.PushMany(INGEST, lines, Some(cfg.maxPending));
      accepted := |offsets|;
    }

    method FlushBackend() returns (fault: Option<Fault>)
      modifies this
      ensures (Abstract(), fault) == Ingest.FlushBackend(env, cfg, old(Abstract()))
    {
      if !cfg.alternateBackend || backlog == [] || env.now(calls) < retryAt {
        return None;
      }
      var fate := env.backend(calls);
      calls := calls + 1;
      match fate
      case Delivers =>
        delivered := delivered + |backlog|;
        backlog := [];
        fault := None;
      case Unavailable =>
        retryAt := env.now(calls) + BACKEND_RETRY_SECONDS;
        fault := None;
      case Crashes(f) =>
        fault := Some(f);
    }

    method SendToBackend(events: seq<string>) returns (fault: Option<Fault>)
      modifies this
      ensures (Abstract(), fault) == Ingest.SendToBackend(env, cfg, old(Abstract()), events)
    {
      if !cfg.alternateBackend {
        return None;
      }
      backlog := backlog + events;
      var excess := Max(0, |backlog| - cfg.maxPending);
      backlog := backlog[excess..];
      dropped := dropped + excess;
      fault := FlushBackend();
    }

    method Acknowledge() returns (fault: Option<Fault>)
      modifies this, queue
      ensures (Abstract(), fault) == Ingest.Acknowledge(env, old(Abstract()))
    {
      var fate := env.ack(calls);
      calls := calls + 1;
      match fate
      case AckFails(f) => fault := Some(f);
      case AckOk(failsAfter) =>
        queue.AckMany(unacked, failsAfter);
        log := log + AckEntries(unacked);
        unacked := [];
        fault := None;
    }

    method SaveHeld() returns (outcome: Outcome)
      requires held.Some?
      modifies this, queue
      ensures (Abstract(), outcome) == Ingest.SaveHeld(env, cfg, old(Abstract()))
    {
      var h := held.value;
      var saved := env.persist(calls, Lines(h.batch));
      calls := calls + 1;
      if saved.Some? {
        return Raised(saved.value);
      }
      held := None;
      unacked := Offsets(h.batch);
      log := log + [Saved(Offsets(h.batch), Lines(h.batch), h.tick)];
      assert Abstract() == AfterSave(old(Abstract()), h);
      var fault := SendToBackend(env.events(h.tick, Lines(h.batch)));
      if fault.Some? {
        return Raised(fault.value);
      }
      fault := Acknowledge();
      outcome := if fault.Some? then Raised(fault.value) else Done(|h.batch|);
    }

    method Process(batch: seq<Row>) returns (fault: Option<Fault>)
      modifies this
      ensures (Abstract(), fault) == Ingest.Process(env, old(Abstract()), batch)
    {
      var before := TakeSnapshot(learner);
      var tick := calls;
      calls := calls + 1;
      log := log + [Processed(Offsets(batch))];
      fault := env.process(tick, Lines(batch));
      if fault.Some? {
        learner := env.garble(tick);
        learner := Restore(before);
      } else {
        learner := env.learn(tick, learner, Lines(batch));
        held := Some(Held(batch, before, tick));
      }
    }

    /** Processes and saves one batch, bisecting it around lines that fail. */
    method Settle(batch: seq<Row>) returns (outcome: Outcome, suspects: seq<nat>)
      requires batch != []
      modifies this, queue
      ensures Settled(Abstract(), outcome, suspects) == Ingest.Settle(env, cfg, old(Abstract()), batch)
      decreases |batch|, 2
    {
      var before := TakeSnapshot(learner);
      var fault := Process(batch);
      if fault.None? {
        outcome := SaveHeld();
        if outcome.Done? {
          return outcome, [];
        }
        fault := Some(outcome.fault);
      }
      outcome, suspects := Blame(before, fault.value, batch);
    }

    /** The exception handler of `Settle`. */
    method Blame(before: Snapshot, fault: Fault, batch: seq<Row>) returns (outcome: Outcome, suspects: seq<nat>)
      requires batch != []
      modifies this, queue
      ensures Settled(Abstract(), outcome, suspects) == Ingest.Blame(env, cfg, old(Abstract()), before, fault, batch)
      decreases |batch|, 1
    {
      if fault == Transient || unacked != [] {
        return Raised(fault), [];
      }
      if held.Some? {
        held := None;
        learner := Restore(before);
      }
      if |batch| == 1 {
        return Done(0), [batch[0].offset];
      }
      BlameSplits(env, cfg, old(Abstract()), before, fault, batch);
      outcome, suspects := SettleHalves(batch);
    }

    method SettleHalves(batch: seq<Row>) returns (outcome: Outcome, suspects: seq<nat>)
      requires |batch| > 1
      modifies this, queue
      ensures Settled(Abstract(), outcome, suspects) == Halves(env, cfg, old(Abstract()), batch)
      decreases |batch|, 0
    {
      var middle := |batch| / 2;
      outcome, suspects := Settle(batch[..middle]);
      if outcome.Done? {
        var rest, more := Settle(batch[middle..]);
        outcome, suspects := if rest.Raised? then rest else Done(outcome.settled + rest.settled),
                             if rest.Raised? then more else suspects + more;
      }
    }

    method SetAsideAll(suspects: seq<nat>) returns (fault: Option<Fault>)
      modifies this, queue
      ensures (Abstract(), fault) == Ingest.SetAsideAll(env, old(Abstract()), suspects)
    {
      var i := 0;
      while i < |suspects|
        invariant 0 <= i <= |suspects|
        invariant Ingest.SetAsideAll(env, old(Abstract()), suspects)
          == Ingest.SetAsideAll(env, Abstract(), suspects[i..])
      {
        assert suspects[i..][0] == suspects[i] && suspects[i..][1..] == suspects[i + 1..];
        var fate := env.setAside(calls);
        calls := calls + 1;
        if fate.Refuses? {
          return Some(fate.fault);
        }
        queue.SetAside(suspects[i]);
        log := log + [SetAside(suspects[i])];
        if fate.AcceptsThenFails? {
          return Some(fate.fault);
        }
        i := i + 1;
      }
      fault := None;
    }

    method SettleBatch(batch: seq<Row>) returns (outcome: Outcome)
      requires batch != []
      modifies this, queue
      ensures (Abstract(), outcome) == Ingest.SettleBatch(env, cfg, old(Abstract()), batch)
    {
      var suspects;
      outcome, suspects := Settle(batch);
      if outcome.Raised? {
        return;
      }
      if suspects != [] && outcome.settled == 0 {
        return Raised(Permanent);
      }
      var fault := SetAsideAll(suspects);
      if fault.Some? {
        outcome := Raised(fault.value);
      }
    }

    /** One turn of the drain loop. */
    method Turn(batchSize: nat) returns (turn: Turn)
      requires held.Some? ==> held.value.batch != []
      modifies this, queue
      ensures (Abstract(), turn) == DrainTurn(env, cfg, old(Abstract()), batchSize)
    {
      if unacked != [] {
        var fault := Acknowledge();
        if fault.Some? {
          return Stops(fault.value);
        }
      }
      if held.Some? {
        var outcome := RetryHeld();
        return TurnOf(outcome);
      }
      turn := PullAndSettle(batchSize);
    }

    method RetryHeld() returns (outcome: Outcome)
      requires held.Some? && held.value.batch != []
      modifies this, queue
      ensures (Abstract(), outcome) == Ingest.RetryHeld(env, cfg, old(Abstract()))
    {
      var h := held.value;
      outcome := SaveHeld();
      if outcome.Raised? && outcome.fault != Transient && unacked == [] {
        held := None;
        learner := Restore(h.before);
        outcome := SettleBatch(h.batch);
      }
    }

    method PullAndSettle(batchSize: nat) returns (turn: Turn)
      modifies this, queue
      ensures (Abstract(), turn) == Ingest.PullAndSettle(env, cfg, old(Abstract()), batchSize)
    {
      var pulled := queue.Pull(batchSize);
      if pulled == [] {
        return Finished;
      }
      var other, batch := OnTopic(pulled, false), OnTopic(pulled, true);
      if other != [] {
        var fate := env.ack(calls);
        calls := calls + 1;
        match fate
        case AckFails(f) => return Stops(f);
        case AckOk(failsAfter) => queue.AckMany(Offsets(other), failsAfter);
      }
      if batch == [] {
        return Continues(0);
      }
      var outcome := SettleBatch(batch);
      turn := TurnOf(outcome);
    }

    /** Processes pending lines until none are left. Terminates: each turn that goes on leaves
        fewer pending rows. */
    method DrainQueue(batchSize: nat) returns (outcome: Outcome)
      requires Inv(env, start, Abstract())
      modifies this, queue
      ensures (Abstract(), outcome) == Drain(env, cfg, start, old(Abstract()), batchSize)
      ensures Inv(env, start, Abstract())
      ensures outcome.Done? && batchSize > 0 ==> held.None? && unacked == [] && Count(queue.rows, Pending) == 0
    {
      FlushKeeps(env, cfg, Abstract());
      DrainKeeps(env, cfg, start, Abstract(), batchSize);
      var fault := FlushBackend();
      if fault.Some? {
        return Raised(fault.value);
      }
      outcome := Loop(batchSize, DrainLoop(env, cfg, start, Abstract(), batchSize));
    }

    method Loop(batchSize: nat, ghost result: (State, Outcome)) returns (outcome: Outcome)
      requires Leads(env, cfg, start, 0, Abstract(), batchSize, result)
      modifies this, queue
      ensures result == (Abstract(), outcome)
    {
      var settled: nat := 0;
      var turn := TurnTowards(batchSize, settled, result);
      while turn.Continues?
        invariant Ahead(env, cfg, start, settled, turn, Abstract(), batchSize, result)
        decreases if turn.Continues? then 1 + Count(queue.rows, Pending) else 0
      {
        settled := settled + turn.settled;
        turn := TurnTowards(batchSize, settled, result);
      }
      outcome := if turn.Stops? then Raised(turn.fault) else Done(settled);
    }

    /** A turn, in terms of where the loop is heading. */
    method TurnTowards(batchSize: nat, ghost settled: nat, ghost result: (State, Outcome)) returns (turn: Turn)
      requires Leads(env, cfg, start, settled, Abstract(), batchSize, result)
      modifies this, queue
      ensures Ahead(env, cfg, start, settled, turn, Abstract(), batchSize, result)
      ensures turn.Continues? ==> Count(queue.rows, Pending) < old(Count(queue.rows, Pending))
    {
      TurnLeads(env, cfg, start, settled, Abstract(), batchSize, result);
      turn := Turn(batchSize);
    }
  }

  /** What has been settled so far is counted on top of what the rest of the loop settles. */
  ghost function Plus(settled: nat, outcome: Outcome): Outcome {
    if outcome.Done? then Done(settled + outcome.settled) else outcome
  }

  /** With `settled` lines behind it, the loop at `s` ends in `result`. */
  ghost predicate Leads(env: Env, cfg: Config, start: Learner, settled: nat, s: State, batchSize: nat,
          result: (State, Outcome))
  {
    && Inv(env, start, s)
    && DrainLoop(env, cfg, start, s, batchSize).0 == result.0
    && Plus(settled, DrainLoop(env, cfg, start, s, batchSize).1) == result.1
  }

  /** Where the loop is after a turn. */
  ghost predicate Ahead(env: Env, cfg: Config, start: Learner, settled: nat, turn: Turn, s: State, batchSize: nat,
          result: (State, Outcome))
  {
    match turn
    case Finished => result == (s, Done(settled))
    case Stops(fault) => result == (s, Raised(fault))
    case Continues(n) => Leads(env, cfg, start, settled + n, s, batchSize, result)
  }

  /** Where the loop ends, given its first turn. */
  ghost predicate Unrolled(env: Env, cfg: Config, start: Learner, loop: (State, Outcome), turn: Turn, next: State,
          batchSize: nat)
    requires Inv(env, start, next)
  {
    match turn
    case Finished => loop.0 == next && loop.1 == Done(0)
    case Stops(fault) => loop.0 == next && loop.1 == Raised(fault)
    case Continues(n) =>
      var rest := DrainLoop(env, cfg, start, next, batchSize);
      loop.0 == rest.0 && loop.1 == Plus(n, rest.1)
  }

  lemma {:induction false} Unroll(env: Env, cfg: Config, start: Learner, s: State, batchSize: nat)
    requires Inv(env, start, s) && (s.held.Some? ==> s.held.value.batch != [])
    requires Inv(env, start, DrainTurn(env, cfg, s, batchSize).0)
    ensures var turn := DrainTurn(env, cfg, s, batchSize);
      Unrolled(env, cfg, start, DrainLoop(env, cfg, start, s, batchSize), turn.1, turn.0, batchSize)
  {
  }

  lemma UnrolledLeads(env: Env, cfg: Config, start: Learner, settled: nat, loop: (State, Outcome), turn: Turn,
          next: State, batchSize: nat, result: (State, Outcome))
    requires Inv(env, start, next) && Unrolled(env, cfg, start, loop, turn, next, batchSize)
    requires loop.0 == result.0 && Plus(settled, loop.1) == result.1
    ensures Ahead(env, cfg, start, settled, turn, next, batchSize, result)
  {
  }

  lemma TurnIsLawful(env: Env, cfg: Config, start: Learner, s: State, batchSize: nat)
    requires Inv(env, start, s)
    ensures s.held.Some? ==> s.held.value.batch != []
    ensures Inv(env, start, DrainTurn(env, cfg, s, batchSize).0)
    ensures DrainTurn(env, cfg, s, batchSize).1.Continues? ==>
      Count(DrainTurn(env, cfg, s, batchSize).0.queue.rows, Pending) < Count(s.queue.rows, Pending)
  {
    TurnKeeps(env, cfg, start, s, batchSize);
  }

  lemma TurnLeads(env: Env, cfg: Config, start: Learner, settled: nat, s: State, batchSize: nat,
          result: (State, Outcome))
    requires Leads(env, cfg, start, settled, s, batchSize, result)
    ensures s.held.Some? ==> s.held.value.batch != []
    ensures var turn := DrainTurn(env, cfg, s, batchSize);
      && Ahead(env, cfg, start, settled, turn.1, turn.0, batchSize, result)
      && (turn.1.Continues? ==> Count(turn.0.queue.rows, Pending) < Count(s.queue.rows, Pending))
  {
    TurnIsLawful(env, cfg, start, s, batchSize);
    Unroll(env, cfg, start, s, batchSize);
    var (turn, loop) := (DrainTurn(env, cfg, s, batchSize), DrainLoop(env, cfg, start, s, batchSize));
    UnrolledLeads(env, cfg, start, settled, loop, turn.1, turn.0, batchSize, result);
  }
}
