/** Whole runs of the ingest protocol: any interleaving of admissions, drain turns, whole drains,
    requeues, compactions and restarts, under any pattern of failures. */
module IngestRuns {
  import opened Common
  import opened Bus
  import opened Ingest
  import opened IngestSafety

  // ----- draining to the end -----

  /** The drain loop. It terminates because each turn that goes on leaves fewer pending rows. */
  ghost function DrainLoop(env: Env, cfg: Config, start: Learner, s: State, batchSize: nat): (State, Outcome)
    requires Inv(env, start, s)
    decreases Count(s.queue.rows, Pending)
  {
    TurnKeeps(env, cfg, start, s, batchSize);
    var turn := DrainTurn(env, cfg, s, batchSize);
    match turn.1
    case Finished => (turn.0, Done(0))
    case Stops(fault) => (turn.0, Raised(fault))
    case Continues(n) =>
      var rest := DrainLoop(env, cfg, start, turn.0, batchSize);
      (rest.0, if rest.1.Done? then Done(n + rest.1.settled) else rest.1)
  }

  ghost function Drain(env: Env, cfg: Config, start: Learner, s: State, batchSize: nat): (State, Outcome)
    requires Inv(env, start, s)
  {
    FlushKeeps(env, cfg, s);
    var flushed := FlushBackend(env, cfg, s);
    if flushed.1.Some? then (flushed.0, Raised(flushed.1.value))
    else DrainLoop(env, cfg, start, flushed.0, batchSize)
  }

  lemma {:induction false} LoopKeeps(env: Env, cfg: Config, start: Learner, s: State, batchSize: nat)
    requires Inv(env, start, s)
    ensures var r := DrainLoop(env, cfg, start, s, batchSize);
      && Inv(env, start, r.0)
      && (r.1.Done? && batchSize > 0 ==> Idle(r.0) && Count(r.0.queue.rows, Pending) == 0)
    decreases Count(s.queue.rows, Pending)
  {
    TurnKeeps(env, cfg, start, s, batchSize);
    var turn := DrainTurn(env, cfg, s, batchSize);
    if turn.1.Continues? {
      LoopKeeps(env, cfg, start, turn.0, batchSize);
    }
  }

  /** A drain that returns has nothing left to do: no row pending, nothing held or unacknowledged. */
  lemma DrainKeeps(env: Env, cfg: Config, start: Learner, s: State, batchSize: nat)
    requires Inv(env, start, s)
    ensures var r := Drain(env, cfg, start, s, batchSize);
      && Inv(env, start, r.0)
      && (r.1.Done? && batchSize > 0 ==> Idle(r.0) && Count(r.0.queue.rows, Pending) == 0)
  {
    FlushKeeps(env, cfg, s);
    var flushed := FlushBackend(env, cfg, s);
    if flushed.1.None? {
      LoopKeeps(env, cfg, start, flushed.0, batchSize);
    }
  }

  // ----- runs -----

  datatype Op =
    | DoAdmit(lines: seq<string>)
    | DoPushOther(topic: string, payloads: seq<string>)
    | DoTurn(batchSize: nat)
    | DoDrain(batchSize: nat)
    | DoRequeue
    | DoCompact(failsAfter: Option<nat>)
    | DoRestart(learner: Learner)

  ghost predicate Admissible(op: Op) {
    op.DoPushOther? ==> op.topic != INGEST
  }

  function Initial(start: Learner): State {
    State(EMPTY, None, [], start, [], 0, 0, 0, 0, [])
  }

  /** A new process on the same queue: what only memory held is gone. */
  function Restart(s: State, learner: Learner): State {
    s.(held := None, unacked := [], learner := learner, backlog := [], dropped := 0, retryAt := 0,
       log := s.log + [Restarted(s.unacked, learner)])
  }

  ghost function Step(env: Env, cfg: Config, start: Learner, s: State, op: Op): State
    requires Inv(env, start, s)
  {
    match op
    case DoAdmit(lines) => Admit(cfg, s, lines)
    case DoPushOther(topic, payloads) => s.(queue := PushMany(s.queue, topic, payloads, None))
    case DoTurn(batchSize) => DrainTurn(env, cfg, s, batchSize).0
    case DoDrain(batchSize) => Drain(env, cfg, start, s, batchSize).0
    case DoRequeue => s.(queue := s.queue.(rows := Requeue(s.queue.rows)))
    case DoCompact(failsAfter) => s.(queue := s.queue.(rows := CompactAcked(s.queue.rows, failsAfter).0))
    case DoRestart(learner) => Restart(s, learner)
  }

  lemma PushAgrees(q: Queue, saved: set<nat>, lost: set<nat>, unacked: seq<nat>, topic: string, payloads: seq<string>,
          maxPending: Option<int>)
    requires TableAgrees(q, saved, lost, unacked)
    ensures TableAgrees(PushMany(q, topic, payloads, maxPending), saved, lost, unacked)
  {
    var room := Room(q, |payloads|, maxPending);
    var added := Inserted(topic, payloads[..room], q.last + 1);
    InsertedAt(topic, payloads[..room], q.last + 1);
    var after := PushMany(q, topic, payloads, maxPending);
    forall r | r in after.rows && r !in q.rows ensures q.last < r.offset <= after.last && r.status == Pending {
      assert r in added;
    }
  }

  lemma RequeueAgrees(q: Queue, saved: set<nat>, lost: set<nat>, unacked: seq<nat>)
    requires TableAgrees(q, saved, lost, unacked)
    ensures TableAgrees(q.(rows := Requeue(q.rows)), saved, lost, unacked)
  {
    RequeueAt(q.rows);
    forall r | r in Requeue(q.rows)
      ensures exists o :: o in q.rows && r == if o.status == DeadLetter then o.(status := Pending) else o
    {
      var i :| 0 <= i < |q.rows| && Requeue(q.rows)[i] == r;
      assert q.rows[i] in q.rows;
    }
  }

  lemma {:induction false} CompactAgrees(q: Queue, saved: set<nat>, lost: set<nat>, unacked: seq<nat>,
          failsAfter: Option<nat>)
    requires TableAgrees(q, saved, lost, unacked)
    ensures TableAgrees(q.(rows := CompactAcked(q.rows, failsAfter).0), saved, lost, unacked)
  {
    CompactKeeps(q.rows, failsAfter);
    SubsequenceIn(CompactAcked(q.rows, failsAfter).0, q.rows);
    SubsequenceIncreasing(CompactAcked(q.rows, failsAfter).0, q.rows);
  }

  lemma {:induction false} RequeuePending(rows: seq<Row>)
    ensures forall r :: r in rows && r.status == Pending ==> r in Requeue(rows)
  {
    RequeueAt(rows);
    forall r | r in rows && r.status == Pending ensures r in Requeue(rows) {
      var i :| 0 <= i < |rows| && rows[i] == r;
      assert Requeue(rows)[i] == r;
    }
  }

  lemma RestartKeeps(env: Env, start: Learner, s: State, learner: Learner)
    requires Inv(env, start, s)
    ensures Inv(env, start, Restart(s, learner))
  {
    LogSnoc(env, start, s.log, Restarted(s.unacked, learner));
  }

  lemma StepKeeps(env: Env, cfg: Config, start: Learner, s: State, op: Op)
    requires Inv(env, start, s) && Admissible(op)
    ensures Inv(env, start, Step(env, cfg, start, s, op))
  {
    var saved, lost := SavedOffsets(s.log), LostOffsets(s.log);
    match op
    case DoAdmit(lines) => PushAgrees(s.queue, saved, lost, s.unacked, INGEST, lines, Some(cfg.maxPending));
    case DoPushOther(topic, payloads) => PushAgrees(s.queue, saved, lost, s.unacked, topic, payloads, None);
    case DoTurn(batchSize) => TurnKeeps(env, cfg, start, s, batchSize);
    case DoDrain(batchSize) => DrainKeeps(env, cfg, start, s, batchSize);
    case DoRequeue =>
      RequeueAgrees(s.queue, saved, lost, s.unacked);
      RequeuePending(s.queue.rows);
    case DoCompact(failsAfter) =>
      CompactAgrees(s.queue, saved, lost, s.unacked, failsAfter);
      CompactKeeps(s.queue.rows, failsAfter);
    case DoRestart(learner) => RestartKeeps(env, start, s, learner);
  }

  ghost function Run(env: Env, cfg: Config, start: Learner, ops: seq<Op>): (s: State)
    requires forall i :: 0 <= i < |ops| ==> Admissible(ops[i])
    ensures Inv(env, start, s)
  {
    if ops == [] then
      Initial(start)
    else
      var before := Run(env, cfg, start, ops[..|ops| - 1]);
      StepKeeps(env, cfg, start, before, ops[|ops| - 1]);
      Step(env, cfg, start, before, ops[|ops| - 1])
  }

  // ----- what that means for every run -----

  lemma {:induction false} SavedWhen(log: seq<Entry>, o: nat)
    ensures o in SavedOffsets(log) <==> exists i :: 0 <= i < |log| && log[i].Saved? && o in log[i].offsets
  {
    if log != [] {
      var init, last := log[..|log| - 1], log[|log| - 1];
      SavedWhen(init, o);
      if o in SavedOffsets(init) {
        var i :| 0 <= i < |init| && init[i].Saved? && o in init[i].offsets;
        assert log[i].Saved? && o in log[i].offsets;
      }
      if i :| 0 <= i < |log| && log[i].Saved? && o in log[i].offsets {
        if i < |init| { assert init[i].Saved? && o in init[i].offsets; }
      }
    }
  }

  lemma {:induction false} LostOnlyAtRestart(log: seq<Entry>)
    requires forall i :: 0 <= i < |log| ==> !log[i].Restarted?
    ensures LostOffsets(log) == {}
  {
    if log != [] { LostOnlyAtRestart(log[..|log| - 1]); }
  }

  /** Within one process no line is in two successful saves, nor twice in one. */
  lemma {:induction false} NoLineSavedTwice(env: Env, cfg: Config, start: Learner, ops: seq<Op>, i: nat, j: nat, o: nat)
    requires forall k :: 0 <= k < |ops| ==> Admissible(ops[k])
    requires var log := Run(env, cfg, start, ops).log;
      i < |log| && j < |log| && log[i].Saved? && log[j].Saved? && o in log[i].offsets && o in log[j].offsets
      && (forall k :: 0 <= k < |log| ==> !log[k].Restarted?)
    ensures i == j && NoDup(Run(env, cfg, start, ops).log[i].offsets)
  {
    var log := Run(env, cfg, start, ops).log;
    var a, b := (if i <= j then i else j), (if i <= j then j else i);
    assert LawfulAt(log, b) && LawfulAt(log, i);
    LostOnlyAtRestart(log[..b]);
    if a < b {
      assert log[..b][a] == log[a];
      SavedWhen(log[..b], o);
      assert false;
    }
  }

  /** Across restarts a line is saved again only if a process ended after its save and before its
      acknowledgement. */
  lemma {:induction false} SavedAgainOnlyIfLost(env: Env, cfg: Config, start: Learner, ops: seq<Op>, i: nat, j: nat,
          o: nat)
    requires forall k :: 0 <= k < |ops| ==> Admissible(ops[k])
    requires var log := Run(env, cfg, start, ops).log;
      i < j < |log| && log[i].Saved? && log[j].Saved? && o in log[i].offsets && o in log[j].offsets
    ensures o in LostOffsets(Run(env, cfg, start, ops).log[..j])
  {
    var log := Run(env, cfg, start, ops).log;
    assert LawfulAt(log, j);
    assert log[..j][i] == log[i];
    SavedWhen(log[..j], o);
  }

  /** No line is acknowledged before a save of it succeeded. */
  lemma {:induction false} AckedOnlyAfterSave(env: Env, cfg: Config, start: Learner, ops: seq<Op>, i: nat)
    requires forall k :: 0 <= k < |ops| ==> Admissible(ops[k])
    requires i < |Run(env, cfg, start, ops).log| && Run(env, cfg, start, ops).log[i].AckedLine?
    ensures var log := Run(env, cfg, start, ops).log;
      exists j :: 0 <= j < i && log[j].Saved? && log[i].offset in log[j].offsets
  {
    var log := Run(env, cfg, start, ops).log;
    assert LawfulAt(log, i);
    SavedWhen(log[..i], log[i].offset);
    var j :| 0 <= j < i && log[..i][j].Saved? && log[i].offset in log[..i][j].offsets;
    assert log[j] == log[..i][j];
  }

  /** Within one process a saved line, acknowledged or not, is never processed or set aside again. */
  lemma {:induction false} SavedNeverTouchedAgain(env: Env, cfg: Config, start: Learner, ops: seq<Op>, i: nat, j: nat,
          o: nat)
    requires forall k :: 0 <= k < |ops| ==> Admissible(ops[k])
    requires var log := Run(env, cfg, start, ops).log;
      i < j < |log| && log[i].Saved? && o in log[i].offsets && (forall k :: 0 <= k < |log| ==> !log[k].Restarted?)
    ensures var e := Run(env, cfg, start, ops).log[j];
      (e.Processed? ==> o !in e.offsets) && (e.SetAside? ==> e.offset != o)
  {
    var log := Run(env, cfg, start, ops).log;
    assert LawfulAt(log, j);
    LostOnlyAtRestart(log[..j]);
    assert log[..j][i] == log[i];
    SavedWhen(log[..j], o);
  }

  /** The queue itself says so: an acknowledged line was saved, and a saved line is acknowledged
      or waiting for exactly that. */
  lemma {:induction false} QueueTellsTheTruth(env: Env, cfg: Config, start: Learner, ops: seq<Op>, r: Row)
    requires forall k :: 0 <= k < |ops| ==> Admissible(ops[k])
    requires r in Run(env, cfg, start, ops).queue.rows && r.topic == INGEST
    requires r.offset !in LostOffsets(Run(env, cfg, start, ops).log)
    ensures var s := Run(env, cfg, start, ops);
      r.offset in SavedOffsets(s.log) <==> r.status == Acked || (r.status == Pending && r.offset in s.unacked)
  {
  }

  /** Whatever has failed, what has been learned is what the saved batches, in order, teach, plus
      the batch that is processed and waiting to be saved. */
  lemma {:induction false} NothingLearnedTwice(env: Env, cfg: Config, start: Learner, ops: seq<Op>)
    requires forall k :: 0 <= k < |ops| ==> Admissible(ops[k])
    ensures var s := Run(env, cfg, start, ops);
      var learned := LearnedFrom(env, start, s.log);
      s.learner == match s.held
                   case None => learned
                   case Some(held) => env.learn(held.tick, learned, Lines(held.batch))
  {
  }

  lemma SaveHeldLog(env: Env, cfg: Config, start: Learner, s: State, i: nat)
    requires Inv(env, start, s) && s.held.Some?
    requires |s.log| <= i < |SaveHeld(env, cfg, s).0.log|
    ensures !SaveHeld(env, cfg, s).0.log[i].Processed?
    ensures env.persist(s.calls, Lines(s.held.value.batch)).None?
  {
    var held := s.held.value;
    if env.persist(s.calls, Lines(held.batch)).None? {
      var sent := SendToBackend(env, cfg, AfterSave(s, held), env.events(held.tick, Lines(held.batch)));
      SavedAndSent(env, cfg, start, s, sent.0);
    }
  }

  /** A held batch is saved from memory: unless its save fails for good, no turn processes it. */
  lemma HeldIsNotReprocessed(env: Env, cfg: Config, start: Learner, s: State, batchSize: nat, i: nat)
    requires Inv(env, start, s) && s.held.Some?
    requires env.persist(s.calls, Lines(s.held.value.batch)) != Some(Permanent)
    requires |s.log| <= i < |DrainTurn(env, cfg, s, batchSize).0.log|
    ensures !DrainTurn(env, cfg, s, batchSize).0.log[i].Processed?
  {
    SaveHeldKeeps(env, cfg, start, s);
    var saved := SaveHeld(env, cfg, s);
    assert DrainTurn(env, cfg, s, batchSize) == (RetryHeld(env, cfg, s).0, TurnOf(RetryHeld(env, cfg, s).1));
    RetryIsSave(env, cfg, start, s);
    SaveHeldLog(env, cfg, start, s, i);
  }

  lemma RetryIsSave(env: Env, cfg: Config, start: Learner, s: State)
    requires Inv(env, start, s) && s.held.Some?
    requires env.persist(s.calls, Lines(s.held.value.batch)) != Some(Permanent)
    ensures RetryHeld(env, cfg, s) == SaveHeld(env, cfg, s)
  {
    var held := s.held.value;
    if env.persist(s.calls, Lines(held.batch)).None? {
      var sent := SendToBackend(env, cfg, AfterSave(s, held), env.events(held.tick, Lines(held.batch)));
      SavedAndSent(env, cfg, start, s, sent.0);
      if sent.1.None? {
        SavedAndAcked(env, start, s, sent.0);
      }
    }
  }

  /** The backend copy: every saved event is delivered, waiting or counted as dropped, the oldest
      are dropped first, and no more than the bound wait. */
  lemma BackendAccounts(env: Env, cfg: Config, s: State, events: seq<string>)
    requires cfg.alternateBackend
    ensures var after := SendToBackend(env, cfg, s, events).0;
      && after.delivered + after.dropped + |after.backlog| == s.delivered + s.dropped + |s.backlog| + |events|
      && |after.backlog| <= cfg.maxPending
      && (exists k :: 0 <= k <= |s.backlog + events| && after.backlog == (s.backlog + events)[k..])
  {
    var all := s.backlog + events;
    var kept := all[Max(0, |all| - cfg.maxPending)..];
    var after := SendToBackend(env, cfg, s, events).0;
    assert after.backlog == [] || after.backlog == kept;
    assert all[|all|..] == [];
  }
}
