/** Whole drains when exactly the batches holding a bad line fail for good: where every pending line
    ends, and the one way a drain can fail. */
module IngestDrain {
  import opened Common
  import opened Bus
  import opened Ingest
  import opened IngestSafety
  import opened IngestRuns
  import opened IngestBisect

  /** Where the line belongs: a bad one set aside, a good one in a save. */
  ghost predicate Placed(bad: string -> bool, log: seq<Entry>, m: Row) {
    if bad(m.payload) then m.offset in AsideOf(log) else m.offset in SavedOffsets(log)
  }

  predicate Waiting(s: State, m: Row) {
    m in s.queue.rows && m.status == Pending && m.topic == INGEST
  }

  /** Every line waiting in `s` still waits in `t`, or is where it belongs. */
  ghost predicate PlacesOrKeeps(bad: string -> bool, s: State, t: State) {
    forall m :: Waiting(s, m) ==> Waiting(t, m) || Placed(bad, t.log, m)
  }

  lemma {:induction false} LogsGrow(a: seq<Entry>, b: seq<Entry>)
    requires a <= b
    ensures SavedOffsets(a) <= SavedOffsets(b)
    ensures forall o :: o in AsideOf(a) ==> o in AsideOf(b)
    decreases |b|
  {
    if |a| < |b| {
      var init := b[..|b| - 1];
      assert a <= init;
      LogsGrow(a, init);
    } else {
      assert a == b;
    }
  }

  lemma PlacesTrans(bad: string -> bool, s: State, t: State, u: State)
    requires PlacesOrKeeps(bad, s, t) && PlacesOrKeeps(bad, t, u) && t.log <= u.log
    ensures PlacesOrKeeps(bad, s, u)
  {
    LogsGrow(t.log, u.log);
  }

  /** The world rejects exactly the bad lines, and setting a line aside does not fail. */
  ghost predicate Rejecting(env: Env, bad: string -> bool) {
    RejectsExactly(env, bad) && forall t :: env.setAside(t).Accepts?
  }

  predicate AllBad(bad: string -> bool, batch: seq<Row>) {
    forall i :: 0 <= i < |batch| ==> bad(batch[i].payload)
  }

  lemma {:induction false} AllBadIff(bad: string -> bool, batch: seq<Row>)
    ensures Select(bad, batch, false) == [] <==> AllBad(bad, batch)
  {
    if batch != [] {
      AllBadIff(bad, batch[1..]);
      if AllBad(bad, batch[1..]) && bad(batch[0].payload) {
        forall i | 0 <= i < |batch| ensures bad(batch[i].payload) {
          if i > 0 { assert batch[i] == batch[1..][i - 1]; }
        }
      }
      if AllBad(bad, batch) {
        assert forall i :: 0 <= i < |batch[1..]| ==> batch[1..][i] == batch[i + 1];
      }
    }
  }

  /** Lines of the batch that settling placed, in a state where their offsets are in the log. */
  lemma {:induction false} BatchIsPlaced(bad: string -> bool, batch: seq<Row>, log: seq<Entry>)
    requires forall o :: o in Select(bad, batch, false) ==> o in SavedOffsets(log)
    requires forall o :: o in Select(bad, batch, true) ==> o in AsideOf(log)
    ensures forall m :: m in batch ==> Placed(bad, log, m)
  {
    forall m | m in batch ensures Placed(bad, log, m) {
      SelectMember(bad, batch, m);
    }
  }

  lemma {:induction false} GoodAreSaved(env: Env, cfg: Config, start: Learner, bad: string -> bool, s: State,
          batch: seq<Row>)
    requires Rejecting(env, bad) && Inv(env, start, s) && Idle(s) && batch != [] && FreshIn(s, batch)
    requires !AllBad(bad, batch)
    ensures forall o :: o in Select(bad, batch, false) ==> o in SavedOffsets(SettleBatch(env, cfg, s, batch).0.log)
  {
    AllBadIff(bad, batch);
    SettleIsExact(env, cfg, bad, s, batch);
    SettleKeeps(env, cfg, start, s, batch);
    var settled := Settle(env, cfg, s, batch);
    SuspectsNotSaved(settled.state, batch, settled.suspects);
    SetAsideKeeps(env, start, settled.state, settled.suspects);
    forall o | o in Select(bad, batch, false) ensures o in SavedOffsets(settled.state.log) {
      assert o in SavedInOrder(s.log) + Select(bad, batch, false);
      InOrderIsSet(settled.state.log, o);
    }
  }

  /** Settling a batch raises if and only if no line of it is good; otherwise it places every line,
      and either way it leaves all other waiting lines waiting. */
  lemma BatchPlaces(env: Env, cfg: Config, start: Learner, bad: string -> bool, s: State, batch: seq<Row>)
    requires Rejecting(env, bad) && Inv(env, start, s) && Idle(s) && batch != [] && FreshIn(s, batch)
    ensures var r := SettleBatch(env, cfg, s, batch);
      && PlacesOrKeeps(bad, s, r.0)
      && (if AllBad(bad, batch) then r.1 == Raised(Permanent) && (forall m :: m in batch ==> Waiting(r.0, m))
          else r.1.Done?)
  {
    AllBadIff(bad, batch);
    BatchSetsAsideExactlyTheBad(env, cfg, start, bad, s, batch);
    SettleBatchKeeps(env, cfg, start, s, batch);
    var after := SettleBatch(env, cfg, s, batch).0;
    if !AllBad(bad, batch) {
      GoodAreSaved(env, cfg, start, bad, s, batch);
      BatchIsPlaced(bad, batch, after.log);
    }
    forall m | Waiting(s, m) ensures Waiting(after, m) || Placed(bad, after.log, m) {
      OffsetsMember(batch, m.offset);
      if m.offset in OffsetSet(batch) { SameLine(s, batch, m); }
    }
  }

  lemma SameLine(s: State, batch: seq<Row>, m: Row)
    requires FreshIn(s, batch) && Increasing(s.queue.rows) && m in s.queue.rows && m.offset in OffsetSet(batch)
    ensures m in batch
  {
    var n :| n in batch && n.offset == m.offset;
    SameOffsetSameRow(s.queue.rows, n, m);
  }

  // ----- one turn -----

  /** What a turn does: it raises if and only if it pulls lines and none of them is good. */
  ghost predicate TurnPlaces(bad: string -> bool, s: State, batchSize: nat, turn: (State, Turn)) {
    var batch := OnTopic(Pull(s.queue.rows, batchSize), true);
    && PlacesOrKeeps(bad, s, turn.0) && s.log <= turn.0.log
    && match turn.1
       case Stops(fault) => fault == Permanent && batch != [] && AllBad(bad, batch)
         && (forall m :: m in batch ==> Waiting(turn.0, m))
       case _ => batch == [] || !AllBad(bad, batch)
  }

  lemma {:induction false} LinesTurn(env: Env, cfg: Config, start: Learner, bad: string -> bool, s: State,
          cleared: State, batchSize: nat)
    requires Rejecting(env, bad) && Inv(env, start, cleared) && Idle(cleared)
    requires PlacesOrKeeps(bad, s, cleared) && s.log <= cleared.log
    requires var batch := OnTopic(Pull(s.queue.rows, batchSize), true); batch != [] && FreshIn(cleared, batch)
    ensures var r := SettleBatch(env, cfg, cleared, OnTopic(Pull(s.queue.rows, batchSize), true));
      TurnPlaces(bad, s, batchSize, (r.0, TurnOf(r.1)))
  {
    var batch := OnTopic(Pull(s.queue.rows, batchSize), true);
    BatchPlaces(env, cfg, start, bad, cleared, batch);
    SettleBatchKeeps(env, cfg, start, cleared, batch);
    PlacesTrans(bad, s, cleared, SettleBatch(env, cfg, cleared, batch).0);
  }

  lemma KeepsSelf(bad: string -> bool, s: State, t: State)
    requires t.queue.rows == s.queue.rows
    ensures PlacesOrKeeps(bad, s, t)
  {
  }

  /** The other messages of a pull are acknowledged, and no line stops waiting. */
  lemma OthersClear(env: Env, start: Learner, bad: string -> bool, s: State, batchSize: nat, failAfter: Option<nat>)
    returns (cleared: State)
    requires Inv(env, start, s) && Idle(s) && OnTopic(Pull(s.queue.rows, batchSize), false) != []
    ensures cleared == s.(calls := s.calls + 1,
      queue := AckMany(s.queue, Offsets(OnTopic(Pull(s.queue.rows, batchSize), false)), failAfter))
    ensures Inv(env, start, cleared) && Idle(cleared) && PlacesOrKeeps(bad, s, cleared)
    ensures FreshIn(cleared, OnTopic(Pull(s.queue.rows, batchSize), true))
  {
    var pulled := Pull(s.queue.rows, batchSize);
    PulledAreFresh(env, start, s, batchSize);
    ClearOther(env, start, s, OnTopic(pulled, false), failAfter, s.calls + 1);
    cleared := s.(calls := s.calls + 1, queue := AckMany(s.queue, Offsets(OnTopic(pulled, false)), failAfter));
    StillFresh(s, cleared, OnTopic(pulled, true));
  }

  lemma {:induction false} PullUnfolds(env: Env, cfg: Config, s: State, batchSize: nat, cleared: State)
    requires OnTopic(Pull(s.queue.rows, batchSize), false) != [] && env.ack(s.calls).AckOk?
    requires cleared == s.(calls := s.calls + 1,
      queue := AckMany(s.queue, Offsets(OnTopic(Pull(s.queue.rows, batchSize), false)),
        env.ack(s.calls).compactionFailsAfter))
    ensures var batch := OnTopic(Pull(s.queue.rows, batchSize), true);
      PullAndSettle(env, cfg, s, batchSize) ==
        if batch == [] then (cleared, Continues(0))
        else (SettleBatch(env, cfg, cleared, batch).0, TurnOf(SettleBatch(env, cfg, cleared, batch).1))
  {
    assert Pull(s.queue.rows, batchSize) != [];
  }

  lemma {:induction false} OthersTurn(env: Env, cfg: Config, start: Learner, bad: string -> bool, s: State,
          batchSize: nat)
    requires Rejecting(env, bad) && Inv(env, start, s) && Idle(s)
    requires OnTopic(Pull(s.queue.rows, batchSize), false) != []
    ensures TurnPlaces(bad, s, batchSize, PullAndSettle(env, cfg, s, batchSize))
  {
    AcksWork(env, bad, s.calls);
    var cleared := OthersClear(env, start, bad, s, batchSize, env.ack(s.calls).compactionFailsAfter);
    PullUnfolds(env, cfg, s, batchSize, cleared);
    if OnTopic(Pull(s.queue.rows, batchSize), true) != [] {
      LinesTurn(env, cfg, start, bad, s, cleared, batchSize);
    }
  }

  lemma AcksWork(env: Env, bad: string -> bool, t: nat)
    requires Rejecting(env, bad)
    ensures env.ack(t).AckOk?
  {
  }

  lemma StillFresh(s: State, t: State, batch: seq<Row>)
    requires FreshIn(s, batch) && t.log == s.log
    requires forall r :: r in s.queue.rows && r.status == Pending && r.topic == INGEST ==> r in t.queue.rows
    ensures FreshIn(t, batch)
  {
  }

  lemma PullPlaces(env: Env, cfg: Config, start: Learner, bad: string -> bool, s: State, batchSize: nat)
    requires Rejecting(env, bad) && Inv(env, start, s) && Idle(s)
    ensures TurnPlaces(bad, s, batchSize, PullAndSettle(env, cfg, s, batchSize))
  {
    var pulled := Pull(s.queue.rows, batchSize);
    KeepsSelf(bad, s, s);
    if pulled != [] {
      if OnTopic(pulled, false) != [] {
        OthersTurn(env, cfg, start, bad, s, batchSize);
      } else {
        PulledAreFresh(env, start, s, batchSize);
        SomeLine(pulled);
        LinesTurn(env, cfg, start, bad, s, s, batchSize);
      }
    }
  }

  lemma {:induction false} SomeLine(pulled: seq<Row>)
    requires pulled != [] && OnTopic(pulled, false) == []
    ensures OnTopic(pulled, true) != []
  {
  }

  // ----- what a turn leaves pending -----

  /** Nothing is newly pending, and the rows with these offsets no longer are. */
  ghost predicate Clears(before: Queue, after: Queue, offsets: seq<nat>) {
    forall r :: r in after.rows && r.status == Pending ==> r in before.rows && r.offset !in offsets
  }

  lemma ClearsTrans(a: Queue, b: Queue, c: Queue, one: seq<nat>, two: seq<nat>)
    requires Clears(a, b, one) && Clears(b, c, two)
    ensures Clears(a, c, one + two)
  {
  }

  lemma {:induction false} MarkClears(q: Queue, after: Queue, offsets: seq<nat>, status: Status)
    requires status != Pending && forall r :: r in after.rows ==> r in Mark(q.rows, offsets, status)
    ensures Clears(q, after, offsets)
  {
    MarkAt(q.rows, offsets, status);
    forall r | r in after.rows && r.status == Pending ensures r in q.rows && r.offset !in offsets {
      var i :| 0 <= i < |q.rows| && Mark(q.rows, offsets, status)[i] == r;
      assert q.rows[i] in q.rows;
    }
  }

  lemma AckClears(q: Queue, offsets: seq<nat>, failAfter: Option<nat>)
    ensures Clears(q, AckMany(q, offsets, failAfter), offsets)
  {
    AckManyCompacts(q, offsets, failAfter);
    SubsequenceIn(AckMany(q, offsets, failAfter).rows, Mark(q.rows, offsets, Acked));
    MarkClears(q, AckMany(q, offsets, failAfter), offsets, Acked);
  }

  lemma AckedClears(before: Queue, after: Queue, offsets: seq<nat>)
    requires AckedFrom(before, after, offsets)
    ensures Clears(before, after, offsets)
  {
    var failAfter :| after == AckMany(before, offsets, failAfter);
    AckClears(before, offsets, failAfter);
  }

  lemma {:induction false} CleanClears(env: Env, cfg: Config, bad: string -> bool, s: State, batch: seq<Row>)
    requires RejectsExactly(env, bad) && Idle(s) && batch != [] && !HasBad(bad, Lines(batch))
    ensures Clears(s.queue, Settle(env, cfg, s, batch).state.queue, Offsets(batch))
  {
    var processed := Process(env, s, batch);
    assert processed.1.None? && env.persist(processed.0.calls, Lines(batch)).None?;
    SaveGoesThrough(env, cfg, processed.0);
    AckedClears(s.queue, SaveHeld(env, cfg, processed.0).0.queue, Offsets(batch));
  }

  /** Settling leaves no good line of the batch pending. */
  lemma {:induction false} SettleClears(env: Env, cfg: Config, bad: string -> bool, s: State, batch: seq<Row>)
    requires RejectsExactly(env, bad) && Idle(s) && batch != []
    ensures Clears(s.queue, Settle(env, cfg, s, batch).state.queue, Select(bad, batch, false))
    decreases |batch|
  {
    SelectClean(bad, batch);
    if !HasBad(bad, Lines(batch)) {
      CleanClears(env, cfg, bad, s, batch);
    } else {
      var before := TakeSnapshot(s.learner);
      var t := BadFails(env, cfg, bad, s, batch);
      if |batch| == 1 {
        NoGoodAlone(bad, batch);
      } else {
        SettleIsExact(env, cfg, bad, Undone(t, before), batch[..|batch| / 2]);
        SettleClears(env, cfg, bad, Undone(t, before), batch[..|batch| / 2]);
        var left := Settle(env, cfg, Undone(t, before), batch[..|batch| / 2]);
        SettleIsExact(env, cfg, bad, left.state, batch[|batch| / 2..]);
        SettleClears(env, cfg, bad, left.state, batch[|batch| / 2..]);
        HalvesClear(env, cfg, bad, t, before, batch);
      }
    }
  }

  lemma {:induction false} NoGoodAlone(bad: string -> bool, batch: seq<Row>)
    requires |batch| == 1 && HasBad(bad, Lines(batch))
    ensures Select(bad, batch, false) == []
  {
    assert batch[1..] == [];
  }

  lemma {:induction false} HalvesClear(env: Env, cfg: Config, bad: string -> bool, t: State, before: Snapshot,
          batch: seq<Row>)
    requires t.unacked == [] && |batch| > 1
    requires var left := Settle(env, cfg, Undone(t, before), batch[..|batch| / 2]);
      var right := Settle(env, cfg, left.state, batch[|batch| / 2..]);
      && left.outcome.Done? && right.outcome.Done?
      && Clears(t.queue, left.state.queue, Select(bad, batch[..|batch| / 2], false))
      && Clears(left.state.queue, right.state.queue, Select(bad, batch[|batch| / 2..], false))
    ensures Clears(t.queue, Blame(env, cfg, t, before, Permanent, batch).state.queue, Select(bad, batch, false))
  {
    var left := Settle(env, cfg, Undone(t, before), batch[..|batch| / 2]);
    var right := Settle(env, cfg, left.state, batch[|batch| / 2..]);
    BlameSplits(env, cfg, t, before, Permanent, batch);
    SelectHalves(bad, batch, |batch| / 2, false);
    ClearsTrans(t.queue, left.state.queue, right.state.queue,
      Select(bad, batch[..|batch| / 2], false), Select(bad, batch[|batch| / 2..], false));
  }

  lemma {:induction false} AsideClears(env: Env, s: State, suspects: seq<nat>)
    requires forall t :: env.setAside(t).Accepts?
    ensures Clears(s.queue, SetAsideAll(env, s, suspects).0.queue, suspects)
    decreases |suspects|
  {
    if suspects != [] {
      var t := AfterAside(s, suspects[0]);
      MarkClears(s.queue, t.queue, [suspects[0]], DeadLetter);
      AsideClears(env, t, suspects[1..]);
      ClearsTrans(s.queue, t.queue, SetAsideAll(env, t, suspects[1..]).0.queue, [suspects[0]], suspects[1..]);
      assert [suspects[0]] + suspects[1..] == suspects;
    }
  }

  lemma {:induction false} AllCleared(bad: string -> bool, before: Queue, after: Queue, batch: seq<Row>)
    requires Clears(before, after, Select(bad, batch, false) + Select(bad, batch, true))
    ensures Clears(before, after, Offsets(batch))
  {
    forall o | o in Offsets(batch) ensures o in Select(bad, batch, false) + Select(bad, batch, true) {
      OffsetsMember(batch, o);
      var m :| m in batch && m.offset == o;
      SelectMember(bad, batch, m);
    }
  }

  /** A settled batch leaves none of its lines pending. */
  lemma BatchClears(env: Env, cfg: Config, bad: string -> bool, s: State, batch: seq<Row>)
    requires Rejecting(env, bad) && Idle(s) && batch != [] && !AllBad(bad, batch)
    ensures Clears(s.queue, SettleBatch(env, cfg, s, batch).0.queue, Offsets(batch))
  {
    AllBadIff(bad, batch);
    SettleIsExact(env, cfg, bad, s, batch);
    SettleClears(env, cfg, bad, s, batch);
    var settled := Settle(env, cfg, s, batch);
    AsideClears(env, settled.state, settled.suspects);
    ClearsTrans(s.queue, settled.state.queue, SetAsideAll(env, settled.state, settled.suspects).0.queue,
      Select(bad, batch, false), Select(bad, batch, true));
    AllCleared(bad, s.queue, SettleBatch(env, cfg, s, batch).0.queue, batch);
  }

  /** What is left of the queue's pending rows: exactly those that were not pulled. */
  ghost predicate LeavesRest(s: State, t: State, pulled: seq<Row>) {
    && Clears(s.queue, t.queue, Offsets(pulled))
    && forall r :: r in s.queue.rows && r.status == Pending && r.offset !in Offsets(pulled) ==> r in t.queue.rows
  }

  lemma LinesLeaveRest(env: Env, cfg: Config, start: Learner, bad: string -> bool, s: State, batch: seq<Row>)
    requires Rejecting(env, bad) && Inv(env, start, s) && Idle(s)
    requires batch != [] && FreshIn(s, batch) && !AllBad(bad, batch)
    ensures LeavesRest(s, SettleBatch(env, cfg, s, batch).0, batch)
  {
    BatchClears(env, cfg, bad, s, batch);
    SettleBatchKeeps(env, cfg, start, s, batch);
    forall o ensures o in Offsets(batch) <==> o in OffsetSet(batch) {
      OffsetsMember(batch, o);
    }
  }

  lemma OthersLeaveRest(s: State, other: seq<Row>, failAfter: Option<nat>, t: State)
    requires Increasing(s.queue.rows) && t.queue == AckMany(s.queue, Offsets(other), failAfter)
    ensures LeavesRest(s, t, other)
  {
    AckClears(s.queue, Offsets(other), failAfter);
    AckManyRows(s.queue, Offsets(other), failAfter);
  }

  lemma RestTrans(s: State, t: State, u: State, other: seq<Row>, batch: seq<Row>, pulled: seq<Row>)
    requires LeavesRest(s, t, other) && LeavesRest(t, u, batch)
    requires forall o :: o in Offsets(pulled) <==> o in Offsets(other) || o in Offsets(batch)
    ensures LeavesRest(s, u, pulled)
  {
  }

  lemma {:induction false} TopicsCover(pulled: seq<Row>)
    requires Increasing(pulled)
    ensures forall o ::
      o in Offsets(pulled) <==> o in Offsets(OnTopic(pulled, false)) || o in Offsets(OnTopic(pulled, true))
  {
    OnTopicFacts(pulled, true);
    OnTopicFacts(pulled, false);
    forall o
      ensures o in Offsets(pulled) <==> o in Offsets(OnTopic(pulled, false)) || o in Offsets(OnTopic(pulled, true))
    {
      OffsetsMember(pulled, o);
      OffsetsMember(OnTopic(pulled, false), o);
      OffsetsMember(OnTopic(pulled, true), o);
    }
  }

  lemma RestSelf(s: State)
    ensures LeavesRest(s, s, [])
  {
  }

  /** A turn that goes on leaves exactly the pending rows it did not pull. */
  lemma {:induction false} TurnLeavesRest(env: Env, cfg: Config, start: Learner, bad: string -> bool, s: State,
          batchSize: nat)
    requires Rejecting(env, bad) && Inv(env, start, s) && Idle(s)
    requires PullAndSettle(env, cfg, s, batchSize).1.Continues?
    ensures LeavesRest(s, PullAndSettle(env, cfg, s, batchSize).0, Pull(s.queue.rows, batchSize))
  {
    var pulled := Pull(s.queue.rows, batchSize);
    var other, batch := OnTopic(pulled, false), OnTopic(pulled, true);
    PullIn(s.queue.rows, batchSize);
    PulledAreFresh(env, start, s, batchSize);
    PullPlaces(env, cfg, start, bad, s, batchSize);
    TopicsCover(pulled);
    if other == [] {
      RestSelf(s);
      LinesLeaveRest(env, cfg, start, bad, s, batch);
      RestTrans(s, s, PullAndSettle(env, cfg, s, batchSize).0, other, batch, pulled);
    } else {
      OthersThenLines(env, cfg, start, bad, s, batchSize);
    }
  }

  lemma {:induction false} OthersThenLines(env: Env, cfg: Config, start: Learner, bad: string -> bool, s: State,
          batchSize: nat)
    requires Rejecting(env, bad) && Inv(env, start, s) && Idle(s)
    requires var pulled := Pull(s.queue.rows, batchSize); var batch := OnTopic(pulled, true);
      OnTopic(pulled, false) != [] && (batch == [] || !AllBad(bad, batch))
    ensures LeavesRest(s, PullAndSettle(env, cfg, s, batchSize).0, Pull(s.queue.rows, batchSize))
  {
    var pulled := Pull(s.queue.rows, batchSize);
    var batch := OnTopic(pulled, true);
    PullIn(s.queue.rows, batchSize);
    TopicsCover(pulled);
    AcksWork(env, bad, s.calls);
    var failAfter := env.ack(s.calls).compactionFailsAfter;
    var cleared := OthersClear(env, start, bad, s, batchSize, failAfter);
    PullUnfolds(env, cfg, s, batchSize, cleared);
    OthersLeaveRest(s, OnTopic(pulled, false), failAfter, cleared);
    if batch == [] {
      RestSelf(cleared);
      RestTrans(s, cleared, cleared, OnTopic(pulled, false), batch, pulled);
    } else {
      LinesLeaveRest(env, cfg, start, bad, cleared, batch);
      RestTrans(s, cleared, SettleBatch(env, cfg, cleared, batch).0, OnTopic(pulled, false), batch, pulled);
    }
  }

  // ----- the successive pulls -----

  /** The pending rows, oldest first. */
  function PendingOf(rows: seq<Row>): seq<Row> {
    if rows == [] then []
    else if rows[0].status == Pending then [rows[0]] + PendingOf(rows[1..])
    else PendingOf(rows[1..])
  }

  lemma {:induction false} PullIsPrefix(rows: seq<Row>, limit: nat)
    ensures Pull(rows, limit) == PendingOf(rows)[..Min(limit, |PendingOf(rows)|)]
  {
    if rows != [] && limit > 0 {
      PullIsPrefix(rows[1..], if rows[0].status == Pending then limit - 1 else limit);
    }
  }

  lemma {:induction false} PendingOfFacts(rows: seq<Row>)
    requires Increasing(rows)
    ensures Increasing(PendingOf(rows))
    ensures forall r :: r in PendingOf(rows) <==> r in rows && r.status == Pending
  {
    if rows != [] {
      PendingOfFacts(rows[1..]);
      var rest := PendingOf(rows[1..]);
      forall j | 0 <= j < |rest| ensures rows[0].offset < rest[j].offset {
        assert rest[j] in rows[1..];
      }
      assert forall r :: r in rows <==> r == rows[0] || r in rows[1..];
    }
  }

  lemma {:induction false} SameRowsSameOrder(a: seq<Row>, b: seq<Row>)
    requires Increasing(a) && Increasing(b) && forall r :: r in a <==> r in b
    ensures a == b
  {
    assert (a != [] ==> a[0] in a) && (b != [] ==> b[0] in b);
    if a != [] {
      var i :| 0 <= i < |b| && b[i] == a[0];
      var j :| 0 <= j < |a| && a[j] == b[0];
      assert i == 0;
      forall r ensures r in a[1..] <==> r in b[1..] {
        TailMember(a, r);
        TailMember(b, r);
      }
      SameRowsSameOrder(a[1..], b[1..]);
    }
  }

  lemma TailMember(a: seq<Row>, r: Row)
    requires Increasing(a) && a != []
    ensures r in a[1..] <==> r in a && r != a[0]
  {
    if r in a && r != a[0] {
      var i :| 0 <= i < |a| && a[i] == r;
      assert a[1..][i - 1] == r;
    }
  }

  lemma DropMember(a: seq<Row>, k: nat, r: Row)
    requires Increasing(a) && k <= |a|
    ensures r in a[k..] <==> r in a && r.offset !in Offsets(a[..k])
  {
    OffsetsMember(a[..k], r.offset);
    if r in a {
      var i :| 0 <= i < |a| && a[i] == r;
      if i < k {
        assert a[..k][i] == r;
      } else {
        assert a[k..][i - k] == r;
      }
    }
  }

  /** After the turn, the pending rows are those before it without the pulled ones. */
  lemma {:induction false} RestIsTail(s: State, t: State, limit: nat)
    requires Increasing(s.queue.rows) && Increasing(t.queue.rows) && LeavesRest(s, t, Pull(s.queue.rows, limit))
    ensures PendingOf(t.queue.rows) == PendingOf(s.queue.rows)[Min(limit, |PendingOf(s.queue.rows)|)..]
  {
    var all, k := PendingOf(s.queue.rows), Min(limit, |PendingOf(s.queue.rows)|);
    PullIsPrefix(s.queue.rows, limit);
    PendingOfFacts(s.queue.rows);
    PendingOfFacts(t.queue.rows);
    forall r ensures r in PendingOf(t.queue.rows) <==> r in all[k..] {
      DropMember(all, k, r);
    }
    SameRowsSameOrder(PendingOf(t.queue.rows), all[k..]);
  }

  /** Cut into pulls of that size, the pending rows have a good line in every pull with lines. */
  predicate EveryPullHasGood(bad: string -> bool, pending: seq<Row>, batchSize: nat)
    requires batchSize > 0
  {
    if pending == [] then true
    else
      var n := Min(batchSize, |pending|);
      var batch := OnTopic(pending[..n], true);
      (batch == [] || !AllBad(bad, batch)) && EveryPullHasGood(bad, pending[n..], batchSize)
  }

  // ----- whole drains -----

  ghost predicate DrainPlaces(bad: string -> bool, s: State, r: (State, Outcome)) {
    && PlacesOrKeeps(bad, s, r.0) && s.log <= r.0.log
    && (r.1.Done? ==> forall m :: Waiting(s, m) ==> Placed(bad, r.0.log, m))
    && (r.1.Raised? ==> r.1.fault == Permanent)
  }

  lemma NothingWaits(s: State, m: Row)
    requires Count(s.queue.rows, Pending) == 0
    ensures !Waiting(s, m)
  {
    CountZero(s.queue.rows, Pending);
  }

  lemma AfterTurn(bad: string -> bool, s: State, t: State, n: nat, rest: (State, Outcome))
    requires PlacesOrKeeps(bad, s, t) && s.log <= t.log && DrainPlaces(bad, t, rest)
    ensures DrainPlaces(bad, s, (rest.0, if rest.1.Done? then Done(n + rest.1.settled) else rest.1))
  {
    PlacesTrans(bad, s, t, rest.0);
    LogsGrow(t.log, rest.0.log);
  }

  lemma {:induction false} LoopPlaces(env: Env, cfg: Config, start: Learner, bad: string -> bool, s: State,
          batchSize: nat)
    requires Rejecting(env, bad) && Inv(env, start, s) && Idle(s) && batchSize > 0
    ensures DrainPlaces(bad, s, DrainLoop(env, cfg, start, s, batchSize))
    decreases Count(s.queue.rows, Pending)
  {
    TurnKeeps(env, cfg, start, s, batchSize);
    PullPlaces(env, cfg, start, bad, s, batchSize);
    var turn := DrainTurn(env, cfg, s, batchSize);
    match turn.1
    case Finished =>
      forall m | Waiting(s, m) ensures Placed(bad, turn.0.log, m) { NothingWaits(turn.0, m); }
    case Stops(fault) =>
    case Continues(n) =>
      LoopPlaces(env, cfg, start, bad, turn.0, batchSize);
      AfterTurn(bad, s, turn.0, n, DrainLoop(env, cfg, start, turn.0, batchSize));
  }

  lemma {:induction false} FirstPull(env: Env, cfg: Config, start: Learner, bad: string -> bool, s: State,
          batchSize: nat)
    requires Rejecting(env, bad) && Inv(env, start, s) && Idle(s) && batchSize > 0
    ensures var all, turn := PendingOf(s.queue.rows), PullAndSettle(env, cfg, s, batchSize);
      match turn.1
      case Finished => all == []
      case Stops(_) => !EveryPullHasGood(bad, all, batchSize)
      case Continues(_) =>
        EveryPullHasGood(bad, all, batchSize) <==> EveryPullHasGood(bad, PendingOf(turn.0.queue.rows), batchSize)
  {
    var all, turn := PendingOf(s.queue.rows), PullAndSettle(env, cfg, s, batchSize);
    PullIsPrefix(s.queue.rows, batchSize);
    PullPlaces(env, cfg, start, bad, s, batchSize);
    PullKeeps(env, cfg, start, s, batchSize);
    if turn.1.Continues? {
      TurnLeavesRest(env, cfg, start, bad, s, batchSize);
      RestIsTail(s, turn.0, batchSize);
      assert all != [];
    } else if turn.1.Stops? {
      assert all != [];
    }
  }

  lemma {:induction false} LoopReturnsIff(env: Env, cfg: Config, start: Learner, bad: string -> bool, s: State,
          batchSize: nat)
    requires Rejecting(env, bad) && Inv(env, start, s) && Idle(s) && batchSize > 0
    ensures DrainLoop(env, cfg, start, s, batchSize).1.Done? <==>
      EveryPullHasGood(bad, PendingOf(s.queue.rows), batchSize)
    decreases Count(s.queue.rows, Pending)
  {
    TurnKeeps(env, cfg, start, s, batchSize);
    FirstPull(env, cfg, start, bad, s, batchSize);
    var turn := DrainTurn(env, cfg, s, batchSize);
    assert turn == PullAndSettle(env, cfg, s, batchSize);
    if turn.1.Continues? { LoopReturnsIff(env, cfg, start, bad, turn.0, batchSize); }
  }

  /** A drain that returns has saved every waiting good line and set aside every waiting bad one. It
      returns if and only if, cut into pulls, the rows that were pending have a good line in every pull
      with lines; and when it raises, no waiting line has gone anywhere it does not belong. */
  lemma {:induction false} DrainPutsEveryLineInPlace(env: Env, cfg: Config, start: Learner, bad: string -> bool,
          s: State, batchSize: nat)
    requires Rejecting(env, bad) && Inv(env, start, s) && Idle(s) && batchSize > 0
    ensures var r := Drain(env, cfg, start, s, batchSize);
      && DrainPlaces(bad, s, r)
      && (r.1.Done? <==> EveryPullHasGood(bad, PendingOf(s.queue.rows), batchSize))
  {
    FlushKeeps(env, cfg, s);
    var flushed := FlushBackend(env, cfg, s);
    assert flushed.1.None?;
    LoopPlaces(env, cfg, start, bad, flushed.0, batchSize);
    LoopReturnsIff(env, cfg, start, bad, flushed.0, batchSize);
    AfterTurn(bad, s, flushed.0, 0, DrainLoop(env, cfg, start, flushed.0, batchSize));
  }
}
