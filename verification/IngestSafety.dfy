/** Safety of the ingest protocol: what every step keeps, whatever fails. */
module IngestSafety {
  import opened Common
  import opened Bus
  import opened Ingest
  import Anomaly

  // ----- reading a history -----

  ghost function NewlySaved(e: Entry): set<nat> {
    if e.Saved? then (set o | o in e.offsets) else {}
  }

  ghost function NewlyLost(e: Entry): set<nat> {
    if e.Restarted? then (set o | o in e.lost) else {}
  }

  function NewlyLearned(env: Env, l: Learner, e: Entry): Learner {
    if e.Saved? then env.learn(e.tick, l, e.lines) else if e.Restarted? then e.learner else l
  }

  /** Lines that some successful save contains. */
  ghost function SavedOffsets(log: seq<Entry>): set<nat> {
    if log == [] then {} else SavedOffsets(log[..|log| - 1]) + NewlySaved(log[|log| - 1])
  }

  /** Lines that were saved but not acknowledged when a process ended. */
  ghost function LostOffsets(log: seq<Entry>): set<nat> {
    if log == [] then {} else LostOffsets(log[..|log| - 1]) + NewlyLost(log[|log| - 1])
  }

  /** The lines set aside, in order. */
  ghost function AsideOf(log: seq<Entry>): seq<nat> {
    if log == [] then []
    else
      var rest, e := AsideOf(log[..|log| - 1]), log[|log| - 1];
      if e.SetAside? then rest + [e.offset] else rest
  }

  /** What processing exactly the saved batches, in order, teaches. */
  function LearnedFrom(env: Env, start: Learner, log: seq<Entry>): Learner {
    if log == [] then start else NewlyLearned(env, LearnedFrom(env, start, log[..|log| - 1]), log[|log| - 1])
  }

  /** What one entry may be, given everything before it. */
  ghost predicate Lawful(before: seq<Entry>, entry: Entry) {
    match entry
    case Processed(offsets) => forall o :: o in offsets ==> o !in SavedOffsets(before) || o in LostOffsets(before)
    case Saved(offsets, _, _) =>
      && (forall o :: o in offsets ==> o !in SavedOffsets(before) || o in LostOffsets(before))
      && NoDup(offsets)
    case AckedLine(offset) => offset in SavedOffsets(before)
    case SetAside(offset) => offset !in SavedOffsets(before) || offset in LostOffsets(before)
    case Restarted(_, _) => true
  }

  ghost predicate LawfulAt(log: seq<Entry>, i: nat)
    requires i < |log|
  {
    Lawful(log[..i], log[i])
  }

  ghost predicate LawfulLog(log: seq<Entry>) {
    forall i :: 0 <= i < |log| ==> LawfulAt(log, i)
  }

  lemma {:induction false} LogSnoc(env: Env, start: Learner, log: seq<Entry>, e: Entry)
    ensures SavedOffsets(log + [e]) == SavedOffsets(log) + NewlySaved(e)
    ensures LostOffsets(log + [e]) == LostOffsets(log) + NewlyLost(e)
    ensures AsideOf(log + [e]) == if e.SetAside? then AsideOf(log) + [e.offset] else AsideOf(log)
    ensures LearnedFrom(env, start, log + [e]) == NewlyLearned(env, LearnedFrom(env, start, log), e)
    ensures LawfulLog(log) && Lawful(log, e) ==> LawfulLog(log + [e])
  {
    var longer := log + [e];
    assert longer[..|log|] == log;
    if LawfulLog(log) && Lawful(log, e) {
      forall i | 0 <= i < |longer| ensures LawfulAt(longer, i) {
        if i < |log| {
          assert LawfulAt(log, i) && longer[..i] == log[..i];
        }
      }
    }
  }

  // ----- the invariant -----

  /** The table agrees with the set of saved lines. A line left saved but unacknowledged by an
      ended process (`lost`) is the only kind that may be pending again. */
  ghost predicate TableAgrees(q: Queue, saved: set<nat>, lost: set<nat>, unacked: seq<nat>) {
    && Increasing(q.rows)
    && (forall r :: r in q.rows ==> 1 <= r.offset <= q.last)
    && (forall o :: o in saved ==> o <= q.last)
    && (forall o :: o in unacked ==> o in saved)
    && (forall r :: r in q.rows && r.topic == INGEST && r.status == Acked ==> r.offset in saved)
    && (forall r :: r in q.rows && r.offset in saved && r.offset !in lost ==>
          r.topic == INGEST && (r.status == Acked || (r.status == Pending && r.offset in unacked)))
  }

  /** A batch that may be processed: pending lines of the queue, none of them saved. */
  ghost predicate Fresh(q: Queue, saved: set<nat>, lost: set<nat>, batch: seq<Row>) {
    && Increasing(batch)
    && (forall m :: m in batch ==>
          m in q.rows && m.status == Pending && m.topic == INGEST && (m.offset !in saved || m.offset in lost))
  }

  ghost predicate TableOk(s: State) {
    TableAgrees(s.queue, SavedOffsets(s.log), LostOffsets(s.log), s.unacked)
  }

  ghost predicate FreshIn(s: State, batch: seq<Row>) {
    Fresh(s.queue, SavedOffsets(s.log), LostOffsets(s.log), batch)
  }

  /** The learned state is that of the saved batches, plus the held one. */
  ghost predicate LearnerOk(env: Env, start: Learner, s: State) {
    var learned := LearnedFrom(env, start, s.log);
    match s.held
    case None => s.learner == learned
    case Some(held) =>
      && s.learner == env.learn(held.tick, learned, Lines(held.batch))
      && held.before == TakeSnapshot(learned)
  }

  ghost predicate HeldOk(s: State) {
    s.held.Some? ==> s.unacked == [] && s.held.value.batch != [] && FreshIn(s, s.held.value.batch)
  }

  ghost predicate Inv(env: Env, start: Learner, s: State) {
    TableOk(s) && LawfulLog(s.log) && HeldOk(s) && LearnerOk(env, start, s)
  }

  // ----- undoing -----

  /** A snapshot restores exactly what was learned when it was taken. */
  lemma RestoreUndoes(l: Learner)
    ensures Restore(TakeSnapshot(l)) == l
  {
    Anomaly.SnapshotRoundTrip(l.baseline);
  }

  // ----- the elementary changes -----

  lemma OffsetsNoDup(batch: seq<Row>)
    requires Increasing(batch)
    ensures NoDup(Offsets(batch))
  {
  }

  lemma OffsetsMember(batch: seq<Row>, o: nat)
    ensures o in Offsets(batch) <==> exists m :: m in batch && m.offset == o
  {
    if o in Offsets(batch) {
      var i :| 0 <= i < |batch| && Offsets(batch)[i] == o;
      assert batch[i] in batch;
    }
    if m :| m in batch && m.offset == o {
      var i :| 0 <= i < |batch| && batch[i] == m;
      assert Offsets(batch)[i] == o;
    }
  }

  lemma MarkedAgrees(q: Queue, saved: set<nat>, lost: set<nat>, unacked: seq<nat>, failAfter: Option<nat>)
    requires TableAgrees(q, saved, lost, unacked)
    ensures TableAgrees(AckMany(q, unacked, failAfter), saved, lost, [])
  {
    AckManyFacts(q, unacked, failAfter);
    var after := AckMany(q, unacked, failAfter);
    forall r | r in after.rows
      ensures 1 <= r.offset <= after.last
      ensures r.topic == INGEST && r.status == Acked ==> r.offset in saved
      ensures r.offset in saved && r.offset !in lost ==> r.topic == INGEST && r.status == Acked
    {
      MarkedFrom(q.rows, unacked, Acked, r);
    }
  }

  lemma OtherAckAgrees(q: Queue, saved: set<nat>, lost: set<nat>, other: seq<Row>, failAfter: Option<nat>)
    requires TableAgrees(q, saved, lost, [])
    requires forall r :: r in other ==> r in q.rows && r.topic != INGEST
    ensures TableAgrees(AckMany(q, Offsets(other), failAfter), saved, lost, [])
  {
    AckManyFacts(q, Offsets(other), failAfter);
    var after := AckMany(q, Offsets(other), failAfter);
    forall r | r in after.rows
      ensures 1 <= r.offset <= after.last
      ensures r.topic == INGEST && r.status == Acked ==> r.offset in saved
      ensures r.offset in saved && r.offset !in lost ==> r.topic == INGEST && r.status == Acked
    {
      MarkedFrom(q.rows, Offsets(other), Acked, r);
      var o :| o in q.rows && r == if o.offset in Offsets(other) then o.(status := Acked) else o;
      if o.offset in Offsets(other) {
        OffsetsMember(other, o.offset);
        var m :| m in other && m.offset == o.offset;
        SameOffsetSameRow(q.rows, m, o);
      }
    }
  }

  lemma SameOffsetSameRow(rows: seq<Row>, a: Row, b: Row)
    requires Increasing(rows) && a in rows && b in rows && a.offset == b.offset
    ensures a == b
  {
    var i :| 0 <= i < |rows| && rows[i] == a;
    var j :| 0 <= j < |rows| && rows[j] == b;
    assert !(i < j) && !(j < i);
  }

  lemma {:induction false} AckOne(env: Env, start: Learner, log: seq<Entry>, o: nat)
    requires LawfulLog(log) && o in SavedOffsets(log)
    ensures var longer := log + [AckedLine(o)];
      && LawfulLog(longer) && SavedOffsets(longer) == SavedOffsets(log) && LostOffsets(longer) == LostOffsets(log)
      && AsideOf(longer) == AsideOf(log) && LearnedFrom(env, start, longer) == LearnedFrom(env, start, log)
  {
    LogSnoc(env, start, log, AckedLine(o));
  }

  /** Acknowledging: every entry written is lawful and the table catches up with the saves. */
  lemma {:induction false} AckLog(env: Env, start: Learner, log: seq<Entry>, offsets: seq<nat>)
    requires LawfulLog(log)
    requires forall o :: o in offsets ==> o in SavedOffsets(log)
    ensures LawfulLog(log + AckEntries(offsets))
    ensures SavedOffsets(log + AckEntries(offsets)) == SavedOffsets(log)
    ensures LostOffsets(log + AckEntries(offsets)) == LostOffsets(log)
    ensures AsideOf(log + AckEntries(offsets)) == AsideOf(log)
    ensures LearnedFrom(env, start, log + AckEntries(offsets)) == LearnedFrom(env, start, log)
  {
    if offsets == [] {
      assert log + AckEntries(offsets) == log;
    } else {
      var init, last := offsets[..|offsets| - 1], offsets[|offsets| - 1];
      AckLog(env, start, log, init);
      assert log + AckEntries(offsets) == (log + AckEntries(init)) + [AckedLine(last)];
      AckOne(env, start, log + AckEntries(init), last);
    }
  }

  lemma AcknowledgeKeeps(env: Env, start: Learner, s: State)
    requires Inv(env, start, s) && s.held.None?
    ensures Inv(env, start, Acknowledge(env, s).0) && Acknowledge(env, s).0.held.None?
    ensures SavedOffsets(Acknowledge(env, s).0.log) == SavedOffsets(s.log)
    ensures LostOffsets(Acknowledge(env, s).0.log) == LostOffsets(s.log)
    ensures AsideOf(Acknowledge(env, s).0.log) == AsideOf(s.log)
  {
    match env.ack(s.calls)
    case AckFails(_) =>
    case AckOk(failsAfter) =>
      AckLog(env, start, s.log, s.unacked);
      MarkedAgrees(s.queue, SavedOffsets(s.log), LostOffsets(s.log), s.unacked, failsAfter);
  }

  lemma SendKeeps(env: Env, cfg: Config, s: State, events: seq<string>)
    ensures var after := SendToBackend(env, cfg, s, events).0;
      after == s.(backlog := after.backlog, dropped := after.dropped, retryAt := after.retryAt,
        delivered := after.delivered, calls := after.calls)
  {
  }

  lemma FlushKeeps(env: Env, cfg: Config, s: State)
    ensures var after := FlushBackend(env, cfg, s).0;
      after == s.(backlog := after.backlog, retryAt := after.retryAt, delivered := after.delivered,
        calls := after.calls)
  {
  }

  /** The table already shows what a save of pending lines makes of it. */
  lemma SavedTableAgrees(q: Queue, saved: set<nat>, lost: set<nat>, batch: seq<Row>)
    requires TableAgrees(q, saved, lost, []) && Fresh(q, saved, lost, batch)
    ensures TableAgrees(q, saved + (set o | o in Offsets(batch)), lost, Offsets(batch))
  {
    forall r | r in q.rows && r.offset in Offsets(batch) ensures r.topic == INGEST && r.status == Pending {
      OffsetsMember(batch, r.offset);
      var m :| m in batch && m.offset == r.offset;
      SameOffsetSameRow(q.rows, m, r);
    }
    forall o | o in Offsets(batch) ensures o <= q.last {
      OffsetsMember(batch, o);
      var m :| m in batch && m.offset == o;
      assert m in q.rows;
    }
  }

  /** A successful save moves the held batch to the saved lines awaiting acknowledgement. */
  lemma SaveKeeps(env: Env, start: Learner, s: State)
    requires Inv(env, start, s) && s.held.Some?
    ensures Inv(env, start, AfterSave(s, s.held.value))
    ensures SavedOffsets(AfterSave(s, s.held.value).log)
      == SavedOffsets(s.log) + (set o | o in Offsets(s.held.value.batch))
    ensures LostOffsets(AfterSave(s, s.held.value).log) == LostOffsets(s.log)
    ensures AsideOf(AfterSave(s, s.held.value).log) == AsideOf(s.log)
  {
    var held := s.held.value;
    var entry := Saved(Offsets(held.batch), Lines(held.batch), held.tick);
    OffsetsNoDup(held.batch);
    forall o | o in Offsets(held.batch) ensures o !in SavedOffsets(s.log) || o in LostOffsets(s.log) {
      OffsetsMember(held.batch, o);
    }
    LogSnoc(env, start, s.log, entry);
    SavedTableAgrees(s.queue, SavedOffsets(s.log), LostOffsets(s.log), held.batch);
  }

  // ----- what one call may touch -----

  ghost function OffsetSet(batch: seq<Row>): set<nat> {
    set m | m in batch :: m.offset
  }

  /** Only lines of `touched` are newly saved or stop being pending; nothing else is forgotten. */
  ghost predicate MovesOnly(s: State, s': State, touched: set<nat>) {
    && s.log <= s'.log
    && SavedOffsets(s.log) <= SavedOffsets(s'.log) <= SavedOffsets(s.log) + touched
    && LostOffsets(s'.log) == LostOffsets(s.log)
    && (forall r :: r in s.queue.rows && r.status == Pending && r.offset !in touched ==> r in s'.queue.rows)
    && Count(s'.queue.rows, Pending) <= Count(s.queue.rows, Pending)
    && s'.queue.last == s.queue.last
  }

  /** The same, with nothing set aside. */
  ghost predicate Moves(s: State, s': State, touched: set<nat>) {
    MovesOnly(s, s', touched) && AsideOf(s'.log) == AsideOf(s.log)
  }

  ghost predicate Idle(s: State) {
    s.held.None? && s.unacked == []
  }

  lemma MovesTrans(a: State, b: State, c: State, t: set<nat>, u: set<nat>)
    requires Moves(a, b, t) && Moves(b, c, u)
    ensures Moves(a, c, t + u)
  {
  }

  lemma OffsetSetSplit(batch: seq<Row>, middle: nat)
    requires middle <= |batch|
    ensures OffsetSet(batch) == OffsetSet(batch[..middle]) + OffsetSet(batch[middle..])
  {
    assert batch == batch[..middle] + batch[middle..];
    forall m | m in batch ensures m in batch[..middle] || m in batch[middle..] {}
    forall m | m in batch[..middle] || m in batch[middle..] ensures m in batch {}
  }

  /** A batch none of whose lines a call touched is as fresh after it as before. */
  lemma StaysFresh(s: State, s': State, touched: set<nat>, batch: seq<Row>)
    requires Moves(s, s', touched) && FreshIn(s, batch) && touched !! OffsetSet(batch)
    ensures FreshIn(s', batch)
  {
    forall m | m in batch
      ensures m in s'.queue.rows && (m.offset !in SavedOffsets(s'.log) || m.offset in LostOffsets(s'.log))
    {
      assert m.offset in OffsetSet(batch);
    }
  }

  lemma HalvesDisjoint(batch: seq<Row>, middle: nat)
    requires Increasing(batch) && middle <= |batch|
    ensures OffsetSet(batch[..middle]) !! OffsetSet(batch[middle..])
    ensures Increasing(batch[..middle]) && Increasing(batch[middle..])
  {
    forall a, b | a in batch[..middle] && b in batch[middle..] ensures a.offset < b.offset {
      var i :| 0 <= i < middle && batch[i] == a;
      var j :| 0 <= j < |batch| - middle && batch[middle..][j] == b;
      assert batch[middle + j] == b;
    }
  }

  // ----- processing, saving -----

  lemma FreshOffset(q: Queue, saved: set<nat>, lost: set<nat>, batch: seq<Row>, o: nat)
    requires Fresh(q, saved, lost, batch) && o in Offsets(batch)
    ensures o !in saved || o in lost
  {
    OffsetsMember(batch, o);
    var m :| m in batch && m.offset == o;
  }

  lemma FreshIsLawful(s: State, batch: seq<Row>)
    requires FreshIn(s, batch)
    ensures Lawful(s.log, Processed(Offsets(batch)))
  {
    var saved, lost := SavedOffsets(s.log), LostOffsets(s.log);
    forall o | o in Offsets(batch) ensures o !in saved || o in lost {
      FreshOffset(s.queue, saved, lost, batch, o);
    }
  }

  /** A processing pass over fresh lines is lawful and neither saves nor teaches by itself. */
  lemma {:induction false} PassIsLawful(env: Env, start: Learner, log: seq<Entry>, offsets: seq<nat>)
    requires LawfulLog(log) && Lawful(log, Processed(offsets))
    ensures var longer := log + [Processed(offsets)];
      && LawfulLog(longer) && SavedOffsets(longer) == SavedOffsets(log) && LostOffsets(longer) == LostOffsets(log)
      && AsideOf(longer) == AsideOf(log) && LearnedFrom(env, start, longer) == LearnedFrom(env, start, log)
  {
    LogSnoc(env, start, log, Processed(offsets));
  }

  lemma ProcessKeeps(env: Env, start: Learner, s: State, batch: seq<Row>)
    requires Inv(env, start, s) && Idle(s) && batch != [] && FreshIn(s, batch)
    ensures var p := Process(env, s, batch);
      && Inv(env, start, p.0) && Moves(s, p.0, {}) && p.0.unacked == [] && FreshIn(p.0, batch)
      && (p.1.Some? ==> p.0.held.None?)
      && (p.1.None? ==>
        p.0.held.Some? && p.0.held.value.batch == batch && p.0.held.value.before == TakeSnapshot(s.learner))
      && SavedOffsets(p.0.log) == SavedOffsets(s.log)
  {
    FreshIsLawful(s, batch);
    PassIsLawful(env, start, s.log, Offsets(batch));
    RestoreUndoes(s.learner);
  }

  lemma AckMoves(env: Env, start: Learner, s: State, touched: set<nat>)
    requires Inv(env, start, s) && s.held.None?
    requires forall o :: o in s.unacked ==> o in touched
    ensures Moves(s, Acknowledge(env, s).0, touched)
    ensures Acknowledge(env, s).1.None? ==> Idle(Acknowledge(env, s).0)
    ensures Acknowledge(env, s).1.Some? ==> Acknowledge(env, s).0.unacked == s.unacked
    ensures
      Acknowledge(env, s).1.None? && (exists r :: r in s.queue.rows && r.status == Pending && r.offset in s.unacked) ==>
      Count(Acknowledge(env, s).0.queue.rows, Pending) < Count(s.queue.rows, Pending)
  {
    AcknowledgeKeeps(env, start, s);
    match env.ack(s.calls)
    case AckFails(_) =>
    case AckOk(failsAfter) =>
      AckManyFacts(s.queue, s.unacked, failsAfter);
  }

  lemma SavedAndSent(env: Env, cfg: Config, start: Learner, s: State, sent: State)
    requires Inv(env, start, s) && s.held.Some?
    requires sent == SendToBackend(env, cfg, AfterSave(s, s.held.value),
      env.events(s.held.value.tick, Lines(s.held.value.batch))).0
    ensures Inv(env, start, sent) && Moves(s, sent, OffsetSet(s.held.value.batch))
    ensures sent.held.None? && sent.unacked == Offsets(s.held.value.batch) && sent.unacked != []
    ensures sent.log == AfterSave(s, s.held.value).log && sent.queue == s.queue
  {
    var held := s.held.value;
    SaveKeeps(env, start, s);
    SendKeeps(env, cfg, AfterSave(s, held), env.events(held.tick, Lines(held.batch)));
    OffsetsSet(held.batch);
  }

  lemma SavedAndAcked(env: Env, start: Learner, s: State, sent: State)
    requires Inv(env, start, s) && s.held.Some? && Inv(env, start, sent)
      && Moves(s, sent, OffsetSet(s.held.value.batch))
    requires sent.held.None? && sent.unacked == Offsets(s.held.value.batch)
    requires sent.log == AfterSave(s, s.held.value).log && sent.queue == s.queue
    ensures var acked := Acknowledge(env, sent);
      && Inv(env, start, acked.0) && Moves(s, acked.0, OffsetSet(s.held.value.batch)) && acked.0.held.None?
      && (acked.1.Some? ==> acked.0.unacked == sent.unacked)
      && (acked.1.None? ==> Idle(acked.0) && Progress(s, acked.0, s.held.value.batch))
  {
    var held := s.held.value;
    OffsetsSet(held.batch);
    AcknowledgeKeeps(env, start, sent);
    assert held.batch[0] in s.queue.rows && held.batch[0].offset == Offsets(held.batch)[0];
    AckMoves(env, start, sent, OffsetSet(held.batch));
    var acked := Acknowledge(env, sent);
    MovesTrans(s, sent, acked.0, OffsetSet(held.batch), OffsetSet(held.batch));
    if acked.1.None? {
      assert acked.0.log[|s.log|] == sent.log[|s.log|] == Saved(Offsets(held.batch), Lines(held.batch), held.tick);
      assert SavedSince(s.log, acked.0.log, held.batch[0].offset);
    }
  }

  lemma SaveHeldKeeps(env: Env, cfg: Config, start: Learner, s: State)
    requires Inv(env, start, s) && s.held.Some?
    ensures var r := SaveHeld(env, cfg, s);
      && Inv(env, start, r.0) && Moves(s, r.0, OffsetSet(s.held.value.batch))
      && (r.1.Raised? && r.0.unacked == [] ==> r.0 == s.(calls := r.0.calls))
      && (r.1.Raised? && r.0.unacked != [] ==> r.0.held.None?)
      && (r.1.Done? ==> Idle(r.0) && r.1.settled == |s.held.value.batch|)
      && (r.1.Done? ==> Progress(s, r.0, s.held.value.batch))
  {
    var held := s.held.value;
    if env.persist(s.calls, Lines(held.batch)).None? {
      var sent := SendToBackend(env, cfg, AfterSave(s, held), env.events(held.tick, Lines(held.batch)));
      SavedAndSent(env, cfg, start, s, sent.0);
      if sent.1.None? {
        SavedAndAcked(env, start, s, sent.0);
      }
    }
  }

  /** A line of the batch was saved by this very call, and fewer lines are pending. */
  ghost predicate Progress(s: State, s': State, batch: seq<Row>) {
    && Count(s'.queue.rows, Pending) < Count(s.queue.rows, Pending)
    && (exists m :: m in batch && SavedSince(s.log, s'.log, m.offset))
  }

  /** The line is in a save that happened after `before`. */
  ghost predicate SavedSince(before: seq<Entry>, log: seq<Entry>, offset: nat) {
    exists i :: |before| <= i < |log| && log[i].Saved? && offset in log[i].offsets
  }

  lemma OffsetsSet(batch: seq<Row>)
    ensures (set o | o in Offsets(batch)) == OffsetSet(batch)
  {
    forall o ensures o in Offsets(batch) <==> o in OffsetSet(batch) {
      OffsetsMember(batch, o);
    }
  }

  // ----- settling -----

  /** Blamed lines are still pending lines of the batch that no save contains. */
  ghost predicate SuspectsOk(s: State, batch: seq<Row>, suspects: seq<nat>) {
    forall o :: o in suspects ==> exists m :: m in batch && m.offset == o && FreshIn(s, [m])
  }

  ghost predicate SettledOk(env: Env, start: Learner, s: State, batch: seq<Row>, r: Settled) {
    && Inv(env, start, r.state)
    && Moves(s, r.state, OffsetSet(batch))
    && (r.outcome.Done? ==>
         && Idle(r.state)
         && |r.suspects| + r.outcome.settled == |batch|
         && SuspectsOk(r.state, batch, r.suspects)
         && (r.outcome.settled > 0 ==> Progress(s, r.state, batch)))
  }

  /** A batch that failed, put back. */
  function Undone(t: State, before: Snapshot): State {
    if t.held.Some? then t.(held := None, learner := Restore(before)) else t
  }

  /** What two halves settled together. */
  function Both(left: Settled, right: Settled): Settled
    requires left.outcome.Done?
  {
    if right.outcome.Raised? then right
    else Settled(right.state, Done(left.outcome.settled + right.outcome.settled), left.suspects + right.suspects)
  }

  function Halves(env: Env, cfg: Config, s: State, batch: seq<Row>): Settled
    requires |batch| > 1
  {
    var left := Settle(env, cfg, s, batch[..|batch| / 2]);
    if left.outcome.Raised? then left else Both(left, Settle(env, cfg, left.state, batch[|batch| / 2..]))
  }

  /** A batch of several lines that fails for good is put back and settled half by half. */
  lemma {:induction false} BlameSplits(env: Env, cfg: Config, t: State, before: Snapshot, fault: Fault, batch: seq<Row>)
    requires |batch| > 1 && fault != Transient && t.unacked == []
    ensures Blame(env, cfg, t, before, fault, batch) == Halves(env, cfg, Undone(t, before), batch)
  {
  }

  lemma FreshOne(s: State, batch: seq<Row>, m: Row)
    requires FreshIn(s, batch) && m in batch
    ensures FreshIn(s, [m])
  {
  }

  lemma FreshPart(s: State, batch: seq<Row>, part: seq<Row>)
    requires FreshIn(s, batch) && Increasing(part) && forall m :: m in part ==> m in batch
    ensures FreshIn(s, part)
  {
  }

  lemma {:induction false} SettleKeeps(env: Env, cfg: Config, start: Learner, s: State, batch: seq<Row>)
    requires Inv(env, start, s) && Idle(s) && batch != [] && FreshIn(s, batch)
    ensures SettledOk(env, start, s, batch, Settle(env, cfg, s, batch))
    decreases |batch|, 2
  {
    var before := TakeSnapshot(s.learner);
    ProcessKeeps(env, start, s, batch);
    var processed := Process(env, s, batch);
    MovesTouch(s, processed.0, OffsetSet(batch));
    if processed.1.Some? {
      BlameKeeps(env, cfg, start, s, processed.0, before, processed.1.value, batch);
    } else {
      SaveProcessed(env, cfg, start, s, processed.0, batch);
      var saved := SaveHeld(env, cfg, processed.0);
      if saved.1.Raised? {
        BlameKeeps(env, cfg, start, s, saved.0, before, saved.1.fault, batch);
      }
    }
  }

  lemma MovesTouch(s: State, t: State, touched: set<nat>)
    requires Moves(s, t, {})
    ensures Moves(s, t, touched)
  {
  }

  lemma SaveProcessed(env: Env, cfg: Config, start: Learner, s: State, t: State, batch: seq<Row>)
    requires Inv(env, start, t) && Moves(s, t, OffsetSet(batch)) && batch != [] && FreshIn(t, batch)
    requires SavedOffsets(t.log) == SavedOffsets(s.log)
    requires t.held.Some? && t.held.value.batch == batch
    ensures var saved := SaveHeld(env, cfg, t);
      && Inv(env, start, saved.0) && Moves(s, saved.0, OffsetSet(batch))
      && (saved.0.unacked == [] && saved.1.Raised? ==>
        FreshIn(saved.0, batch) && SavedOffsets(saved.0.log) == SavedOffsets(s.log))
      && (saved.1.Raised? && saved.0.held.Some? ==> saved.0.held == t.held)
      && (saved.1.Done? ==> SettledOk(env, start, s, batch, Settled(saved.0, saved.1, [])))
  {
    SaveHeldKeeps(env, cfg, start, t);
    var saved := SaveHeld(env, cfg, t);
    MovesTrans(s, t, saved.0, OffsetSet(batch), OffsetSet(batch));
    if saved.1.Done? {
      ProgressWiden(t, saved.0, s, saved.0, batch, batch);
    }
  }

  /** `s` is where the call started, `t` where it failed. */
  lemma {:induction false} BlameKeeps(env: Env, cfg: Config, start: Learner, s: State, t: State, before: Snapshot,
          fault: Fault, batch: seq<Row>)
    requires Inv(env, start, t) && Moves(s, t, OffsetSet(batch)) && batch != []
    requires t.unacked == [] ==> FreshIn(t, batch)
    requires t.unacked == [] ==> SavedOffsets(t.log) == SavedOffsets(s.log)
    requires t.held.Some? ==> t.held.value.batch == batch && t.held.value.before == before
    ensures SettledOk(env, start, s, batch, Blame(env, cfg, t, before, fault, batch))
    decreases |batch|, 1
  {
    if fault != Transient && t.unacked == [] {
      var undone := Undone(t, before);
      RestoreUndoes(LearnedFrom(env, start, t.log));
      assert Inv(env, start, undone) && Idle(undone) && FreshIn(undone, batch);
      if |batch| == 1 {
        assert batch[0] in batch;
        FreshOne(undone, batch, batch[0]);
      } else {
        SplitKeeps(env, cfg, start, s, undone, batch);
        BlameSplits(env, cfg, t, before, fault, batch);
      }
    }
  }

  lemma {:induction false} SplitKeeps(env: Env, cfg: Config, start: Learner, s: State, undone: State, batch: seq<Row>)
    requires Inv(env, start, undone) && Idle(undone) && FreshIn(undone, batch) && |batch| > 1
    requires Moves(s, undone, OffsetSet(batch)) && SavedOffsets(undone.log) == SavedOffsets(s.log)
    ensures SettledOk(env, start, s, batch, Halves(env, cfg, undone, batch))
    decreases |batch|, 0
  {
    var middle := |batch| / 2;
    var first, second := batch[..middle], batch[middle..];
    HalvesDisjoint(batch, middle);
    OffsetSetSplit(batch, middle);
    FreshPart(undone, batch, first);
    FreshPart(undone, batch, second);
    SettleKeeps(env, cfg, start, undone, first);
    var left := Settle(env, cfg, undone, first);
    MovesTrans(s, undone, left.state, OffsetSet(batch), OffsetSet(first));
    assert OffsetSet(batch) + OffsetSet(first) == OffsetSet(batch);
    if left.outcome.Done? {
      StaysFresh(undone, left.state, OffsetSet(first), second);
      SettleKeeps(env, cfg, start, left.state, second);
      BothKeep(env, start, s, undone, batch, left, Settle(env, cfg, left.state, second));
    }
  }

  lemma BothKeep(env: Env, start: Learner, s: State, undone: State, batch: seq<Row>, left: Settled, right: Settled)
    requires |batch| > 1 && Increasing(batch) && left.outcome.Done?
    requires Moves(s, undone, OffsetSet(batch)) && Moves(s, left.state, OffsetSet(batch))
    requires SettledOk(env, start, undone, batch[..|batch| / 2], left)
    requires SettledOk(env, start, left.state, batch[|batch| / 2..], right)
    ensures SettledOk(env, start, s, batch, Both(left, right))
  {
    var middle := |batch| / 2;
    var first, second := batch[..middle], batch[middle..];
    OffsetSetSplit(batch, middle);
    MovesTrans(s, left.state, right.state, OffsetSet(batch), OffsetSet(second));
    assert OffsetSet(batch) + OffsetSet(second) == OffsetSet(batch);
    if right.outcome.Done? {
      SuspectsJoin(left.state, right.state, batch, middle, left.suspects, right.suspects);
      if left.outcome.settled > 0 {
        ProgressWiden(undone, left.state, s, right.state, first, batch);
      }
      if right.outcome.settled > 0 {
        ProgressWiden(left.state, right.state, s, right.state, second, batch);
      }
    }
  }

  lemma ProgressWiden(a: State, b: State, s: State, t: State, part: seq<Row>, batch: seq<Row>)
    requires Progress(a, b, part) && forall m :: m in part ==> m in batch
    requires s.log <= a.log && b.log <= t.log
    requires Count(a.queue.rows, Pending) <= Count(s.queue.rows, Pending)
      && Count(t.queue.rows, Pending) <= Count(b.queue.rows, Pending)
    ensures Progress(s, t, batch)
  {
    var m :| m in part && SavedSince(a.log, b.log, m.offset);
    var i :| |a.log| <= i < |b.log| && b.log[i].Saved? && m.offset in b.log[i].offsets;
    assert t.log[i] == b.log[i];
    assert SavedSince(s.log, t.log, m.offset);
  }

  lemma SuspectsJoin(mid: State, end: State, batch: seq<Row>, middle: nat, left: seq<nat>, right: seq<nat>)
    requires Increasing(batch) && middle <= |batch|
    requires Moves(mid, end, OffsetSet(batch[middle..]))
    requires SuspectsOk(mid, batch[..middle], left) && SuspectsOk(end, batch[middle..], right)
    ensures SuspectsOk(end, batch, left + right)
  {
    HalvesDisjoint(batch, middle);
    forall o | o in left + right ensures exists m :: m in batch && m.offset == o && FreshIn(end, [m]) {
      if o in left {
        var m :| m in batch[..middle] && m.offset == o && FreshIn(mid, [m]);
        assert m.offset in OffsetSet(batch[..middle]);
        assert OffsetSet([m]) == {m.offset};
        StaysFresh(mid, end, OffsetSet(batch[middle..]), [m]);
      } else {
        var m :| m in batch[middle..] && m.offset == o && FreshIn(end, [m]);
      }
    }
  }

  // ----- setting lines aside -----

  lemma MarkAsideAgrees(q: Queue, saved: set<nat>, lost: set<nat>, offset: nat)
    requires TableAgrees(q, saved, lost, []) && (offset !in saved || offset in lost)
    ensures TableAgrees(q.(rows := Mark(q.rows, [offset], DeadLetter)), saved, lost, [])
  {
    MarkAt(q.rows, [offset], DeadLetter);
    forall r | r in Mark(q.rows, [offset], DeadLetter)
      ensures 1 <= r.offset <= q.last
      ensures r.topic == INGEST && r.status == Acked ==> r.offset in saved
      ensures r.offset in saved && r.offset !in lost ==> r.topic == INGEST && r.status == Acked
    {
      MarkedFrom(q.rows, [offset], DeadLetter, r);
    }
  }

  lemma AsideOne(env: Env, start: Learner, s: State, offset: nat)
    requires Inv(env, start, s) && Idle(s)
    requires offset !in SavedOffsets(s.log) || offset in LostOffsets(s.log)
    ensures Inv(env, start, AfterAside(s, offset)) && Idle(AfterAside(s, offset))
    ensures MovesOnly(s, AfterAside(s, offset), {offset})
    ensures AsideOf(AfterAside(s, offset).log) == AsideOf(s.log) + [offset]
    ensures SavedOffsets(AfterAside(s, offset).log) == SavedOffsets(s.log)
  {
    LogSnoc(env, start, s.log, SetAside(offset));
    MarkAsideAgrees(s.queue, SavedOffsets(s.log), LostOffsets(s.log), offset);
    OtherRowsStay(s.queue.rows, offset);
  }

  lemma {:induction false} OtherRowsStay(rows: seq<Row>, offset: nat)
    ensures forall r :: r in rows && r.offset != offset ==> r in Mark(rows, [offset], DeadLetter)
    ensures Count(Mark(rows, [offset], DeadLetter), Pending) <= Count(rows, Pending)
  {
    MarkCount(rows, [offset], DeadLetter);
    MarkAt(rows, [offset], DeadLetter);
    forall r | r in rows && r.offset != offset ensures r in Mark(rows, [offset], DeadLetter) {
      var i :| 0 <= i < |rows| && rows[i] == r;
      assert Mark(rows, [offset], DeadLetter)[i] == r;
    }
  }

  ghost predicate NotSaved(s: State, offsets: seq<nat>) {
    forall o :: o in offsets ==> o !in SavedOffsets(s.log) || o in LostOffsets(s.log)
  }

  /** Where setting lines aside one by one may stop. */
  ghost predicate AsideUpTo(s: State, s': State, suspects: seq<nat>) {
    exists k :: 0 <= k <= |suspects| && AsideOf(s'.log) == AsideOf(s.log) + suspects[..k]
  }

  lemma AsideUpToCons(s: State, t: State, u: State, suspects: seq<nat>)
    requires suspects != [] && AsideOf(t.log) == AsideOf(s.log) + [suspects[0]]
    requires AsideUpTo(t, u, suspects[1..])
    ensures AsideUpTo(s, u, suspects)
    ensures AsideOf(u.log) == AsideOf(t.log) + suspects[1..] ==> AsideOf(u.log) == AsideOf(s.log) + suspects
  {
    var k :| 0 <= k <= |suspects| - 1 && AsideOf(u.log) == AsideOf(t.log) + suspects[1..][..k];
    var before, rest := AsideOf(s.log), suspects[1..];
    assert suspects[..k + 1] == [suspects[0]] + rest[..k] && suspects == [suspects[0]] + rest;
    assert before + [suspects[0]] + rest[..k] == before + ([suspects[0]] + rest[..k]);
    assert before + [suspects[0]] + rest == before + ([suspects[0]] + rest);
    assert AsideOf(u.log) == before + suspects[..k + 1];
  }

  /** What setting aside `suspects` may leave, and what it must when nothing fails. */
  ghost predicate AsideOk(env: Env, start: Learner, s: State, suspects: seq<nat>, r: (State, Option<Fault>)) {
    && Inv(env, start, r.0) && Idle(r.0)
    && MovesOnly(s, r.0, set o | o in suspects)
    && SavedOffsets(r.0.log) == SavedOffsets(s.log)
    && AsideUpTo(s, r.0, suspects)
    && (r.1.None? ==> AsideOf(r.0.log) == AsideOf(s.log) + suspects)
  }

  lemma AsideStep(env: Env, start: Learner, s: State, suspects: seq<nat>, t: State, r: (State, Option<Fault>))
    requires suspects != [] && MovesOnly(s, t, {suspects[0]}) && AsideOf(t.log) == AsideOf(s.log) + [suspects[0]]
    requires SavedOffsets(t.log) == SavedOffsets(s.log)
    requires AsideOk(env, start, t, suspects[1..], r)
    ensures AsideOk(env, start, s, suspects, r)
  {
    AsideUpToCons(s, t, r.0, suspects);
    assert {suspects[0]} + (set o | o in suspects[1..]) == (set o | o in suspects);
    OnlyTrans(s, t, r.0, {suspects[0]}, set o | o in suspects[1..]);
  }

  /** The first line was set aside, and then something failed. */
  lemma {:induction false} OneAside(env: Env, start: Learner, s: State, suspects: seq<nat>)
    requires suspects != [] && env.setAside(s.calls).AcceptsThenFails?
    requires var t := AfterAside(s, suspects[0]);
      && Inv(env, start, t) && Idle(t) && MovesOnly(s, t, {suspects[0]})
      && SavedOffsets(t.log) == SavedOffsets(s.log) && AsideOf(t.log) == AsideOf(s.log) + [suspects[0]]
    ensures AsideOk(env, start, s, suspects, SetAsideAll(env, s, suspects))
  {
    assert suspects[..1] == [suspects[0]];
    assert {suspects[0]} <= (set o | o in suspects);
  }

  lemma {:induction false} SetAsideKeeps(env: Env, start: Learner, s: State, suspects: seq<nat>)
    requires Inv(env, start, s) && Idle(s) && NotSaved(s, suspects)
    ensures AsideOk(env, start, s, suspects, SetAsideAll(env, s, suspects))
    decreases |suspects|
  {
    if suspects == [] || env.setAside(s.calls).Refuses? {
      assert AsideOf(s.log) == AsideOf(s.log) + suspects[..0];
    } else if env.setAside(s.calls).AcceptsThenFails? {
      AsideOne(env, start, s, suspects[0]);
      OneAside(env, start, s, suspects);
    } else {
      AsideOne(env, start, s, suspects[0]);
      SetAsideKeeps(env, start, AfterAside(s, suspects[0]), suspects[1..]);
      AsideStep(env, start, s, suspects, AfterAside(s, suspects[0]),
        SetAsideAll(env, AfterAside(s, suspects[0]), suspects[1..]));
    }
  }

  lemma OnlyTrans(a: State, b: State, c: State, t: set<nat>, u: set<nat>)
    requires MovesOnly(a, b, t) && MovesOnly(b, c, u)
    ensures MovesOnly(a, c, t + u)
  {
  }

  // ----- a whole batch -----

  /** A line is set aside only if a line beside it was saved by the same call. */
  ghost predicate BlameIsFair(s: State, s': State, batch: seq<Row>) {
    AsideOf(s'.log) == AsideOf(s.log)
    || (exists m :: m in batch && SavedSince(s.log, s'.log, m.offset))
  }

  ghost predicate BatchOk(env: Env, start: Learner, s: State, batch: seq<Row>, r: (State, Outcome)) {
    && Inv(env, start, r.0)
    && MovesOnly(s, r.0, OffsetSet(batch))
    && BlameIsFair(s, r.0, batch)
    && (r.1.Done? ==> Idle(r.0) && Count(r.0.queue.rows, Pending) < Count(s.queue.rows, Pending))
  }

  lemma SettleBatchKeeps(env: Env, cfg: Config, start: Learner, s: State, batch: seq<Row>)
    requires Inv(env, start, s) && Idle(s) && batch != [] && FreshIn(s, batch)
    ensures BatchOk(env, start, s, batch, SettleBatch(env, cfg, s, batch))
  {
    SettleKeeps(env, cfg, start, s, batch);
    var settled := Settle(env, cfg, s, batch);
    if settled.outcome.Done? && settled.outcome.settled > 0 {
      AfterSettling(env, start, s, settled, batch);
    }
  }

  lemma {:induction false} AfterSettling(env: Env, start: Learner, s: State, settled: Settled, batch: seq<Row>)
    requires SettledOk(env, start, s, batch, settled) && settled.outcome.Done? && settled.outcome.settled > 0
    ensures var aside := SetAsideAll(env, settled.state, settled.suspects);
      BatchOk(env, start, s, batch, (aside.0, if aside.1.Some? then Raised(aside.1.value) else settled.outcome))
  {
    SetAsideKeeps(env, start, settled.state, settled.suspects);
    var aside := SetAsideAll(env, settled.state, settled.suspects);
    var touched := set o | o in settled.suspects;
    assert touched <= OffsetSet(batch);
    OnlyTrans(s, settled.state, aside.0, OffsetSet(batch), touched);
    assert OffsetSet(batch) + touched == OffsetSet(batch);
    var m :| m in batch && SavedSince(s.log, settled.state.log, m.offset);
    SavedSinceGrows(s.log, settled.state.log, aside.0.log, m.offset);
  }

  lemma SavedSinceGrows(before: seq<Entry>, log: seq<Entry>, longer: seq<Entry>, offset: nat)
    requires SavedSince(before, log, offset) && log <= longer
    ensures SavedSince(before, longer, offset)
  {
    var i :| |before| <= i < |log| && log[i].Saved? && offset in log[i].offsets;
    assert longer[i] == log[i];
  }

  // ----- one turn of the drain loop -----

  lemma {:induction false} OnTopicFacts(batch: seq<Row>, ingest: bool)
    requires Increasing(batch)
    ensures Increasing(OnTopic(batch, ingest))
    ensures forall m :: m in OnTopic(batch, ingest) ==> m in batch && (m.topic == INGEST) == ingest
    ensures forall m :: m in batch && (m.topic == INGEST) == ingest ==> m in OnTopic(batch, ingest)
  {
    if batch != [] {
      OnTopicFacts(batch[1..], ingest);
      var rest := OnTopic(batch[1..], ingest);
      forall j | 0 <= j < |rest| ensures batch[0].offset < rest[j].offset {
        assert rest[j] in batch[1..];
      }
      assert forall m :: m in batch <==> m == batch[0] || m in batch[1..];
    }
  }

  ghost predicate TurnOk(env: Env, start: Learner, s: State, batchSize: nat, r: (State, Turn)) {
    && Inv(env, start, r.0)
    && s.log <= r.0.log
    && (r.1.Continues? ==> Idle(r.0) && Count(r.0.queue.rows, Pending) < Count(s.queue.rows, Pending))
    && (r.1.Finished? ==> Idle(r.0) && (batchSize > 0 ==> Count(r.0.queue.rows, Pending) == 0))
  }

  lemma ClearOther(env: Env, start: Learner, s: State, other: seq<Row>, failAfter: Option<nat>, calls: nat)
    requires Inv(env, start, s) && Idle(s) && other != []
    requires forall r :: r in other ==> r in s.queue.rows && r.status == Pending && r.topic != INGEST
    ensures var after := s.(calls := calls, queue := AckMany(s.queue, Offsets(other), failAfter));
      && Inv(env, start, after) && Idle(after)
      && Count(after.queue.rows, Pending) < Count(s.queue.rows, Pending)
      && (forall r :: r in s.queue.rows && r.status == Pending && r.topic == INGEST ==> r in after.queue.rows)
  {
    OtherAckAgrees(s.queue, SavedOffsets(s.log), LostOffsets(s.log), other, failAfter);
    AckManyFacts(s.queue, Offsets(other), failAfter);
    OffsetsMember(other, other[0].offset);
    assert other[0] in s.queue.rows;
    forall r | r in s.queue.rows && r.status == Pending && r.topic == INGEST ensures r.offset !in Offsets(other) {
      OffsetsMember(other, r.offset);
      if m :| m in other && m.offset == r.offset {
        SameOffsetSameRow(s.queue.rows, m, r);
      }
    }
  }

  /** Pulled lines are never ones already saved, except those a restart forgot. */
  lemma {:induction false} PulledAreFresh(env: Env, start: Learner, s: State, limit: nat)
    requires Inv(env, start, s) && Idle(s)
    ensures FreshIn(s, OnTopic(Pull(s.queue.rows, limit), true))
    ensures forall r :: r in OnTopic(Pull(s.queue.rows, limit), false) ==>
      r in s.queue.rows && r.status == Pending && r.topic != INGEST
  {
    PullIn(s.queue.rows, limit);
    OnTopicFacts(Pull(s.queue.rows, limit), true);
    OnTopicFacts(Pull(s.queue.rows, limit), false);
  }

  lemma {:induction false} SomeTopic(pulled: seq<Row>)
    requires pulled != []
    ensures OnTopic(pulled, false) != [] || OnTopic(pulled, true) != []
  {
  }

  /** A pull with nothing but lines. */
  lemma {:induction false} PullLinesKeeps(env: Env, cfg: Config, start: Learner, s: State, batchSize: nat)
    requires Inv(env, start, s) && Idle(s) && Pull(s.queue.rows, batchSize) != []
    requires OnTopic(Pull(s.queue.rows, batchSize), false) == []
    ensures TurnOk(env, start, s, batchSize, PullAndSettle(env, cfg, s, batchSize))
  {
    var pulled := Pull(s.queue.rows, batchSize);
    PulledAreFresh(env, start, s, batchSize);
    SomeTopic(pulled);
    SettleBatchKeeps(env, cfg, start, s, OnTopic(pulled, true));
  }

  /** Other messages are acknowledged first, then the lines are settled. */
  lemma OthersThenLines(env: Env, cfg: Config, start: Learner, s: State, batchSize: nat, other: seq<Row>,
          batch: seq<Row>, failAfter: Option<nat>)
    requires Inv(env, start, s) && Idle(s) && other != [] && FreshIn(s, batch)
    requires forall r :: r in other ==> r in s.queue.rows && r.status == Pending && r.topic != INGEST
    ensures var cleared := s.(calls := s.calls + 1, queue := AckMany(s.queue, Offsets(other), failAfter));
      TurnOk(env, start, s, batchSize, SettleLines(env, cfg, cleared, batch))
  {
    ClearOther(env, start, s, other, failAfter, s.calls + 1);
    var cleared := s.(calls := s.calls + 1, queue := AckMany(s.queue, Offsets(other), failAfter));
    if batch != [] { SettleBatchKeeps(env, cfg, start, cleared, batch); }
  }

  lemma {:induction false} PullWithOthers(env: Env, cfg: Config, s: State, batchSize: nat)
    requires Pull(s.queue.rows, batchSize) != [] && OnTopic(Pull(s.queue.rows, batchSize), false) != []
    ensures var pulled := Pull(s.queue.rows, batchSize);
      var called := s.(calls := s.calls + 1);
      match env.ack(s.calls)
      case AckFails(fault) => PullAndSettle(env, cfg, s, batchSize) == (called, Stops(fault))
      case AckOk(failAfter) =>
        var cleared := called.(queue := AckMany(s.queue, Offsets(OnTopic(pulled, false)), failAfter));
        PullAndSettle(env, cfg, s, batchSize) == SettleLines(env, cfg, cleared, OnTopic(pulled, true))
  {
  }

  lemma CalledKeeps(env: Env, start: Learner, s: State, batchSize: nat, fault: Fault)
    requires Inv(env, start, s)
    ensures TurnOk(env, start, s, batchSize, (s.(calls := s.calls + 1), Stops(fault)))
  {
  }

  lemma {:induction false} PullOthersKeeps(env: Env, cfg: Config, start: Learner, s: State, batchSize: nat)
    requires Inv(env, start, s) && Idle(s) && Pull(s.queue.rows, batchSize) != []
    requires OnTopic(Pull(s.queue.rows, batchSize), false) != []
    ensures TurnOk(env, start, s, batchSize, PullAndSettle(env, cfg, s, batchSize))
  {
    var pulled := Pull(s.queue.rows, batchSize);
    PulledAreFresh(env, start, s, batchSize);
    PullWithOthers(env, cfg, s, batchSize);
    match env.ack(s.calls)
    case AckFails(fault) => CalledKeeps(env, start, s, batchSize, fault);
    case AckOk(failAfter) =>
      OthersThenLines(env, cfg, start, s, batchSize, OnTopic(pulled, false), OnTopic(pulled, true), failAfter);
  }

  lemma PullKeeps(env: Env, cfg: Config, start: Learner, s: State, batchSize: nat)
    requires Inv(env, start, s) && Idle(s)
    ensures TurnOk(env, start, s, batchSize, PullAndSettle(env, cfg, s, batchSize))
  {
    var pulled := Pull(s.queue.rows, batchSize);
    PullIn(s.queue.rows, batchSize);
    if pulled != [] && OnTopic(pulled, false) == [] {
      PullLinesKeeps(env, cfg, start, s, batchSize);
    } else if pulled != [] {
      PullOthersKeeps(env, cfg, start, s, batchSize);
    }
  }

  lemma RetryKeeps(env: Env, cfg: Config, start: Learner, s: State)
    requires Inv(env, start, s) && s.held.Some?
    ensures var r := RetryHeld(env, cfg, s);
      TurnOk(env, start, s, 1, (r.0, TurnOf(r.1)))
  {
    var held := s.held.value;
    SaveHeldKeeps(env, cfg, start, s);
    var saved := SaveHeld(env, cfg, s);
    if saved.1.Raised? && saved.1.fault != Transient && saved.0.unacked == [] {
      RestoreUndoes(LearnedFrom(env, start, s.log));
      var undone := saved.0.(held := None, learner := Restore(held.before));
      assert Inv(env, start, undone) && Idle(undone) && FreshIn(undone, held.batch);
      SettleBatchKeeps(env, cfg, start, undone, held.batch);
    }
  }

  /** Every turn of the loop keeps the invariant; a turn after which the loop goes on leaves fewer
      pending rows, so draining terminates; and it only finishes with nothing pending. */
  lemma TurnKeeps(env: Env, cfg: Config, start: Learner, s: State, batchSize: nat)
    requires Inv(env, start, s)
    ensures TurnOk(env, start, s, batchSize, DrainTurn(env, cfg, s, batchSize))
  {
    if s.unacked != [] {
      AcknowledgeKeeps(env, start, s);
      AckMoves(env, start, s, set o | o in s.unacked);
      var acked := Acknowledge(env, s);
      if acked.1.None? {
        PullKeeps(env, cfg, start, acked.0, batchSize);
      }
    } else if s.held.Some? {
      RetryKeeps(env, cfg, start, s);
    } else {
      PullKeeps(env, cfg, start, s, batchSize);
    }
  }
}
