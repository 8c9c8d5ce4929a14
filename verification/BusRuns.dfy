/** What holds over every run of the durable queue. */
module BusRuns {
  import opened Common
  import opened Bus

  datatype Op =
    | DoPush(topic: string, payloads: seq<string>, maxPending: Option<int>)
    | DoAck(offsets: seq<nat>, compactionFailsAfter: Option<nat>)
    | DoSetAside(offset: nat)
    | DoRequeue
    | DoCompact(failsAfter: Option<nat>)
    | DoCompactUpTo(maxAcked: int)
    | DoReopen

  /** The queue with its history: what was pushed at each offset, which offsets were ever
      acknowledged, and whether the last compaction due failed too early. */
  datatype History = History(q: Queue, pushed: seq<(string, string)>, acked: set<nat>, overrun: bool)

  const FRESH := History(EMPTY, [], {}, false)

  function Pairs(topic: string, payloads: seq<string>): (r: seq<(string, string)>)
    ensures |r| == |payloads| && forall i :: 0 <= i < |r| ==> r[i] == (topic, payloads[i])
  {
    seq(|payloads|, i requires 0 <= i < |payloads| => (topic, payloads[i]))
  }

  function AckedOffsets(rows: seq<Row>): set<nat> {
    set r | r in rows && r.status == Acked :: r.offset
  }

  predicate Due(q: Queue, offsets: seq<nat>) {
    q.acksSinceCompact + |offsets| >= COMPACT_AFTER_ACKS
  }

  /** The compaction an acknowledgement makes due can fail after so few chunks that more
      acknowledged rows remain than the threshold its counter then falls back to. */
  predicate FailsTooEarly(q: Queue, offsets: seq<nat>, failsAfter: Option<nat>) {
    && failsAfter.Some?
    && Count(Mark(q.rows, offsets, Acked), Acked) > COMPACT_AFTER_ACKS + 1 + failsAfter.value * COMPACT_CHUNK
  }

  function Apply(h: History, op: Op): History {
    match op
    case DoPush(topic, payloads, maxPending) =>
      var q := PushMany(h.q, topic, payloads, maxPending);
      h.(q := q, pushed := h.pushed + Pairs(topic, payloads[..Room(h.q, |payloads|, maxPending)]))
    case DoAck(offsets, failsAfter) =>
      var marked := Mark(h.q.rows, offsets, Acked);
      h.(q := AckMany(h.q, offsets, failsAfter),
         acked := h.acked + AckedOffsets(marked),
         overrun := if Due(h.q, offsets) then FailsTooEarly(h.q, offsets, failsAfter) else h.overrun)
    case DoSetAside(offset) =>
      h.(q := h.q.(rows := Mark(h.q.rows, [offset], DeadLetter)))
    case DoRequeue =>
      h.(q := h.q.(rows := Requeue(h.q.rows)))
    case DoCompact(failsAfter) =>
      h.(q := h.q.(rows := CompactAcked(h.q.rows, failsAfter).0))
    case DoCompactUpTo(maxAcked) =>
      h.(q := h.q.(rows := DeleteAckedUpTo(h.q.rows, maxAcked)))
    case DoReopen =>
      h.(q := h.q.(acksSinceCompact := Count(h.q.rows, Acked)), overrun := false)
  }

  function Run(h: History, ops: seq<Op>): History
    decreases |ops|
  {
    if ops == [] then h else Run(Apply(h, ops[0]), ops[1..])
  }

  predicate WasPushed(pushed: seq<(string, string)>, r: Row) {
    1 <= r.offset <= |pushed| && (r.topic, r.payload) == pushed[r.offset - 1]
  }

  /** Offsets are handed out once and in order, and each row still holds what was pushed at its
      offset; a row that is gone was acknowledged before it went. */
  ghost predicate Sound(h: History) {
    && Increasing(h.q.rows)
    && h.q.last == |h.pushed|
    && (forall r :: r in h.q.rows ==> WasPushed(h.pushed, r))
    && (forall r :: r in h.q.rows && r.status == Acked ==> r.offset in h.acked)
    && (forall o :: 1 <= o <= h.q.last ==> o in h.acked || HasRow(h.q.rows, o))
  }

  ghost predicate HasRow(rows: seq<Row>, o: nat) {
    exists r :: r in rows && r.offset == o
  }

  /** The acknowledgement counter bounds the acknowledged rows that are still stored. */
  predicate Within(q: Queue) {
    Count(q.rows, Acked) <= q.acksSinceCompact + 1
  }

  predicate Bounded(h: History) {
    !h.overrun ==> Within(h.q)
  }

  lemma {:induction false} DeleteUpToFacts(rows: seq<Row>, ceiling: int)
    ensures Subsequence(DeleteAckedUpTo(rows, ceiling), rows)
    ensures forall r :: r in rows && r !in DeleteAckedUpTo(rows, ceiling) ==> r.status == Acked
    ensures Count(DeleteAckedUpTo(rows, ceiling), Acked) <= Count(rows, Acked)
  {
    if rows != [] {
      DeleteUpToFacts(rows[1..], ceiling);
      var part := DeleteAckedUpTo(rows, ceiling);
      if rows[0].status == Acked && (ceiling < 0 || rows[0].offset <= ceiling) {
        SubsequenceCons(part, rows);
      } else {
        assert part[1..] == DeleteAckedUpTo(rows[1..], ceiling);
      }
    }
  }

  /** Deleting acknowledged rows keeps a sound history sound. */
  lemma {:induction false} DeletingKeeps(h: History, rows: seq<Row>, acks: nat)
    requires Sound(h) && Subsequence(rows, h.q.rows)
    requires forall r :: r in h.q.rows && r !in rows ==> r.status == Acked
    ensures Sound(h.(q := Queue(rows, h.q.last, acks)))
  {
    SubsequenceIn(rows, h.q.rows);
    SubsequenceIncreasing(rows, h.q.rows);
    forall o | 1 <= o <= h.q.last && o !in h.acked ensures HasRow(rows, o) {
      var r :| r in h.q.rows && r.offset == o;
      assert r in rows;
    }
  }

  lemma PushKeeps(h: History, topic: string, payloads: seq<string>, maxPending: Option<int>)
    requires Sound(h)
    ensures Sound(Apply(h, DoPush(topic, payloads, maxPending)))
  {
    var room := Room(h.q, |payloads|, maxPending);
    var added := Inserted(topic, payloads[..room], h.q.last + 1);
    InsertedAt(topic, payloads[..room], h.q.last + 1);
    AppendingKeeps(h, added, Pairs(topic, payloads[..room]));
  }

  lemma AppendingKeeps(h: History, added: seq<Row>, pairs: seq<(string, string)>)
    requires Sound(h) && |added| == |pairs|
    requires forall i :: 0 <= i < |added| ==> added[i] == Row(h.q.last + 1 + i, pairs[i].0, pairs[i].1, Pending)
    ensures Sound(h.(
      q := Queue(h.q.rows + added, h.q.last + |added|, h.q.acksSinceCompact),
      pushed := h.pushed + pairs))
  {
    var rows := h.q.rows + added;
    forall r | r in rows ensures WasPushed(h.pushed + pairs, r) && (r.status == Acked ==> r.offset in h.acked) {
      AppendedWasPushed(h, added, pairs, r);
    }
    forall i, j | 0 <= i < j < |rows| ensures rows[i].offset < rows[j].offset {
      if i < |h.q.rows| <= j { assert WasPushed(h.pushed, rows[i]); }
    }
    forall o | 1 <= o <= h.q.last + |added| ensures o in h.acked || HasRow(rows, o) {
      AppendedHasRow(h, added, o);
    }
  }

  lemma AppendedWasPushed(h: History, added: seq<Row>, pairs: seq<(string, string)>, r: Row)
    requires Sound(h) && |added| == |pairs| && r in h.q.rows + added
    requires forall i :: 0 <= i < |added| ==> added[i] == Row(h.q.last + 1 + i, pairs[i].0, pairs[i].1, Pending)
    ensures WasPushed(h.pushed + pairs, r) && (r.status == Acked ==> r.offset in h.acked)
  {
    if r in h.q.rows { assert WasPushed(h.pushed, r); }
  }

  lemma AppendedHasRow(h: History, added: seq<Row>, o: nat)
    requires Sound(h) && 1 <= o <= h.q.last + |added|
    requires forall i :: 0 <= i < |added| ==> added[i].offset == h.q.last + 1 + i
    ensures o in h.acked || HasRow(h.q.rows + added, o)
  {
    if o > h.q.last {
      assert added[o - h.q.last - 1] in h.q.rows + added;
    } else if o !in h.acked {
      var r :| r in h.q.rows && r.offset == o;
      assert r in h.q.rows + added;
    }
  }

  /** Only statuses differ. */
  ghost predicate Restatused(was: seq<Row>, now: seq<Row>) {
    |was| == |now| && forall i :: 0 <= i < |now| ==> now[i] == was[i].(status := now[i].status)
  }

  lemma RestatusedHasRow(was: seq<Row>, now: seq<Row>, o: nat)
    requires Restatused(was, now) && HasRow(was, o)
    ensures HasRow(now, o)
  {
    var r :| r in was && r.offset == o;
    var i :| 0 <= i < |was| && was[i] == r;
    assert now[i] in now;
  }

  lemma RestatusedRow(was: seq<Row>, now: seq<Row>, r: Row) returns (before: Row)
    requires Restatused(was, now) && r in now
    ensures before in was && r == before.(status := r.status)
  {
    var i :| 0 <= i < |now| && now[i] == r;
    before := was[i];
  }

  /** Any rewrite that only changes statuses keeps soundness, once new acknowledgements are noted. */
  lemma RestatusKeeps(h: History, rows: seq<Row>, acked: set<nat>)
    requires Sound(h) && Restatused(h.q.rows, rows)
    requires h.acked <= acked && AckedOffsets(rows) <= acked
    ensures Sound(h.(q := h.q.(rows := rows), acked := acked))
  {
    forall o | 1 <= o <= h.q.last && o !in acked ensures HasRow(rows, o) {
      RestatusedHasRow(h.q.rows, rows, o);
    }
    forall r | r in rows ensures WasPushed(h.pushed, r) && (r.status == Acked ==> r.offset in acked) {
      var was := RestatusedRow(h.q.rows, rows, r);
      assert WasPushed(h.pushed, was);
      assert r.status == Acked ==> r.offset in AckedOffsets(rows);
    }
  }

  lemma AckKeeps(h: History, offsets: seq<nat>, failsAfter: Option<nat>)
    requires Sound(h)
    ensures Sound(Apply(h, DoAck(offsets, failsAfter)))
  {
    var marked := Mark(h.q.rows, offsets, Acked);
    MarkAt(h.q.rows, offsets, Acked);
    var acked := h.acked + AckedOffsets(marked);
    RestatusKeeps(h, marked, acked);
    var noted := h.(q := h.q.(rows := marked), acked := acked);
    CompactKeeps(marked, failsAfter);
    SubsequenceRefl(marked);
    var after := Apply(h, DoAck(offsets, failsAfter));
    DeletingKeeps(noted, after.q.rows, after.q.acksSinceCompact);
  }

  lemma SoundStep(h: History, op: Op)
    requires Sound(h)
    ensures Sound(Apply(h, op))
  {
    var rows := h.q.rows;
    match op
    case DoPush(topic, payloads, maxPending) => PushKeeps(h, topic, payloads, maxPending);
    case DoAck(offsets, failsAfter) => AckKeeps(h, offsets, failsAfter);
    case DoSetAside(offset) =>
      MarkAt(rows, [offset], DeadLetter);
      RestatusKeeps(h, Mark(rows, [offset], DeadLetter), h.acked);
    case DoRequeue =>
      RequeueAt(rows);
      RestatusKeeps(h, Requeue(rows), h.acked);
    case DoCompact(failsAfter) =>
      CompactKeeps(rows, failsAfter);
      DeletingKeeps(h, CompactAcked(rows, failsAfter).0, h.q.acksSinceCompact);
    case DoCompactUpTo(maxAcked) =>
      DeleteUpToFacts(rows, maxAcked);
      DeletingKeeps(h, DeleteAckedUpTo(rows, maxAcked), h.q.acksSinceCompact);
    case DoReopen =>
      SubsequenceRefl(rows);
      DeletingKeeps(h, rows, Count(rows, Acked));
  }

  lemma {:induction false} InsertedNotAcked(topic: string, payloads: seq<string>, first: nat)
    ensures Count(Inserted(topic, payloads, first), Acked) == 0
  {
    InsertedAt(topic, payloads, first);
    CountZero(Inserted(topic, payloads, first), Acked);
  }

  lemma {:induction false} SetAsideCount(rows: seq<Row>, offset: nat)
    ensures Count(Mark(rows, [offset], DeadLetter), Acked) <= Count(rows, Acked)
  {
    if rows != [] {
      SetAsideCount(rows[1..], offset);
      assert Mark(rows, [offset], DeadLetter)[1..] == Mark(rows[1..], [offset], DeadLetter);
    }
  }

  /** A complete compaction leaves at most the newest acknowledged row. */
  lemma {:induction false} CompactLeavesOne(rows: seq<Row>, failAfter: Option<nat>)
    requires Increasing(rows) && CompactAcked(rows, failAfter).1
    ensures Count(CompactAcked(rows, failAfter).0, Acked) <= 1
  {
    CompactKeeps(rows, failAfter);
    CheckpointBounds(rows);
    SurvivorsAcked(rows, Checkpoint(rows));
  }

  lemma {:induction false} DeleteChunkCount(rows: seq<Row>, ceiling: int, limit: nat)
    ensures Count(DeleteChunk(rows, ceiling, limit).0, Acked) + DeleteChunk(rows, ceiling, limit).1
      == Count(rows, Acked)
  {
    if rows != [] {
      if limit > 0 && rows[0].status == Acked && rows[0].offset <= ceiling {
        DeleteChunkCount(rows[1..], ceiling, limit - 1);
      } else {
        DeleteChunkCount(rows[1..], ceiling, limit);
        var chunk := DeleteChunk(rows, ceiling, limit);
        assert chunk.0[1..] == DeleteChunk(rows[1..], ceiling, limit).0;
      }
    }
  }

  /** A compaction that fails after `chunks` deletes has deleted that many full chunks; one that
      completes before that has deleted fewer rows. */
  lemma {:induction false} CompactCounts(rows: seq<Row>, chunks: nat)
    ensures var r := CompactAcked(rows, Some(chunks));
      if r.1 then Count(rows, Acked) <= Count(r.0, Acked) + chunks * COMPACT_CHUNK
      else Count(rows, Acked) == Count(r.0, Acked) + chunks * COMPACT_CHUNK
    decreases chunks
  {
    if chunks > 0 {
      var chunk := DeleteChunk(rows, Checkpoint(rows) - 1, COMPACT_CHUNK);
      DeleteChunkCount(rows, Checkpoint(rows) - 1, COMPACT_CHUNK);
      if chunk.1 >= COMPACT_CHUNK { CompactCounts(chunk.0, chunks - 1); }
    }
  }

  /** When the compaction an acknowledgement makes due can fail, the bound holds afterwards if and
      only if it does not fail too early. */
  lemma BoundAfterDueIff(q: Queue, offsets: seq<nat>, failsAfter: Option<nat>)
    requires Increasing(q.rows) && Due(q, offsets)
    ensures Within(AckMany(q, offsets, failsAfter)) <==> !FailsTooEarly(q, offsets, failsAfter)
  {
    var marked := Mark(q.rows, offsets, Acked);
    MarkAt(q.rows, offsets, Acked);
    CompactKeeps(marked, failsAfter);
    if failsAfter.Some? { CompactCounts(marked, failsAfter.value); }
    if CompactAcked(marked, failsAfter).1 { CompactLeavesOne(marked, failsAfter); }
  }

  lemma BoundedStep(h: History, op: Op)
    requires Sound(h) && Bounded(h)
    ensures Bounded(Apply(h, op))
  {
    var rows := h.q.rows;
    match op
    case DoPush(topic, payloads, maxPending) =>
      var room := Room(h.q, |payloads|, maxPending);
      InsertedNotAcked(topic, payloads[..room], h.q.last + 1);
      CountSplit(rows, Inserted(topic, payloads[..room], h.q.last + 1), Acked);
    case DoAck(offsets, failsAfter) =>
      if Due(h.q, offsets) { BoundAfterDueIff(h.q, offsets, failsAfter); } else { MarkCountAcked(rows, offsets); }
    case DoSetAside(offset) => SetAsideCount(rows, offset);
    case DoRequeue => RequeueCounts(rows);
    case DoCompact(failsAfter) =>
      CompactKeeps(rows, failsAfter);
      SubsequenceCount(CompactAcked(rows, failsAfter).0, rows, Acked);
    case DoCompactUpTo(maxAcked) => DeleteUpToFacts(rows, maxAcked);
    case DoReopen =>
  }

  /** Over every run: offsets strictly increase, each pushed row is still stored unchanged or was
      acknowledged before it was deleted, and the acknowledged rows stay bounded unless the last
      compaction due failed too early. */
  lemma {:induction false} EveryRun(h: History, ops: seq<Op>)
    requires Sound(h) && Bounded(h)
    ensures Sound(Run(h, ops)) && Bounded(Run(h, ops))
    decreases |ops|
  {
    if ops != [] {
      SoundStep(h, ops[0]);
      BoundedStep(h, ops[0]);
      EveryRun(Apply(h, ops[0]), ops[1..]);
    }
  }

  /** In particular over every run from the empty queue. */
  lemma {:induction false} EveryRunFromEmpty(ops: seq<Op>)
    ensures Sound(Run(FRESH, ops)) && Bounded(Run(FRESH, ops))
  {
    EveryRun(FRESH, ops);
  }

  /** A row that is pending or set aside leaves the queue only by being acknowledged first. */
  lemma {:induction false} UnackedRowsStay(h: History, ops: seq<Op>, r: Row)
    requires Sound(h) && r in h.q.rows
    requires r.offset !in Run(h, ops).acked
    ensures exists kept ::
      kept in Run(h, ops).q.rows && kept.offset == r.offset && kept.payload == r.payload && kept.status != Acked
    decreases |ops|
  {
    var end := Run(h, ops);
    RunSound(h, ops);
    assert HasRow(end.q.rows, r.offset);
    var kept :| kept in end.q.rows && kept.offset == r.offset;
    assert kept.payload == end.pushed[r.offset - 1].1;
    assert r.payload == h.pushed[r.offset - 1].1;
  }

  lemma {:induction false} RunSound(h: History, ops: seq<Op>)
    requires Sound(h)
    ensures Sound(Run(h, ops))
    ensures h.pushed <= Run(h, ops).pushed
    ensures h.acked <= Run(h, ops).acked
    decreases |ops|
  {
    if ops != [] {
      SoundStep(h, ops[0]);
      RunSound(Apply(h, ops[0]), ops[1..]);
    }
  }

  lemma {:induction false} MarkAllAcked(rows: seq<Row>, offsets: seq<nat>)
    requires forall r :: r in rows ==> r.offset in offsets
    ensures Count(Mark(rows, offsets, Acked), Acked) == |rows|
  {
    if rows != [] {
      MarkAllAcked(rows[1..], offsets);
      assert Mark(rows, offsets, Acked)[1..] == Mark(rows[1..], offsets, Acked);
    }
  }

  function OffsetsTo(n: nat): (r: seq<nat>)
    ensures |r| == n && forall i :: 0 <= i < n ==> r[i] == i + 1
  {
    seq(n, i => i + 1)
  }

  /** From the empty queue: push some rows, acknowledge them all, and let the compaction that makes
      due fail at once. The bound is lost if and only if two rows more than the threshold went in. */
  lemma FailedCompactionBreaksTheBound(topic: string, payloads: seq<string>)
    requires |payloads| >= COMPACT_AFTER_ACKS
    ensures var h := Run(FRESH, [DoPush(topic, payloads, None), DoAck(OffsetsTo(|payloads|), Some(0))]);
      && Count(h.q.rows, Acked) == |payloads| && h.q.acksSinceCompact == COMPACT_AFTER_ACKS
      && (Within(h.q) <==> |payloads| < COMPACT_AFTER_ACKS + 2)
  {
    var n := |payloads|;
    var push, ack := DoPush(topic, payloads, None), DoAck(OffsetsTo(n), Some(0));
    var rows := Inserted(topic, payloads, 1);
    InsertedAt(topic, payloads, 1);
    var filled := Apply(FRESH, push);
    assert payloads[..n] == payloads && FRESH.q.rows + rows == rows;
    forall r | r in rows ensures r.offset in OffsetsTo(n) {
      assert OffsetsTo(n)[r.offset - 1] == r.offset;
    }
    MarkAllAcked(rows, OffsetsTo(n));
    assert [push, ack][1..] == [ack] && [ack][1..] == [];
    assert Run(filled, [ack]) == Run(Apply(filled, ack), []) == Apply(filled, ack);
  }
}
