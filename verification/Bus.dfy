/** The durable queue of src/autosiem/bus.py: a table of messages with increasing
    offsets, changed in place by pushes, acknowledgements, dead letters and compaction.
    SQL statements are atomic; a compaction may fail after any number of its deletes. */
module Bus {
  import opened Common

  const COMPACT_AFTER_ACKS: nat := 10_000
  const COMPACT_CHUNK: nat := 5_000

  datatype Status = Pending | Acked | DeadLetter
  datatype Row = Row(offset: nat, topic: string, payload: string, status: Status)

  /** `last` is the autoincrement high-water mark, so offsets are never reused. */
  datatype Queue = Queue(rows: seq<Row>, last: nat, acksSinceCompact: nat)

  const EMPTY := Queue([], 0, 0)

  // ----- the statements the queue runs -----

  function Count(rows: seq<Row>, status: Status): nat {
    if rows == [] then 0
    else (if rows[0].status == status then 1 else 0) + Count(rows[1..], status)
  }

  /** `select coalesce(max(offset), 0) from messages where acked = 1` */
  function Checkpoint(rows: seq<Row>): nat {
    if rows == [] then 0
    else
      var rest := Checkpoint(rows[1..]);
      if rows[0].status == Acked && rows[0].offset > rest then rows[0].offset else rest
  }

  /** `update messages set acked = ? where offset in (...)` */
  function Mark(rows: seq<Row>, offsets: seq<nat>, status: Status): seq<Row> {
    if rows == [] then []
    else
      [if rows[0].offset in offsets then rows[0].(status := status) else rows[0]]
      + Mark(rows[1..], offsets, status)
  }

  /** `update messages set acked = 0 where acked = 2` */
  function Requeue(rows: seq<Row>): seq<Row> {
    if rows == [] then []
    else
      [if rows[0].status == DeadLetter then rows[0].(status := Pending) else rows[0]]
      + Requeue(rows[1..])
  }

  /** `select ... where acked = 0 order by offset limit ?` */
  function Pull(rows: seq<Row>, limit: nat): seq<Row> {
    if rows == [] || limit == 0 then []
    else if rows[0].status == Pending then [rows[0]] + Pull(rows[1..], limit - 1)
    else Pull(rows[1..], limit)
  }

  function Inserted(topic: string, payloads: seq<string>, first: nat): seq<Row> {
    if payloads == [] then []
    else [Row(first, topic, payloads[0], Pending)] + Inserted(topic, payloads[1..], first + 1)
  }

  /** How many of `n` payloads still fit under the limit on pending rows. */
  function Room(q: Queue, n: nat, maxPending: Option<int>): nat {
    match maxPending
    case None => n
    case Some(limit) => Min(n, Max(0, limit - Count(q.rows, Pending)))
  }

  function PushMany(q: Queue, topic: string, payloads: seq<string>, maxPending: Option<int>): Queue {
    var room := Room(q, |payloads|, maxPending);
    Queue(q.rows + Inserted(topic, payloads[..room], q.last + 1), q.last + room, q.acksSinceCompact)
  }

  /** One chunk of the compaction: acknowledged rows at or below `ceiling`, at most `limit`. */
  function DeleteChunk(rows: seq<Row>, ceiling: int, limit: nat): (r: (seq<Row>, nat))
    ensures r.1 <= limit && |r.0| + r.1 == |rows|
  {
    if rows == [] then ([], 0)
    else if limit > 0 && rows[0].status == Acked && rows[0].offset <= ceiling then
      var r := DeleteChunk(rows[1..], ceiling, limit - 1);
      (r.0, r.1 + 1)
    else
      var r := DeleteChunk(rows[1..], ceiling, limit);
      ([rows[0]] + r.0, r.1)
  }

  /** The chunked deletes; `failAfter` is how many of them succeed before one fails, if any does. */
  function CompactAcked(rows: seq<Row>, failAfter: Option<nat>): (seq<Row>, bool)
    decreases |rows|
  {
    if failAfter == Some(0) then (rows, false)
    else
      var chunk := DeleteChunk(rows, Checkpoint(rows) - 1, COMPACT_CHUNK);
      if chunk.1 < COMPACT_CHUNK then (chunk.0, true)
      else CompactAcked(chunk.0, if failAfter.None? then None else Some(failAfter.value - 1))
  }

  function AckMany(q: Queue, offsets: seq<nat>, failAfter: Option<nat>): Queue {
    var rows := Mark(q.rows, offsets, Acked);
    var acks := q.acksSinceCompact + |offsets|;
    if acks >= COMPACT_AFTER_ACKS then
      var compacted := CompactAcked(rows, failAfter);
      Queue(compacted.0, q.last, if compacted.1 then 0 else COMPACT_AFTER_ACKS)
    else
      Queue(rows, q.last, acks)
  }

  /** `delete from messages where acked = 1 and (? < 0 or offset <= ?)` */
  function DeleteAckedUpTo(rows: seq<Row>, ceiling: int): seq<Row> {
    if rows == [] then []
    else if rows[0].status == Acked && (ceiling < 0 || rows[0].offset <= ceiling) then
      DeleteAckedUpTo(rows[1..], ceiling)
    else [rows[0]] + DeleteAckedUpTo(rows[1..], ceiling)
  }

  /** What a complete compaction must leave: everything but the acknowledged rows below `newest`. */
  function Survivors(rows: seq<Row>, newest: nat): seq<Row> {
    if rows == [] then []
    else if rows[0].status == Acked && rows[0].offset < newest then Survivors(rows[1..], newest)
    else [rows[0]] + Survivors(rows[1..], newest)
  }

  // ----- facts about single statements -----

  ghost predicate Increasing(rows: seq<Row>) {
    forall i, j :: 0 <= i < j < |rows| ==> rows[i].offset < rows[j].offset
  }

  /** Every row of `part` comes from `whole`, in the same order. */
  ghost predicate Subsequence(part: seq<Row>, whole: seq<Row>) {
    if part == [] then true
    else if whole == [] then false
    else if part[0] == whole[0] && Subsequence(part[1..], whole[1..]) then true
    else Subsequence(part, whole[1..])
  }

  lemma {:induction false} SubsequenceRefl(rows: seq<Row>)
    ensures Subsequence(rows, rows)
  {
    if rows != [] { SubsequenceRefl(rows[1..]); }
  }

  lemma {:induction false} SubsequenceIn(part: seq<Row>, whole: seq<Row>)
    requires Subsequence(part, whole)
    ensures forall r :: r in part ==> r in whole
  {
    if part != [] {
      if part[0] == whole[0] && Subsequence(part[1..], whole[1..]) {
        SubsequenceIn(part[1..], whole[1..]);
        assert forall r :: r in part ==> r == part[0] || r in part[1..];
      } else {
        SubsequenceIn(part, whole[1..]);
      }
    }
  }

  lemma {:induction false} SubsequenceIncreasing(part: seq<Row>, whole: seq<Row>)
    requires Subsequence(part, whole) && Increasing(whole)
    ensures Increasing(part)
  {
    if part != [] {
      if part[0] == whole[0] && Subsequence(part[1..], whole[1..]) {
        SubsequenceIncreasing(part[1..], whole[1..]);
        SubsequenceIn(part[1..], whole[1..]);
        forall j | 0 < j < |part| ensures part[0].offset < part[j].offset {
          assert part[j] in part[1..];
        }
      } else {
        SubsequenceIncreasing(part, whole[1..]);
      }
    }
  }

  lemma {:induction false} MarkAt(rows: seq<Row>, offsets: seq<nat>, status: Status)
    ensures |Mark(rows, offsets, status)| == |rows|
    ensures forall i :: 0 <= i < |rows| ==>
      Mark(rows, offsets, status)[i] == if rows[i].offset in offsets then rows[i].(status := status) else rows[i]
  {
    if rows != [] { MarkAt(rows[1..], offsets, status); }
  }

  lemma {:induction false} RequeueAt(rows: seq<Row>)
    ensures |Requeue(rows)| == |rows|
    ensures forall i :: 0 <= i < |rows| ==>
      Requeue(rows)[i] == if rows[i].status == DeadLetter then rows[i].(status := Pending) else rows[i]
  {
    if rows != [] { RequeueAt(rows[1..]); }
  }

  lemma {:induction false} RequeueCounts(rows: seq<Row>)
    ensures Count(Requeue(rows), DeadLetter) == 0
    ensures Count(Requeue(rows), Pending) == Count(rows, Pending) + Count(rows, DeadLetter)
    ensures Count(Requeue(rows), Acked) == Count(rows, Acked)
  {
    if rows != [] {
      RequeueCounts(rows[1..]);
      assert Requeue(rows)[1..] == Requeue(rows[1..]);
    }
  }

  lemma {:induction false} InsertedAt(topic: string, payloads: seq<string>, first: nat)
    ensures |Inserted(topic, payloads, first)| == |payloads|
    ensures forall i :: 0 <= i < |payloads| ==>
      Inserted(topic, payloads, first)[i] == Row(first + i, topic, payloads[i], Pending)
  {
    if payloads != [] { InsertedAt(topic, payloads[1..], first + 1); }
  }

  lemma {:induction false} PullIn(rows: seq<Row>, limit: nat)
    requires Increasing(rows)
    ensures |Pull(rows, limit)| <= limit
    ensures Increasing(Pull(rows, limit))
    ensures forall r :: r in Pull(rows, limit) ==> r in rows && r.status == Pending
    ensures limit > 0 && Count(rows, Pending) > 0 ==> Pull(rows, limit) != []
  {
    if rows != [] && limit > 0 {
      PullIn(rows[1..], if rows[0].status == Pending then limit - 1 else limit);
      if rows[0].status == Pending {
        var rest := Pull(rows[1..], limit - 1);
        forall j | 0 <= j < |rest| ensures rows[0].offset < rest[j].offset {
          assert rest[j] in rows[1..];
        }
      }
    }
  }

  /** Pulling takes the oldest pending rows: whatever it leaves pending is newer. */
  lemma {:induction false} PullTakesOldest(rows: seq<Row>, limit: nat, r: Row)
    requires Increasing(rows) && r in rows && r.status == Pending
    ensures r in Pull(rows, limit) || (|Pull(rows, limit)| == limit
      && forall p :: p in Pull(rows, limit) ==> p.offset < r.offset)
  {
    if limit == 0 {
    } else if rows[0] == r {
    } else {
      assert r in rows[1..];
      if rows[0].status == Pending {
        PullTakesOldest(rows[1..], limit - 1, r);
      } else {
        PullTakesOldest(rows[1..], limit, r);
      }
    }
  }

  lemma {:induction false} CountSplit(a: seq<Row>, b: seq<Row>, status: Status)
    ensures Count(a + b, status) == Count(a, status) + Count(b, status)
  {
    if a == [] {
      assert a + b == b;
    } else {
      assert (a + b)[1..] == a[1..] + b;
      CountSplit(a[1..], b, status);
    }
  }

  lemma {:induction false} CountZero(rows: seq<Row>, status: Status)
    ensures Count(rows, status) == 0 <==> forall r :: r in rows ==> r.status != status
  {
    if rows != [] {
      CountZero(rows[1..], status);
      assert forall r :: r in rows <==> r == rows[0] || r in rows[1..];
    }
  }

  lemma {:induction false} MarkCount(rows: seq<Row>, offsets: seq<nat>, status: Status)
    requires status != Pending
    ensures Count(Mark(rows, offsets, status), Pending) <= Count(rows, Pending)
    ensures (exists r :: r in rows && r.status == Pending && r.offset in offsets) ==>
      Count(Mark(rows, offsets, status), Pending) < Count(rows, Pending)
  {
    if rows != [] {
      MarkCount(rows[1..], offsets, status);
      var marked := Mark(rows, offsets, status);
      assert marked[1..] == Mark(rows[1..], offsets, status);
      assert forall r :: r in rows <==> r == rows[0] || r in rows[1..];
    }
  }

  lemma {:induction false} MarkCountAcked(rows: seq<Row>, offsets: seq<nat>)
    requires Increasing(rows)
    ensures Count(Mark(rows, offsets, Acked), Acked) <= Count(rows, Acked) + |offsets|
    decreases |rows|
  {
    if rows != [] {
      var o := rows[0].offset;
      var marked := Mark(rows, offsets, Acked);
      assert marked[1..] == Mark(rows[1..], offsets, Acked);
      if o in offsets {
        var k :| 0 <= k < |offsets| && offsets[k] == o;
        var fewer := offsets[..k] + offsets[k + 1..];
        MarkCountAcked(rows[1..], fewer);
        MarkIgnores(rows[1..], offsets, fewer, o);
      } else {
        MarkCountAcked(rows[1..], offsets);
      }
    }
  }

  /** Offsets that no row carries do not matter to an update. */
  lemma {:induction false} MarkIgnores(rows: seq<Row>, offsets: seq<nat>, fewer: seq<nat>, o: nat)
    requires forall r :: r in rows ==> r.offset != o
    requires forall x :: x != o ==> (x in offsets <==> x in fewer)
    ensures Mark(rows, offsets, Acked) == Mark(rows, fewer, Acked)
  {
    if rows != [] { MarkIgnores(rows[1..], offsets, fewer, o); }
  }

  // ----- compaction -----

  lemma {:induction false} CheckpointBounds(rows: seq<Row>)
    ensures forall r :: r in rows && r.status == Acked ==> r.offset <= Checkpoint(rows)
    ensures Checkpoint(rows) != 0 ==> exists r :: r in rows && r.status == Acked && r.offset == Checkpoint(rows)
  {
    if rows != [] {
      CheckpointBounds(rows[1..]);
      if Checkpoint(rows) == rows[0].offset && rows[0].status == Acked {
        assert rows[0] in rows;
      } else if Checkpoint(rows) != 0 {
        var r :| r in rows[1..] && r.status == Acked && r.offset == Checkpoint(rows[1..]);
        assert r in rows;
      }
    }
  }

  lemma {:induction false} DeleteChunkFacts(rows: seq<Row>, newest: nat, limit: nat)
    ensures Subsequence(DeleteChunk(rows, newest - 1, limit).0, rows)
    ensures Survivors(DeleteChunk(rows, newest - 1, limit).0, newest) == Survivors(rows, newest)
    ensures DeleteChunk(rows, newest - 1, limit).1 < limit ==>
      DeleteChunk(rows, newest - 1, limit).0 == Survivors(rows, newest)
    ensures forall r :: r in rows && r !in DeleteChunk(rows, newest - 1, limit).0 ==>
      r.status == Acked && r.offset < newest
  {
    if rows != [] {
      if limit > 0 && rows[0].status == Acked && rows[0].offset <= newest - 1 {
        DeleteChunkFacts(rows[1..], newest, limit - 1);
        var part := DeleteChunk(rows, newest - 1, limit).0;
        assert Subsequence(part, rows[1..]);
        SubsequenceCons(part, rows);
      } else {
        DeleteChunkFacts(rows[1..], newest, limit);
        var part := DeleteChunk(rows, newest - 1, limit).0;
        assert part[1..] == DeleteChunk(rows[1..], newest - 1, limit).0;
      }
    }
  }

  lemma {:induction false} SubsequenceCons(part: seq<Row>, whole: seq<Row>)
    requires whole != [] && Subsequence(part, whole[1..])
    ensures Subsequence(part, whole)
  {
  }

  lemma {:induction false} SubsequenceTrans(a: seq<Row>, b: seq<Row>, c: seq<Row>)
    requires Subsequence(a, b) && Subsequence(b, c)
    ensures Subsequence(a, c)
    decreases |c|
  {
    if a != [] {
      if b[0] == c[0] && Subsequence(b[1..], c[1..]) {
        if a[0] == b[0] && Subsequence(a[1..], b[1..]) {
          SubsequenceTrans(a[1..], b[1..], c[1..]);
        } else {
          SubsequenceTrans(a, b[1..], c[1..]);
        }
      } else {
        SubsequenceTrans(a, b, c[1..]);
      }
    }
  }

  lemma {:induction false} CheckpointSubset(part: seq<Row>, whole: seq<Row>)
    requires forall r :: r in part ==> r in whole
    requires forall r :: r in whole && r !in part ==> r.status == Acked ==> r.offset < Checkpoint(whole)
    ensures Checkpoint(part) == Checkpoint(whole)
  {
    CheckpointBounds(part);
    CheckpointBounds(whole);
  }

  /** The checkpoint row and every pending and set-aside row survive, however far a compaction
      gets; a complete one leaves exactly the survivors. */
  lemma {:induction false} CompactKeeps(rows: seq<Row>, failAfter: Option<nat>)
    ensures Subsequence(CompactAcked(rows, failAfter).0, rows)
    ensures Checkpoint(CompactAcked(rows, failAfter).0) == Checkpoint(rows)
    ensures forall r :: r in rows && r !in CompactAcked(rows, failAfter).0 ==>
      r.status == Acked && r.offset < Checkpoint(rows)
    ensures CompactAcked(rows, failAfter).1 ==> CompactAcked(rows, failAfter).0 == Survivors(rows, Checkpoint(rows))
    ensures failAfter == None ==> CompactAcked(rows, failAfter).1
    decreases |rows|
  {
    if failAfter == Some(0) {
      SubsequenceRefl(rows);
    } else {
      var chunk := DeleteChunk(rows, Checkpoint(rows) - 1, COMPACT_CHUNK);
      DeleteChunkFacts(rows, Checkpoint(rows), COMPACT_CHUNK);
      SubsequenceIn(chunk.0, rows);
      CheckpointSubset(chunk.0, rows);
      if chunk.1 >= COMPACT_CHUNK {
        var rest := if failAfter.None? then None else Some(failAfter.value - 1);
        CompactKeeps(chunk.0, rest);
        SubsequenceTrans(CompactAcked(chunk.0, rest).0, chunk.0, rows);
      }
    }
  }

  lemma {:induction false} SurvivorsAcked(rows: seq<Row>, newest: nat)
    requires Increasing(rows)
    requires forall r :: r in rows && r.status == Acked ==> r.offset <= newest
    ensures Count(Survivors(rows, newest), Acked) <= 1
    ensures (forall r :: r in rows && r.status == Acked ==> r.offset < newest) ==>
      Count(Survivors(rows, newest), Acked) == 0
  {
    if rows != [] {
      SurvivorsAcked(rows[1..], newest);
      var s := Survivors(rows, newest);
      if !(rows[0].status == Acked && rows[0].offset < newest) {
        assert s[1..] == Survivors(rows[1..], newest);
        if rows[0].status == Acked {
          assert rows[0].offset == newest;
          assert forall r :: r in rows[1..] ==> rows[0].offset < r.offset;
        }
      }
    }
  }

  lemma {:induction false} SubsequenceCount(part: seq<Row>, whole: seq<Row>, status: Status)
    requires Subsequence(part, whole)
    ensures Count(part, status) <= Count(whole, status)
  {
    if part != [] {
      if part[0] == whole[0] && Subsequence(part[1..], whole[1..]) {
        SubsequenceCount(part[1..], whole[1..], status);
      } else {
        SubsequenceCount(part, whole[1..], status);
      }
    }
  }

  // ----- what an acknowledgement does to the table as a whole -----

  lemma {:induction false} AckManyCompacts(q: Queue, offsets: seq<nat>, failAfter: Option<nat>)
    ensures var after, marked := AckMany(q, offsets, failAfter), Mark(q.rows, offsets, Acked);
      && after.last == q.last && Subsequence(after.rows, marked)
      && forall r :: r in marked && r.status != Acked ==> r in after.rows
  {
    var marked := Mark(q.rows, offsets, Acked);
    if q.acksSinceCompact + |offsets| >= COMPACT_AFTER_ACKS {
      CompactKeeps(marked, failAfter);
    } else {
      SubsequenceRefl(marked);
    }
  }

  lemma {:induction false} MarkLeavesOthers(rows: seq<Row>, offsets: seq<nat>, r: Row)
    requires r in rows && r.offset !in offsets
    ensures r in Mark(rows, offsets, Acked)
  {
    MarkAt(rows, offsets, Acked);
    var i :| 0 <= i < |rows| && rows[i] == r;
    assert Mark(rows, offsets, Acked)[i] == r;
  }

  lemma {:induction false} AckManyRows(q: Queue, offsets: seq<nat>, failAfter: Option<nat>)
    requires Increasing(q.rows)
    ensures var after := AckMany(q, offsets, failAfter);
      && after.last == q.last && Increasing(after.rows)
      && (forall r :: r in after.rows ==> r in Mark(q.rows, offsets, Acked))
      && forall r :: r in q.rows && r.status != Acked && r.offset !in offsets ==> r in after.rows
  {
    var marked := Mark(q.rows, offsets, Acked);
    var after := AckMany(q, offsets, failAfter);
    AckManyCompacts(q, offsets, failAfter);
    MarkAt(q.rows, offsets, Acked);
    SubsequenceIn(after.rows, marked);
    SubsequenceIncreasing(after.rows, marked);
    forall r | r in q.rows && r.status != Acked && r.offset !in offsets ensures r in after.rows {
      MarkLeavesOthers(q.rows, offsets, r);
    }
  }

  lemma AckManyCounts(q: Queue, offsets: seq<nat>, failAfter: Option<nat>)
    ensures var after := AckMany(q, offsets, failAfter);
      && Count(after.rows, Pending) <= Count(q.rows, Pending)
      && ((exists r :: r in q.rows && r.status == Pending && r.offset in offsets) ==>
           Count(after.rows, Pending) < Count(q.rows, Pending))
  {
    AckManyCompacts(q, offsets, failAfter);
    MarkCount(q.rows, offsets, Acked);
    SubsequenceCount(AckMany(q, offsets, failAfter).rows, Mark(q.rows, offsets, Acked), Pending);
  }

  /** Whatever its compaction does, an acknowledgement changes nothing but the named rows, loses
      no row that is not acknowledged, and never adds to the pending ones. */
  lemma {:induction false} AckManyFacts(q: Queue, offsets: seq<nat>, failAfter: Option<nat>)
    requires Increasing(q.rows)
    ensures var after := AckMany(q, offsets, failAfter);
      && after.last == q.last
      && Increasing(after.rows)
      && (forall r :: r in after.rows ==> r in Mark(q.rows, offsets, Acked))
      && (forall r :: r in q.rows && r.status != Acked && r.offset !in offsets ==> r in after.rows)
      && Count(after.rows, Pending) <= Count(q.rows, Pending)
      && ((exists r :: r in q.rows && r.status == Pending && r.offset in offsets) ==>
           Count(after.rows, Pending) < Count(q.rows, Pending))
  {
    AckManyRows(q, offsets, failAfter);
    AckManyCounts(q, offsets, failAfter);
  }

  /** Each row after an update is an old row, possibly with the new status. */
  lemma {:induction false} MarkedFrom(rows: seq<Row>, offsets: seq<nat>, status: Status, r: Row)
    requires r in Mark(rows, offsets, status)
    ensures exists o :: o in rows && r == if o.offset in offsets then o.(status := status) else o
  {
    MarkAt(rows, offsets, status);
    var i :| 0 <= i < |rows| && Mark(rows, offsets, status)[i] == r;
    assert rows[i] in rows;
  }
}
