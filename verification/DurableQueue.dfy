/** The queue object of src/autosiem/bus.py. Each method is one transaction, except the
    compaction, which deletes chunk by chunk. */
module Durable {
  import opened Common
  import opened Bus

  class DurableQueue {
    var rows: seq<Row>
    var last: nat
    var acksSinceCompact: nat

    function State(): Queue
      reads this
    {
      Queue(rows, last, acksSinceCompact)
    }

    /** Opening a stored queue counts its acknowledged rows once. */
    constructor (stored: seq<Row>, highest: nat)
      ensures State() == Queue(stored, highest, Count(stored, Acked))
    {
      rows, last, acksSinceCompact := stored, highest, Count(stored, Acked);
    }

    method PushMany(topic: string, payloads: seq<string>, maxPending: Option<int>) returns (offsets: seq<nat>)
      modifies this
      ensures State() == Bus.PushMany(old(State()), topic, payloads, maxPending)
      ensures |offsets| == Room(old(State()), |payloads|, maxPending)
      ensures forall i :: 0 <= i < |offsets| ==> offsets[i] == old(last) + 1 + i
    {
      var room := Room(State(), |payloads|, maxPending);
      offsets := [];
      ghost var first := last + 1;
      ghost var before := rows;
      while |offsets| < room
        invariant |offsets| <= room <= |payloads|
        invariant last == first - 1 + |offsets| && acksSinceCompact == old(acksSinceCompact)
        invariant rows == before + Inserted(topic, payloads[..|offsets|], first)
        invariant forall i :: 0 <= i < |offsets| ==> offsets[i] == first + i
      {
        InsertedSnoc(topic, payloads[..|offsets|], payloads[|offsets|], first);
        assert payloads[..|offsets| + 1] == payloads[..|offsets|] + [payloads[|offsets|]];
        rows := rows + [Row(last + 1, topic, payloads[|offsets|], Pending)];
        last := last + 1;
        offsets := offsets + [last];
      }
    }

    /** Pending rows only, oldest first, at most `limit`; whatever stays behind is newer. */
    method Pull(limit: nat) returns (batch: seq<Row>)
      ensures batch == Bus.Pull(rows, limit)
      ensures Increasing(rows) ==> Increasing(batch) && |batch| <= limit
      ensures Increasing(rows) ==> forall r :: r in batch ==> r in rows && r.status == Pending
      ensures Increasing(rows) ==> forall r :: r in rows && r.status == Pending ==>
        r in batch || (|batch| == limit && forall p :: p in batch ==> p.offset < r.offset)
    {
      batch := Bus.Pull(rows, limit);
      if Increasing(rows) {
        PullIn(rows, limit);
        forall r | r in rows && r.status == Pending
          ensures r in batch || (|batch| == limit && forall p :: p in batch ==> p.offset < r.offset)
        {
          PullTakesOldest(rows, limit, r);
        }
      }
    }

    method AckMany(offsets: seq<nat>, failsAfter: Option<nat>)
      modifies this
      ensures State() == Bus.AckMany(old(State()), offsets, failsAfter)
    {
      rows := Mark(rows, offsets, Acked);
      acksSinceCompact := acksSinceCompact + |offsets|;
      var due := acksSinceCompact >= COMPACT_AFTER_ACKS;
      if due {
        acksSinceCompact := 0;
        var removed, complete := CompactAcked(failsAfter);
        if !complete {
          acksSinceCompact := COMPACT_AFTER_ACKS;
        }
      }
    }

    /** Terminates: every chunk but the last deletes a full COMPACT_CHUNK of rows. */
    method CompactAcked(failsAfter: Option<nat>) returns (removed: nat, complete: bool)
      modifies this`rows
      ensures (rows, complete) == Bus.CompactAcked(old(rows), failsAfter)
      ensures removed == |old(rows)| - |rows|
    {
      removed := 0;
      var budget := failsAfter;
      while true
        invariant Bus.CompactAcked(rows, budget) == Bus.CompactAcked(old(rows), failsAfter)
        invariant removed == |old(rows)| - |rows|
        decreases |rows|
      {
        if budget == Some(0) {
          return removed, false;
        }
        var chunk := DeleteChunk(rows, Checkpoint(rows) - 1, COMPACT_CHUNK);
        rows := chunk.0;
        removed := removed + chunk.1;
        if chunk.1 < COMPACT_CHUNK {
          return removed, true;
        }
        budget := if budget.None? then None else Some(budget.value - 1);
      }
    }

    /** The row with that offset becomes a dead letter, so it is not pending; no other row changes. */
    method SetAside(offset: nat)
      modifies this`rows
      ensures rows == Mark(old(rows), [offset], DeadLetter)
      ensures |rows| == |old(rows)|
      ensures forall i :: 0 <= i < |rows| && old(rows)[i].offset != offset ==> rows[i] == old(rows)[i]
      ensures forall i :: 0 <= i < |rows| && old(rows)[i].offset == offset ==>
        rows[i].status == DeadLetter && rows[i] == old(rows)[i].(status := rows[i].status)
      ensures (exists r :: r in old(rows) && r.status == Pending && r.offset == offset) ==>
        Count(rows, Pending) < Count(old(rows), Pending)
    {
      MarkAt(rows, [offset], DeadLetter);
      MarkCount(rows, [offset], DeadLetter);
      rows := Mark(rows, [offset], DeadLetter);
    }

    /** Leaves no dead letter: each is pending again, each is counted, and no other row changes. */
    method RequeueDeadLetters() returns (requeued: nat)
      modifies this`rows
      ensures rows == Requeue(old(rows))
      ensures |rows| == |old(rows)| && Count(rows, DeadLetter) == 0
      ensures Count(rows, Pending) == Count(old(rows), Pending) + requeued
      ensures forall i :: 0 <= i < |rows| && old(rows)[i].status != DeadLetter ==> rows[i] == old(rows)[i]
      ensures forall i :: 0 <= i < |rows| && old(rows)[i].status == DeadLetter ==>
        rows[i].status == Pending && rows[i] == old(rows)[i].(status := rows[i].status)
    {
      RequeueAt(rows);
      RequeueCounts(rows);
      requeued := Count(rows, DeadLetter);
      rows := Requeue(rows);
    }
  }

  lemma {:induction false} InsertedSnoc(topic: string, payloads: seq<string>, last: string, first: nat)
    ensures Inserted(topic, payloads + [last], first)
         == Inserted(topic, payloads, first) + [Row(first + |payloads|, topic, last, Pending)]
  {
    if payloads != [] {
      assert (payloads + [last])[1..] == payloads[1..] + [last];
      InsertedSnoc(topic, payloads[1..], last, first + 1);
    }
  }
}
