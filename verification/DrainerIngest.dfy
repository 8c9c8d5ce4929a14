/** Why the drainer may count on its last look: the drain it runs is that of the ingest protocol. */
module DrainerIngest {
  import Common
  import Bus
  import Ingest
  import IngestSafety
  import IngestRuns
  import Drainer

  /** The offsets of the queue's pending rows. */
  function PendingOffsets(q: Bus.Queue): set<nat> {
    set r | r in q.rows && r.status == Bus.Pending :: r.offset
  }

  lemma NonePending(q: Bus.Queue)
    ensures PendingOffsets(q) == {} <==> Bus.Count(q.rows, Bus.Pending) == 0
  {
    Bus.CountZero(q.rows, Bus.Pending);
    if r :| r in q.rows && r.status == Bus.Pending { assert r.offset in PendingOffsets(q); }
  }

  /** When a turn of the drain finds nothing left, whatever failed before, no row is pending, so the
      drainer's last look is a step it can take. */
  lemma LastLookIsFinishedTurn(env: Ingest.Env, cfg: Ingest.Config, start: Ingest.Learner, s: Ingest.State,
          batchSize: nat, config: Drainer.Config, d: Drainer.State)
    requires IngestSafety.Inv(env, start, s) && batchSize > 0
    requires Ingest.DrainTurn(env, cfg, s, batchSize).1.Finished? && d.place.Draining?
    requires d.pending == PendingOffsets(Ingest.DrainTurn(env, cfg, s, batchSize).0.queue)
    ensures Drainer.Step(config, d, Drainer.LastLook) == Common.Some(d.(place := Drainer.Finishing(d.place.closing)))
  {
    IngestSafety.TurnKeeps(env, cfg, start, s, batchSize);
    NonePending(Ingest.DrainTurn(env, cfg, s, batchSize).0.queue);
  }

  /** And a whole drain that returns instead of raising got there. */
  lemma ReturnedDrainLeavesNothing(env: Ingest.Env, cfg: Ingest.Config, start: Ingest.Learner, s: Ingest.State,
          batchSize: nat)
    requires IngestSafety.Inv(env, start, s) && batchSize > 0
    requires IngestRuns.Drain(env, cfg, start, s, batchSize).1.Done?
    ensures PendingOffsets(IngestRuns.Drain(env, cfg, start, s, batchSize).0.queue) == {}
  {
    IngestRuns.DrainKeeps(env, cfg, start, s, batchSize);
    NonePending(IngestRuns.Drain(env, cfg, start, s, batchSize).0.queue);
  }
}
