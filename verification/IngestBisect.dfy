/** When exactly the batches holding a bad line fail for good, bisection finds exactly those
    lines, saves all others once and in order, and does so in few processing passes. */
module IngestBisect {
  import opened Common
  import opened Bus
  import opened Ingest
  import opened IngestSafety

  predicate HasBad(bad: string -> bool, lines: seq<string>) {
    exists i :: 0 <= i < |lines| && bad(lines[i])
  }

  /** Clean batches pass; a batch with a bad line never gets through both processing and saving,
      and fails for good where it does. Nothing else goes wrong. */
  ghost predicate RejectsExactly(env: Env, bad: string -> bool) {
    && (forall t, ls :: !HasBad(bad, ls) ==> env.process(t, ls).None?)
    && (forall t, ls :: !HasBad(bad, ls) ==> env.persist(t, ls).None?)
    && (forall t, ls :: HasBad(bad, ls) ==> env.process(t, ls) != Some(Transient))
    && (forall t, ls :: HasBad(bad, ls) ==> env.persist(t, ls) != Some(Transient))
    && (forall t, u, ls :: HasBad(bad, ls) ==> env.process(t, ls).Some? || env.persist(u, ls).Some?)
    && (forall t :: env.ack(t).AckOk?)
    && (forall t :: !env.backend(t).Crashes?)
  }

  /** Offsets of the lines that are bad (or that are good), in order. */
  function Select(bad: string -> bool, batch: seq<Row>, want: bool): seq<nat> {
    if batch == [] then []
    else if bad(batch[0].payload) == want then [batch[0].offset] + Select(bad, batch[1..], want)
    else Select(bad, batch[1..], want)
  }

  /** Offsets in successful saves, in the order saved. */
  function SavedInOrder(log: seq<Entry>): seq<nat> {
    if log == [] then []
    else
      var rest, e := SavedInOrder(log[..|log| - 1]), log[|log| - 1];
      if e.Saved? then rest + e.offsets else rest
  }

  /** Processing passes made. */
  function Passes(log: seq<Entry>): nat {
    if log == [] then 0 else Passes(log[..|log| - 1]) + (if log[|log| - 1].Processed? then 1 else 0)
  }

  function CeilLog2(n: nat): nat {
    if n <= 1 then 0 else 1 + CeilLog2((n + 1) / 2)
  }

  function Pow2(e: nat): nat {
    if e == 0 then 1 else 2 * Pow2(e - 1)
  }

  /** It is the logarithm rounded up. */
  lemma {:induction false} CeilLog2Meaning(n: nat)
    ensures n <= Pow2(CeilLog2(n))
    ensures n > 1 ==> Pow2(CeilLog2(n) - 1) < n
  {
    if n > 1 { CeilLog2Meaning((n + 1) / 2); }
  }

  lemma {:induction false} CeilLog2Monotone(m: nat, n: nat)
    requires m <= n
    ensures CeilLog2(m) <= CeilLog2(n)
    decreases n
  {
    if n > 1 && m > 1 { CeilLog2Monotone((m + 1) / 2, (n + 1) / 2); }
  }

  // ----- bookkeeping -----

  lemma {:induction false} LogSnocOrder(log: seq<Entry>, e: Entry)
    ensures SavedInOrder(log + [e]) == if e.Saved? then SavedInOrder(log) + e.offsets else SavedInOrder(log)
    ensures Passes(log + [e]) == Passes(log) + (if e.Processed? then 1 else 0)
  {
    assert (log + [e])[..|log|] == log;
  }

  lemma {:induction false} AckOrder(log: seq<Entry>, offsets: seq<nat>)
    ensures SavedInOrder(log + AckEntries(offsets)) == SavedInOrder(log)
    ensures Passes(log + AckEntries(offsets)) == Passes(log)
  {
    if offsets == [] {
      assert log + AckEntries(offsets) == log;
    } else {
      var init, last := offsets[..|offsets| - 1], offsets[|offsets| - 1];
      AckOrder(log, init);
      assert log + AckEntries(offsets) == (log + AckEntries(init)) + [AckedLine(last)];
      LogSnocOrder(log + AckEntries(init), AckedLine(last));
    }
  }

  lemma {:induction false} SelectSplit(bad: string -> bool, a: seq<Row>, b: seq<Row>, want: bool)
    ensures Select(bad, a + b, want) == Select(bad, a, want) + Select(bad, b, want)
  {
    if a == [] {
      assert a + b == b;
    } else {
      assert (a + b)[1..] == a[1..] + b;
      SelectSplit(bad, a[1..], b, want);
    }
  }

  lemma {:induction false} SelectClean(bad: string -> bool, batch: seq<Row>)
    ensures !HasBad(bad, Lines(batch)) ==> Select(bad, batch, true) == [] && Select(bad, batch, false) == Offsets(batch)
    ensures HasBad(bad, Lines(batch)) ==> Select(bad, batch, true) != []
    ensures |Select(bad, batch, true)| + |Select(bad, batch, false)| == |batch|
  {
    if batch != [] {
      SelectClean(bad, batch[1..]);
      if HasBad(bad, Lines(batch)) && !bad(batch[0].payload) {
        var i :| 0 <= i < |batch| && bad(Lines(batch)[i]);
        assert Lines(batch[1..])[i - 1] == Lines(batch)[i];
      } else if !HasBad(bad, Lines(batch)) {
        assert !bad(Lines(batch)[0]);
        forall i | 0 <= i < |batch[1..]| ensures !bad(Lines(batch[1..])[i]) {
          assert Lines(batch)[i + 1] == Lines(batch[1..])[i];
        }
        assert Offsets(batch) == [batch[0].offset] + Offsets(batch[1..]);
      }
    }
  }

  // ----- the theorem -----

  /** `k` times `x`, by repeated addition. */
  function Times(k: nat, x: nat): nat {
    if k == 0 then 0 else x + Times(k - 1, x)
  }

  /** Bound on processing passes for `k` bad lines among `n`. */
  function Bound(n: nat, k: nat): nat {
    1 + Times(k, 2 * CeilLog2(n))
  }

  /** Settling saved exactly `good`, in order, blamed exactly `wrong`, and kept to the bound. */
  ghost predicate ExactFor(good: seq<nat>, wrong: seq<nat>, n: nat, s: State, r: Settled) {
    && Idle(r.state)
    && r.outcome == Done(|good|)
    && r.suspects == wrong
    && SavedInOrder(r.state.log) == SavedInOrder(s.log) + good
    && Passes(r.state.log) <= Passes(s.log) + Bound(n, |wrong|)
  }

  ghost predicate Exact(bad: string -> bool, s: State, batch: seq<Row>, r: Settled) {
    ExactFor(Select(bad, batch, false), Select(bad, batch, true), |batch|, s, r)
  }

  ghost predicate AckedFrom(before: Queue, after: Queue, offsets: seq<nat>) {
    exists failAfter :: after == AckMany(before, offsets, failAfter)
  }

  /** With acknowledgements and the backend in order, a save that succeeds goes through. */
  lemma SaveGoesThrough(env: Env, cfg: Config, s: State)
    requires s.held.Some? && env.persist(s.calls, Lines(s.held.value.batch)).None?
    requires (forall t :: env.ack(t).AckOk?) && (forall t :: !env.backend(t).Crashes?)
    ensures var held := s.held.value;
      var r := SaveHeld(env, cfg, s);
      && r.1 == Done(|held.batch|) && Idle(r.0) && AckedFrom(s.queue, r.0.queue, Offsets(held.batch))
      && r.0.log == s.log + [Saved(Offsets(held.batch), Lines(held.batch), held.tick)] + AckEntries(Offsets(held.batch))
  {
    var held := s.held.value;
    SendKeeps(env, cfg, AfterSave(s, held), env.events(held.tick, Lines(held.batch)));
    NoCrash(env, cfg, AfterSave(s, held), env.events(held.tick, Lines(held.batch)));
    var sent := SendToBackend(env, cfg, AfterSave(s, held), env.events(held.tick, Lines(held.batch)));
    assert env.ack(sent.0.calls).AckOk?;
    var failAfter := env.ack(sent.0.calls).compactionFailsAfter;
    assert Acknowledge(env, sent.0).0.queue == AckMany(s.queue, Offsets(held.batch), failAfter);
  }

  lemma NoCrash(env: Env, cfg: Config, s: State, events: seq<string>)
    requires forall t :: !env.backend(t).Crashes?
    ensures SendToBackend(env, cfg, s, events).1.None?
  {
  }

  lemma {:induction false} CleanSaves(env: Env, cfg: Config, bad: string -> bool, s: State, batch: seq<Row>)
    requires RejectsExactly(env, bad) && Idle(s) && batch != [] && !HasBad(bad, Lines(batch))
    ensures Exact(bad, s, batch, Settle(env, cfg, s, batch))
  {
    SelectClean(bad, batch);
    var processed := Process(env, s, batch);
    assert processed.1.None? && env.persist(processed.0.calls, Lines(batch)).None?;
    SaveGoesThrough(env, cfg, processed.0);
    var entry := Saved(Offsets(batch), Lines(batch), s.calls);
    LogSnocOrder(s.log, Processed(Offsets(batch)));
    LogSnocOrder(processed.0.log, entry);
    AckOrder(processed.0.log + [entry], Offsets(batch));
  }

  lemma {:induction false} ProcessRefuses(env: Env, cfg: Config, s: State, batch: seq<Row>)
    requires Idle(s) && batch != [] && env.process(s.calls, Lines(batch)) == Some(Permanent)
    ensures var t := Process(env, s, batch).0;
      && Settle(env, cfg, s, batch) == Blame(env, cfg, t, TakeSnapshot(s.learner), Permanent, batch)
      && t.unacked == [] && t.log == s.log + [Processed(Offsets(batch))] && t.queue == s.queue
  {
  }

  lemma {:induction false} SaveRefuses(env: Env, cfg: Config, s: State, batch: seq<Row>)
    requires Idle(s) && batch != [] && env.process(s.calls, Lines(batch)).None?
    requires env.persist(s.calls + 1, Lines(batch)) == Some(Permanent)
    ensures var t := SaveHeld(env, cfg, Process(env, s, batch).0).0;
      && Settle(env, cfg, s, batch) == Blame(env, cfg, t, TakeSnapshot(s.learner), Permanent, batch)
      && t.unacked == [] && t.log == s.log + [Processed(Offsets(batch))] && t.queue == s.queue
  {
  }

  /** A bad batch is refused by processing, or by the save that follows. */
  lemma Refused(env: Env, bad: string -> bool, t: nat, u: nat, lines: seq<string>)
    requires RejectsExactly(env, bad) && HasBad(bad, lines)
    ensures env.process(t, lines) == Some(Permanent)
         || (env.process(t, lines).None? && env.persist(u, lines) == Some(Permanent))
  {
    var processed, saved := env.process(t, lines), env.persist(u, lines);
    assert processed != Some(Transient) && saved != Some(Transient);
    assert processed.Some? ==> processed.value.Permanent?;
    assert saved.Some? ==> saved.value.Permanent?;
  }

  /** Where a batch with a bad line stands when its failure is handled: one pass spent, undone. */
  lemma BadFails(env: Env, cfg: Config, bad: string -> bool, s: State, batch: seq<Row>)
    returns (t: State)
    requires RejectsExactly(env, bad) && Idle(s) && batch != [] && HasBad(bad, Lines(batch))
    ensures Settle(env, cfg, s, batch) == Blame(env, cfg, t, TakeSnapshot(s.learner), Permanent, batch)
    ensures t.unacked == [] && t.queue == s.queue
    ensures SavedInOrder(t.log) == SavedInOrder(s.log) && Passes(t.log) == Passes(s.log) + 1
  {
    LogSnocOrder(s.log, Processed(Offsets(batch)));
    Refused(env, bad, s.calls, s.calls + 1, Lines(batch));
    if env.process(s.calls, Lines(batch)).Some? {
      ProcessRefuses(env, cfg, s, batch);
      t := Process(env, s, batch).0;
    } else {
      SaveRefuses(env, cfg, s, batch);
      t := SaveHeld(env, cfg, Process(env, s, batch).0).0;
    }
  }

  lemma {:induction false} TimesIsProduct(k: nat, x: nat)
    ensures Times(k, x) == k * x
  {
    if k > 0 {
      TimesIsProduct(k - 1, x);
      assert k * x == (k - 1) * x + x;
    }
  }

  /** The bound is 1 + 2 k log2(n). */
  lemma {:induction false} BoundMeaning(n: nat, k: nat)
    ensures Bound(n, k) == 1 + 2 * (k * CeilLog2(n))
  {
    var c := CeilLog2(n);
    TimesIsProduct(k, 2 * c);
    assert k * (2 * c) == 2 * (k * c);
  }

  lemma {:induction false} TimesAdds(k1: nat, k2: nat, x: nat)
    ensures Times(k1 + k2, x) == Times(k1, x) + Times(k2, x)
  {
    if k1 > 0 { TimesAdds(k1 - 1, k2, x); }
  }

  lemma {:induction false} TimesMonotone(k: nat, x: nat, y: nat)
    requires x <= y
    ensures Times(k, x) <= Times(k, y)
  {
    if k > 0 { TimesMonotone(k - 1, x, y); }
  }

  lemma {:induction false} TimesPlusTwo(k: nat, x: nat)
    ensures Times(k, x + 2) == Times(k, x) + 2 * k
  {
    if k > 0 { TimesPlusTwo(k - 1, x); }
  }

  lemma BoundArithmetic(n: nat, k1: nat, k2: nat)
    requires n > 1 && k1 + k2 > 0
    ensures 1 + Bound(n / 2, k1) + Bound(n - n / 2, k2) <= Bound(n, k1 + k2)
  {
    var level := CeilLog2((n + 1) / 2);
    assert n - n / 2 == (n + 1) / 2;
    CeilLog2Monotone(n / 2, (n + 1) / 2);
    TimesMonotone(k1, 2 * CeilLog2(n / 2), 2 * level);
    TimesAdds(k1, k2, 2 * level);
    TimesPlusTwo(k1 + k2, 2 * level);
    assert 2 * CeilLog2(n) == 2 * level + 2;
  }

  lemma {:induction false} SelectHalves(bad: string -> bool, batch: seq<Row>, middle: nat, want: bool)
    requires middle <= |batch|
    ensures Select(bad, batch, want) == Select(bad, batch[..middle], want) + Select(bad, batch[middle..], want)
  {
    assert batch[..middle] + batch[middle..] == batch;
    SelectSplit(bad, batch[..middle], batch[middle..], want);
  }

  /** Two exact halves, after one failed pass over the whole, are exact for the whole. */
  lemma HalvesCompose(good1: seq<nat>, wrong1: seq<nat>, good2: seq<nat>, wrong2: seq<nat>, n: nat, s: State, t: State,
          left: Settled, right: Settled)
    requires n > 1 && wrong1 + wrong2 != []
    requires SavedInOrder(t.log) == SavedInOrder(s.log) && Passes(t.log) == Passes(s.log) + 1
    requires ExactFor(good1, wrong1, n / 2, t, left) && ExactFor(good2, wrong2, n - n / 2, left.state, right)
    ensures ExactFor(good1 + good2, wrong1 + wrong2, n, s, Both(left, right))
  {
    PassesCompose(n, |wrong1|, |wrong2|, Passes(s.log), Passes(left.state.log), Passes(right.state.log));
  }

  lemma PassesCompose(n: nat, k1: nat, k2: nat, before: nat, mid: nat, after: nat)
    requires n > 1 && k1 + k2 > 0
    requires mid <= before + 1 + Bound(n / 2, k1) && after <= mid + Bound(n - n / 2, k2)
    ensures after <= before + Bound(n, k1 + k2)
  {
    BoundArithmetic(n, k1, k2);
  }

  lemma OneBadLine(bad: string -> bool, s: State, t: State, batch: seq<Row>)
    requires |batch| == 1 && HasBad(bad, Lines(batch)) && Idle(t)
    requires SavedInOrder(t.log) == SavedInOrder(s.log) && Passes(t.log) == Passes(s.log) + 1
    ensures Exact(bad, s, batch, Settled(t, Done(0), [batch[0].offset]))
  {
    SelectClean(bad, batch);
    assert batch[1..] == [];
    assert Select(bad, batch, true) == [batch[0].offset];
  }

  /** A failed batch whose halves are settled exactly is settled exactly. */
  lemma {:induction false} SplitIsExact(bad: string -> bool, s: State, t: State, batch: seq<Row>, left: Settled,
          right: Settled)
    requires |batch| > 1 && Select(bad, batch, true) != []
    requires SavedInOrder(t.log) == SavedInOrder(s.log) && Passes(t.log) == Passes(s.log) + 1
    requires Exact(bad, t, batch[..|batch| / 2], left) && Exact(bad, left.state, batch[|batch| / 2..], right)
    ensures Exact(bad, s, batch, Both(left, right))
  {
    var first, second := batch[..|batch| / 2], batch[|batch| / 2..];
    SelectHalves(bad, batch, |batch| / 2, true);
    SelectHalves(bad, batch, |batch| / 2, false);
    HalvesCompose(Select(bad, first, false), Select(bad, first, true), Select(bad, second, false),
      Select(bad, second, true), |batch|, s, t, left, right);
  }

  /** Settling saves every good line once and in order, blames exactly the bad ones, and makes at
      most 1 + 2 k log2(n) processing passes. */
  lemma {:induction false} SettleIsExact(env: Env, cfg: Config, bad: string -> bool, s: State, batch: seq<Row>)
    requires RejectsExactly(env, bad) && Idle(s) && batch != []
    ensures Exact(bad, s, batch, Settle(env, cfg, s, batch))
    decreases |batch|
  {
    if !HasBad(bad, Lines(batch)) {
      CleanSaves(env, cfg, bad, s, batch);
    } else {
      SelectClean(bad, batch);
      var before := TakeSnapshot(s.learner);
      var t := BadFails(env, cfg, bad, s, batch);
      if |batch| == 1 {
        OneBadLine(bad, s, Undone(t, before), batch);
      } else {
        var first, second := batch[..|batch| / 2], batch[|batch| / 2..];
        SettleIsExact(env, cfg, bad, Undone(t, before), first);
        var left := Settle(env, cfg, Undone(t, before), first);
        SettleIsExact(env, cfg, bad, left.state, second);
        SplitIsExact(bad, s, Undone(t, before), batch, left, Settle(env, cfg, left.state, second));
        BlameSplits(env, cfg, t, before, Permanent, batch);
      }
    }
  }

  lemma {:induction false} SelectMember(bad: string -> bool, batch: seq<Row>, m: Row)
    requires m in batch
    ensures m.offset in Select(bad, batch, bad(m.payload))
  {
    if m != batch[0] { SelectMember(bad, batch[1..], m); }
  }

  /** A blamed line is still pending. */
  lemma BlamedStaysPending(s: State, batch: seq<Row>, suspects: seq<nat>, m: Row)
    requires SuspectsOk(s, batch, suspects) && Increasing(batch) && m in batch && m.offset in suspects
    ensures m in s.queue.rows && m.status == Pending
  {
    var n :| n in batch && n.offset == m.offset && FreshIn(s, [n]);
    assert n in [n];
    var i, j :| 0 <= i < |batch| && 0 <= j < |batch| && batch[i] == m && batch[j] == n;
  }

  lemma SuspectsNotSaved(s: State, batch: seq<Row>, suspects: seq<nat>)
    requires SuspectsOk(s, batch, suspects)
    ensures NotSaved(s, suspects)
  {
  }

  lemma {:induction false} SameSaves(a: seq<Entry>, b: seq<Entry>)
    requires SavedInOrder(a) == SavedInOrder(b)
    ensures SavedOffsets(a) == SavedOffsets(b)
  {
    forall o ensures o in SavedOffsets(a) <==> o in SavedOffsets(b) {
      InOrderIsSet(a, o);
      InOrderIsSet(b, o);
    }
  }

  lemma {:induction false} NoFaultSettingAside(env: Env, s: State, suspects: seq<nat>)
    requires forall t :: env.setAside(t).Accepts?
    ensures SetAsideAll(env, s, suspects).1.None?
    decreases |suspects|
  {
    if suspects != [] { NoFaultSettingAside(env, AfterAside(s, suspects[0]), suspects[1..]); }
  }

  lemma {:induction false} InOrderIsSet(log: seq<Entry>, o: nat)
    ensures o in SavedInOrder(log) <==> o in SavedOffsets(log)
  {
    if log != [] { InOrderIsSet(log[..|log| - 1], o); }
  }

  lemma {:induction false} AllBlamed(env: Env, cfg: Config, start: Learner, bad: string -> bool, s: State,
          batch: seq<Row>)
    requires RejectsExactly(env, bad) && Inv(env, start, s) && Idle(s) && batch != [] && FreshIn(s, batch)
    requires Select(bad, batch, false) == []
    ensures var r := SettleBatch(env, cfg, s, batch);
      && r.1 == Raised(Permanent) && AsideOf(r.0.log) == AsideOf(s.log) && SavedOffsets(r.0.log) == SavedOffsets(s.log)
      && forall m :: m in batch ==> m in r.0.queue.rows && m.status == Pending
  {
    SettleIsExact(env, cfg, bad, s, batch);
    SettleKeeps(env, cfg, start, s, batch);
    SelectClean(bad, batch);
    var settled := Settle(env, cfg, s, batch);
    SameSaves(s.log, settled.state.log);
    forall m | m in batch ensures m in settled.state.queue.rows && m.status == Pending {
      SelectMember(bad, batch, m);
      assert m.offset in settled.suspects;
      BlamedStaysPending(settled.state, batch, settled.suspects, m);
    }
  }

  lemma {:induction false} SomeSaved(env: Env, cfg: Config, start: Learner, bad: string -> bool, s: State,
          batch: seq<Row>)
    requires RejectsExactly(env, bad) && (forall t :: env.setAside(t).Accepts?)
    requires Inv(env, start, s) && Idle(s) && batch != [] && FreshIn(s, batch) && Select(bad, batch, false) != []
    ensures var r := SettleBatch(env, cfg, s, batch);
      r.1 == Done(|Select(bad, batch, false)|) && AsideOf(r.0.log) == AsideOf(s.log) + Select(bad, batch, true)
  {
    SettleIsExact(env, cfg, bad, s, batch);
    SettleKeeps(env, cfg, start, s, batch);
    var settled := Settle(env, cfg, s, batch);
    SuspectsNotSaved(settled.state, batch, settled.suspects);
    SetAsideKeeps(env, start, settled.state, settled.suspects);
    NoFaultSettingAside(env, settled.state, settled.suspects);
  }

  /** The bad lines of a batch are set aside if and only if a good line was saved beside them;
      otherwise the batch stays pending and the error is raised. */
  lemma {:induction false} BatchSetsAsideExactlyTheBad(env: Env, cfg: Config, start: Learner, bad: string -> bool,
          s: State, batch: seq<Row>)
    requires RejectsExactly(env, bad) && (forall t :: env.setAside(t).Accepts?)
    requires Inv(env, start, s) && Idle(s) && batch != [] && FreshIn(s, batch)
    ensures var r := SettleBatch(env, cfg, s, batch);
      var good := Select(bad, batch, false);
      if good != [] then
        r.1 == Done(|good|) && AsideOf(r.0.log) == AsideOf(s.log) + Select(bad, batch, true)
      else
        && r.1 == Raised(Permanent) && AsideOf(r.0.log) == AsideOf(s.log)
          && SavedOffsets(r.0.log) == SavedOffsets(s.log)
        && forall m :: m in batch ==> m in r.0.queue.rows && m.status == Pending
  {
    if Select(bad, batch, false) != [] {
      SomeSaved(env, cfg, start, bad, s, batch);
    } else {
      AllBlamed(env, cfg, start, bad, s, batch);
    }
  }
}
