/** Exceptions and repeat suppression, src/autosiem/suppression.py: a sliding window of
    occurrence times per (rule, first entity), kept across calls. */
module Suppression {
  import opened Common
  import opened Schemas
  import opened Sorting

  type Key = (string, string)
  type Seen = map<Key, seq<int>>

  datatype Config = Config(autoRepeat: bool, window: int, threshold: int, exceptions: seq<Exception>)

  datatype Exception = Exception(
    ruleId: string,
    entity: Option<string>,
    downgradeTo: Option<int>,
    expiresAt: Option<int>,
    enabled: bool)

  /** One decision: what happened to which finding, and the severity it was left with. */
  datatype Record = Record(findingId: string, dropped: bool, severity: int)

  function RepeatKey(f: Finding): Key {
    (f.ruleId, if f.entities != [] then f.entities[0] else "none")
  }

  function BucketOf(seen: Seen, k: Key): seq<int> {
    if k in seen then seen[k] else []
  }

  // ----- the repeat check -----

  /** Pops from the left while the oldest time is before the cutoff. */
  function Evict(bucket: seq<int>, cutoff: int): seq<int> {
    if bucket != [] && bucket[0] < cutoff then Evict(bucket[1..], cutoff) else bucket
  }

  function NewBucket(cfg: Config, seen: Seen, k: Key, t: int): seq<int> {
    Evict(BucketOf(seen, k), t - cfg.window) + [t]
  }

  function Check(cfg: Config, seen: Seen, k: Key, t: int): (Seen, bool) {
    if cfg.threshold <= 1 then (seen, true)
    else
      var bucket := NewBucket(cfg, seen, k, t);
      (seen[k := bucket], |bucket| <= cfg.threshold)
  }

  /** One call of the repeat check. */
  datatype Occurrence = Occurrence(key: Key, time: int)

  function SeenAfter(cfg: Config, checks: seq<Occurrence>): Seen {
    if checks == [] then map[]
    else
      var last := checks[|checks| - 1];
      Check(cfg, SeenAfter(cfg, checks[..|checks| - 1]), last.key, last.time).0
  }

  /** Whether the last check of the history kept its finding. */
  function LastKept(cfg: Config, checks: seq<Occurrence>): bool
    requires checks != []
  {
    var last := checks[|checks| - 1];
    Check(cfg, SeenAfter(cfg, checks[..|checks| - 1]), last.key, last.time).1
  }

  // ----- what the window should hold -----

  function TimesOf(checks: seq<Occurrence>, k: Key): seq<int> {
    if checks == [] then []
    else
      var rest, last := TimesOf(checks[..|checks| - 1], k), checks[|checks| - 1];
      if last.key == k then rest + [last.time] else rest
  }

  function NotBefore(times: seq<int>, cutoff: int): seq<int> {
    if times == [] then []
    else
      var rest, t := NotBefore(times[..|times| - 1], cutoff), times[|times| - 1];
      if t >= cutoff then rest + [t] else rest
  }

  lemma {:induction false} NotBeforeSnoc(times: seq<int>, t: int, cutoff: int)
    ensures NotBefore(times + [t], cutoff) == if t >= cutoff then NotBefore(times, cutoff) + [t]
      else NotBefore(times, cutoff)
  {
    assert (times + [t])[..|times|] == times;
  }

  lemma {:induction false} TimesSnoc(checks: seq<Occurrence>, o: Occurrence, k: Key)
    ensures TimesOf(checks + [o], k) == if o.key == k then TimesOf(checks, k) + [o.time] else TimesOf(checks, k)
  {
    assert (checks + [o])[..|checks|] == checks;
  }

  lemma {:induction false} NotBeforeAll(times: seq<int>, cutoff: int)
    requires forall i :: 0 <= i < |times| ==> times[i] >= cutoff
    ensures NotBefore(times, cutoff) == times
  {
    if times != [] {
      NotBeforeAll(times[..|times| - 1], cutoff);
    }
  }

  lemma {:induction false} NotBeforeDropFirst(times: seq<int>, cutoff: int)
    requires times != [] && times[0] < cutoff
    ensures NotBefore(times, cutoff) == NotBefore(times[1..], cutoff)
  {
    if |times| > 1 {
      NotBeforeDropFirst(times[..|times| - 1], cutoff);
      assert times[..|times| - 1][1..] == times[1..][..|times| - 2];
    }
  }

  /** Nothing that has expired stands behind something that has not. */
  ghost predicate ExpiredFirst(times: seq<int>, cutoff: int) {
    forall i, j :: 0 <= i < j < |times| && times[i] >= cutoff ==> times[j] >= cutoff
  }

  lemma {:induction false} NotBeforeShorter(times: seq<int>, cutoff: int)
    ensures |NotBefore(times, cutoff)| <= |times|
    ensures forall t :: t in NotBefore(times, cutoff) <==> t in times && t >= cutoff
  {
    if times != [] {
      NotBeforeShorter(times[..|times| - 1], cutoff);
      assert times == times[..|times| - 1] + [times[|times| - 1]];
    }
  }

  /** Popping expired times from the left leaves exactly those that have not expired if and only if
      the expired ones come first. */
  lemma {:induction false} EvictIff(times: seq<int>, cutoff: int)
    ensures Evict(times, cutoff) == NotBefore(times, cutoff) <==> ExpiredFirst(times, cutoff)
  {
    if times != [] && times[0] < cutoff {
      EvictIff(times[1..], cutoff);
      NotBeforeDropFirst(times, cutoff);
      if ExpiredFirst(times[1..], cutoff) {
        forall i, j | 0 <= i < j < |times| && times[i] >= cutoff ensures times[j] >= cutoff {
          assert times[1..][i - 1] == times[i] && times[1..][j - 1] == times[j];
        }
      }
      if ExpiredFirst(times, cutoff) {
        assert forall i :: 0 <= i < |times[1..]| ==> times[1..][i] == times[i + 1];
      }
    } else {
      NotBeforeShorter(times, cutoff);
      if ExpiredFirst(times, cutoff) {
        NotBeforeAll(times, cutoff);
      } else {
        var i, j :| 0 <= i < j < |times| && times[i] >= cutoff && times[j] < cutoff;
        assert times[j] in times;
      }
    }
  }

  lemma {:induction false} NotBeforeTwice(times: seq<int>, early: int, late: int)
    requires forall i :: 0 <= i < |times| && times[i] >= late ==> times[i] >= early
    ensures NotBefore(NotBefore(times, early), late) == NotBefore(times, late)
  {
    if times != [] {
      var init, t := times[..|times| - 1], times[|times| - 1];
      NotBeforeTwice(init, early, late);
      assert times == init + [t];
      NotBeforeSnoc(NotBefore(init, early), t, late);
    }
  }

  /** What a key's deque must hold after a history of checks: the occurrences not before the window
      that ends with the last one. */
  function Window(cfg: Config, times: seq<int>): seq<int> {
    if times == [] then [] else NotBefore(times, times[|times| - 1] - cfg.window)
  }

  /** A check at `t` is timely after the earlier ones: what is inside its window was inside the last
      check's window too, and among what was, the expired come first. */
  ghost predicate Timely(cfg: Config, times: seq<int>, t: int) {
    times != [] ==>
      var last, cutoff := times[|times| - 1] - cfg.window, t - cfg.window;
      && (forall i :: 0 <= i < |times| && times[i] >= cutoff ==> times[i] >= last)
      && ExpiredFirst(NotBefore(times, last), cutoff)
  }

  /** A check moves the deque from one window to the next if and only if it is timely. */
  lemma {:induction false} WindowStepIff(cfg: Config, times: seq<int>, t: int)
    requires cfg.window >= 0
    ensures Evict(Window(cfg, times), t - cfg.window) + [t] == Window(cfg, times + [t]) <==> Timely(cfg, times, t)
  {
    WindowNow(cfg, times, t);
    SnocEqual(Evict(Window(cfg, times), t - cfg.window), NotBefore(times, t - cfg.window), t);
    HeldIff(cfg, times, t);
  }

  lemma {:induction false} HeldIff(cfg: Config, times: seq<int>, t: int)
    ensures Evict(Window(cfg, times), t - cfg.window) == NotBefore(times, t - cfg.window) <==> Timely(cfg, times, t)
  {
    if times == [] {
      EmptyStays(t - cfg.window);
    } else {
      StepIff(times, times[|times| - 1] - cfg.window, t - cfg.window);
    }
  }

  lemma {:induction false} EmptyStays(cutoff: int)
    ensures Evict([], cutoff) == [] && NotBefore([], cutoff) == []
  {
  }

  lemma SnocEqual(a: seq<int>, b: seq<int>, t: int)
    ensures a + [t] == b + [t] <==> a == b
  {
    if a + [t] == b + [t] { assert a == (a + [t])[..|a|] == (b + [t])[..|b|] == b; }
  }

  lemma {:induction false} StepIff(times: seq<int>, last: int, cutoff: int)
    ensures Evict(NotBefore(times, last), cutoff) == NotBefore(times, cutoff) <==>
      (forall i :: 0 <= i < |times| && times[i] >= cutoff ==> times[i] >= last)
        && ExpiredFirst(NotBefore(times, last), cutoff)
  {
    var held := NotBefore(times, last);
    EvictIff(held, cutoff);
    NotBeforeShorter(times, last);
    NotBeforeShorter(times, cutoff);
    EvictedFrom(held, cutoff);
    if forall i :: 0 <= i < |times| && times[i] >= cutoff ==> times[i] >= last {
      NotBeforeTwice(times, last, cutoff);
    } else {
      var i :| 0 <= i < |times| && times[i] >= cutoff && times[i] < last;
      assert times[i] in NotBefore(times, cutoff) && times[i] !in held;
    }
  }

  lemma {:induction false} EvictedFrom(times: seq<int>, cutoff: int)
    ensures forall t :: t in Evict(times, cutoff) ==> t in times
  {
    if times != [] && times[0] < cutoff { EvictedFrom(times[1..], cutoff); }
  }

  /** Every check of the key was timely. */
  ghost predicate WellTimed(cfg: Config, times: seq<int>) {
    forall n :: 0 <= n < |times| ==> Timely(cfg, times[..n], times[n])
  }

  lemma WellTimedSnoc(cfg: Config, times: seq<int>, t: int)
    ensures WellTimed(cfg, times + [t]) <==> WellTimed(cfg, times) && Timely(cfg, times, t)
  {
    var more := times + [t];
    assert forall n :: 0 <= n < |times| ==> more[..n] == times[..n] && more[n] == times[n];
    assert more[..|times|] == times && more[|times|] == t;
  }

  /** The key's deque is its window. */
  ghost predicate IsWindow(cfg: Config, checks: seq<Occurrence>, k: Key) {
    BucketOf(SeenAfter(cfg, checks), k) == Window(cfg, TimesOf(checks, k))
  }

  /** The key's deque was its window after every check so far. */
  ghost predicate AlwaysWindow(cfg: Config, checks: seq<Occurrence>, k: Key) {
    forall n :: 0 <= n <= |checks| ==> IsWindow(cfg, checks[..n], k)
  }

  lemma AlwaysSnoc(cfg: Config, checks: seq<Occurrence>, o: Occurrence, k: Key)
    ensures AlwaysWindow(cfg, checks + [o], k) <==> AlwaysWindow(cfg, checks, k) && IsWindow(cfg, checks + [o], k)
  {
    var more := checks + [o];
    assert more[..|more|] == more;
    assert forall n :: 0 <= n <= |checks| ==> more[..n] == checks[..n];
  }

  lemma {:induction false} BucketSnoc(cfg: Config, checks: seq<Occurrence>, o: Occurrence, k: Key)
    requires cfg.threshold > 1
    ensures var was := BucketOf(SeenAfter(cfg, checks), k);
      BucketOf(SeenAfter(cfg, checks + [o]), k) ==
      if o.key == k then Evict(was, o.time - cfg.window) + [o.time] else was
  {
    assert (checks + [o])[..|checks|] == checks;
  }

  lemma SameKeyIff(cfg: Config, times: seq<int>, t: int, bucket: seq<int>, more: seq<int>)
    requires cfg.window >= 0 && more == times + [t]
    requires bucket == Evict(Window(cfg, times), t - cfg.window) + [t]
    ensures bucket == Window(cfg, more) <==> Timely(cfg, times, t)
  {
    WindowStepIff(cfg, times, t);
  }

  lemma {:induction false} WindowSnocIff(cfg: Config, checks: seq<Occurrence>, o: Occurrence, k: Key)
    requires cfg.threshold > 1 && cfg.window >= 0 && IsWindow(cfg, checks, k)
    ensures IsWindow(cfg, checks + [o], k) <==> (o.key == k ==> Timely(cfg, TimesOf(checks, k), o.time))
  {
    BucketSnoc(cfg, checks, o, k);
    TimesSnoc(checks, o, k);
    var more := checks + [o];
    if o.key == k {
      SameKeyIff(cfg, TimesOf(checks, k), o.time, BucketOf(SeenAfter(cfg, more), k), TimesOf(more, k));
    }
  }

  /** The deque of a key is exactly its window after every check if and only if every check of the key
      was timely. */
  lemma {:induction false} DequeIsWindowIff(cfg: Config, checks: seq<Occurrence>, k: Key)
    requires cfg.threshold > 1 && cfg.window >= 0
    ensures AlwaysWindow(cfg, checks, k) <==> WellTimed(cfg, TimesOf(checks, k))
  {
    if checks == [] {
      assert checks[..0] == [];
    } else {
      var init, last := checks[..|checks| - 1], checks[|checks| - 1];
      assert checks == init + [last];
      DequeIsWindowIff(cfg, init, k);
      AlwaysSnoc(cfg, init, last, k);
      TimesSnoc(init, last, k);
      if last.key == k { WellTimedSnoc(cfg, TimesOf(init, k), last.time); }
      assert AlwaysWindow(cfg, init, k) ==> IsWindow(cfg, init[..|init|], k);
      assert init[..|init|] == init;
      if AlwaysWindow(cfg, init, k) { WindowSnocIff(cfg, init, last, k); }
    }
  }

  ghost predicate NonDecreasing(times: seq<int>) {
    forall i, j :: 0 <= i < j < |times| ==> times[i] <= times[j]
  }

  /** Times never go back for any one (rule, entity). */
  ghost predicate Chronological(checks: seq<Occurrence>) {
    forall k :: NonDecreasing(TimesOf(checks, k))
  }

  /** Times that never go back are timely. */
  lemma {:induction false} NonDecreasingIsTimely(cfg: Config, times: seq<int>)
    requires NonDecreasing(times)
    ensures WellTimed(cfg, times)
  {
    forall n | 0 <= n < |times| ensures Timely(cfg, times[..n], times[n]) {
      if n > 0 {
        var earlier := times[..n];
        KeepsOrder(earlier, earlier[n - 1] - cfg.window);
        assert earlier[n - 1] == times[n - 1] <= times[n];
      }
    }
  }

  lemma {:induction false} KeepsOrder(times: seq<int>, cutoff: int)
    requires NonDecreasing(times)
    ensures NonDecreasing(NotBefore(times, cutoff))
  {
    if times != [] {
      var init, t := times[..|times| - 1], times[|times| - 1];
      assert times == init + [t];
      assert forall i :: 0 <= i < |init| ==> times[i] == init[i] && init[i] <= t;
      KeepsOrder(init, cutoff);
      NotBeforeShorter(init, cutoff);
      var kept := NotBefore(init, cutoff);
      forall i | 0 <= i < |kept| ensures kept[i] <= t {
        assert kept[i] in kept && kept[i] in init;
        var j :| 0 <= j < |init| && init[j] == kept[i];
      }
      assert NotBefore(times, cutoff) == if t >= cutoff then kept + [t] else kept;
    }
  }

  /** With times that never go back, the deque of every key holds exactly its occurrences still inside
      the window. */
  lemma {:induction false} DequeIsWindow(cfg: Config, checks: seq<Occurrence>, k: Key)
    requires cfg.threshold > 1 && cfg.window >= 0 && Chronological(checks)
    ensures WellTimed(cfg, TimesOf(checks, k))
    ensures BucketOf(SeenAfter(cfg, checks), k) == Window(cfg, TimesOf(checks, k))
  {
    assert NonDecreasing(TimesOf(checks, k));
    NonDecreasingIsTimely(cfg, TimesOf(checks, k));
    DequeIsWindowIff(cfg, checks, k);
    assert IsWindow(cfg, checks[..|checks|], k);
    assert checks[..|checks|] == checks;
  }

  /** Every key's checks were timely. */
  ghost predicate AllTimely(cfg: Config, checks: seq<Occurrence>) {
    forall k :: WellTimed(cfg, TimesOf(checks, k))
  }

  lemma AllTimelyPrefix(cfg: Config, checks: seq<Occurrence>, o: Occurrence)
    requires AllTimely(cfg, checks + [o])
    ensures AllTimely(cfg, checks)
  {
    forall k ensures WellTimed(cfg, TimesOf(checks, k)) {
      assert WellTimed(cfg, TimesOf(checks + [o], k));
      TimesSnoc(checks, o, k);
      if o.key == k { WellTimedSnoc(cfg, TimesOf(checks, k), o.time); }
    }
  }

  lemma TimelyDeque(cfg: Config, checks: seq<Occurrence>, k: Key)
    requires cfg.threshold > 1 && cfg.window >= 0 && AllTimely(cfg, checks)
    ensures IsWindow(cfg, checks, k)
  {
    DequeIsWindowIff(cfg, checks, k);
    assert IsWindow(cfg, checks[..|checks|], k);
    assert checks[..|checks|] == checks;
  }

  /** A finding passes the repeat check iff no more than `threshold` occurrences of its key,
      itself included, lie in the window that ends with it. */
  lemma KeptIffWithinThreshold(cfg: Config, checks: seq<Occurrence>)
    requires checks != [] && cfg.threshold > 1 && cfg.window >= 0 && AllTimely(cfg, checks)
    ensures var last := checks[|checks| - 1];
      LastKept(cfg, checks) <==> |NotBefore(TimesOf(checks, last.key), last.time - cfg.window)| <= cfg.threshold
  {
    var init, last := checks[..|checks| - 1], checks[|checks| - 1];
    assert checks == init + [last];
    TimesSnoc(init, last, last.key);
    TimelyDeque(cfg, checks, last.key);
    LastBucket(cfg, checks);
    WindowNow(cfg, TimesOf(init, last.key), last.time);
  }

  lemma LastBucket(cfg: Config, checks: seq<Occurrence>)
    requires checks != [] && cfg.threshold > 1
    ensures LastKept(cfg, checks) <==> |BucketOf(SeenAfter(cfg, checks), checks[|checks| - 1].key)| <= cfg.threshold
  {
  }

  lemma {:induction false} WindowNow(cfg: Config, times: seq<int>, t: int)
    ensures Window(cfg, times + [t]) == NotBefore(times + [t], t - cfg.window)
  {
  }

  // ----- the bound on what is kept -----

  /** The last check kept its finding, for `k` and in the window from `start`. */
  predicate Adds(cfg: Config, checks: seq<Occurrence>, k: Key, start: int)
    requires checks != []
  {
    var last := checks[|checks| - 1];
    last.key == k && start <= last.time <= start + cfg.window && LastKept(cfg, checks)
  }

  /** How many checks for `k` in the window starting at `start` kept their finding. */
  function KeptIn(cfg: Config, checks: seq<Occurrence>, k: Key, start: int): nat {
    if checks == [] then 0
    else
      KeptIn(cfg, checks[..|checks| - 1], k, start) + (if Adds(cfg, checks, k, start) then 1 else 0)
  }

  lemma {:induction false} KeptAreOccurrences(cfg: Config, checks: seq<Occurrence>, k: Key, start: int, cutoff: int)
    requires cutoff <= start
    ensures KeptIn(cfg, checks, k, start) <= |NotBefore(TimesOf(checks, k), cutoff)|
  {
    if checks != [] {
      var init, last := checks[..|checks| - 1], checks[|checks| - 1];
      KeptAreOccurrences(cfg, init, k, start, cutoff);
      if last.key == k {
        NotBeforeSnoc(TimesOf(init, k), last.time, cutoff);
      }
    }
  }

  /** When a check keeps its finding, fewer than `threshold` earlier ones are in its window. */
  lemma KeptLeavesRoom(cfg: Config, checks: seq<Occurrence>)
    requires checks != [] && cfg.threshold > 1 && cfg.window >= 0 && AllTimely(cfg, checks) && LastKept(cfg, checks)
    ensures var init, last := checks[..|checks| - 1], checks[|checks| - 1];
      |NotBefore(TimesOf(init, last.key), last.time - cfg.window)| < cfg.threshold
  {
    var init, last := checks[..|checks| - 1], checks[|checks| - 1];
    assert checks == init + [last];
    KeptIffWithinThreshold(cfg, checks);
    TimesSnoc(init, last, last.key);
    NotBeforeSnoc(TimesOf(init, last.key), last.time, last.time - cfg.window);
  }

  /** No window of the configured length holds more than `threshold` kept findings of one key. */
  lemma {:induction false} KeptBound(cfg: Config, checks: seq<Occurrence>, k: Key, start: int)
    requires cfg.threshold > 1 && cfg.window >= 0 && AllTimely(cfg, checks)
    ensures KeptIn(cfg, checks, k, start) <= cfg.threshold
  {
    if checks != [] {
      var init, last := checks[..|checks| - 1], checks[|checks| - 1];
      assert checks == init + [last];
      AllTimelyPrefix(cfg, init, last);
      KeptBound(cfg, init, k, start);
      if Adds(cfg, checks, k, start) { RoomForLast(cfg, checks, k, start); }
    }
  }

  lemma {:induction false} RoomForLast(cfg: Config, checks: seq<Occurrence>, k: Key, start: int)
    requires checks != [] && Adds(cfg, checks, k, start)
    requires cfg.threshold > 1 && cfg.window >= 0 && AllTimely(cfg, checks)
    ensures KeptIn(cfg, checks[..|checks| - 1], k, start) < cfg.threshold
  {
    var init, last := checks[..|checks| - 1], checks[|checks| - 1];
    KeptLeavesRoom(cfg, checks);
    KeptAreOccurrences(cfg, init, k, start, last.time - cfg.window);
  }

  /** A threshold of one or less switches the check off altogether instead of keeping one. */
  lemma {:induction false} ThresholdOneKeepsEverything(cfg: Config, checks: seq<Occurrence>)
    requires checks != [] && cfg.threshold <= 1
    ensures LastKept(cfg, checks) && SeenAfter(cfg, checks) == SeenAfter(cfg, checks[..|checks| - 1])
  {
  }

  /** How many times lie in the window starting at `start`. */
  function CountIn(cfg: Config, times: seq<int>, start: int): nat {
    if times == [] then 0
    else
      CountIn(cfg, times[..|times| - 1], start)
      + (if start <= times[|times| - 1] <= start + cfg.window then 1 else 0)
  }

  /** With the check off, a window keeps every occurrence in it, so the bound holds if and only if no
      more than `threshold` occurrences lie in it. */
  lemma {:induction false} WithoutCheckAllAreKept(cfg: Config, checks: seq<Occurrence>, k: Key, start: int)
    requires cfg.threshold <= 1
    ensures KeptIn(cfg, checks, k, start) == CountIn(cfg, TimesOf(checks, k), start)
  {
    if checks != [] {
      var init, last := checks[..|checks| - 1], checks[|checks| - 1];
      assert checks == init + [last];
      WithoutCheckAllAreKept(cfg, init, k, start);
      ThresholdOneKeepsEverything(cfg, checks);
      TimesSnoc(init, last, k);
      CountSnoc(cfg, TimesOf(init, k), last.time, start);
    }
  }

  lemma {:induction false} CountSnoc(cfg: Config, times: seq<int>, t: int, start: int)
    ensures CountIn(cfg, times + [t], start)
      == CountIn(cfg, times, start) + (if start <= t <= start + cfg.window then 1 else 0)
  {
    assert (times + [t])[..|times|] == times;
  }

  /** The witness that times going back break the window: the deque still holds an occurrence outside it. */
  lemma OutOfOrderKeepsExpired()
    ensures var cfg := Config(true, 10, 5, []);
      var k := ("r", "e");
      var checks := [Occurrence(k, 100), Occurrence(k, 50), Occurrence(k, 105)];
      BucketOf(SeenAfter(cfg, checks), k) == [100, 50, 105] && !Chronological(checks)
  {
    var cfg := Config(true, 10, 5, []);
    var k := ("r", "e");
    var one, two, three := [Occurrence(k, 100)], [Occurrence(k, 100), Occurrence(k, 50)],
      [Occurrence(k, 100), Occurrence(k, 50), Occurrence(k, 105)];
    assert one[..0] == [] && two[..1] == one && three[..2] == two;
    assert BucketOf(SeenAfter(cfg, one), k) == [100];
    assert BucketOf(SeenAfter(cfg, two), k) == [100, 50];
    assert TimesOf(one, k) == [100] && TimesOf(two, k) == [100, 50];
    var times := TimesOf(three, k);
    assert times == [100, 50, 105];
    assert times[1] < times[0];
    assert !NonDecreasing(times);
  }

  // ----- applying exceptions and the repeat check to batches -----

  function Matches(e: Exception, f: Finding, now: int): bool {
    && e.enabled
    && (e.expiresAt.Some? ==> e.expiresAt.value >= now)
    && (e.ruleId == "*" || e.ruleId == f.ruleId)
    && (e.entity.Some? ==> e.entity.value in f.entities)
  }

  function FirstMatch(exceptions: seq<Exception>, f: Finding, now: int): Option<Exception> {
    if exceptions == [] then None
    else if Matches(exceptions[0], f, now) then Some(exceptions[0])
    else FirstMatch(exceptions[1..], f, now)
  }

  datatype Outcome = Outcome(seen: Seen, kept: seq<Finding>, records: seq<Record>)

  function ApplyOne(cfg: Config, now: int, before: Outcome, f: Finding): Outcome {
    match FirstMatch(cfg.exceptions, f, now)
    case Some(e) =>
      if e.downgradeTo.None? then
        before.(records := before.records + [Record(f.findingId, true, f.severity)])
      else
        var lowered := f.(severity := Min(f.severity, e.downgradeTo.value));
        before.(kept := before.kept + [lowered],
                records := before.records + [Record(f.findingId, false, lowered.severity)])
    case None =>
      if !cfg.autoRepeat then before.(kept := before.kept + [f])
      else
        var checked := Check(cfg, before.seen, RepeatKey(f), f.timestamp);
        if checked.1 then before.(seen := checked.0, kept := before.kept + [f])
        else before.(seen := checked.0, records := before.records + [Record(f.findingId, true, f.severity)])
  }

  function ApplyEach(cfg: Config, now: int, before: Outcome, fs: seq<Finding>): Outcome {
    if fs == [] then before
    else ApplyOne(cfg, now, ApplyEach(cfg, now, before, fs[..|fs| - 1]), fs[|fs| - 1])
  }

  function ByTime(fs: seq<Finding>): seq<Finding> {
    Sorted(fs, (f: Finding) => f.timestamp)
  }

  function Apply(cfg: Config, now: int, seen: Seen, fs: seq<Finding>): Outcome {
    ApplyEach(cfg, now, Outcome(seen, [], []), ByTime(fs))
  }

  /** A finding reaches the repeat check unless an exception matches it first. */
  function CheckOf(cfg: Config, now: int, f: Finding): seq<Occurrence> {
    if cfg.autoRepeat && FirstMatch(cfg.exceptions, f, now).None? then [Occurrence(RepeatKey(f), f.timestamp)] else []
  }

  /** The findings that reach the repeat check, as occurrences. */
  function ChecksOf(cfg: Config, now: int, fs: seq<Finding>): seq<Occurrence> {
    if fs == [] then []
    else
      var f := fs[|fs| - 1];
      ChecksOf(cfg, now, fs[..|fs| - 1]) + CheckOf(cfg, now, f)
  }

  datatype Batch = Batch(now: int, findings: seq<Finding>)

  /** All checks of any number of `apply` calls, in the order they are made. */
  function AllChecks(cfg: Config, batches: seq<Batch>): seq<Occurrence> {
    if batches == [] then []
    else
      var last := batches[|batches| - 1];
      AllChecks(cfg, batches[..|batches| - 1]) + ChecksOf(cfg, last.now, ByTime(last.findings))
  }

  function SeenAfterBatches(cfg: Config, batches: seq<Batch>): Seen {
    if batches == [] then map[]
    else
      var last := batches[|batches| - 1];
      Apply(cfg, last.now, SeenAfterBatches(cfg, batches[..|batches| - 1]), last.findings).seen
  }

  lemma {:induction false} OneRunsItsCheck(cfg: Config, now: int, before: Outcome, checks: seq<Occurrence>, f: Finding)
    requires before.seen == SeenAfter(cfg, checks)
    ensures ApplyOne(cfg, now, before, f).seen == SeenAfter(cfg, checks + CheckOf(cfg, now, f))
  {
    if CheckOf(cfg, now, f) == [] {
      assert checks + [] == checks;
    } else {
      var o := Occurrence(RepeatKey(f), f.timestamp);
      assert CheckOf(cfg, now, f) == [o];
      assert (checks + [o])[..|checks|] == checks;
    }
  }

  lemma {:induction false} EachRunsItsChecks(cfg: Config, now: int, before: Outcome, checks: seq<Occurrence>,
          fs: seq<Finding>)
    requires before.seen == SeenAfter(cfg, checks)
    ensures ApplyEach(cfg, now, before, fs).seen == SeenAfter(cfg, checks + ChecksOf(cfg, now, fs))
  {
    if fs == [] {
      assert checks + ChecksOf(cfg, now, fs) == checks;
    } else {
      var init, f := fs[..|fs| - 1], fs[|fs| - 1];
      EachRunsItsChecks(cfg, now, before, checks, init);
      OneRunsItsCheck(cfg, now, ApplyEach(cfg, now, before, init), checks + ChecksOf(cfg, now, init), f);
      assert checks + ChecksOf(cfg, now, fs) == checks + ChecksOf(cfg, now, init) + CheckOf(cfg, now, f);
    }
  }

  /** The state between calls is the one the whole history of checks leaves, so the two results
      above hold across any number of calls. */
  lemma {:induction false} CallsCompose(cfg: Config, batches: seq<Batch>)
    ensures SeenAfterBatches(cfg, batches) == SeenAfter(cfg, AllChecks(cfg, batches))
  {
    if batches != [] {
      var init, last := batches[..|batches| - 1], batches[|batches| - 1];
      CallsCompose(cfg, init);
      EachRunsItsChecks(cfg, last.now, Outcome(SeenAfterBatches(cfg, init), [], []), AllChecks(cfg, init),
        ByTime(last.findings));
    }
  }

  /** The verdict a finding gets in a call is the one its place in the whole history gives it. */
  lemma {:induction false} VerdictIsLastKept(cfg: Config, now: int, before: Outcome, checks: seq<Occurrence>,
          f: Finding)
    requires before.seen == SeenAfter(cfg, checks)
    requires cfg.autoRepeat && FirstMatch(cfg.exceptions, f, now).None?
    ensures var after := ApplyOne(cfg, now, before, f);
      var history := checks + [Occurrence(RepeatKey(f), f.timestamp)];
      && after.kept == before.kept + (if LastKept(cfg, history) then [f] else [])
      && (!LastKept(cfg, history) ==> after.records == before.records + [Record(f.findingId, true, f.severity)])
  {
    var o := Occurrence(RepeatKey(f), f.timestamp);
    assert (checks + [o])[..|checks|] == checks;
  }

  function KeptIds(kept: seq<Finding>): multiset<string> {
    if kept == [] then multiset{} else KeptIds(kept[..|kept| - 1]) + multiset{kept[|kept| - 1].findingId}
  }

  function DroppedIds(records: seq<Record>): multiset<string> {
    if records == [] then multiset{}
    else
      DroppedIds(records[..|records| - 1])
      + (if Last(records).dropped then multiset{Last(records).findingId} else multiset{})
  }

  function Last<T>(s: seq<T>): T
    requires s != []
  {
    s[|s| - 1]
  }

  lemma {:induction false} KeptSnoc(kept: seq<Finding>, f: Finding)
    ensures KeptIds(kept + [f]) == KeptIds(kept) + multiset{f.findingId}
  {
    assert (kept + [f])[..|kept|] == kept;
  }

  lemma {:induction false} DroppedSnoc(records: seq<Record>, r: Record)
    ensures DroppedIds(records + [r]) == DroppedIds(records) + (if r.dropped then multiset{r.findingId} else multiset{})
  {
    assert (records + [r])[..|records|] == records;
  }

  /** What the ids come to after one more finding is kept, dropped, or kept with its record. */
  lemma OneMoreId(before: Outcome, f: Finding, r: Record)
    requires r.findingId == f.findingId
    ensures var kept := before.(kept := before.kept + [f]); Ids(kept) == Ids(before) + multiset{f.findingId}
    ensures var noted := before.(records := before.records + [r]);
      Ids(noted) == Ids(before) + (if r.dropped then multiset{f.findingId} else multiset{})
  {
    KeptSnoc(before.kept, f);
    DroppedSnoc(before.records, r);
  }

  function Ids(o: Outcome): multiset<string> {
    KeptIds(o.kept) + DroppedIds(o.records)
  }

  lemma OneIsKeptOrDropped(cfg: Config, now: int, before: Outcome, f: Finding)
    ensures Ids(ApplyOne(cfg, now, before, f)) == Ids(before) + multiset{f.findingId}
  {
    OneMoreId(before, f, Record(f.findingId, true, f.severity));
    match FirstMatch(cfg.exceptions, f, now)
    case Some(e) =>
      if e.downgradeTo.Some? {
        var lowered := f.(severity := Min(f.severity, e.downgradeTo.value));
        var r := Record(f.findingId, false, lowered.severity);
        OneMoreId(before, lowered, r);
        OneMoreId(before.(kept := before.kept + [lowered]), lowered, r);
      }
    case None =>
  }

  lemma {:induction false} EachIsAccounted(cfg: Config, now: int, before: Outcome, fs: seq<Finding>)
    ensures Ids(ApplyEach(cfg, now, before, fs)) == Ids(before) + KeptIds(fs)
  {
    if fs != [] {
      var init, f := fs[..|fs| - 1], fs[|fs| - 1];
      EachIsAccounted(cfg, now, before, init);
      OneIsKeptOrDropped(cfg, now, ApplyEach(cfg, now, before, init), f);
    }
  }

  lemma {:induction false} InsertIds(fs: seq<Finding>, f: Finding, key: Finding -> int)
    ensures KeptIds(Insert(fs, f, key)) == KeptIds(fs) + multiset{f.findingId}
  {
    if fs == [] {
      KeptSnoc([], f);
      assert [] + [f] == [f];
    } else if key(fs[|fs| - 1]) <= key(f) {
      KeptSnoc(fs, f);
    } else {
      InsertIds(fs[..|fs| - 1], f, key);
      KeptSnoc(Insert(fs[..|fs| - 1], f, key), fs[|fs| - 1]);
    }
  }

  lemma {:induction false} SortedIds(fs: seq<Finding>, key: Finding -> int)
    ensures KeptIds(Sorted(fs, key)) == KeptIds(fs)
  {
    if fs != [] {
      SortedIds(fs[..|fs| - 1], key);
      InsertIds(Sorted(fs[..|fs| - 1], key), fs[|fs| - 1], key);
    }
  }

  /** Nothing disappears silently and nothing is doubled: the findings a call keeps and those it
      records as dropped are together exactly the findings it was given, id by id. */
  lemma {:induction false} NothingVanishes(cfg: Config, now: int, seen: Seen, fs: seq<Finding>)
    ensures Ids(Apply(cfg, now, seen, fs)) == KeptIds(fs)
  {
    EachIsAccounted(cfg, now, Outcome(seen, [], []), ByTime(fs));
    SortedIds(fs, (f: Finding) => f.timestamp);
  }

  // ----- the bound over any number of calls -----

  /** Whether a kept finding went through the repeat check for `k`, inside the window from `start`. */
  predicate Passed(cfg: Config, now: int, f: Finding, k: Key, start: int) {
    CheckOf(cfg, now, f) != [] && RepeatKey(f) == k && start <= f.timestamp <= start + cfg.window
  }

  function PassedIn(cfg: Config, now: int, kept: seq<Finding>, k: Key, start: int): nat {
    if kept == [] then 0
    else
      PassedIn(cfg, now, kept[..|kept| - 1], k, start)
      + (if Passed(cfg, now, kept[|kept| - 1], k, start) then 1 else 0)
  }

  /** The findings for `k` in the window from `start` that any of the calls kept after the check. */
  function PassedInAll(cfg: Config, batches: seq<Batch>, k: Key, start: int): nat {
    if batches == [] then 0
    else
      var init, last := batches[..|batches| - 1], batches[|batches| - 1];
      PassedInAll(cfg, init, k, start)
      + PassedIn(cfg, last.now, Apply(cfg, last.now, SeenAfterBatches(cfg, init), last.findings).kept, k, start)
  }

  lemma {:induction false} PassedSnoc(cfg: Config, now: int, kept: seq<Finding>, f: Finding, k: Key, start: int)
    ensures PassedIn(cfg, now, kept + [f], k, start) ==
      PassedIn(cfg, now, kept, k, start) + (if Passed(cfg, now, f, k, start) then 1 else 0)
  {
    assert (kept + [f])[..|kept|] == kept;
  }

  /** Lowering a finding's severity does not change which exception it meets. */
  lemma {:induction false} SeverityDoesNotMatter(exceptions: seq<Exception>, f: Finding, severity: int, now: int)
    ensures FirstMatch(exceptions, f.(severity := severity), now) == FirstMatch(exceptions, f, now)
  {
    if exceptions != [] { SeverityDoesNotMatter(exceptions[1..], f, severity, now); }
  }

  lemma {:induction false} OnePasses(cfg: Config, now: int, before: Outcome, checks: seq<Occurrence>, f: Finding,
          k: Key, start: int)
    requires before.seen == SeenAfter(cfg, checks) && cfg.autoRepeat
    ensures var after := ApplyOne(cfg, now, before, f);
      PassedIn(cfg, now, after.kept, k, start) - PassedIn(cfg, now, before.kept, k, start)
      == KeptIn(cfg, checks + CheckOf(cfg, now, f), k, start) - KeptIn(cfg, checks, k, start)
  {
    var after := ApplyOne(cfg, now, before, f);
    if |after.kept| > |before.kept| { PassedSnoc(cfg, now, before.kept, Last(after.kept), k, start); }
    if FirstMatch(cfg.exceptions, f, now).Some? {
      assert checks + CheckOf(cfg, now, f) == checks;
      SeverityDoesNotMatter(cfg.exceptions, f, if |after.kept| > |before.kept| then Last(after.kept).severity
        else 0, now);
    } else {
      VerdictIsLastKept(cfg, now, before, checks, f);
      assert (checks + CheckOf(cfg, now, f))[..|checks|] == checks;
    }
  }

  lemma {:induction false} EachPasses(cfg: Config, now: int, before: Outcome, checks: seq<Occurrence>, fs: seq<Finding>,
          k: Key, start: int)
    requires before.seen == SeenAfter(cfg, checks) && cfg.autoRepeat
    ensures var after := ApplyEach(cfg, now, before, fs);
      PassedIn(cfg, now, after.kept, k, start) - PassedIn(cfg, now, before.kept, k, start)
      == KeptIn(cfg, checks + ChecksOf(cfg, now, fs), k, start) - KeptIn(cfg, checks, k, start)
  {
    if fs == [] {
      assert checks + ChecksOf(cfg, now, fs) == checks;
    } else {
      var init, f := fs[..|fs| - 1], fs[|fs| - 1];
      EachPasses(cfg, now, before, checks, init, k, start);
      EachRunsItsChecks(cfg, now, before, checks, init);
      OnePasses(cfg, now, ApplyEach(cfg, now, before, init), checks + ChecksOf(cfg, now, init), f, k, start);
      assert checks + ChecksOf(cfg, now, fs) == checks + ChecksOf(cfg, now, init) + CheckOf(cfg, now, f);
    }
  }

  /** What the calls kept after the check is what the one history of their checks keeps. */
  lemma {:induction false} CallsKeep(cfg: Config, batches: seq<Batch>, k: Key, start: int)
    requires cfg.autoRepeat
    ensures PassedInAll(cfg, batches, k, start) == KeptIn(cfg, AllChecks(cfg, batches), k, start)
  {
    if batches != [] {
      var init, last := batches[..|batches| - 1], batches[|batches| - 1];
      CallsKeep(cfg, init, k, start);
      CallsCompose(cfg, init);
      EachPasses(cfg, last.now, Outcome(SeenAfterBatches(cfg, init), [], []), AllChecks(cfg, init),
        ByTime(last.findings), k, start);
    }
  }

  /** Across any number of calls, no window of the configured length contains more than `threshold`
      findings of one key that the calls kept after the repeat check. */
  lemma {:induction false} CallsKeepBound(cfg: Config, batches: seq<Batch>, k: Key, start: int)
    requires cfg.autoRepeat && cfg.threshold > 1 && cfg.window >= 0 && AllTimely(cfg, AllChecks(cfg, batches))
    ensures PassedInAll(cfg, batches, k, start) <= cfg.threshold
  {
    CallsKeep(cfg, batches, k, start);
    KeptBound(cfg, AllChecks(cfg, batches), k, start);
  }

  // ----- the engine -----

  class SuppressionEngine {
    const cfg: Config
    var seen: Seen

    constructor (cfg: Config)
      ensures this.cfg == cfg && seen == map[]
    {
      this.cfg := cfg;
      seen := map[];
    }

    /** True when the finding passes the repeat check. */
    method AutoRepeat(f: Finding) returns (kept: bool)
      modifies this
      ensures (seen, kept) == Check(cfg, old(seen), RepeatKey(f), f.timestamp)
    {
      if cfg.threshold <= 1 {
        return true;
      }
      var bucket := BucketOf(seen, RepeatKey(f));
      var cutoff := f.timestamp - cfg.window;
      while bucket != [] && bucket[0] < cutoff
        invariant Evict(bucket, cutoff) == Evict(BucketOf(old(seen), RepeatKey(f)), cutoff)
        decreases |bucket|
      {
        bucket := bucket[1..];
      }
      bucket := bucket + [f.timestamp];
      seen := seen[RepeatKey(f) := bucket];
      kept := |bucket| <= cfg.threshold;
    }

    method ApplyTo(now: int, findings: seq<Finding>) returns (kept: seq<Finding>, records: seq<Record>)
      modifies this
      ensures Outcome(seen, kept, records) == Apply(cfg, now, old(seen), findings)
    {
      var ordered := ByTime(findings);
      kept, records := [], [];
      ghost var start := Outcome(old(seen), [], []);
      var i := 0;
      while i < |ordered|
        invariant 0 <= i <= |ordered|
        invariant Outcome(seen, kept, records) == ApplyEach(cfg, now, start, ordered[..i])
      {
        assert ordered[..i + 1][..i] == ordered[..i];
        var f := ordered[i];
        i := i + 1;
        var match_ := FirstMatch(cfg.exceptions, f, now);
        if match_.None? {
          var passes := true;
          if cfg.autoRepeat {
            passes := AutoRepeat(f);
          }
          if passes {
            kept := kept + [f];
          } else {
            records := records + [Record(f.findingId, true, f.severity)];
          }
        } else if match_.value.downgradeTo.None? {
          records := records + [Record(f.findingId, true, f.severity)];
        } else {
          var lowered := f.(severity := Min(f.severity, match_.value.downgradeTo.value));
          records := records + [Record(f.findingId, false, lowered.severity)];
          kept := kept + [lowered];
        }
      }
      assert ordered[..i] == ordered;
    }
  }
}
