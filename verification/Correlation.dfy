/** `correlate_findings` of src/autosiem/risk.py: linking only consecutive findings of an entity gives
    exactly the connected components of "shares an entity and at most a window apart". */
module Correlation {
  import opened Common
  import opened Schemas
  import opened Sorting
  import opened UnionFind

  const UNKNOWN_ENTITY: string := "global:unknown"

  /** The entities a finding is filed under: a placeholder if it has none. */
  function Filed(f: Finding): (r: seq<string>)
    ensures r != []
  {
    if f.entities == [] then [UNKNOWN_ENTITY] else f.entities
  }

  function Gap(a: int, b: int): int {
    if a <= b then b - a else a - b
  }

  ghost predicate Shares(f: Finding, g: Finding) {
    exists e :: e in Filed(f) && e in Filed(g)
  }

  /** The relation the documentation speaks of. */
  ghost predicate Near(f: Finding, g: Finding, window: int) {
    Shares(f, g) && Gap(f.timestamp, g.timestamp) <= window
  }

  // ----- connectedness -----

  ghost predicate IsPath(fs: seq<Finding>, window: int, path: seq<nat>) {
    && path != [] && (forall k :: 0 <= k < |path| ==> path[k] < |fs|)
    && forall k :: 0 <= k < |path| - 1 ==> Near(fs[path[k]], fs[path[k + 1]], window)
  }

  ghost predicate Connected(fs: seq<Finding>, window: int, i: nat, j: nat) {
    exists path :: IsPath(fs, window, path) && path[0] == i && path[|path| - 1] == j
  }

  lemma ConnectedSelf(fs: seq<Finding>, window: int, i: nat)
    requires i < |fs|
    ensures Connected(fs, window, i, i)
  {
    assert IsPath(fs, window, [i]);
  }

  lemma ConnectedNear(fs: seq<Finding>, window: int, i: nat, j: nat)
    requires i < |fs| && j < |fs| && Near(fs[i], fs[j], window)
    ensures Connected(fs, window, i, j)
  {
    assert IsPath(fs, window, [i, j]);
  }

  lemma ConnectedTrans(fs: seq<Finding>, window: int, i: nat, j: nat, k: nat)
    requires Connected(fs, window, i, j) && Connected(fs, window, j, k)
    ensures Connected(fs, window, i, k)
  {
    var p :| IsPath(fs, window, p) && p[0] == i && p[|p| - 1] == j;
    var q :| IsPath(fs, window, q) && q[0] == j && q[|q| - 1] == k;
    var path := p + q[1..];
    forall n | 0 <= n < |path| - 1 ensures Near(fs[path[n]], fs[path[n + 1]], window) {
      if n < |p| - 1 {
        assert path[n] == p[n] && path[n + 1] == p[n + 1];
      } else {
        assert path[n] == q[n - (|p| - 1)] && path[n + 1] == q[n - (|p| - 1) + 1];
      }
    }
    assert IsPath(fs, window, path);
    assert path[|path| - 1] == k;
  }

  lemma NearBackwards(fs: seq<Finding>, window: int, path: seq<nat>, m: nat)
    requires IsPath(fs, window, path) && m < |path| - 1
    ensures Near(fs[path[m + 1]], fs[path[m]], window)
  {
    assert Near(fs[path[m]], fs[path[m + 1]], window);
  }

  lemma ConnectedSym(fs: seq<Finding>, window: int, i: nat, j: nat)
    requires Connected(fs, window, i, j)
    ensures Connected(fs, window, j, i)
  {
    var p :| IsPath(fs, window, p) && p[0] == i && p[|p| - 1] == j;
    var path := seq(|p|, n requires 0 <= n < |p| => p[|p| - 1 - n]);
    forall n | 0 <= n < |path| - 1 ensures Near(fs[path[n]], fs[path[n + 1]], window) {
      NearBackwards(fs, window, p, |p| - 2 - n);
    }
    assert IsPath(fs, window, path);
  }

  /** A property of all near pairs that is an equivalence holds of all connected pairs. */
  lemma {:induction false} PathStays(fs: seq<Finding>, window: int, path: seq<nat>, parent: seq<nat>)
    requires IsPath(fs, window, path) && Forest(parent) && |parent| == |fs|
    requires forall i, j :: 0 <= i < |fs| && 0 <= j < |fs| && Near(fs[i], fs[j], window) ==>
      Root(parent, i) == Root(parent, j)
    ensures Root(parent, path[0]) == Root(parent, path[|path| - 1])
  {
    if |path| > 1 {
      var rest := path[1..];
      assert forall k :: 0 <= k < |rest| ==> rest[k] == path[k + 1];
      assert Near(fs[path[0]], fs[path[1]], window);
      PathStays(fs, window, rest, parent);
    }
  }

  // ----- chronological order -----

  ghost predicate Before(fs: seq<Finding>, i: nat, j: nat)
    requires i < |fs| && j < |fs|
  {
    fs[i].timestamp < fs[j].timestamp || (fs[i].timestamp == fs[j].timestamp && i < j)
  }

  ghost predicate InOrder(fs: seq<Finding>, s: seq<nat>) {
    && (forall k :: 0 <= k < |s| ==> s[k] < |fs|)
    && forall k, m :: 0 <= k < m < |s| ==> Before(fs, s[k], s[m])
  }

  function Range(n: nat): (r: seq<nat>)
    ensures |r| == n && forall i :: 0 <= i < n ==> r[i] == i
  {
    seq(n, i => i)
  }

  function Time(fs: seq<Finding>): nat -> int {
    (i: nat) => if i < |fs| then fs[i].timestamp else 0
  }

  function Ordered(fs: seq<Finding>): seq<nat> {
    Sorted(Range(|fs|), Time(fs))
  }

  lemma {:induction false} InsertMembers(s: seq<nat>, x: nat, key: nat -> int)
    ensures forall y :: y in Insert(s, x, key) <==> y in s || y == x
  {
    if s != [] && key(s[|s| - 1]) > key(x) {
      assert s == s[..|s| - 1] + [s[|s| - 1]];
      InsertMembers(s[..|s| - 1], x, key);
    }
  }

  ghost predicate AllBefore(fs: seq<Finding>, s: seq<nat>, x: nat) {
    x < |fs| && forall k :: 0 <= k < |s| ==> s[k] < |fs| && Before(fs, s[k], x)
  }

  lemma InOrderSnoc(fs: seq<Finding>, s: seq<nat>, x: nat)
    requires InOrder(fs, s) && AllBefore(fs, s, x)
    ensures InOrder(fs, s + [x])
  {
  }

  lemma InOrderInit(fs: seq<Finding>, s: seq<nat>)
    requires InOrder(fs, s) && s != []
    ensures InOrder(fs, s[..|s| - 1])
    ensures AllBefore(fs, s[..|s| - 1], s[|s| - 1])
  {
  }

  lemma {:induction false} InsertInOrder(fs: seq<Finding>, s: seq<nat>, x: nat)
    requires InOrder(fs, s) && x < |fs| && forall k :: 0 <= k < |s| ==> s[k] < x
    ensures InOrder(fs, Insert(s, x, Time(fs)))
  {
    if s == [] {
    } else if fs[s[|s| - 1]].timestamp <= fs[x].timestamp {
      InOrderInit(fs, s);
      forall k | 0 <= k < |s| ensures Before(fs, s[k], x) {
        if k < |s| - 1 { assert Before(fs, s[k], s[|s| - 1]); }
      }
      InOrderSnoc(fs, s, x);
    } else {
      var init, last := s[..|s| - 1], s[|s| - 1];
      InOrderInit(fs, s);
      InsertInOrder(fs, init, x);
      InsertMembers(init, x, Time(fs));
      var r := Insert(init, x, Time(fs));
      forall k | 0 <= k < |r| ensures r[k] < |fs| && Before(fs, r[k], last) {
        assert r[k] in r;
        if r[k] != x { var m :| 0 <= m < |init| && init[m] == r[k]; }
      }
      InOrderSnoc(fs, r, last);
    }
  }

  lemma {:induction false} SortedRange(fs: seq<Finding>, n: nat)
    requires n <= |fs|
    ensures InOrder(fs, Sorted(Range(n), Time(fs)))
    ensures forall y: nat :: y in Sorted(Range(n), Time(fs)) <==> y < n
  {
    if n > 0 {
      assert Range(n)[..n - 1] == Range(n - 1);
      SortedRange(fs, n - 1);
      var s := Sorted(Range(n - 1), Time(fs));
      forall k | 0 <= k < |s| ensures s[k] < n - 1 { assert s[k] in s; }
      InsertInOrder(fs, s, n - 1);
      InsertMembers(s, n - 1, Time(fs));
    }
  }

  /** Sorting by time and position is strict, and loses and repeats nothing. */
  lemma OrderedFacts(fs: seq<Finding>)
    ensures InOrder(fs, Ordered(fs)) && forall i: nat :: i in Ordered(fs) <==> i < |fs|
  {
    SortedRange(fs, |fs|);
  }

  // ----- findings by entity -----

  /** A list of findings that carry one entity, in time order. */
  ghost predicate Filing(fs: seq<Finding>, e: string, list: seq<nat>) {
    && (forall k :: 0 <= k < |list| ==> list[k] < |fs| && e in Filed(fs[list[k]]))
    && forall k, m :: 0 <= k < m < |list| ==> fs[list[k]].timestamp <= fs[list[m]].timestamp
  }

  ghost predicate Filings(fs: seq<Finding>, keys: seq<string>, files: map<string, seq<nat>>) {
    && (forall e :: e in keys <==> e in files)
    && forall e :: e in files ==> Filing(fs, e, files[e])
  }

  ghost predicate FiledUnder(files: map<string, seq<nat>>, i: nat, e: string) {
    e in files && i in files[e]
  }

  ghost predicate NotAfter(fs: seq<Finding>, list: seq<nat>, time: int) {
    forall k :: 0 <= k < |list| ==> list[k] < |fs| && fs[list[k]].timestamp <= time
  }

  ghost predicate NoneLater(fs: seq<Finding>, files: map<string, seq<nat>>, time: int) {
    forall e :: e in files ==> NotAfter(fs, files[e], time)
  }

  lemma FilingSnoc(fs: seq<Finding>, e: string, list: seq<nat>, index: nat)
    requires index < |fs| && e in Filed(fs[index]) && Filing(fs, e, list) && NotAfter(fs, list, fs[index].timestamp)
    ensures Filing(fs, e, list + [index]) && NotAfter(fs, list + [index], fs[index].timestamp)
  {
  }

  lemma FilingsSet(fs: seq<Finding>, keys: seq<string>, files: map<string, seq<nat>>, e: string, list: seq<nat>)
    requires Filings(fs, keys, files) && Filing(fs, e, list)
    ensures Filings(fs, if e in files then keys else keys + [e], files[e := list])
  {
  }

  ghost predicate Extends(files: map<string, seq<nat>>, more: map<string, seq<nat>>) {
    forall i: nat, e :: FiledUnder(files, i, e) ==> FiledUnder(more, i, e)
  }

  lemma ExtendsSet(files: map<string, seq<nat>>, e: string, index: nat)
    ensures var list := if e in files then files[e] else [];
      Extends(files, files[e := list + [index]]) && FiledUnder(files[e := list + [index]], index, e)
  {
    var list := if e in files then files[e] else [];
    assert (list + [index])[|list|] == index;
  }

  /** Files one finding under each of its entities. */
  method FileOne(fs: seq<Finding>, index: nat, keys: seq<string>, files: map<string, seq<nat>>)
    returns (moreKeys: seq<string>, more: map<string, seq<nat>>)
    requires index < |fs| && Filings(fs, keys, files) && NoneLater(fs, files, fs[index].timestamp)
    ensures Filings(fs, moreKeys, more) && NoneLater(fs, more, fs[index].timestamp)
    ensures forall e :: e in Filed(fs[index]) ==> FiledUnder(more, index, e)
    ensures Extends(files, more)
  {
    moreKeys, more := keys, files;
    var entities := Filed(fs[index]);
    for m := 0 to |entities|
      invariant Filings(fs, moreKeys, more) && NoneLater(fs, more, fs[index].timestamp)
      invariant forall k :: 0 <= k < m ==> FiledUnder(more, index, entities[k])
      invariant Extends(files, more)
    {
      var e := entities[m];
      moreKeys, more := FileUnder(fs, index, e, moreKeys, more);
    }
  }

  lemma FiledOne(fs: seq<Finding>, index: nat, e: string, keys: seq<string>, files: map<string, seq<nat>>)
    requires index < |fs| && e in Filed(fs[index]) && Filings(fs, keys, files)
      && NoneLater(fs, files, fs[index].timestamp)
    ensures var list := (if e in files then files[e] else []) + [index];
      Filings(fs, if e in files then keys else keys + [e], files[e := list])
        && NoneLater(fs, files[e := list], fs[index].timestamp)
  {
    var list := if e in files then files[e] else [];
    assert Filing(fs, e, list) && NotAfter(fs, list, fs[index].timestamp);
    FilingSnoc(fs, e, list, index);
    FilingsSet(fs, keys, files, e, list + [index]);
  }

  method FileUnder(fs: seq<Finding>, index: nat, e: string, keys: seq<string>, files: map<string, seq<nat>>)
    returns (moreKeys: seq<string>, more: map<string, seq<nat>>)
    requires index < |fs| && e in Filed(fs[index]) && Filings(fs, keys, files)
      && NoneLater(fs, files, fs[index].timestamp)
    ensures Filings(fs, moreKeys, more) && NoneLater(fs, more, fs[index].timestamp)
    ensures FiledUnder(more, index, e) && Extends(files, more)
  {
    FiledOne(fs, index, e, keys, files);
    ExtendsSet(files, e, index);
    moreKeys := if e in files then keys else keys + [e];
    more := files[e := (if e in files then files[e] else []) + [index]];
  }

  lemma NoneLaterStill(fs: seq<Finding>, files: map<string, seq<nat>>, time: int, later: int)
    requires NoneLater(fs, files, time) && time <= later
    ensures NoneLater(fs, files, later)
  {
    forall e | e in files ensures NotAfter(fs, files[e], later) {
      assert NotAfter(fs, files[e], time);
    }
  }

  method FileAll(fs: seq<Finding>, ordered: seq<nat>) returns (keys: seq<string>, files: map<string, seq<nat>>)
    requires InOrder(fs, ordered)
    ensures Filings(fs, keys, files)
    ensures forall k, e :: 0 <= k < |ordered| && e in Filed(fs[ordered[k]]) ==> FiledUnder(files, ordered[k], e)
  {
    keys, files := [], map[];
    for n := 0 to |ordered|
      invariant Filings(fs, keys, files)
      invariant forall k, e :: 0 <= k < n && e in Filed(fs[ordered[k]]) ==> FiledUnder(files, ordered[k], e)
      invariant n > 0 ==> NoneLater(fs, files, fs[ordered[n - 1]].timestamp)
      invariant n == 0 ==> files == map[]
    {
      assert n > 0 ==> Before(fs, ordered[n - 1], ordered[n]);
      if n > 0 { NoneLaterStill(fs, files, fs[ordered[n - 1]].timestamp, fs[ordered[n]].timestamp); }
      keys, files := FileOne(fs, ordered[n], keys, files);
    }
  }

  // ----- linking -----

  /** So far only connected findings are together. */
  ghost predicate OnlyConnected(fs: seq<Finding>, window: int, parent: seq<nat>) {
    && Forest(parent) && |parent| == |fs|
    && forall i, j :: 0 <= i < |fs| && 0 <= j < |fs| && Root(parent, i) == Root(parent, j) ==>
      Connected(fs, window, i, j)
  }

  /** Neighbours in a list that are close enough are together. */
  ghost predicate Chained(fs: seq<Finding>, window: int, parent: seq<nat>, list: seq<nat>, upTo: nat)
    requires Forest(parent) && |parent| == |fs| && upTo <= |list|
    requires forall k :: 0 <= k < |list| ==> list[k] < |fs|
  {
    forall k :: 0 < k < upTo && Gap(fs[list[k - 1]].timestamp, fs[list[k]].timestamp) <= window ==>
      Root(parent, list[k - 1]) == Root(parent, list[k])
  }

  ghost predicate Coarser(old_: seq<nat>, new_: seq<nat>)
    requires Forest(old_) && Forest(new_) && |old_| == |new_|
  {
    forall i, j :: 0 <= i < |old_| && 0 <= j < |old_| && Root(old_, i) == Root(old_, j) ==>
      Root(new_, i) == Root(new_, j)
  }

  lemma {:induction false} JoinConnects(fs: seq<Finding>, window: int, before: seq<nat>, after: seq<nat>, a: nat,
          b: nat)
    requires OnlyConnected(fs, window, before) && Forest(after) && |after| == |fs| && a < |fs| && b < |fs|
    requires Near(fs[a], fs[b], window)
    requires forall i :: 0 <= i < |fs| ==> Root(after, i) == Merged(before, a, b, i)
    ensures OnlyConnected(fs, window, after) && Coarser(before, after) && Root(after, a) == Root(after, b)
  {
    ConnectedNear(fs, window, a, b);
    ConnectedSym(fs, window, a, b);
    forall i, j | 0 <= i < |fs| && 0 <= j < |fs| && Root(after, i) == Root(after, j)
      ensures Connected(fs, window, i, j)
    {
      if Root(before, i) != Root(before, j) {
        if Root(before, i) == Root(before, a) && Root(before, j) == Root(before, b) {
          ConnectedTrans(fs, window, i, a, b);
          ConnectedTrans(fs, window, i, b, j);
        } else if Root(before, i) == Root(before, b) && Root(before, j) == Root(before, a) {
          ConnectedTrans(fs, window, i, b, a);
          ConnectedTrans(fs, window, i, a, j);
        }
      }
    }
  }

  lemma ChainStays(fs: seq<Finding>, window: int, before: seq<nat>, after: seq<nat>, list: seq<nat>, upTo: nat)
    requires Forest(before) && Forest(after) && |before| == |after| == |fs| && Coarser(before, after)
    requires upTo <= |list| && forall k :: 0 <= k < |list| ==> list[k] < |fs|
    requires Chained(fs, window, before, list, upTo)
    ensures Chained(fs, window, after, list, upTo)
  {
  }

  method LinkNeighbours(fs: seq<Finding>, window: int, ghost e: string, list: seq<nat>, k: nat, classes: Classes)
    requires 0 < k < |list| && Filing(fs, e, list) && classes.Valid() && OnlyConnected(fs, window, classes.parent[..])
    modifies classes.parent
    ensures classes.Valid() && OnlyConnected(fs, window, classes.parent[..])
    ensures Coarser(old(classes.parent[..]), classes.parent[..])
    ensures Gap(fs[list[k - 1]].timestamp, fs[list[k]].timestamp) <= window ==>
      Root(classes.parent[..], list[k - 1]) == Root(classes.parent[..], list[k])
  {
    var previous, current := list[k - 1], list[k];
    if Gap(fs[previous].timestamp, fs[current].timestamp) <= window {
      ghost var before := classes.parent[..];
      classes.Union(previous, current);
      assert Near(fs[previous], fs[current], window);
      JoinConnects(fs, window, before, classes.parent[..], previous, current);
    }
  }

  method LinkList(fs: seq<Finding>, window: int, ghost e: string, list: seq<nat>, classes: Classes)
    requires Filing(fs, e, list) && classes.Valid() && OnlyConnected(fs, window, classes.parent[..])
    modifies classes.parent
    ensures classes.Valid() && OnlyConnected(fs, window, classes.parent[..])
    ensures Coarser(old(classes.parent[..]), classes.parent[..])
    ensures Chained(fs, window, classes.parent[..], list, |list|)
  {
    var k := 1;
    while k < |list|
      invariant classes.Valid() && OnlyConnected(fs, window, classes.parent[..])
      invariant Coarser(old(classes.parent[..]), classes.parent[..])
      invariant k >= 1 && (k <= |list| ==> Chained(fs, window, classes.parent[..], list, k))
      invariant k > |list| ==> k == 1
    {
      ghost var before := classes.parent[..];
      LinkNeighbours(fs, window, e, list, k, classes);
      ChainStays(fs, window, before, classes.parent[..], list, k);
      k := k + 1;
    }
  }

  /** The lists of the first `n` keys are chained. */
  ghost predicate AllChained(fs: seq<Finding>, window: int, parent: seq<nat>, keys: seq<string>,
          files: map<string, seq<nat>>, n: nat)
    requires Filings(fs, keys, files) && Forest(parent) && |parent| == |fs| && n <= |keys|
  {
    forall m :: 0 <= m < n ==> Chained(fs, window, parent, files[keys[m]], |files[keys[m]]|)
  }

  lemma AllStayChained(fs: seq<Finding>, window: int, before: seq<nat>, after: seq<nat>, keys: seq<string>,
          files: map<string, seq<nat>>, n: nat)
    requires Filings(fs, keys, files) && n <= |keys|
    requires Forest(before) && Forest(after) && |before| == |after| == |fs| && Coarser(before, after)
    requires AllChained(fs, window, before, keys, files, n)
    ensures AllChained(fs, window, after, keys, files, n)
  {
    forall m | 0 <= m < n ensures Chained(fs, window, after, files[keys[m]], |files[keys[m]]|) {
      ChainStays(fs, window, before, after, files[keys[m]], |files[keys[m]]|);
    }
  }

  method LinkAll(fs: seq<Finding>, window: int, keys: seq<string>, files: map<string, seq<nat>>, classes: Classes)
    requires Filings(fs, keys, files) && classes.Valid() && OnlyConnected(fs, window, classes.parent[..])
    modifies classes.parent
    ensures classes.Valid() && OnlyConnected(fs, window, classes.parent[..])
    ensures forall e :: e in files ==> Chained(fs, window, classes.parent[..], files[e], |files[e]|)
  {
    for k := 0 to |keys|
      invariant classes.Valid() && OnlyConnected(fs, window, classes.parent[..])
      invariant AllChained(fs, window, classes.parent[..], keys, files, k)
    {
      ghost var before := classes.parent[..];
      LinkList(fs, window, keys[k], files[keys[k]], classes);
      AllStayChained(fs, window, before, classes.parent[..], keys, files, k);
    }
  }

  /** Close findings of one list are together even when others lie between them. */
  lemma {:induction false} ChainReaches(fs: seq<Finding>, window: int, parent: seq<nat>, e: string, list: seq<nat>,
          x: nat, y: nat)
    requires OnlyConnected(fs, window, parent) && Filing(fs, e, list) && Chained(fs, window, parent, list, |list|)
    requires x <= y < |list| && Gap(fs[list[x]].timestamp, fs[list[y]].timestamp) <= window
    ensures Root(parent, list[x]) == Root(parent, list[y])
    decreases y
  {
    if x < y { ChainReaches(fs, window, parent, e, list, x, y - 1); }
  }

  ghost predicate AllFiled(fs: seq<Finding>, files: map<string, seq<nat>>) {
    forall i: nat, e :: i < |fs| && e in Filed(fs[i]) ==> FiledUnder(files, i, e)
  }

  lemma {:induction false} NearTogether(fs: seq<Finding>, window: int, keys: seq<string>, files: map<string, seq<nat>>,
          parent: seq<nat>, i: nat, j: nat)
    requires OnlyConnected(fs, window, parent) && Filings(fs, keys, files) && AllFiled(fs, files)
    requires forall e :: e in files ==> Chained(fs, window, parent, files[e], |files[e]|)
    requires i < |fs| && j < |fs| && Near(fs[i], fs[j], window)
    ensures Root(parent, i) == Root(parent, j)
  {
    var e :| e in Filed(fs[i]) && e in Filed(fs[j]);
    assert FiledUnder(files, i, e) && FiledUnder(files, j, e);
    var list := files[e];
    var x :| 0 <= x < |list| && list[x] == i;
    var y :| 0 <= y < |list| && list[y] == j;
    if x <= y {
      ChainReaches(fs, window, parent, e, list, x, y);
    } else {
      ChainReaches(fs, window, parent, e, list, y, x);
    }
  }

  ghost predicate ExactlyConnected(fs: seq<Finding>, window: int, parent: seq<nat>)
    requires Forest(parent) && |parent| == |fs|
  {
    forall i, j :: 0 <= i < |fs| && 0 <= j < |fs| ==>
      (Root(parent, i) == Root(parent, j) <==> Connected(fs, window, i, j))
  }

  /** The classes are the connected components. */
  lemma ClassesAreComponents(fs: seq<Finding>, window: int, keys: seq<string>, files: map<string, seq<nat>>,
          parent: seq<nat>)
    requires OnlyConnected(fs, window, parent) && Filings(fs, keys, files) && AllFiled(fs, files)
    requires forall e :: e in files ==> Chained(fs, window, parent, files[e], |files[e]|)
    ensures ExactlyConnected(fs, window, parent)
  {
    forall i, j | 0 <= i < |fs| && 0 <= j < |fs| && Near(fs[i], fs[j], window)
      ensures Root(parent, i) == Root(parent, j)
    {
      NearTogether(fs, window, keys, files, parent, i, j);
    }
    forall i, j | 0 <= i < |fs| && 0 <= j < |fs| && Connected(fs, window, i, j)
      ensures Root(parent, i) == Root(parent, j)
    {
      var path :| IsPath(fs, window, path) && path[0] == i && path[|path| - 1] == j;
      PathStays(fs, window, path, parent);
    }
  }

  // ----- collecting the clusters -----

  ghost function WithRoot(parent: seq<nat>, s: seq<nat>, r: nat): seq<nat>
    requires Forest(parent) && forall k :: 0 <= k < |s| ==> s[k] < |parent|
  {
    if s == [] then []
    else
      var rest := WithRoot(parent, s[..|s| - 1], r);
      if Root(parent, s[|s| - 1]) == r then rest + [s[|s| - 1]] else rest
  }

  /** The roots met, in the order they are first met. */
  ghost function FirstRoots(parent: seq<nat>, s: seq<nat>): seq<nat>
    requires Forest(parent) && forall k :: 0 <= k < |s| ==> s[k] < |parent|
  {
    if s == [] then []
    else
      var rest := FirstRoots(parent, s[..|s| - 1]);
      var r := Root(parent, s[|s| - 1]);
      if r in rest then rest else rest + [r]
  }

  lemma {:induction false} WithRootMembers(parent: seq<nat>, s: seq<nat>, r: nat)
    requires Forest(parent) && forall k :: 0 <= k < |s| ==> s[k] < |parent|
    ensures forall x :: x in WithRoot(parent, s, r) <==> x in s && x < |parent| && Root(parent, x) == r
  {
    if s != [] {
      assert s == s[..|s| - 1] + [s[|s| - 1]];
      WithRootMembers(parent, s[..|s| - 1], r);
    }
  }

  lemma {:induction false} FirstRootsDistinct(parent: seq<nat>, s: seq<nat>)
    requires Forest(parent) && forall k :: 0 <= k < |s| ==> s[k] < |parent|
    ensures NoDup(FirstRoots(parent, s))
    ensures forall x :: x in s ==> Root(parent, x) in FirstRoots(parent, s)
  {
    if s != [] {
      assert s == s[..|s| - 1] + [s[|s| - 1]];
      FirstRootsDistinct(parent, s[..|s| - 1]);
    }
  }

  lemma {:induction false} WithRootSnoc(parent: seq<nat>, s: seq<nat>, x: nat, r: nat)
    requires Forest(parent) && x < |parent| && forall k :: 0 <= k < |s| ==> s[k] < |parent|
    ensures WithRoot(parent, s + [x], r) == if Root(parent, x) == r then WithRoot(parent, s, r) + [x]
      else WithRoot(parent, s, r)
  {
    assert (s + [x])[..|s|] == s;
  }

  lemma {:induction false} FirstRootsSnoc(parent: seq<nat>, s: seq<nat>, x: nat)
    requires Forest(parent) && x < |parent| && forall k :: 0 <= k < |s| ==> s[k] < |parent|
    ensures var rest := FirstRoots(parent, s);
      FirstRoots(parent, s + [x]) == if Root(parent, x) in rest then rest else rest + [Root(parent, x)]
  {
    assert (s + [x])[..|s|] == s;
  }

  /** Filtering keeps the order. */
  lemma {:induction false} WithRootInOrder(fs: seq<Finding>, parent: seq<nat>, s: seq<nat>, r: nat)
    requires Forest(parent) && |parent| == |fs| && InOrder(fs, s)
    ensures InOrder(fs, WithRoot(parent, s, r))
  {
    if s != [] {
      var init, last := s[..|s| - 1], s[|s| - 1];
      assert s == init + [last];
      InOrderInit(fs, s);
      WithRootInOrder(fs, parent, init, r);
      WithRootMembers(parent, init, r);
      var c := WithRoot(parent, init, r);
      if Root(parent, last) == r {
        forall k | 0 <= k < |c| ensures c[k] < |fs| && Before(fs, c[k], last) {
          assert c[k] in init;
          var m :| 0 <= m < |init| && init[m] == c[k];
        }
        InOrderSnoc(fs, c, last);
      }
    }
  }

  ghost function First(parent: seq<nat>, s: seq<nat>, r: nat): (x: nat)
    requires Forest(parent) && forall k :: 0 <= k < |s| ==> s[k] < |parent|
    requires WithRoot(parent, s, r) != []
    ensures x < |parent| && x in s
  {
    WithRootMembers(parent, s, r);
    assert WithRoot(parent, s, r)[0] in WithRoot(parent, s, r);
    WithRoot(parent, s, r)[0]
  }

  lemma {:induction false} RootIsMet(parent: seq<nat>, s: seq<nat>, r: nat)
    requires Forest(parent) && forall k :: 0 <= k < |s| ==> s[k] < |parent|
    ensures r in FirstRoots(parent, s) <==> WithRoot(parent, s, r) != []
  {
    if s != [] {
      var init, x := s[..|s| - 1], s[|s| - 1];
      assert s == init + [x];
      RootIsMet(parent, init, r);
      FirstRootsSnoc(parent, init, x);
      WithRootSnoc(parent, init, x, r);
    }
  }

  lemma {:induction false} FirstStays(parent: seq<nat>, s: seq<nat>, x: nat, r: nat)
    requires Forest(parent) && x < |parent| && forall k :: 0 <= k < |s| ==> s[k] < |parent|
    requires WithRoot(parent, s, r) != []
    ensures WithRoot(parent, s + [x], r) != [] && First(parent, s + [x], r) == First(parent, s, r)
  {
    WithRootSnoc(parent, s, x, r);
  }

  /** Clusters come in the order of their first findings. */
  lemma {:induction false} FirstsBefore(fs: seq<Finding>, parent: seq<nat>, s: seq<nat>, a: nat, b: nat)
    requires Forest(parent) && |parent| == |fs| && InOrder(fs, s) && a < b < |FirstRoots(parent, s)|
    ensures var roots := FirstRoots(parent, s);
      && WithRoot(parent, s, roots[a]) != [] && WithRoot(parent, s, roots[b]) != []
      && Before(fs, First(parent, s, roots[a]), First(parent, s, roots[b]))
  {
    var roots := FirstRoots(parent, s);
    RootIsMet(parent, s, roots[a]);
    RootIsMet(parent, s, roots[b]);
    var init, x := s[..|s| - 1], s[|s| - 1];
    assert s == init + [x];
    InOrderInit(fs, s);
    FirstRootsSnoc(parent, init, x);
    var rest := FirstRoots(parent, init);
    RootIsMet(parent, init, roots[a]);
    FirstStays(parent, init, x, roots[a]);
    if b < |rest| {
      FirstsBefore(fs, parent, init, a, b);
      FirstStays(parent, init, x, roots[b]);
    } else {
      RootIsMet(parent, init, roots[b]);
      WithRootSnoc(parent, init, x, roots[b]);
      assert First(parent, s, roots[b]) == x;
      var first := First(parent, init, roots[a]);
      var m :| 0 <= m < |init| && init[m] == first;
    }
  }

  // ----- what the clusters are, as lists of positions in the input -----

  ghost predicate Chronological(fs: seq<Finding>, groups: seq<seq<nat>>) {
    forall a :: 0 <= a < |groups| ==> groups[a] != [] && InOrder(fs, groups[a])
  }

  ghost predicate InSome(groups: seq<seq<nat>>, i: nat) {
    exists a :: 0 <= a < |groups| && i in groups[a]
  }

  ghost predicate Separated(fs: seq<Finding>, window: int, groups: seq<seq<nat>>) {
    forall a, b, i, j :: 0 <= a < |groups| && 0 <= b < |groups| && i in groups[a] && j in groups[b] ==>
      (a == b <==> Connected(fs, window, i, j))
  }

  ghost predicate FirstsInOrder(fs: seq<Finding>, groups: seq<seq<nat>>)
    requires Chronological(fs, groups)
  {
    forall a, b :: 0 <= a < b < |groups| ==> Before(fs, groups[a][0], groups[b][0])
  }

  ghost predicate Clustered(fs: seq<Finding>, window: int, groups: seq<seq<nat>>) {
    && Chronological(fs, groups)
    && (forall i: nat :: i < |fs| ==> InSome(groups, i))
    && Separated(fs, window, groups)
    && FirstsInOrder(fs, groups)
  }

  ghost predicate GroupedByRoot(parent: seq<nat>, ordered: seq<nat>, groups: seq<seq<nat>>)
    requires Forest(parent) && forall k :: 0 <= k < |ordered| ==> ordered[k] < |parent|
  {
    var roots := FirstRoots(parent, ordered);
    |groups| == |roots| && forall a :: 0 <= a < |roots| ==> groups[a] == WithRoot(parent, ordered, roots[a])
  }

  lemma GroupsAreClusters(fs: seq<Finding>, window: int, parent: seq<nat>, ordered: seq<nat>, groups: seq<seq<nat>>)
    requires Forest(parent) && |parent| == |fs| && ExactlyConnected(fs, window, parent)
    requires InOrder(fs, ordered) && (forall i: nat :: i in ordered <==> i < |fs|)
    requires GroupedByRoot(parent, ordered, groups)
    ensures Clustered(fs, window, groups)
  {
    var roots := FirstRoots(parent, ordered);
    forall a | 0 <= a < |groups| ensures groups[a] != [] && InOrder(fs, groups[a]) {
      RootIsMet(parent, ordered, roots[a]);
      WithRootInOrder(fs, parent, ordered, roots[a]);
    }
    forall i: nat | i < |fs| ensures InSome(groups, i) {
      assert i in ordered;
      var k :| 0 <= k < |ordered| && ordered[k] == i;
      FirstRootsDistinct(parent, ordered);
      WithRootMembers(parent, ordered, Root(parent, i));
      var a :| 0 <= a < |roots| && roots[a] == Root(parent, i);
      assert i in groups[a];
    }
    GroupsSeparate(fs, window, parent, ordered, groups);
    forall a, b | 0 <= a < b < |groups| ensures Before(fs, groups[a][0], groups[b][0]) {
      FirstsBefore(fs, parent, ordered, a, b);
    }
  }

  lemma GroupsSeparate(fs: seq<Finding>, window: int, parent: seq<nat>, ordered: seq<nat>, groups: seq<seq<nat>>)
    requires Forest(parent) && |parent| == |fs| && ExactlyConnected(fs, window, parent)
    requires InOrder(fs, ordered) && GroupedByRoot(parent, ordered, groups)
    ensures Separated(fs, window, groups)
  {
    var roots := FirstRoots(parent, ordered);
    forall a, b, i, j | 0 <= a < |groups| && 0 <= b < |groups| && i in groups[a] && j in groups[b]
      ensures a == b <==> Connected(fs, window, i, j)
    {
      FirstRootsDistinct(parent, ordered);
      WithRootMembers(parent, ordered, roots[a]);
      WithRootMembers(parent, ordered, roots[b]);
      assert Root(parent, i) == roots[a] && Root(parent, j) == roots[b];
    }
  }

  // ----- the methods -----

  ghost predicate Collected(parent: seq<nat>, s: seq<nat>, roots: seq<nat>, clusters: map<nat, seq<nat>>)
    requires Forest(parent) && forall k :: 0 <= k < |s| ==> s[k] < |parent|
  {
    && roots == FirstRoots(parent, s)
    && (forall r :: r in roots <==> r in clusters)
    && forall r :: r in clusters ==> clusters[r] == WithRoot(parent, s, r)
  }

  function Appended(clusters: map<nat, seq<nat>>, r: nat, x: nat): map<nat, seq<nat>> {
    clusters[r := (if r in clusters then clusters[r] else []) + [x]]
  }

  lemma {:induction false} CollectOne(parent: seq<nat>, s: seq<nat>, x: nat, roots: seq<nat>,
          clusters: map<nat, seq<nat>>, r: nat)
    requires Forest(parent) && x < |parent| && forall k :: 0 <= k < |s| ==> s[k] < |parent|
    requires Collected(parent, s, roots, clusters) && (r in clusters || r == Root(parent, x))
    ensures Appended(clusters, Root(parent, x), x)[r] == WithRoot(parent, s + [x], r)
  {
    WithRootSnoc(parent, s, x, r);
    if r !in clusters { RootIsMet(parent, s, r); }
  }

  lemma {:induction false} RootsStep(parent: seq<nat>, s: seq<nat>, x: nat, roots: seq<nat>,
          clusters: map<nat, seq<nat>>)
    requires Forest(parent) && x < |parent| && forall k :: 0 <= k < |s| ==> s[k] < |parent|
    requires roots == FirstRoots(parent, s) && forall r :: r in roots <==> r in clusters
    ensures var root := Root(parent, x);
      var moreRoots := if root in clusters then roots else roots + [root];
      && moreRoots == FirstRoots(parent, s + [x])
      && forall r :: r in moreRoots <==> r in Appended(clusters, root, x)
  {
    FirstRootsSnoc(parent, s, x);
  }

  lemma {:induction false} ClustersStep(parent: seq<nat>, s: seq<nat>, x: nat, roots: seq<nat>,
          clusters: map<nat, seq<nat>>)
    requires Forest(parent) && x < |parent| && forall k :: 0 <= k < |s| ==> s[k] < |parent|
    requires Collected(parent, s, roots, clusters)
    ensures forall r :: r in Appended(clusters, Root(parent, x), x) ==>
      Appended(clusters, Root(parent, x), x)[r] == WithRoot(parent, s + [x], r)
  {
    var root := Root(parent, x);
    var more := Appended(clusters, root, x);
    forall r | r in more ensures more[r] == WithRoot(parent, s + [x], r) {
      CollectOne(parent, s, x, roots, clusters, r);
    }
  }

  lemma {:induction false} CollectStep(parent: seq<nat>, s: seq<nat>, x: nat, roots: seq<nat>,
          clusters: map<nat, seq<nat>>)
    requires Forest(parent) && x < |parent| && forall k :: 0 <= k < |s| ==> s[k] < |parent|
    requires Collected(parent, s, roots, clusters)
    ensures Collected(parent, s + [x], if Root(parent, x) in clusters then roots else roots + [Root(parent, x)],
      Appended(clusters, Root(parent, x), x))
  {
    RootsStep(parent, s, x, roots, clusters);
    ClustersStep(parent, s, x, roots, clusters);
  }

  function InOrderMet(roots: seq<nat>, clusters: map<nat, seq<nat>>): (r: seq<seq<nat>>)
    requires forall k :: 0 <= k < |roots| ==> roots[k] in clusters
    ensures |r| == |roots| && forall k :: 0 <= k < |r| ==> r[k] == clusters[roots[k]]
  {
    seq(|roots|, k requires 0 <= k < |roots| => clusters[roots[k]])
  }

  lemma CollectedAll(parent: seq<nat>, s: seq<nat>, roots: seq<nat>, clusters: map<nat, seq<nat>>)
    requires Forest(parent) && forall k :: 0 <= k < |s| ==> s[k] < |parent|
    requires Collected(parent, s, roots, clusters)
    ensures forall k :: 0 <= k < |roots| ==> roots[k] in clusters
    ensures GroupedByRoot(parent, s, InOrderMet(roots, clusters))
  {
    assert forall k :: 0 <= k < |roots| ==> roots[k] in roots;
  }

  ghost predicate SameRoots(p: seq<nat>, q: seq<nat>) {
    Forest(p) && Forest(q) && |p| == |q| && forall i :: 0 <= i < |p| ==> Root(p, i) == Root(q, i)
  }

  /** Adds one finding to the cluster of its root. */
  method CollectNext(index: nat, roots: seq<nat>, clusters: map<nat, seq<nat>>, classes: Classes,
          ghost parent: seq<nat>, ghost s: seq<nat>)
    returns (moreRoots: seq<nat>, more: map<nat, seq<nat>>)
    requires SameRoots(classes.parent[..], parent) && index < |parent|
    requires (forall k :: 0 <= k < |s| ==> s[k] < |parent|) && Collected(parent, s, roots, clusters)
    modifies classes.parent
    ensures SameRoots(classes.parent[..], parent)
    ensures Collected(parent, s + [index], moreRoots, more)
  {
    var root := classes.Find(index);
    CollectStep(parent, s, index, roots, clusters);
    moreRoots := if root in clusters then roots else roots + [root];
    more := Appended(clusters, root, index);
  }

  method Collect(fs: seq<Finding>, ordered: seq<nat>, classes: Classes) returns (groups: seq<seq<nat>>)
    requires classes.Valid() && classes.parent.Length == |fs| && InOrder(fs, ordered)
    modifies classes.parent
    ensures GroupedByRoot(old(classes.parent[..]), ordered, groups)
  {
    ghost var parent := classes.parent[..];
    var roots: seq<nat>, clusters: map<nat, seq<nat>> := [], map[];
    for n := 0 to |ordered|
      invariant SameRoots(classes.parent[..], parent)
      invariant Collected(parent, ordered[..n], roots, clusters)
    {
      roots, clusters := CollectNext(ordered[n], roots, clusters, classes, parent, ordered[..n]);
      assert ordered[..n + 1] == ordered[..n] + [ordered[n]];
    }
    assert ordered[..|ordered|] == ordered;
    CollectedAll(parent, ordered, roots, clusters);
    groups := InOrderMet(roots, clusters);
  }

  function Pick(fs: seq<Finding>, group: seq<nat>): (r: seq<Finding>)
    requires forall k :: 0 <= k < |group| ==> group[k] < |fs|
    ensures |r| == |group| && forall k :: 0 <= k < |r| ==> r[k] == fs[group[k]]
  {
    seq(|group|, k requires 0 <= k < |group| => fs[group[k]])
  }

  lemma AllAreFiled(fs: seq<Finding>, ordered: seq<nat>, files: map<string, seq<nat>>)
    requires InOrder(fs, ordered) && forall i: nat :: i in ordered <==> i < |fs|
    requires forall k, e :: 0 <= k < |ordered| && e in Filed(fs[ordered[k]]) ==> FiledUnder(files, ordered[k], e)
    ensures AllFiled(fs, files)
  {
    forall i: nat, e | i < |fs| && e in Filed(fs[i]) ensures FiledUnder(files, i, e) {
      assert i in ordered;
      var k :| 0 <= k < |ordered| && ordered[k] == i;
    }
  }

  lemma {:induction false} AlonePlain(fs: seq<Finding>, window: int, parent: seq<nat>)
    requires |parent| == |fs| && Forest(parent) && forall i :: 0 <= i < |fs| ==> Root(parent, i) == i
    ensures OnlyConnected(fs, window, parent)
  {
    forall i, j | 0 <= i < |fs| && 0 <= j < |fs| && Root(parent, i) == Root(parent, j)
      ensures Connected(fs, window, i, j)
    {
      ConnectedSelf(fs, window, i);
    }
  }

  /** Links findings until the classes are the connected components. */
  method LinkFindings(fs: seq<Finding>, window: int, ordered: seq<nat>) returns (classes: Classes)
    requires InOrder(fs, ordered) && forall i: nat :: i in ordered <==> i < |fs|
    ensures fresh(classes.parent) && classes.Valid() && classes.parent.Length == |fs|
    ensures ExactlyConnected(fs, window, classes.parent[..])
  {
    var keys, files := FileAll(fs, ordered);
    AllAreFiled(fs, ordered, files);
    classes := new Classes(|fs|);
    AlonePlain(fs, window, classes.parent[..]);
    LinkAll(fs, window, keys, files, classes);
    ClassesAreComponents(fs, window, keys, files, classes.parent[..]);
  }

  /** The clusters are exactly the connected components, each in time order and the clusters in the
      order of their first findings; every finding is in exactly one of them, once. `groups` are the
      same clusters by position. */
  method CorrelateFindings(fs: seq<Finding>, window: int) returns (clusters: seq<seq<Finding>>, groups: seq<seq<nat>>)
    ensures Clustered(fs, window, groups)
    ensures |clusters| == |groups| && forall a :: 0 <= a < |groups| ==> clusters[a] == Pick(fs, groups[a])
  {
    if fs == [] { return [], []; }
    var ordered := Ordered(fs);
    OrderedFacts(fs);
    var classes := LinkFindings(fs, window, ordered);
    ghost var parent := classes.parent[..];
    var found := Collect(fs, ordered, classes);
    GroupsAreClusters(fs, window, parent, ordered, found);
    groups := found;
    clusters := seq(|found|, a requires 0 <= a < |found| && InOrder(fs, found[a]) => Pick(fs, found[a]));
  }

  // ----- only one list of clusters fits -----

  lemma LastIsLatest(fs: seq<Finding>, s: seq<nat>, x: nat)
    requires InOrder(fs, s) && x in s
    ensures x < |fs| && (x == s[|s| - 1] || Before(fs, x, s[|s| - 1]))
    ensures x != s[|s| - 1] ==> x in s[..|s| - 1]
  {
    var k :| 0 <= k < |s| && s[k] == x;
    if k < |s| - 1 { assert s[..|s| - 1][k] == x; }
  }

  ghost predicate Same(s: seq<nat>, t: seq<nat>) {
    forall x :: x in s <==> x in t
  }

  lemma {:induction false} SameMembers(fs: seq<Finding>, s: seq<nat>, t: seq<nat>)
    requires InOrder(fs, s) && InOrder(fs, t) && Same(s, t)
    ensures s == t
  {
    assert s != [] ==> s[0] in s;
    assert t != [] ==> t[0] in t;
    if s != [] && t != [] {
      var a, b := s[|s| - 1], t[|t| - 1];
      assert a in s && a in t && b in t && b in s;
      LastIsLatest(fs, t, a);
      LastIsLatest(fs, s, b);
      assert a == b;
      InOrderInit(fs, s);
      InOrderInit(fs, t);
      InitWithin(fs, s, t);
      InitWithin(fs, t, s);
      SameMembers(fs, s[..|s| - 1], t[..|t| - 1]);
    }
  }

  lemma InitWithin(fs: seq<Finding>, s: seq<nat>, t: seq<nat>)
    requires InOrder(fs, s) && InOrder(fs, t) && s != [] && t != [] && s[|s| - 1] == t[|t| - 1] && Same(s, t)
    ensures forall k :: 0 <= k < |s| - 1 ==> s[k] in t[..|t| - 1]
  {
    forall k | 0 <= k < |s| - 1 ensures s[k] in t[..|t| - 1] {
      assert s[k] in s && Before(fs, s[k], s[|s| - 1]);
      LastIsLatest(fs, t, s[k]);
    }
  }

  lemma {:induction false} SameGroup(fs: seq<Finding>, window: int, one: seq<seq<nat>>, two: seq<seq<nat>>, a: nat,
          b: nat)
    requires Clustered(fs, window, one) && Clustered(fs, window, two) && a < |one| && b < |two|
    requires exists x :: x in one[a] && x in two[b]
    ensures one[a] == two[b]
  {
    var x :| x in one[a] && x in two[b];
    forall y ensures y in one[a] <==> y in two[b] {
      if y in one[a] {
        assert Connected(fs, window, x, y);
        var k :| 0 <= k < |one[a]| && one[a][k] == y;
        assert InSome(two, y);
      }
      if y in two[b] {
        assert Connected(fs, window, x, y);
        var k :| 0 <= k < |two[b]| && two[b][k] == y;
        assert InSome(one, y);
      }
    }
    SameMembers(fs, one[a], two[b]);
  }

  /** A cluster of one list cannot come earlier in the other. */
  lemma NotEarlier(fs: seq<Finding>, window: int, one: seq<seq<nat>>, two: seq<seq<nat>>, n: nat, x: nat)
    returns (b: nat)
    requires Clustered(fs, window, one) && Clustered(fs, window, two) && n < |one| && x in one[n]
    requires n <= |two| && one[..n] == two[..n]
    ensures n <= b < |two| && x in two[b] && one[n] == two[b]
  {
    var k :| 0 <= k < |one[n]| && one[n][k] == x;
    assert InSome(two, x);
    b :| 0 <= b < |two| && x in two[b];
    assert b < n ==> one[..n][b] == two[..n][b] && x in one[b];
    SameGroup(fs, window, one, two, n, b);
  }

  /** Corresponding clusters are equal, one after the other. */
  lemma {:induction false} SameGroups(fs: seq<Finding>, window: int, one: seq<seq<nat>>, two: seq<seq<nat>>, n: nat)
    requires Clustered(fs, window, one) && Clustered(fs, window, two) && n < |one|
    ensures n < |two| && one[n] == two[n]
    decreases n
  {
    if n > 0 { SameGroups(fs, window, one, two, n - 1); }
    forall k | 0 <= k < n ensures one[k] == two[k] { SameGroups(fs, window, one, two, k); }
    assert one[..n] == two[..n];
    var b := NotEarlier(fs, window, one, two, n, one[n][0]);
    var y := two[n][0];
    var a := NotEarlier(fs, window, two, one, n, y);
    assert a == n ==> y in two[b];
  }

  lemma ClustersAreUnique(fs: seq<Finding>, window: int, one: seq<seq<nat>>, two: seq<seq<nat>>)
    requires Clustered(fs, window, one) && Clustered(fs, window, two)
    ensures one == two
  {
    forall n | 0 <= n < |one| ensures n < |two| && one[n] == two[n] { SameGroups(fs, window, one, two, n); }
    if |one| < |two| { SameGroups(fs, window, two, one, |one|); }
    if |two| < |one| { SameGroups(fs, window, one, two, |two|); }
  }
}
