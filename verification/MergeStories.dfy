/** What merging into stored incidents keeps: every incident is one connected story, and every new
    finding lands in exactly one place. */
module MergeStories {
  import opened Common
  import opened Schemas
  import opened Sorting
  import opened Correlation
  import opened Incidents
  import opened Merging

  // ----- connected findings -----

  ghost predicate PathIn(all: seq<Finding>, window: int, path: seq<Finding>) {
    && path != [] && (forall k :: 0 <= k < |path| ==> path[k] in all)
    && forall k :: 0 <= k < |path| - 1 ==> Near(path[k], path[k + 1], window)
  }

  ghost predicate Reaches(all: seq<Finding>, window: int, f: Finding, g: Finding) {
    exists path :: PathIn(all, window, path) && path[0] == f && path[|path| - 1] == g
  }

  /** Every finding of an incident is connected to every other by findings of the incident. */
  ghost predicate OneStory(all: seq<Finding>, window: int) {
    forall f, g :: f in all && g in all ==> Reaches(all, window, f, g)
  }

  lemma ReachNear(all: seq<Finding>, window: int, f: Finding, g: Finding)
    requires f in all && g in all && Near(f, g, window)
    ensures Reaches(all, window, f, g)
  {
    assert PathIn(all, window, [f, g]);
  }

  lemma NearOnJoin(all: seq<Finding>, window: int, p: seq<Finding>, q: seq<Finding>, n: nat)
    requires PathIn(all, window, p) && PathIn(all, window, q) && p[|p| - 1] == q[0] && n < |p + q[1..]| - 1
    ensures Near((p + q[1..])[n], (p + q[1..])[n + 1], window)
  {
    var path := p + q[1..];
    if n < |p| - 1 {
      assert path[n] == p[n] && path[n + 1] == p[n + 1];
    } else {
      assert path[n] == q[n - (|p| - 1)] && path[n + 1] == q[n - (|p| - 1) + 1];
    }
  }

  lemma ReachTrans(all: seq<Finding>, window: int, f: Finding, g: Finding, h: Finding)
    requires Reaches(all, window, f, g) && Reaches(all, window, g, h)
    ensures Reaches(all, window, f, h)
  {
    var p :| PathIn(all, window, p) && p[0] == f && p[|p| - 1] == g;
    var q :| PathIn(all, window, q) && q[0] == g && q[|q| - 1] == h;
    var path := p + q[1..];
    forall n | 0 <= n < |path| - 1 ensures Near(path[n], path[n + 1], window) {
      NearOnJoin(all, window, p, q, n);
    }
    forall n | 0 <= n < |path| ensures path[n] in all {
      if n < |p| { assert path[n] == p[n]; } else { assert path[n] == q[n - |p| + 1]; }
    }
    assert PathIn(all, window, path);
    assert path[|path| - 1] == h;
  }

  lemma ReachSym(all: seq<Finding>, window: int, f: Finding, g: Finding)
    requires Reaches(all, window, f, g)
    ensures Reaches(all, window, g, f)
  {
    var p :| PathIn(all, window, p) && p[0] == f && p[|p| - 1] == g;
    var path := seq(|p|, n requires 0 <= n < |p| => p[|p| - 1 - n]);
    forall n | 0 <= n < |path| - 1 ensures Near(path[n], path[n + 1], window) {
      var m := |p| - 2 - n;
      assert Near(p[m], p[m + 1], window);
      assert path[n] == p[m + 1] && path[n + 1] == p[m];
    }
    assert PathIn(all, window, path);
  }

  ghost predicate Within(part: seq<Finding>, whole: seq<Finding>) {
    forall f :: f in part ==> f in whole
  }

  lemma ReachMore(part: seq<Finding>, whole: seq<Finding>, window: int, f: Finding, g: Finding)
    requires Reaches(part, window, f, g) && Within(part, whole)
    ensures Reaches(whole, window, f, g)
  {
    var p :| PathIn(part, window, p) && p[0] == f && p[|p| - 1] == g;
    assert PathIn(whole, window, p);
  }

  /** A centre everything reaches is enough. */
  lemma OneStoryFrom(all: seq<Finding>, window: int, centre: Finding)
    requires forall f :: f in all ==> Reaches(all, window, f, centre)
    ensures OneStory(all, window)
  {
    forall f, g | f in all && g in all ensures Reaches(all, window, f, g) {
      ReachSym(all, window, g, centre);
      ReachTrans(all, window, f, centre, g);
    }
  }

  lemma SameStory(all: seq<Finding>, again: seq<Finding>, window: int)
    requires OneStory(all, window) && Within(all, again) && Within(again, all)
    ensures OneStory(again, window)
  {
    forall f, g | f in again && g in again ensures Reaches(again, window, f, g) {
      ReachMore(all, again, window, f, g);
    }
  }

  // ----- a cluster is one story -----

  lemma PathPrefix(fs: seq<Finding>, window: int, path: seq<nat>, k: nat)
    requires IsPath(fs, window, path) && k < |path|
    ensures Connected(fs, window, path[0], path[k])
  {
    assert IsPath(fs, window, path[..k + 1]);
    assert path[..k + 1][k] == path[k];
  }

  lemma PathStaysInGroup(fs: seq<Finding>, window: int, groups: seq<seq<nat>>, a: nat, path: seq<nat>)
    requires Clustered(fs, window, groups) && a < |groups| && IsPath(fs, window, path) && path[0] in groups[a]
    ensures forall k :: 0 <= k < |path| ==> path[k] in groups[a]
  {
    forall k | 0 <= k < |path| ensures path[k] in groups[a] {
      PathPrefix(fs, window, path, k);
      assert InSome(groups, path[k]);
      var b :| 0 <= b < |groups| && path[k] in groups[b];
      assert a == b <==> Connected(fs, window, path[0], path[k]);
    }
  }

  lemma ClusterIsOneStory(fs: seq<Finding>, window: int, groups: seq<seq<nat>>, a: nat)
    requires Clustered(fs, window, groups) && a < |groups|
    ensures OneStory(Pick(fs, groups[a]), window)
  {
    var all := Pick(fs, groups[a]);
    forall f, g | f in all && g in all ensures Reaches(all, window, f, g) {
      var m :| 0 <= m < |all| && all[m] == f;
      var n :| 0 <= n < |all| && all[n] == g;
      var i, j := groups[a][m], groups[a][n];
      assert i in groups[a] && j in groups[a];
      assert Connected(fs, window, i, j);
      var p :| IsPath(fs, window, p) && p[0] == i && p[|p| - 1] == j;
      PathStaysInGroup(fs, window, groups, a, p);
      var path := Pick(fs, p);
      forall k | 0 <= k < |path| ensures path[k] in all {
        var x :| 0 <= x < |groups[a]| && groups[a][x] == p[k];
        assert all[x] == path[k];
      }
      assert PathIn(all, window, path);
    }
  }

  // ----- a merged incident is one story -----

  predicate Twin(f: Finding, g: Finding) {
    f.ruleId == g.ruleId && f.eventId == g.eventId ==> f.timestamp == g.timestamp && f.entities == g.entities
  }

  /** Redeliveries carry the same time and entities. */
  ghost predicate Twins(fs: seq<Finding>, gs: seq<Finding>) {
    forall f, g :: f in fs && g in gs ==> Twin(f, g)
  }

  /** The finding itself, or the one already held for its rule and event. */
  ghost function Standing(held: seq<Finding>, f: Finding): (r: Finding)
    ensures Held(held, f) ==> r in held && r.ruleId == f.ruleId && r.eventId == f.eventId
    ensures !Held(held, f) ==> r == f
  {
    if Held(held, f) then
      var k :| 0 <= k < |held| && held[k].ruleId == f.ruleId && held[k].eventId == f.eventId;
      held[k]
    else f
  }

  lemma StandingNear(held: seq<Finding>, new_: seq<Finding>, f: Finding, g: Finding, window: int)
    requires Twins(held, new_) && f in new_ && g in new_ && Near(f, g, window)
    ensures Near(Standing(held, f), Standing(held, g), window)
  {
    var sf, sg := Standing(held, f), Standing(held, g);
    assert Held(held, f) ==> Twin(sf, f);
    assert Held(held, g) ==> Twin(sg, g);
    assert Filed(sf) == Filed(f) && sf.timestamp == f.timestamp;
    assert Filed(sg) == Filed(g) && sg.timestamp == g.timestamp;
    var e :| e in Filed(f) && e in Filed(g);
  }

  /** A path among new findings becomes one in the merged incident. */
  lemma {:induction false} StandingReaches(held: seq<Finding>, new_: seq<Finding>, cluster: seq<Finding>, window: int,
          f: Finding, g: Finding)
    requires Twins(held, new_) && Within(cluster, new_) && Reaches(cluster, window, f, g)
    ensures Reaches(held + Added(held, new_), window, Standing(held, f), Standing(held, g))
  {
    var all := held + Added(held, new_);
    var p :| PathIn(cluster, window, p) && p[0] == f && p[|p| - 1] == g;
    var path := seq(|p|, n requires 0 <= n < |p| => Standing(held, p[n]));
    forall n | 0 <= n < |path| ensures path[n] in all {
      assert p[n] in new_;
      if !Held(held, p[n]) { assert p[n] in Added(held, new_); }
    }
    forall n | 0 <= n < |path| - 1 ensures Near(path[n], path[n + 1], window) {
      assert p[n] in new_ && p[n + 1] in new_;
      StandingNear(held, new_, p[n], p[n + 1], window);
    }
    assert PathIn(all, window, path);
  }

  lemma {:induction false} LinkReaches(held: seq<Finding>, new_: seq<Finding>, cluster: seq<Finding>, window: int,
          h: Finding, centre: Finding)
    requires Twins(held, new_) && Within(cluster, new_) && OneStory(cluster, window) && LinkedTo(cluster, held, window)
    requires OneStory(held, window) && centre in held && h in cluster
    ensures Reaches(held + Added(held, new_), window, Standing(held, h), centre)
  {
    var all := held + Added(held, new_);
    var f, g, e :| f in cluster && g in held && e in f.entities && e in g.entities && e != UNKNOWN_ENTITY
      && Gap(f.timestamp, g.timestamp) <= window;
    assert Reaches(cluster, window, h, f);
    StandingReaches(held, new_, cluster, window, h, f);
    assert f in new_;
    var sf := Standing(held, f);
    assert Held(held, f) ==> Twin(sf, f);
    assert e in Filed(sf) && e in Filed(g) && sf.timestamp == f.timestamp;
    assert Near(sf, g, window);
    assert sf in all by {
      if !Held(held, f) { assert f in Added(held, new_); }
    }
    ReachNear(all, window, sf, g);
    assert Reaches(held, window, g, centre);
    ReachMore(held, all, window, g, centre);
    ReachTrans(all, window, sf, g, centre);
    ReachTrans(all, window, Standing(held, h), sf, centre);
  }

  /** A cluster that may join an incident. */
  ghost predicate Joins(cluster: seq<Finding>, held: seq<Finding>, new_: seq<Finding>, window: int) {
    Within(cluster, new_) && OneStory(cluster, window) && LinkedTo(cluster, held, window)
  }

  ghost predicate InOne(clusters: seq<seq<Finding>>, h: Finding) {
    exists a :: 0 <= a < |clusters| && h in clusters[a]
  }

  lemma {:induction false} MemberReaches(held: seq<Finding>, new_: seq<Finding>, clusters: seq<seq<Finding>>,
          window: int, h: Finding)
    requires held != [] && OneStory(held, window) && Twins(held, new_)
    requires h in held || (h in Added(held, new_) && InOne(clusters, h))
    requires forall a :: 0 <= a < |clusters| ==> Joins(clusters[a], held, new_, window)
    ensures Reaches(held + Added(held, new_), window, h, held[0])
  {
    if h in held {
      assert Reaches(held, window, h, held[0]);
      ReachMore(held, held + Added(held, new_), window, h, held[0]);
    } else {
      var a :| 0 <= a < |clusters| && h in clusters[a];
      assert Joins(clusters[a], held, new_, window);
      LinkReaches(held, new_, clusters[a], window, h, held[0]);
      assert Standing(held, h) == h;
    }
  }

  /** Clusters that each link to a connected incident extend it to a connected incident. */
  lemma {:induction false} MergedIsOneStory(held: seq<Finding>, new_: seq<Finding>, clusters: seq<seq<Finding>>,
          window: int)
    requires held != [] && OneStory(held, window) && Twins(held, new_)
    requires forall h :: h in new_ ==> InOne(clusters, h)
    requires forall a :: 0 <= a < |clusters| ==> Joins(clusters[a], held, new_, window)
    ensures OneStory(held + Added(held, new_), window)
  {
    var all := held + Added(held, new_);
    forall h | h in all ensures Reaches(all, window, h, held[0]) {
      MemberReaches(held, new_, clusters, window, h);
    }
    OneStoryFrom(all, window, held[0]);
  }

  /** The clusters that join one candidate. */
  ghost function Joining(clusters: seq<seq<Finding>>, candidates: seq<StoredIncident>, window: int,
          i: nat): (r: seq<seq<Finding>>)
    ensures forall c :: c in r <==> c in clusters && Target(c, candidates, window) == Some(i)
  {
    if clusters == [] then []
    else
      assert clusters == clusters[..|clusters| - 1] + [clusters[|clusters| - 1]];
      var rest, last := Joining(clusters[..|clusters| - 1], candidates, window, i), clusters[|clusters| - 1];
      if Target(last, candidates, window) == Some(i) then rest + [last] else rest
  }

  /** Every incident that a batch opens or extends is one connected story. */
  lemma MergingKeepsStories(fs: seq<Finding>, groups: seq<seq<nat>>, stored: seq<StoredIncident>, window: int,
          newId: nat -> string, now: int, started: seq<Incident>, merges: seq<IncidentMerge>, sources: seq<nat>,
          targets: seq<nat>)
    requires Clustered(fs, window, groups)
    requires MergedInto(ClustersOf(fs, groups), stored, window, newId, now, started, merges, sources, targets)
    requires forall x :: x in stored ==> OneStory(x.findings, window) && Twins(x.findings, fs)
    ensures forall k :: 0 <= k < |sources| ==> OneStory(ClustersOf(fs, groups)[sources[k]], window)
    ensures forall k :: 0 <= k < |merges| ==> OneStory(merges[k].findings, window)
  {
    var clusters := ClustersOf(fs, groups);
    forall k | 0 <= k < |sources| ensures OneStory(clusters[sources[k]], window) {
      ClusterIsOneStory(fs, window, groups, sources[k]);
    }
    forall k | 0 <= k < |merges| ensures OneStory(merges[k].findings, window) {
      MergeKeepsStory(fs, groups, Candidates(stored), window, targets[k]) by {
        CandidatesFacts(stored);
        assert Candidates(stored)[targets[k]] in Candidates(stored);
      }
    }
  }

  lemma MergeKeepsStory(fs: seq<Finding>, groups: seq<seq<nat>>, candidates: seq<StoredIncident>, window: int, i: nat)
    requires Clustered(fs, window, groups) && i < |candidates|
    requires OneStory(candidates[i].findings, window) && Twins(candidates[i].findings, fs)
    requires AddedTo(ClustersOf(fs, groups), candidates, window, i) != []
    ensures OneStory(MergeOf(candidates[i], AddedTo(ClustersOf(fs, groups), candidates, window, i)).findings, window)
  {
    var all := candidates[i].findings + AddedTo(ClustersOf(fs, groups), candidates, window, i);
    MergeIsStory(fs, groups, candidates, window, i);
    InTimeMembers(all);
    SameStory(all, InTime(all), window);
  }

  /** What a candidate gains comes from the batch, by the clusters that join it. */
  lemma {:induction false} GainIsJoined(fs: seq<Finding>, groups: seq<seq<nat>>, candidates: seq<StoredIncident>,
          window: int, i: nat, h: Finding)
    requires Chronological(fs, groups) && h in NewFor(ClustersOf(fs, groups), candidates, window, i)
    ensures h in fs && InOne(Joining(ClustersOf(fs, groups), candidates, window, i), h)
  {
    var clusters := ClustersOf(fs, groups);
    var joining := Joining(clusters, candidates, window, i);
    NewForMembers(clusters, candidates, window, i, h);
    var a :| 0 <= a < |clusters| && Target(clusters[a], candidates, window) == Some(i) && h in clusters[a];
    assert clusters[a] in clusters && clusters[a] in joining;
    var b :| 0 <= b < |joining| && joining[b] == clusters[a];
    var m :| 0 <= m < |clusters[a]| && clusters[a][m] == h;
    assert h == fs[groups[a][m]];
  }

  lemma {:induction false} JoiningJoins(fs: seq<Finding>, groups: seq<seq<nat>>, candidates: seq<StoredIncident>,
          window: int, i: nat, c: seq<Finding>)
    requires Clustered(fs, window, groups) && i < |candidates|
    requires c in Joining(ClustersOf(fs, groups), candidates, window, i)
    ensures Joins(c, candidates[i].findings, NewFor(ClustersOf(fs, groups), candidates, window, i), window)
  {
    var clusters := ClustersOf(fs, groups);
    var b :| 0 <= b < |clusters| && clusters[b] == c;
    ClusterIsOneStory(fs, window, groups, b);
    TargetLinks(c, candidates, window);
    forall h | h in c ensures h in NewFor(clusters, candidates, window, i) {
      NewForMembers(clusters, candidates, window, i, h);
    }
  }

  lemma TwinsWithin(held: seq<Finding>, fs: seq<Finding>, new_: seq<Finding>)
    requires Twins(held, fs) && Within(new_, fs)
    ensures Twins(held, new_)
  {
  }

  lemma LinkedHolds(cluster: seq<Finding>, held: seq<Finding>, window: int)
    requires LinkedTo(cluster, held, window)
    ensures held != []
  {
  }

  lemma {:induction false} GainsComeByJoining(fs: seq<Finding>, groups: seq<seq<nat>>, candidates: seq<StoredIncident>,
          window: int, i: nat)
    requires Clustered(fs, window, groups) && i < |candidates|
    ensures var new_, joining :=
      NewFor(ClustersOf(fs, groups), candidates, window, i), Joining(ClustersOf(fs, groups), candidates, window, i);
      && Within(new_, fs)
      && (forall h :: h in new_ ==> InOne(joining, h))
      && forall a :: 0 <= a < |joining| ==> Joins(joining[a], candidates[i].findings, new_, window)
  {
    var clusters := ClustersOf(fs, groups);
    var new_, joining := NewFor(clusters, candidates, window, i), Joining(clusters, candidates, window, i);
    forall h | h in new_ ensures h in fs && InOne(joining, h) {
      GainIsJoined(fs, groups, candidates, window, i, h);
    }
    forall a | 0 <= a < |joining| ensures Joins(joining[a], candidates[i].findings, new_, window) {
      JoiningJoins(fs, groups, candidates, window, i, joining[a]);
    }
  }

  lemma MergeIsStory(fs: seq<Finding>, groups: seq<seq<nat>>, candidates: seq<StoredIncident>, window: int, i: nat)
    requires Clustered(fs, window, groups) && i < |candidates|
    requires OneStory(candidates[i].findings, window) && Twins(candidates[i].findings, fs)
    requires AddedTo(ClustersOf(fs, groups), candidates, window, i) != []
    ensures OneStory(candidates[i].findings + AddedTo(ClustersOf(fs, groups), candidates, window, i), window)
  {
    var held, new_ := candidates[i].findings, NewFor(ClustersOf(fs, groups), candidates, window, i);
    var joining := Joining(ClustersOf(fs, groups), candidates, window, i);
    GainsComeByJoining(fs, groups, candidates, window, i);
    TwinsWithin(held, fs, new_);
    var f := Added(held, new_)[0];
    assert f in Added(held, new_) && f in new_;
    var a :| 0 <= a < |joining| && f in joining[a];
    assert Joins(joining[a], held, new_, window);
    LinkedHolds(joining[a], held, window);
    MergedIsOneStory(held, new_, joining, window);
  }
}
