/** Journals whose writes may be torn anywhere and any number of times: the numbering stays right,
    whoever writes next, exactly when no tear ever lost just the end of a line. */
module JournalTears {
  import opened Common
  import opened Journal
  import opened JournalRuns

  // ----- how far a writer's count lags behind -----

  /** The scanned bytes end with a line. */
  ghost predicate Boundary(c: Codec, bytes: string, cache: Cache) {
    cache.scanned <= |bytes| && Read(c, bytes[..cache.scanned]).rest == ""
  }

  /** How many of the records in the scanned bytes the writer has not counted. */
  ghost function Lag(c: Codec, bytes: string, cache: Cache): int
    requires Boundary(c, bytes, cache)
  {
    |Read(c, bytes[..cache.scanned]).entries| - cache.count
  }

  /** The last line is a record that lost its end. */
  predicate Unended(c: Codec, bytes: string) {
    c.parse(Read(c, bytes).rest).Some?
  }

  lemma CountsAll(c: Codec, bytes: string, cache: Cache)
    requires CodecOk(c) && Boundary(c, bytes, cache)
    ensures CacheOk(c, bytes, cache) <==> Lag(c, bytes, cache) == 0
  {
    EmptyIsNoRecord(c);
  }

  /** Catching up brings the scanned bytes to the last line end and leaves the lag as it is. */
  lemma CatchUpLag(c: Codec, bytes: string, cache: Cache)
    requires CodecOk(c) && Boundary(c, bytes, cache)
    ensures var (caught, torn) := CatchUp(c, bytes, cache);
      && caught.scanned + |Read(c, bytes).rest| == |bytes| && (torn <==> Read(c, bytes).rest != "")
      && Read(c, bytes[..caught.scanned]) == Reading(Read(c, bytes).entries, "")
      && caught.count == |Read(c, bytes).entries| - Lag(c, bytes, cache)
  {
    TailReads(c, bytes, cache.scanned);
    RestIsTail(c, bytes);
    assert |bytes[Whole(bytes)..]| == |bytes| - Whole(bytes);
  }

  lemma CatchUpKeeps(c: Codec, bytes: string, cache: Cache)
    requires CodecOk(c) && Boundary(c, bytes, cache)
    ensures Boundary(c, bytes, CatchUp(c, bytes, cache).0)
    ensures Lag(c, bytes, CatchUp(c, bytes, cache).0) == Lag(c, bytes, cache)
  {
    CatchUpLag(c, bytes, cache);
  }

  /** Ending the last line makes a record of it if it only lacked its end, and the writer does not
      count that record. */
  lemma NextLag(c: Codec, bytes: string, cache: Cache)
    requires CodecOk(c) && Boundary(c, bytes, cache)
    ensures var (ready, caught) := Next(c, bytes, cache);
      && bytes <= ready && caught.scanned == |ready| && Read(c, ready) == Reading(Entries(c, bytes), "")
      && caught.count == |Read(c, bytes).entries| - Lag(c, bytes, cache)
  {
    CatchUpLag(c, bytes, cache);
    EmptyIsNoRecord(c);
    ReadSplit(c, NOTHING, bytes, [NEWLINE]);
    ReadNewline(c, Read(c, bytes));
    assert Read(c, bytes).entries + [] == Read(c, bytes).entries;
  }

  lemma Extends(c: Codec, bytes: string, more: string, cache: Cache)
    requires Boundary(c, bytes, cache) && bytes <= more
    ensures Boundary(c, more, cache) && Lag(c, more, cache) == Lag(c, bytes, cache)
  {
    assert more[..cache.scanned] == bytes[..cache.scanned];
  }

  lemma WholeBoundary(c: Codec, bytes: string, count: nat)
    requires Read(c, bytes).rest == ""
    ensures Boundary(c, bytes, Cache(|bytes|, count))
    ensures Lag(c, bytes, Cache(|bytes|, count)) == |Read(c, bytes).entries| - count
  {
    assert bytes[..|bytes|] == bytes;
  }

  function EndedNow(c: Codec, bytes: string): nat {
    if Unended(c, bytes) then 1 else 0
  }

  lemma {:induction false} WholeWriteLag(c: Codec, ready: string, caught: Cache, records: seq<string>)
    requires CodecOk(c) && Read(c, ready).rest == "" && caught.scanned == |ready|
    ensures var data := Lines(c, caught.count, records);
      var after := Cache(caught.scanned + |data|, caught.count + |records|);
      && Boundary(c, ready + data, after)
      && Lag(c, ready + data, after) == |Read(c, ready).entries| - caught.count
  {
    var data := Lines(c, caught.count, records);
    LinesRead(c, Read(c, ready), caught.count, records);
    ReadSplit(c, NOTHING, ready, data);
    WholeBoundary(c, ready + data, caught.count + |records|);
  }

  lemma TornWriteLag(c: Codec, ready: string, caught: Cache, written: string)
    requires Read(c, ready).rest == "" && caught.scanned == |ready|
    ensures Boundary(c, ready + written, caught)
    ensures Lag(c, ready + written, caught) == |Read(c, ready).entries| - caught.count
  {
    WholeBoundary(c, ready, caught.count);
    Extends(c, ready, ready + written, caught);
  }

  /** The writer falls behind by one exactly when it ended a line that was a record. */
  lemma AppendLag(c: Codec, bytes: string, cache: Cache, records: seq<string>, kept: nat)
    requires CodecOk(c) && Boundary(c, bytes, cache)
    ensures var (after, caught) := Append(c, bytes, cache, records, kept);
      bytes <= after && Boundary(c, after, caught) && Lag(c, after, caught) == Lag(c, bytes, cache) + EndedNow(c, bytes)
  {
    NextLag(c, bytes, cache);
    var (ready, caught) := Next(c, bytes, cache);
    var data := Lines(c, caught.count, records);
    if kept < |data| {
      TornWriteLag(c, ready, caught, data[..kept]);
    } else {
      WholeWriteLag(c, ready, caught, records);
    }
  }

  /** Appending keeps every readable record where it is. */
  lemma AppendKeepsEntries(c: Codec, bytes: string, cache: Cache, records: seq<string>, kept: nat)
    requires CodecOk(c) && Boundary(c, bytes, cache)
    ensures Entries(c, bytes) <= Entries(c, Append(c, bytes, cache, records, kept).0)
  {
    NextLag(c, bytes, cache);
    var (ready, caught) := Next(c, bytes, cache);
    var data := Lines(c, caught.count, records);
    var written := if kept < |data| then data[..kept] else data;
    ReadSplit(c, NOTHING, ready, written);
    ReadAfter(c, Read(c, ready), written);
    assert Append(c, bytes, cache, records, kept).0 == ready + written;
  }

  /** What a whole append adds, from whatever state. */
  lemma {:induction false} WholeAppendAdds(c: Codec, bytes: string, cache: Cache, more: seq<string>, kept: nat)
    requires CodecOk(c) && Boundary(c, bytes, cache) && Lag(c, bytes, cache) <= |Read(c, bytes).entries|
    requires kept >= |Lines(c, Next(c, bytes, cache).1.count, more)|
    ensures Entries(c, Append(c, bytes, cache, more, kept).0)
      == Entries(c, bytes) + Numbered(|Read(c, bytes).entries| - Lag(c, bytes, cache), more)
  {
    NextLag(c, bytes, cache);
    var (ready, caught) := Next(c, bytes, cache);
    LinesRead(c, Read(c, ready), caught.count, more);
    ReadSplit(c, NOTHING, ready, Lines(c, caught.count, more));
    EmptyIsNoRecord(c);
    NoneLeft(c, ready + Lines(c, caught.count, more));
  }

  lemma LagIsSmall(c: Codec, bytes: string, cache: Cache)
    requires CodecOk(c) && Boundary(c, bytes, cache)
    ensures Lag(c, bytes, cache) <= |Read(c, bytes).entries|
  {
    CatchUpLag(c, bytes, cache);
  }

  /** A whole append leaves the numbering right if and only if it was right, no record lacked its end,
      and the writer had counted every record. */
  lemma {:induction false} WholeAppendIff(c: Codec, bytes: string, cache: Cache, more: seq<string>, kept: nat)
    requires CodecOk(c) && Boundary(c, bytes, cache) && Lag(c, bytes, cache) >= 0 && more != []
    requires kept >= |Lines(c, Next(c, bytes, cache).1.count, more)|
    ensures InSequence(Entries(c, Append(c, bytes, cache, more, kept).0)) <==>
      InSequence(Entries(c, bytes)) && !Unended(c, bytes) && Lag(c, bytes, cache) == 0
  {
    LagIsSmall(c, bytes, cache);
    WholeAppendAdds(c, bytes, cache, more, kept);
    AddedIff(Entries(c, bytes), |Read(c, bytes).entries| - Lag(c, bytes, cache), more);
  }

  lemma AddedIff(entries: seq<Entry>, first: nat, more: seq<string>)
    requires more != []
    ensures InSequence(entries + Numbered(first, more)) <==> InSequence(entries) && first == |entries|
  {
    var all := entries + Numbered(first, more);
    assert all[|entries|] == Entry(first, more[0]);
    if InSequence(all) {
      forall k | 0 <= k < |entries| ensures entries[k].seqNo == k {
        assert all[k] == entries[k];
      }
    }
  }

  // ----- whole runs -----

  /** Every writer's scanned bytes end with a line, and none has counted a record that is not there. */
  ghost predicate Sane(c: Codec, w: World) {
    forall i :: 0 <= i < |w.caches| ==> Boundary(c, w.bytes, w.caches[i]) && Lag(c, w.bytes, w.caches[i]) >= 0
  }

  lemma OkParts(c: Codec, w: World)
    requires CodecOk(c) && Sane(c, w)
    ensures WorldOk(c, w) <==>
      && InSequence(Entries(c, w.bytes)) && !Unended(c, w.bytes)
      && forall i :: 0 <= i < |w.caches| ==> Lag(c, w.bytes, w.caches[i]) == 0
  {
    forall i | 0 <= i < |w.caches| ensures CacheOk(c, w.bytes, w.caches[i]) <==> Lag(c, w.bytes, w.caches[i]) == 0 {
      CountsAll(c, w.bytes, w.caches[i]);
    }
  }

  lemma OpenStep(c: Codec, w: World)
    requires CodecOk(c) && Sane(c, w)
    ensures Sane(c, Do(c, w, Opens)) && (WorldOk(c, Do(c, w, Opens)) ==> WorldOk(c, w))
  {
    assert w.bytes[..0] == "";
    var after := Do(c, w, Opens);
    forall i | 0 <= i < |w.caches| ensures after.caches[i] == w.caches[i] {}
  }

  lemma LookStep(c: Codec, w: World, writer: nat)
    requires CodecOk(c) && Sane(c, w) && writer < |w.caches|
    ensures Sane(c, Do(c, w, Looks(writer))) && (WorldOk(c, Do(c, w, Looks(writer))) ==> WorldOk(c, w))
  {
    var after := Do(c, w, Looks(writer));
    CatchUpKeeps(c, w.bytes, w.caches[writer]);
    forall i | 0 <= i < |w.caches|
      ensures Boundary(c, w.bytes, after.caches[i])
      ensures Lag(c, w.bytes, after.caches[i]) == Lag(c, w.bytes, w.caches[i])
    {
      if i != writer { assert after.caches[i] == w.caches[i]; }
    }
    OkParts(c, w);
    OkParts(c, after);
  }

  ghost predicate Writes(w: World, act: Act) {
    act.Appends? && act.writer < |w.caches| && act.records != []
  }

  lemma AppendSane(c: Codec, w: World, act: Act)
    requires CodecOk(c) && Sane(c, w) && Writes(w, act)
    ensures Sane(c, Do(c, w, act)) && w.bytes <= Do(c, w, act).bytes
  {
    AppendLag(c, w.bytes, w.caches[act.writer], act.records, act.kept);
    var after := Do(c, w, act);
    forall i | 0 <= i < |after.caches|
      ensures Boundary(c, after.bytes, after.caches[i]) && Lag(c, after.bytes, after.caches[i]) >= 0
    {
      if i != act.writer { Extends(c, w.bytes, after.bytes, w.caches[i]); }
    }
  }

  lemma StaysOutOfSequence(entries: seq<Entry>, more: seq<Entry>)
    requires entries <= more && !InSequence(entries)
    ensures !InSequence(more)
  {
    var k :| 0 <= k < |entries| && entries[k].seqNo != k;
    assert more[k] == entries[k];
  }

  /** What is wrong before an append is wrong after it. */
  lemma AppendRepairsNothing(c: Codec, w: World, act: Act)
    requires CodecOk(c) && Sane(c, w) && Writes(w, act) && !WorldOk(c, w)
    ensures Sane(c, Do(c, w, act)) && !WorldOk(c, Do(c, w, act))
  {
    var after, own := Do(c, w, act), w.caches[act.writer];
    AppendSane(c, w, act);
    AppendLag(c, w.bytes, own, act.records, act.kept);
    AppendKeepsEntries(c, w.bytes, own, act.records, act.kept);
    OkParts(c, w);
    OkParts(c, after);
    if !InSequence(Entries(c, w.bytes)) {
      StaysOutOfSequence(Entries(c, w.bytes), Entries(c, after.bytes));
    } else if Unended(c, w.bytes) || Lag(c, w.bytes, own) > 0 {
      assert Lag(c, after.bytes, after.caches[act.writer]) > 0;
    } else {
      var i :| 0 <= i < |w.caches| && Lag(c, w.bytes, w.caches[i]) != 0;
      Extends(c, w.bytes, after.bytes, w.caches[i]);
      assert after.caches[i] == w.caches[i];
    }
  }

  lemma UnfairSpoils(c: Codec, w: World, act: Act)
    requires CodecOk(c) && WorldOk(c, w) && Writes(w, act) && !FairAct(c, w, act)
    ensures !WorldOk(c, Do(c, w, act))
  {
    var e := UnfairTearLeaves(c, w.bytes, w.caches[act.writer], act.records, act.kept);
    assert ReadsBack(c, e);
  }

  lemma OkIsSane(c: Codec, w: World)
    requires CodecOk(c) && WorldOk(c, w)
    ensures Sane(c, w)
  {
    forall i | 0 <= i < |w.caches| ensures Boundary(c, w.bytes, w.caches[i]) && Lag(c, w.bytes, w.caches[i]) >= 0 {
      CountsAll(c, w.bytes, w.caches[i]);
    }
  }

  /** Each act keeps things sane, and leaves them right if and only if they were and it tore fairly. */
  lemma ActIff(c: Codec, w: World, act: Act)
    requires CodecOk(c) && Sane(c, w)
    ensures Sane(c, Do(c, w, act))
    ensures WorldOk(c, Do(c, w, act)) <==> WorldOk(c, w) && FairAct(c, w, act)
  {
    if WorldOk(c, w) && FairAct(c, w, act) {
      DoKeeps(c, w, act);
      OkIsSane(c, Do(c, w, act));
    } else if Writes(w, act) {
      AppendSane(c, w, act);
      if WorldOk(c, w) { UnfairSpoils(c, w, act); } else { AppendRepairsNothing(c, w, act); }
    } else if act.Opens? {
      OpenStep(c, w);
    } else if act.Looks? && act.writer < |w.caches| {
      LookStep(c, w, act.writer);
    }
  }

  /** Over every run, however often and wherever writes were torn: the records are numbered, the last
      line is no record without its end and every count is right if and only if every tear was fair. */
  lemma {:induction false} RightIffFair(c: Codec, acts: seq<Act>)
    requires CodecOk(c)
    ensures Sane(c, After(c, acts))
    ensures WorldOk(c, After(c, acts)) <==> Fair(c, acts)
  {
    if acts == [] {
      EmptyIsNoRecord(c);
    } else {
      var init := acts[..|acts| - 1];
      RightIffFair(c, init);
      ActIff(c, After(c, init), acts[|acts| - 1]);
      FairSnoc(c, acts);
    }
  }

  // ----- as readers see it -----

  /** Whichever writer appends next, and whatever it appends whole, readers find the k-th record
      numbered k. */
  ghost predicate NumbersOn(c: Codec, w: World) {
    forall writer: nat, more: seq<string>, kept: nat ::
      writer < |w.caches| && WritesWhole(c, w, writer, more, kept) ==>
        InSequence(Entries(c, Do(c, w, Appends(writer, more, kept)).bytes))
  }

  ghost predicate WritesWhole(c: Codec, w: World, writer: nat, more: seq<string>, kept: nat)
    requires writer < |w.caches|
  {
    more != [] && kept >= |Lines(c, Next(c, w.bytes, w.caches[writer]).1.count, more)|
  }

  lemma WriterIff(c: Codec, w: World, writer: nat, more: seq<string>, kept: nat)
    requires CodecOk(c) && Sane(c, w) && writer < |w.caches| && WritesWhole(c, w, writer, more, kept)
    ensures InSequence(Entries(c, Do(c, w, Appends(writer, more, kept)).bytes)) <==>
      InSequence(Entries(c, w.bytes)) && !Unended(c, w.bytes) && Lag(c, w.bytes, w.caches[writer]) == 0
  {
    WholeAppendIff(c, w.bytes, w.caches[writer], more, kept);
  }

  lemma NumbersOnFor(c: Codec, w: World, writer: nat)
    requires CodecOk(c) && Sane(c, w) && writer < |w.caches| && NumbersOn(c, w)
    ensures InSequence(Entries(c, w.bytes)) && !Unended(c, w.bytes) && Lag(c, w.bytes, w.caches[writer]) == 0
  {
    var kept := |Lines(c, Next(c, w.bytes, w.caches[writer]).1.count, [""])|;
    assert WritesWhole(c, w, writer, [""], kept);
    WriterIff(c, w, writer, [""], kept);
  }

  lemma NumbersOnIff(c: Codec, w: World)
    requires CodecOk(c) && Sane(c, w) && w.caches != []
    ensures NumbersOn(c, w) <==> WorldOk(c, w)
  {
    OkParts(c, w);
    if NumbersOn(c, w) {
      NumbersOnFor(c, w, 0);
      forall i | 0 <= i < |w.caches| ensures Lag(c, w.bytes, w.caches[i]) == 0 {
        NumbersOnFor(c, w, i);
      }
    }
    if WorldOk(c, w) {
      forall writer: nat, more: seq<string>, kept: nat | writer < |w.caches| && WritesWhole(c, w, writer, more, kept)
        ensures InSequence(Entries(c, Do(c, w, Appends(writer, more, kept)).bytes))
      {
        WriterIff(c, w, writer, more, kept);
      }
    }
  }

  /** The numbering is right after every run followed by any whole append by any writer, if and only if
      no tear of the run lost exactly the end of a line. */
  lemma {:induction false} NumbersOnIffFair(c: Codec, acts: seq<Act>)
    requires CodecOk(c) && After(c, acts).caches != []
    ensures NumbersOn(c, After(c, acts)) <==> Fair(c, acts)
  {
    RightIffFair(c, acts);
    NumbersOnIff(c, After(c, acts));
  }
}
