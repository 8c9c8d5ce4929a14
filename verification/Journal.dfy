/** The append-only journal of src/autosiem/archive.py: several writers, each with its own count of
    what it has scanned, append to one file, and a write may be torn at any byte. */
module Journal {
  import opened Common

  const NEWLINE: char := '\n'

  datatype Entry = Entry(seqNo: nat, record: string)

  /** How an entry is written and what a line reads back as. */
  datatype Codec = Codec(encode: Entry -> string, parse: string -> Option<Entry>)

  ghost predicate OneLine(s: string) {
    forall i :: 0 <= i < |s| ==> s[i] != NEWLINE
  }

  ghost predicate ReadsBack(c: Codec, e: Entry) {
    && OneLine(c.encode(e)) && c.parse(c.encode(e)) == Some(e)
    && forall n :: 0 <= n < |c.encode(e)| ==> c.parse(c.encode(e)[..n]) == None
  }

  /** What JSON objects guarantee: one line each, read back as written, and no beginning of one is
      itself a whole object. */
  ghost predicate CodecOk(c: Codec) {
    forall e :: ReadsBack(c, e)
  }

  // ----- what readers see -----

  function AsList(e: Option<Entry>): seq<Entry> {
    if e.Some? then [e.value] else []
  }

  /** The whole lines that parse, and what follows the last of them. */
  datatype Reading = Reading(entries: seq<Entry>, rest: string)

  const NOTHING := Reading([], "")

  function Step(c: Codec, r: Reading, byte: char): Reading {
    if byte == NEWLINE then Reading(r.entries + AsList(c.parse(r.rest)), "")
    else Reading(r.entries, r.rest + [byte])
  }

  function ReadOn(c: Codec, r: Reading, bytes: string): Reading {
    if bytes == "" then r else Step(c, ReadOn(c, r, bytes[..|bytes| - 1]), bytes[|bytes| - 1])
  }

  function Read(c: Codec, bytes: string): Reading {
    ReadOn(c, NOTHING, bytes)
  }

  /** The readable records: a last line without its end counts if it parses. */
  function Entries(c: Codec, bytes: string): seq<Entry> {
    Read(c, bytes).entries + AsList(c.parse(Read(c, bytes).rest))
  }

  /** `rfind(b"\n") + 1` */
  function Whole(bytes: string): (n: nat)
    ensures n <= |bytes|
  {
    if bytes == "" then 0
    else if bytes[|bytes| - 1] == NEWLINE then |bytes|
    else Whole(bytes[..|bytes| - 1])
  }

  // ----- one writer -----

  /** `_scanned` and `_count`. */
  datatype Cache = Cache(scanned: nat, count: nat)

  /** The new cache, and whether the last line is torn. */
  function CatchUp(c: Codec, bytes: string, cache: Cache): (Cache, bool) {
    var from := if |bytes| < cache.scanned then Cache(0, 0) else cache;
    var data := bytes[from.scanned..];
    var whole := Whole(data);
    (Cache(from.scanned + whole, from.count + |Read(c, data[..whole]).entries|), whole < |data|)
  }

  /** A torn last line is ended, so that the next record starts on a line of its own. */
  function Next(c: Codec, bytes: string, cache: Cache): (string, Cache) {
    var (caught, torn) := CatchUp(c, bytes, cache);
    if torn then (bytes + [NEWLINE], caught.(scanned := |bytes| + 1)) else (bytes, caught)
  }

  function Line(c: Codec, e: Entry): string {
    c.encode(e) + [NEWLINE]
  }

  function Lines(c: Codec, first: nat, records: seq<string>): string {
    if records == [] then ""
    else Lines(c, first, records[..|records| - 1]) + Line(c, Entry(first + |records| - 1, records[|records| - 1]))
  }

  /** `append_many`, or `append` for one record. `kept` is how many bytes of the write reach the file:
      a write that is torn raises, and the writer's cache does not move past it. */
  function Append(c: Codec, bytes: string, cache: Cache, records: seq<string>, kept: nat): (string, Cache) {
    var (ready, caught) := Next(c, bytes, cache);
    var data := Lines(c, caught.count, records);
    if kept < |data| then (ready + data[..kept], caught)
    else (ready + data, Cache(caught.scanned + |data|, caught.count + |records|))
  }

  // ----- reading -----

  lemma {:induction false} ReadSplit(c: Codec, r: Reading, a: string, b: string)
    ensures ReadOn(c, r, a + b) == ReadOn(c, ReadOn(c, r, a), b)
  {
    if b == "" {
      assert a + b == a;
    } else {
      assert (a + b)[..|a + b| - 1] == a + b[..|b| - 1];
      ReadSplit(c, r, a, b[..|b| - 1]);
    }
  }

  /** Bytes within a line are collected. */
  lemma {:induction false} ReadWithin(c: Codec, r: Reading, bytes: string)
    requires OneLine(bytes)
    ensures ReadOn(c, r, bytes) == Reading(r.entries, r.rest + bytes)
  {
    if bytes != "" {
      var init := bytes[..|bytes| - 1];
      ReadWithin(c, r, init);
      assert r.rest + init + [bytes[|bytes| - 1]] == r.rest + bytes;
    } else {
      assert r.rest + bytes == r.rest;
    }
  }

  lemma {:induction false} ReadNewline(c: Codec, r: Reading)
    ensures ReadOn(c, r, [NEWLINE]) == Reading(r.entries + AsList(c.parse(r.rest)), "")
  {
    assert [NEWLINE][..0] == "";
  }

  /** Earlier records only go in front. */
  lemma {:induction false} ReadAfter(c: Codec, r: Reading, bytes: string)
    ensures ReadOn(c, r, bytes).entries == r.entries + ReadOn(c, Reading([], r.rest), bytes).entries
    ensures ReadOn(c, r, bytes).rest == ReadOn(c, Reading([], r.rest), bytes).rest
  {
    if bytes != "" { ReadAfter(c, r, bytes[..|bytes| - 1]); }
  }

  /** What follows the last line end is what has not been read as a line. */
  lemma {:induction false} RestIsTail(c: Codec, bytes: string)
    ensures Read(c, bytes).rest == bytes[Whole(bytes)..]
    ensures Read(c, bytes[..Whole(bytes)]) == Reading(Read(c, bytes).entries, "")
  {
    if bytes != "" {
      var init, last := bytes[..|bytes| - 1], bytes[|bytes| - 1];
      if last == NEWLINE {
        assert bytes[..|bytes|] == bytes;
      } else {
        RestIsTail(c, init);
        assert init[..Whole(init)] == bytes[..Whole(bytes)];
        assert init[Whole(init)..] + [last] == bytes[Whole(bytes)..];
      }
    }
  }

  function Numbered(first: nat, records: seq<string>): (r: seq<Entry>)
    ensures |r| == |records| && forall k :: 0 <= k < |r| ==> r[k] == Entry(first + k, records[k])
  {
    seq(|records|, k requires 0 <= k < |records| => Entry(first + k, records[k]))
  }

  lemma {:induction false} LineReads(c: Codec, r: Reading, e: Entry)
    requires CodecOk(c) && r.rest == ""
    ensures ReadOn(c, r, Line(c, e)) == Reading(r.entries + [e], "")
  {
    assert ReadsBack(c, e);
    ReadWithin(c, r, c.encode(e));
    assert "" + c.encode(e) == c.encode(e);
    ReadSplit(c, r, c.encode(e), [NEWLINE]);
    ReadNewline(c, ReadOn(c, r, c.encode(e)));
  }

  lemma {:induction false} OneMoreLineReads(c: Codec, r: Reading, lines: string, e: Entry)
    requires CodecOk(c) && ReadOn(c, r, lines).rest == ""
    ensures ReadOn(c, r, lines + Line(c, e)) == Reading(ReadOn(c, r, lines).entries + [e], "")
  {
    LineReads(c, ReadOn(c, r, lines), e);
    ReadSplit(c, r, lines, Line(c, e));
  }

  lemma NumberedSnoc(entries: seq<Entry>, first: nat, records: seq<string>)
    requires records != []
    ensures entries + Numbered(first, records) ==
      entries + Numbered(first, records[..|records| - 1]) + [Entry(first + |records| - 1, records[|records| - 1])]
  {
  }

  lemma {:induction false} LinesRead(c: Codec, r: Reading, first: nat, records: seq<string>)
    requires CodecOk(c) && r.rest == ""
    ensures ReadOn(c, r, Lines(c, first, records)) == Reading(r.entries + Numbered(first, records), "")
  {
    if records == [] {
      assert r.entries + Numbered(first, records) == r.entries;
    } else {
      var init := records[..|records| - 1];
      var e := Entry(first + |init|, records[|records| - 1]);
      LinesRead(c, r, first, init);
      assert e == Entry(first + |records| - 1, records[|records| - 1]);
      OneMoreLineReads(c, r, Lines(c, first, init), e);
      NumberedSnoc(r.entries, first, records);
    }
  }

  lemma {:induction false} LinesCutBefore(c: Codec, first: nat, records: seq<string>, kept: nat)
    requires records != [] && kept < |Lines(c, first, records[..|records| - 1])|
    ensures var before, all := Lines(c, first, records[..|records| - 1]), Lines(c, first, records);
      kept < |all| && all[..kept] == before[..kept] && all[kept] == before[kept]
  {
  }

  lemma {:induction false} LinesCutWithin(c: Codec, first: nat, records: seq<string>, kept: nat)
    requires records != [] && |Lines(c, first, records[..|records| - 1])| <= kept < |Lines(c, first, records)|
    ensures var before, all := Lines(c, first, records[..|records| - 1]), Lines(c, first, records);
      var line := Line(c, Entry(first + |records| - 1, records[|records| - 1]));
      kept - |before| < |line| && all[..kept] == before + line[..kept - |before|] && all[kept] == line[kept - |before|]
  {
  }

  /** A torn write leaves some whole records and a fragment that is not one, unless the tear lost
      just the end of a line. */
  lemma {:induction false} TornLinesRead(c: Codec, r: Reading, first: nat, records: seq<string>, kept: nat)
    returns (n: nat)
    requires CodecOk(c) && r.rest == ""
    requires kept < |Lines(c, first, records)| && Lines(c, first, records)[kept] != NEWLINE
    ensures n <= |records|
    ensures ReadOn(c, r, Lines(c, first, records)[..kept]).entries == r.entries + Numbered(first, records[..n])
    ensures c.parse(ReadOn(c, r, Lines(c, first, records)[..kept]).rest) == None
    decreases |records|
  {
    var init := records[..|records| - 1];
    if kept < |Lines(c, first, init)| {
      LinesCutBefore(c, first, records, kept);
      n := TornLinesRead(c, r, first, init, kept);
      assert init[..n] == records[..n];
    } else {
      n := |init|;
      TornLastLineReads(c, r, first, records, kept);
    }
  }

  lemma {:induction false} TornLastLineReads(c: Codec, r: Reading, first: nat, records: seq<string>, kept: nat)
    requires CodecOk(c) && r.rest == "" && records != []
    requires |Lines(c, first, records[..|records| - 1])| <= kept < |Lines(c, first, records)|
    requires Lines(c, first, records)[kept] != NEWLINE
    ensures var read := ReadOn(c, r, Lines(c, first, records)[..kept]);
      && read.entries == r.entries + Numbered(first, records[..|records| - 1])
      && c.parse(read.rest) == None
  {
    var init := records[..|records| - 1];
    var before, e := Lines(c, first, init), Entry(first + |records| - 1, records[|records| - 1]);
    LinesCutWithin(c, first, records, kept);
    LinesRead(c, r, first, init);
    FragmentReads(c, ReadOn(c, r, before), e, kept - |before|);
    ReadSplit(c, r, before, Line(c, e)[..kept - |before|]);
  }

  lemma {:induction false} FragmentReads(c: Codec, r: Reading, e: Entry, m: nat)
    requires CodecOk(c) && r.rest == "" && m < |Line(c, e)| && Line(c, e)[m] != NEWLINE
    ensures ReadOn(c, r, Line(c, e)[..m]).entries == r.entries
    ensures c.parse(ReadOn(c, r, Line(c, e)[..m]).rest) == None
  {
    var text := c.encode(e);
    assert ReadsBack(c, e) && m < |text|;
    assert Line(c, e)[..m] == text[..m];
    ReadWithin(c, r, text[..m]);
    assert "" + text[..m] == text[..m];
  }

  // ----- what always holds -----

  ghost predicate InSequence(entries: seq<Entry>) {
    forall k :: 0 <= k < |entries| ==> entries[k].seqNo == k
  }

  /** The k-th readable record carries sequence k, and the last line, if torn, is not a record. */
  ghost predicate FileOk(c: Codec, bytes: string) {
    InSequence(Entries(c, bytes)) && c.parse(Read(c, bytes).rest) == None
  }

  lemma NoneLeft(c: Codec, bytes: string)
    requires c.parse(Read(c, bytes).rest) == None
    ensures Entries(c, bytes) == Read(c, bytes).entries
  {
  }

  /** The scanned bytes end with a line, and the count is the number of readable records in them. */
  ghost predicate CacheOk(c: Codec, bytes: string, cache: Cache) {
    && cache.scanned <= |bytes| && Read(c, bytes[..cache.scanned]).rest == ""
    && cache.count == |Entries(c, bytes[..cache.scanned])|
  }

  /** Nothing parses as an empty line. */
  lemma EmptyIsNoRecord(c: Codec)
    requires CodecOk(c)
    ensures c.parse("") == None
  {
    var e, f := Entry(0, ""), Entry(1, "");
    assert ReadsBack(c, e) && ReadsBack(c, f);
    if c.encode(e) != "" {
      assert c.encode(e)[..0] == "";
    } else {
      assert c.encode(f)[..0] == "";
    }
  }

  /** Appending changes no byte, so a cache stays right. */
  lemma CacheLasts(c: Codec, bytes: string, more: string, cache: Cache)
    requires CacheOk(c, bytes, cache) && bytes <= more
    ensures CacheOk(c, more, cache)
  {
    assert more[..cache.scanned] == bytes[..cache.scanned];
  }

  /** What is read past a line end comes after what is read up to it. */
  lemma TailReads(c: Codec, bytes: string, from: nat)
    requires from <= |bytes| && Read(c, bytes[..from]).rest == ""
    ensures var data := bytes[from..];
      && Read(c, bytes).entries == Read(c, bytes[..from]).entries + Read(c, data[..Whole(data)]).entries
      && |Read(c, bytes).rest| == |data| - Whole(data)
  {
    var a, data := bytes[..from], bytes[from..];
    assert a + data == bytes;
    ReadSplit(c, NOTHING, a, data);
    ReadAfter(c, Read(c, a), data);
    RestIsTail(c, data);
  }

  /** Catching up counts every readable line. */
  lemma CaughtUp(c: Codec, bytes: string, cache: Cache)
    requires CodecOk(c) && CacheOk(c, bytes, cache)
    ensures var (caught, torn) := CatchUp(c, bytes, cache);
      && caught.count == |Read(c, bytes).entries| && caught.scanned + |Read(c, bytes).rest| == |bytes|
      && (torn <==> Read(c, bytes).rest != "")
  {
    EmptyIsNoRecord(c);
    TailReads(c, bytes, cache.scanned);
  }

  /** Ending a torn line loses and adds no record. */
  lemma NextIsReady(c: Codec, bytes: string, cache: Cache)
    requires CodecOk(c) && FileOk(c, bytes) && CacheOk(c, bytes, cache)
    ensures InSequence(Read(c, bytes).entries)
    ensures var (ready, caught) := Next(c, bytes, cache);
      && bytes <= ready && caught == Cache(|ready|, |Read(c, ready).entries|)
      && Read(c, ready) == Reading(Read(c, bytes).entries, "")
  {
    CaughtUp(c, bytes, cache);
    NoneLeft(c, bytes);
    ReadSplit(c, NOTHING, bytes, [NEWLINE]);
    ReadNewline(c, Read(c, bytes));
  }

  /** The tear, if any, did not lose exactly the end of a line. */
  predicate FairTear(c: Codec, bytes: string, cache: Cache, records: seq<string>, kept: nat) {
    var data := Lines(c, Next(c, bytes, cache).1.count, records);
    kept < |data| ==> data[kept] != NEWLINE
  }

  lemma WholeCache(c: Codec, bytes: string)
    requires CodecOk(c) && Read(c, bytes).rest == ""
    ensures CacheOk(c, bytes, Cache(|bytes|, |Read(c, bytes).entries|))
  {
    EmptyIsNoRecord(c);
    assert bytes[..|bytes|] == bytes;
  }

  lemma {:induction false} TornKeeps(c: Codec, ready: string, records: seq<string>, kept: nat)
    requires CodecOk(c) && Read(c, ready).rest == "" && InSequence(Read(c, ready).entries)
    requires var data := Lines(c, |Read(c, ready).entries|, records); kept < |data| && data[kept] != NEWLINE
    ensures FileOk(c, ready + Lines(c, |Read(c, ready).entries|, records)[..kept])
  {
    var first := |Read(c, ready).entries|;
    var n := TornLinesRead(c, Read(c, ready), first, records, kept);
    ReadSplit(c, NOTHING, ready, Lines(c, first, records)[..kept]);
  }

  lemma {:induction false} WholeKeeps(c: Codec, ready: string, records: seq<string>)
    requires CodecOk(c) && Read(c, ready).rest == "" && InSequence(Read(c, ready).entries)
    ensures var data := Lines(c, |Read(c, ready).entries|, records);
      && FileOk(c, ready + data)
      && Read(c, ready + data) == Reading(Read(c, ready).entries + Numbered(|Read(c, ready).entries|, records), "")
  {
    var first := |Read(c, ready).entries|;
    LinesRead(c, Read(c, ready), first, records);
    ReadSplit(c, NOTHING, ready, Lines(c, first, records));
    EmptyIsNoRecord(c);
  }

  lemma {:induction false} TornAppendKeeps(c: Codec, ready: string, caught: Cache, records: seq<string>, kept: nat)
    requires CodecOk(c) && Read(c, ready).rest == "" && InSequence(Read(c, ready).entries)
    requires caught == Cache(|ready|, |Read(c, ready).entries|)
    requires var data := Lines(c, caught.count, records); kept < |data| && data[kept] != NEWLINE
    ensures var after := ready + Lines(c, caught.count, records)[..kept];
      FileOk(c, after) && CacheOk(c, after, caught)
  {
    TornKeeps(c, ready, records, kept);
    WholeCache(c, ready);
    CacheLasts(c, ready, ready + Lines(c, caught.count, records)[..kept], caught);
  }

  lemma {:induction false} WholeAppendKeeps(c: Codec, ready: string, caught: Cache, records: seq<string>)
    requires CodecOk(c) && Read(c, ready).rest == "" && InSequence(Read(c, ready).entries)
    requires caught == Cache(|ready|, |Read(c, ready).entries|)
    ensures var data := Lines(c, caught.count, records);
      FileOk(c, ready + data) && CacheOk(c, ready + data, Cache(caught.scanned + |data|, caught.count + |records|))
  {
    WholeKeeps(c, ready, records);
    WholeCache(c, ready + Lines(c, caught.count, records));
  }

  /** One append, whole or torn, keeps the numbering, appends only, and leaves the writer's count right. */
  lemma AppendKeeps(c: Codec, bytes: string, cache: Cache, records: seq<string>, kept: nat)
    requires CodecOk(c) && FileOk(c, bytes) && CacheOk(c, bytes, cache) && FairTear(c, bytes, cache, records, kept)
    ensures var (after, caught) := Append(c, bytes, cache, records, kept);
      bytes <= after && FileOk(c, after) && CacheOk(c, after, caught)
  {
    NextIsReady(c, bytes, cache);
    var (ready, caught) := Next(c, bytes, cache);
    if kept < |Lines(c, caught.count, records)| {
      TornAppendKeeps(c, ready, caught, records, kept);
    } else {
      WholeAppendKeeps(c, ready, caught, records);
    }
  }

  /** A whole append adds its records, numbered on from those already there. */
  lemma {:induction false} AppendNumbers(c: Codec, bytes: string, cache: Cache, records: seq<string>, kept: nat)
    requires CodecOk(c) && FileOk(c, bytes) && CacheOk(c, bytes, cache)
    requires kept >= |Lines(c, Next(c, bytes, cache).1.count, records)|
    ensures Entries(c, Append(c, bytes, cache, records, kept).0) ==
      Entries(c, bytes) + Numbered(|Entries(c, bytes)|, records)
  {
    NextIsReady(c, bytes, cache);
    WholeKeeps(c, Next(c, bytes, cache).0, records);
    EmptyIsNoRecord(c);
    NoneLeft(c, bytes);
    NoneLeft(c, Append(c, bytes, cache, records, kept).0);
  }

  // ----- a tear that loses exactly the end of a line -----

  /** Such a tear leaves whole records and, unended, the next one. */
  lemma {:induction false} LostEndReads(c: Codec, r: Reading, first: nat, records: seq<string>, kept: nat)
    returns (n: nat)
    requires CodecOk(c) && r.rest == ""
    requires kept < |Lines(c, first, records)| && Lines(c, first, records)[kept] == NEWLINE
    ensures n < |records|
    ensures ReadOn(c, r, Lines(c, first, records)[..kept]) ==
      Reading(r.entries + Numbered(first, records[..n]), c.encode(Entry(first + n, records[n])))
    decreases |records|
  {
    var init := records[..|records| - 1];
    if kept < |Lines(c, first, init)| {
      LinesCutBefore(c, first, records, kept);
      n := LostEndReads(c, r, first, init, kept);
      assert init[..n] == records[..n];
    } else {
      n := |init|;
      LostLastEndReads(c, r, first, records, kept);
    }
  }

  lemma {:induction false} LostLastEndReads(c: Codec, r: Reading, first: nat, records: seq<string>, kept: nat)
    requires CodecOk(c) && r.rest == "" && records != []
    requires |Lines(c, first, records[..|records| - 1])| <= kept < |Lines(c, first, records)|
    requires Lines(c, first, records)[kept] == NEWLINE
    ensures var last := |records| - 1;
      ReadOn(c, r, Lines(c, first, records)[..kept]) ==
      Reading(r.entries + Numbered(first, records[..last]), c.encode(Entry(first + last, records[last])))
  {
    var init := records[..|records| - 1];
    var before, e := Lines(c, first, init), Entry(first + |records| - 1, records[|records| - 1]);
    LinesCutWithin(c, first, records, kept);
    LinesRead(c, r, first, init);
    WholeFragmentReads(c, ReadOn(c, r, before), e, kept - |before|);
    ReadSplit(c, r, before, Line(c, e)[..kept - |before|]);
  }

  lemma {:induction false} WholeFragmentReads(c: Codec, r: Reading, e: Entry, m: nat)
    requires CodecOk(c) && r.rest == "" && m < |Line(c, e)| && Line(c, e)[m] == NEWLINE
    ensures ReadOn(c, r, Line(c, e)[..m]) == Reading(r.entries, c.encode(e)) && c.parse(c.encode(e)) == Some(e)
  {
    var text := c.encode(e);
    assert ReadsBack(c, e) && forall i :: 0 <= i < |text| ==> Line(c, e)[i] == text[i];
    assert m == |text|;
    assert Line(c, e)[..m] == text;
    ReadWithin(c, r, text);
    assert "" + text == text;
  }

  /** What an unfair tear leaves: its records are numbered on, the last of them without its end. */
  lemma UnfairTearLeaves(c: Codec, bytes: string, cache: Cache, records: seq<string>, kept: nat) returns (e: Entry)
    requires CodecOk(c) && FileOk(c, bytes) && CacheOk(c, bytes, cache) && !FairTear(c, bytes, cache, records, kept)
    ensures var after := Append(c, bytes, cache, records, kept).0;
      && InSequence(Read(c, after).entries + [e]) && Read(c, after).rest == c.encode(e)
  {
    NextIsReady(c, bytes, cache);
    var (ready, caught) := Next(c, bytes, cache);
    var n := LostEndReads(c, Read(c, ready), caught.count, records, kept);
    ReadSplit(c, NOTHING, ready, Lines(c, caught.count, records)[..kept]);
    e := Entry(caught.count + n, records[n]);
  }

  /** Torn in any way, an append leaves the writer's own count right and the numbering in order. */
  lemma AnyTearKeepsCounts(c: Codec, bytes: string, cache: Cache, records: seq<string>, kept: nat)
    requires CodecOk(c) && FileOk(c, bytes) && CacheOk(c, bytes, cache)
    ensures var (after, caught) := Append(c, bytes, cache, records, kept);
      bytes <= after && CacheOk(c, after, caught) && InSequence(Entries(c, after))
  {
    if FairTear(c, bytes, cache, records, kept) {
      AppendKeeps(c, bytes, cache, records, kept);
    } else {
      NextIsReady(c, bytes, cache);
      var (ready, caught) := Next(c, bytes, cache);
      WholeCache(c, ready);
      CacheLasts(c, ready, Append(c, bytes, cache, records, kept).0, caught);
      var e := UnfairTearLeaves(c, bytes, cache, records, kept);
      assert ReadsBack(c, e);
    }
  }

  /** A whole append after a line that lost only its end: that line is ended and read, not counted. */
  lemma {:induction false} AppendAfterLostEnd(c: Codec, bytes: string, cache: Cache, e: Entry, more: seq<string>,
          kept: nat)
    requires CodecOk(c) && CacheOk(c, bytes, cache) && Read(c, bytes).rest == c.encode(e)
    requires kept >= |Lines(c, Next(c, bytes, cache).1.count, more)|
    ensures Entries(c, Append(c, bytes, cache, more, kept).0) ==
      Read(c, bytes).entries + [e] + Numbered(|Read(c, bytes).entries|, more)
  {
    CaughtUp(c, bytes, cache);
    EncodedNotEmpty(c, e);
    var ended, n := bytes + [NEWLINE], |Read(c, bytes).entries|;
    ReadSplit(c, NOTHING, bytes, [NEWLINE]);
    ReadNewline(c, Read(c, bytes));
    assert ReadsBack(c, e);
    assert Next(c, bytes, cache).0 == ended && Next(c, bytes, cache).1.count == n;
    LinesRead(c, Read(c, ended), n, more);
    ReadSplit(c, NOTHING, ended, Lines(c, n, more));
    EmptyIsNoRecord(c);
    NoneLeft(c, ended + Lines(c, n, more));
  }

  lemma FairNumbersOn(c: Codec, bytes: string, cache: Cache, records: seq<string>, kept: nat, cache': Cache,
          more: seq<string>, kept': nat)
    requires CodecOk(c) && FileOk(c, bytes) && CacheOk(c, bytes, cache) && FairTear(c, bytes, cache, records, kept)
    requires var after := Append(c, bytes, cache, records, kept).0;
      CacheOk(c, after, cache') && kept' >= |Lines(c, Next(c, after, cache').1.count, more)|
    ensures InSequence(Entries(c, Append(c, Append(c, bytes, cache, records, kept).0, cache', more, kept').0))
  {
    AppendKeeps(c, bytes, cache, records, kept);
    AppendNumbers(c, Append(c, bytes, cache, records, kept).0, cache', more, kept');
  }

  lemma NumberedAgain(entries: seq<Entry>, e: Entry, more: seq<string>)
    requires more != []
    ensures !InSequence(entries + [e] + Numbered(|entries|, more))
  {
    assert (entries + [e] + Numbered(|entries|, more))[|entries| + 1] == Numbered(|entries|, more)[0];
  }

  lemma UnfairRepeats(c: Codec, bytes: string, cache: Cache, records: seq<string>, kept: nat, cache': Cache,
          more: seq<string>, kept': nat)
    requires CodecOk(c) && FileOk(c, bytes) && CacheOk(c, bytes, cache) && !FairTear(c, bytes, cache, records, kept)
    requires var after := Append(c, bytes, cache, records, kept).0;
      CacheOk(c, after, cache') && more != [] && kept' >= |Lines(c, Next(c, after, cache').1.count, more)|
    ensures !InSequence(Entries(c, Append(c, Append(c, bytes, cache, records, kept).0, cache', more, kept').0))
  {
    var after := Append(c, bytes, cache, records, kept).0;
    var e := UnfairTearLeaves(c, bytes, cache, records, kept);
    AppendAfterLostEnd(c, after, cache', e, more, kept');
    NumberedAgain(Read(c, after).entries, e, more);
  }

  /** The exact condition: after an append torn anywhere, and then a whole append of at least one
      record by any writer, the k-th readable record carries sequence k if and only if the tear did
      not lose exactly the end of a line. */
  lemma {:induction false} AppendKeepsIff(c: Codec, bytes: string, cache: Cache, records: seq<string>, kept: nat,
          cache': Cache, more: seq<string>, kept': nat)
    requires CodecOk(c) && FileOk(c, bytes) && CacheOk(c, bytes, cache)
    requires var after := Append(c, bytes, cache, records, kept).0;
      CacheOk(c, after, cache') && more != [] && kept' >= |Lines(c, Next(c, after, cache').1.count, more)|
    ensures var after := Append(c, bytes, cache, records, kept).0;
      InSequence(Entries(c, Append(c, after, cache', more, kept').0)) <==> FairTear(c, bytes, cache, records, kept)
  {
    if FairTear(c, bytes, cache, records, kept) {
      FairNumbersOn(c, bytes, cache, records, kept, cache', more, kept');
    } else {
      UnfairRepeats(c, bytes, cache, records, kept, cache', more, kept');
    }
  }

  lemma {:induction false} OneLineOf(c: Codec, n: nat, record: string)
    ensures Lines(c, n, [record]) == Line(c, Entry(n, record))
  {
    assert [record][..0] == [] && Lines(c, n, []) == "";
    assert "" + Line(c, Entry(n, record)) == Line(c, Entry(n, record));
  }

  lemma EndedReads(c: Codec, ready: string, e: Entry)
    requires CodecOk(c) && Read(c, ready).rest == ""
    ensures Read(c, ready + c.encode(e) + [NEWLINE]) == Reading(Read(c, ready).entries + [e], "")
  {
    LineReads(c, Read(c, ready), e);
    ReadSplit(c, NOTHING, ready, Line(c, e));
    assert ready + c.encode(e) + [NEWLINE] == ready + Line(c, e);
  }

  /** What one append that loses its line end leaves. */
  lemma LostEndLeaves(c: Codec, bytes: string, cache: Cache, torn: string)
    requires CodecOk(c) && FileOk(c, bytes) && CacheOk(c, bytes, cache)
    ensures var (ready, caught) := Next(c, bytes, cache);
      var e := Entry(|Entries(c, bytes)|, torn);
      && Append(c, bytes, cache, [torn], |c.encode(e)|) == (ready + c.encode(e), caught)
      && caught == Cache(|ready|, |Entries(c, bytes)|) && Read(c, ready) == Reading(Entries(c, bytes), "")
  {
    NextIsReady(c, bytes, cache);
    NoneLeft(c, bytes);
    var n := |Entries(c, bytes)|;
    OneLineOf(c, n, torn);
    assert Line(c, Entry(n, torn))[..|c.encode(Entry(n, torn))|] == c.encode(Entry(n, torn));
  }

  lemma NextWritesLine(c: Codec, bytes: string, cache: Cache, n: nat, next: string, ended: string)
    requires CodecOk(c) && Next(c, bytes, cache) == (ended, Cache(|ended|, n)) && Read(c, ended).rest == ""
    ensures var after := Append(c, bytes, cache, [next], |Line(c, Entry(n, next))|).0;
      Entries(c, after) == Read(c, ended).entries + [Entry(n, next)]
  {
    OneLineOf(c, n, next);
    LineReads(c, Read(c, ended), Entry(n, next));
    ReadSplit(c, NOTHING, ended, Line(c, Entry(n, next)));
    EmptyIsNoRecord(c);
    NoneLeft(c, ended + Line(c, Entry(n, next)));
  }

  /** After losing just the end of a line, the writer numbers its next record like the one it tore:
      readers see both. */
  lemma LostEndRepeatsSequence(c: Codec, bytes: string, cache: Cache, torn: string, next: string)
    requires CodecOk(c) && FileOk(c, bytes) && CacheOk(c, bytes, cache)
    ensures var n := |Entries(c, bytes)|;
      var kept := |c.encode(Entry(n, torn))|;
      var (first, caught) := Append(c, bytes, cache, [torn], kept);
      var second := Append(c, first, caught, [next], |Line(c, Entry(n, next))|).0;
      Entries(c, second) == Entries(c, bytes) + [Entry(n, torn), Entry(n, next)]
  {
    LostEndLeaves(c, bytes, cache, torn);
    var (ready, caught) := Next(c, bytes, cache);
    var n := |Entries(c, bytes)|;
    var e, f := Entry(n, torn), Entry(n, next);
    assert ReadsBack(c, e);
    EncodedNotEmpty(c, e);
    UnfinishedIsEnded(c, ready, c.encode(e), n);
    EndedReads(c, ready, e);
    NextWritesLine(c, ready + c.encode(e), caught, n, next, ready + c.encode(e) + [NEWLINE]);
    assert Entries(c, bytes) + [e] + [f] == Entries(c, bytes) + [e, f];
  }

  lemma EncodedNotEmpty(c: Codec, e: Entry)
    requires CodecOk(c)
    ensures c.encode(e) != ""
  {
    EmptyIsNoRecord(c);
    assert ReadsBack(c, e);
  }

  lemma UnfinishedIsEnded(c: Codec, ready: string, text: string, n: nat)
    requires OneLine(text) && text != ""
    ensures Next(c, ready + text, Cache(|ready|, n)) == (ready + text + [NEWLINE], Cache(|ready| + |text| + 1, n))
  {
    assert (ready + text)[|ready|..] == text;
    NoWholeLine(text);
    assert text[..0] == "";
  }

  lemma {:induction false} NoWholeLine(text: string)
    requires OneLine(text)
    ensures Whole(text) == 0
  {
    if text != "" { NoWholeLine(text[..|text| - 1]); }
  }
}
