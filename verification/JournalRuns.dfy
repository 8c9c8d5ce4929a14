/** Runs of several writers on one journal, and the writer itself, src/autosiem/archive.py. */
module JournalRuns {
  import opened Common
  import opened Journal

  /** The file, and the cache of every writer there has been. */
  datatype World = World(bytes: string, caches: seq<Cache>)

  /** A process opens the journal, appends (whole or torn), or asks for the sequence. Each holds the
      file lock throughout, so they come one after the other. */
  datatype Act =
    | Opens
    | Appends(writer: nat, records: seq<string>, kept: nat)
    | Looks(writer: nat)

  function Do(c: Codec, w: World, act: Act): World {
    match act
    case Opens => w.(caches := w.caches + [Cache(0, 0)])
    case Appends(writer, records, kept) =>
      if writer >= |w.caches| || records == [] then w
      else
        var (bytes, cache) := Append(c, w.bytes, w.caches[writer], records, kept);
        World(bytes, w.caches[writer := cache])
    case Looks(writer) =>
      if writer >= |w.caches| then w
      else w.(caches := w.caches[writer := CatchUp(c, w.bytes, w.caches[writer]).0])
  }

  function After(c: Codec, acts: seq<Act>): World {
    if acts == [] then World("", []) else Do(c, After(c, acts[..|acts| - 1]), acts[|acts| - 1])
  }

  /** No write was torn so that it lost just the end of a line. */
  ghost predicate FairAct(c: Codec, w: World, act: Act) {
    act.Appends? && act.writer < |w.caches| && act.records != [] ==>
      FairTear(c, w.bytes, w.caches[act.writer], act.records, act.kept)
  }

  ghost predicate FairAt(c: Codec, acts: seq<Act>, k: nat)
    requires k < |acts|
  {
    FairAct(c, After(c, acts[..k]), acts[k])
  }

  ghost predicate Fair(c: Codec, acts: seq<Act>) {
    forall k :: 0 <= k < |acts| ==> FairAt(c, acts, k)
  }

  lemma FairPrefix(c: Codec, acts: seq<Act>, k: nat)
    requires k < |acts| - 1
    ensures FairAt(c, acts, k) <==> FairAt(c, acts[..|acts| - 1], k)
  {
    assert acts[..|acts| - 1][k] == acts[k] && acts[..|acts| - 1][..k] == acts[..k];
  }

  lemma FairSnoc(c: Codec, acts: seq<Act>)
    requires acts != []
    ensures Fair(c, acts) <==> Fair(c, acts[..|acts| - 1]) && FairAt(c, acts, |acts| - 1)
  {
    var init := acts[..|acts| - 1];
    if Fair(c, acts) {
      forall k | 0 <= k < |init| ensures FairAt(c, init, k) {
        FairPrefix(c, acts, k);
      }
    }
    if Fair(c, init) && FairAt(c, acts, |acts| - 1) {
      forall k | 0 <= k < |acts| ensures FairAt(c, acts, k) {
        if k < |init| { FairPrefix(c, acts, k); }
      }
    }
  }

  ghost predicate WorldOk(c: Codec, w: World) {
    FileOk(c, w.bytes) && forall i :: 0 <= i < |w.caches| ==> CacheOk(c, w.bytes, w.caches[i])
  }

  lemma LookKeeps(c: Codec, bytes: string, cache: Cache)
    requires CodecOk(c) && FileOk(c, bytes) && CacheOk(c, bytes, cache)
    ensures CacheOk(c, bytes, CatchUp(c, bytes, cache).0)
  {
    CaughtUp(c, bytes, cache);
    EmptyIsNoRecord(c);
    RestIsTail(c, bytes);
    var caught := CatchUp(c, bytes, cache).0;
    assert |bytes[Whole(bytes)..]| == |bytes| - Whole(bytes);
    assert caught.scanned == Whole(bytes);
  }

  lemma DoKeeps(c: Codec, w: World, act: Act)
    requires CodecOk(c) && WorldOk(c, w) && FairAct(c, w, act)
    ensures WorldOk(c, Do(c, w, act)) && w.bytes <= Do(c, w, act).bytes
  {
    EmptyIsNoRecord(c);
    match act
    case Opens =>
      assert CacheOk(c, w.bytes, Cache(0, 0)) by { assert w.bytes[..0] == ""; }
    case Looks(writer) => if writer < |w.caches| { LookKeeps(c, w.bytes, w.caches[writer]); }
    case Appends(writer, records, kept) =>
      if writer < |w.caches| && records != [] {
        AppendKeeps(c, w.bytes, w.caches[writer], records, kept);
        var (bytes, cache) := Append(c, w.bytes, w.caches[writer], records, kept);
        var caches := w.caches[writer := cache];
        forall i | 0 <= i < |caches| ensures CacheOk(c, bytes, caches[i]) {
          if i != writer { CacheLasts(c, w.bytes, bytes, w.caches[i]); }
        }
      }
  }

  /** With any number of writers and fair tears, the k-th readable record carries sequence k and every
      writer's count is the number of readable records in the bytes it has scanned. */
  lemma {:induction false} JournalStaysRight(c: Codec, acts: seq<Act>)
    requires CodecOk(c) && Fair(c, acts)
    ensures WorldOk(c, After(c, acts))
  {
    if acts == [] {
      EmptyIsNoRecord(c);
    } else {
      var init := acts[..|acts| - 1];
      FairSnoc(c, acts);
      JournalStaysRight(c, init);
      DoKeeps(c, After(c, init), acts[|acts| - 1]);
    }
  }

  /** After a fair run, an append torn anywhere, and then a whole append by any writer, the numbering
      is right if and only if that tear was fair. */
  lemma {:induction false} NumberingIffFair(c: Codec, acts: seq<Act>, act: Act, writer: nat, more: seq<string>,
          kept: nat)
    requires CodecOk(c) && Fair(c, acts) && act.Appends? && act.writer < |After(c, acts).caches| && act.records != []
    requires writer < |After(c, acts).caches| && more != []
    requires var w := Do(c, After(c, acts), act); kept >= |Lines(c, Next(c, w.bytes, w.caches[writer]).1.count, more)|
    ensures var w := Do(c, After(c, acts), act);
      && InSequence(Entries(c, w.bytes)) && CacheOk(c, w.bytes, w.caches[writer])
      && (InSequence(Entries(c, Do(c, w, Appends(writer, more, kept)).bytes)) <==> FairAct(c, After(c, acts), act))
  {
    JournalStaysRight(c, acts);
    var before := After(c, acts);
    var w := Do(c, before, act);
    AnyTearKeepsCounts(c, before.bytes, before.caches[act.writer], act.records, act.kept);
    if writer != act.writer { CacheLasts(c, before.bytes, w.bytes, before.caches[writer]); }
    AppendKeepsIff(c, before.bytes, before.caches[act.writer], act.records, act.kept, w.caches[writer], more, kept);
  }

  /** No earlier byte is ever changed, whatever the tears. */
  lemma {:induction false} BytesAreOnlyAppended(c: Codec, acts: seq<Act>, k: nat)
    requires k <= |acts|
    ensures After(c, acts[..k]).bytes <= After(c, acts).bytes
    decreases |acts|
  {
    if k == |acts| {
      assert acts[..k] == acts;
    } else {
      var init := acts[..|acts| - 1];
      BytesAreOnlyAppended(c, init, k);
      assert init[..k] == acts[..k];
    }
  }

  // ----- the writer -----

  /** The bytes on disk, shared by all writers. */
  class SharedFile {
    var bytes: string

    constructor ()
      ensures bytes == ""
    {
      bytes := "";
    }
  }

  class JournalFile {
    const file: SharedFile
    const codec: Codec
    var scanned: nat
    var count: nat

    constructor (file: SharedFile, codec: Codec)
      ensures this.file == file && this.codec == codec && Known() == Cache(0, 0)
    {
      this.file, this.codec, scanned, count := file, codec, 0, 0;
    }

    ghost function Known(): Cache
      reads this
    {
      Cache(scanned, count)
    }

    method CatchUp() returns (torn: bool)
      modifies this
      ensures (Known(), torn) == Journal.CatchUp(codec, file.bytes, old(Known()))
      ensures file.bytes == old(file.bytes)
    {
      var size := |file.bytes|;
      if size < scanned { scanned, count := 0, 0; }
      if size == scanned {
        assert file.bytes[scanned..] == "";
        return false;
      }
      var data := file.bytes[scanned..];
      var whole := Whole(data);
      var n := CountRecords(data[..whole]);
      count := count + n;
      scanned := scanned + whole;
      torn := whole < |data|;
    }

    method CountRecords(data: string) returns (n: nat)
      ensures n == |Read(codec, data).entries|
    {
      var line := "";
      n := 0;
      for i := 0 to |data|
        invariant Read(codec, data[..i]).rest == line && n == |Read(codec, data[..i]).entries|
      {
        assert data[..i + 1][..i] == data[..i];
        if data[i] == NEWLINE {
          if codec.parse(line).Some? { n := n + 1; }
          line := "";
        } else {
          line := line + [data[i]];
        }
      }
      assert data[..|data|] == data;
    }

    method Sequence() returns (n: nat)
      modifies this
      ensures Known() == Journal.CatchUp(codec, file.bytes, old(Known())).0 && n == count
      ensures file.bytes == old(file.bytes)
    {
      var torn := CatchUp();
      n := count;
    }

    method Next() returns (first: nat)
      modifies this, file
      ensures (file.bytes, Known()) == Journal.Next(codec, old(file.bytes), old(Known())) && first == count
    {
      var torn := CatchUp();
      if torn {
        file.bytes := file.bytes + [NEWLINE];
        scanned := |file.bytes|;
      }
      first := count;
    }

    /** `kept` bytes reach the disk; false stands for the exception of a torn write. */
    method Write(first: nat, records: seq<string>, kept: nat) returns (written: bool)
      modifies this, file
      ensures var data := Lines(codec, first, records);
        && written == (kept >= |data|)
        && file.bytes == old(file.bytes) + (if written then data else data[..kept])
        && Known() == if written then Cache(old(scanned) + |data|, old(count) + |records|) else old(Known())
    {
      var data := Lines(codec, first, records);
      if kept < |data| {
        file.bytes := file.bytes + data[..kept];
        return false;
      }
      file.bytes := file.bytes + data;
      scanned := scanned + |data|;
      count := count + |records|;
      written := true;
    }

    /** `append_many`; the numbers handed out are `first`, `first + 1` and so on. */
    method AppendMany(records: seq<string>, kept: nat) returns (first: nat, written: bool)
      modifies this, file
      ensures (file.bytes, Known()) ==
        if records == [] then (old(file.bytes), old(Known()))
        else Journal.Append(codec, old(file.bytes), old(Known()), records, kept)
      ensures records != [] ==> first == Journal.Next(codec, old(file.bytes), old(Known())).1.count
    {
      if records == [] { return 0, true; }
      first := Next();
      written := Write(first, records, kept);
    }

    method Append(record: string, kept: nat) returns (seqNo: nat, written: bool)
      modifies this, file
      ensures (file.bytes, Known()) == Journal.Append(codec, old(file.bytes), old(Known()), [record], kept)
      ensures seqNo == Journal.Next(codec, old(file.bytes), old(Known())).1.count
    {
      seqNo := Next();
      written := Write(seqNo, [record], kept);
    }
  }
}
