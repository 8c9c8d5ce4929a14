/** The hash-chained audit log of src/autosiem/storage.py: appending against verifying. */
module Audit {
  import opened Common

  /** A hash, and a keyed seal of a hash, left abstract. */
  datatype Hasher = Hasher(hash: string -> string, seal: (string, string) -> string)

  /** A row; rows written before the chain existed have no hash. */
  datatype Row = Row(
    prevHash: Option<string>,
    timestamp: string,
    actor: string,
    action: string,
    target: Option<string>,
    details: string,
    hash: Option<string>,
    mac: Option<string>)

  datatype Reason = PrevHashMismatch | HashMismatch | MacMismatch | UnsignedAfterSigned

  datatype Mismatch = Mismatch(row: nat, reason: Reason)

  const BAR: char := '|'

  ghost predicate NoBar(s: string) {
    forall i :: 0 <= i < |s| ==> s[i] != BAR
  }

  /** Hexadecimal digests and seals are not empty and contain no bar. */
  ghost predicate HasherOk(h: Hasher) {
    && (forall s :: h.hash(s) != "" && NoBar(h.hash(s)))
    && forall k, s :: h.seal(k, s) != ""
  }

  /** Collision-free. */
  ghost predicate Injective(h: Hasher) {
    forall s, t :: h.hash(s) == h.hash(t) ==> s == t
  }

  /** `value or ""` */
  function OrEmpty(s: Option<string>): string {
    if s.Some? then s.value else ""
  }

  predicate Truthy(s: Option<string>) {
    OrEmpty(s) != ""
  }

  function Body(row: Row): string {
    row.timestamp + [BAR] + row.actor + [BAR] + row.action + [BAR] + OrEmpty(row.target) + [BAR] + row.details
  }

  function Payload(row: Row): string {
    OrEmpty(row.prevHash) + [BAR] + Body(row)
  }

  // ----- appending -----

  function LastHash(rows: seq<Row>): string {
    if rows == [] then "" else OrEmpty(rows[|rows| - 1].hash)
  }

  /** What a caller records. */
  datatype Call = Call(timestamp: string, actor: string, action: string, target: Option<string>, details: string)

  function NewRow(h: Hasher, rows: seq<Row>, call: Call, key: Option<string>): Row {
    var open := Row(Some(LastHash(rows)), call.timestamp, call.actor, call.action, call.target, call.details, None,
      None);
    var digest := h.hash(Payload(open));
    open.(hash := Some(digest), mac := if key.Some? then Some(h.seal(key.value, digest)) else None)
  }

  // ----- verifying -----

  datatype Progress = Progress(mismatches: seq<Mismatch>, previousHash: string, seenSealed: bool)

  function ChainFaults(h: Hasher, row: Row, id: nat, previousHash: string): seq<Mismatch> {
    (if row.prevHash.Some? && row.prevHash.value != previousHash then [Mismatch(id, PrevHashMismatch)] else [])
    + (if Truthy(row.hash) && h.hash(Payload(row)) != row.hash.value then [Mismatch(id, HashMismatch)] else [])
  }

  function SealFaults(h: Hasher, row: Row, id: nat, seenSealed: bool, key: Option<string>): seq<Mismatch> {
    if key.None? then []
    else if Truthy(row.mac) then
      (if h.seal(key.value, OrEmpty(row.hash)) != row.mac.value then [Mismatch(id, MacMismatch)] else [])
    else if seenSealed then [Mismatch(id, UnsignedAfterSigned)]
    else []
  }

  function Check(h: Hasher, p: Progress, row: Row, id: nat, key: Option<string>): Progress {
    Progress(
      p.mismatches + ChainFaults(h, row, id, p.previousHash) + SealFaults(h, row, id, p.seenSealed, key),
      if Truthy(row.hash) then row.hash.value else p.previousHash,
      p.seenSealed || (key.Some? && Truthy(row.mac)))
  }

  function Checked(h: Hasher, rows: seq<Row>, key: Option<string>): Progress {
    if rows == [] then Progress([], "", false)
    else Check(h, Checked(h, rows[..|rows| - 1], key), rows[|rows| - 1], |rows| - 1, key)
  }

  function Verify(h: Hasher, rows: seq<Row>, key: Option<string>): seq<Mismatch> {
    Checked(h, rows, key).mismatches
  }

  lemma {:induction false} CheckedSnoc(h: Hasher, rows: seq<Row>, row: Row, key: Option<string>)
    ensures Checked(h, rows + [row], key) == Check(h, Checked(h, rows, key), row, |rows|, key)
  {
    assert (rows + [row])[..|rows|] == rows;
  }

  // ----- a log built by audit calls verifies -----

  /** Written before rows were chained. */
  predicate Legacy(row: Row) {
    !Truthy(row.hash) && !Truthy(row.prevHash) && !Truthy(row.mac)
  }

  ghost predicate AllLegacy(rows: seq<Row>) {
    forall k :: 0 <= k < |rows| ==> Legacy(rows[k])
  }

  /** Legacy rows, then one row for each call; `keys[k]` is the key in force at call `k`. */
  function Built(h: Hasher, legacy: seq<Row>, calls: seq<Call>, keys: seq<Option<string>>): seq<Row>
    requires |keys| == |calls|
  {
    if calls == [] then legacy
    else
      var rows := Built(h, legacy, calls[..|calls| - 1], keys[..|keys| - 1]);
      rows + [NewRow(h, rows, calls[|calls| - 1], keys[|keys| - 1])]
  }

  /** A key is set once and then kept. */
  ghost predicate SetOnce(keys: seq<Option<string>>, key: string) {
    && (forall k :: 0 <= k < |keys| ==> keys[k] == None || keys[k] == Some(key))
    && forall j, k :: 0 <= j < k < |keys| && keys[j].Some? ==> keys[k].Some?
  }

  lemma {:induction false} LegacyVerifies(h: Hasher, legacy: seq<Row>, key: Option<string>)
    requires AllLegacy(legacy)
    ensures Checked(h, legacy, key) == Progress([], "", false)
  {
    if legacy != [] {
      var init := legacy[..|legacy| - 1];
      assert forall k :: 0 <= k < |init| ==> init[k] == legacy[k];
      LegacyVerifies(h, init, key);
      assert Legacy(legacy[|legacy| - 1]);
    }
  }

  ghost predicate SomeKey(keys: seq<Option<string>>) {
    exists k :: 0 <= k < |keys| && keys[k].Some?
  }

  lemma {:induction false} NewRowPasses(h: Hasher, rows: seq<Row>, call: Call, used: Option<string>,
          key: Option<string>, sealed: bool)
    requires HasherOk(h) && Checked(h, rows, key) == Progress([], LastHash(rows), sealed)
    requires key.Some? && used.Some? ==> used == key
    requires key.Some? && used.None? ==> !sealed
    requires key.None? ==> !sealed
    ensures var row := NewRow(h, rows, call, used);
      Checked(h, rows + [row], key) == Progress([], LastHash(rows + [row]), sealed || (key.Some? && used.Some?))
  {
    var row := NewRow(h, rows, call, used);
    CheckedSnoc(h, rows, row, key);
    assert row.hash == Some(h.hash(Payload(row)));
  }

  lemma KeysPrefix(keys: seq<Option<string>>, key: Option<string>)
    requires keys != [] && (key.Some? ==> SetOnce(keys, key.value))
    ensures key.Some? ==> SetOnce(keys[..|keys| - 1], key.value)
  {
    assert forall k :: 0 <= k < |keys| - 1 ==> keys[..|keys| - 1][k] == keys[k];
  }

  /** A log built by audit calls, with a legacy prefix and a key set once and then kept, verifies with
      no mismatch, whether or not the verifier has the key. */
  lemma {:induction false} BuiltVerifies(h: Hasher, legacy: seq<Row>, calls: seq<Call>, keys: seq<Option<string>>,
          key: Option<string>)
    requires HasherOk(h) && AllLegacy(legacy) && |keys| == |calls|
    requires key.Some? ==> SetOnce(keys, key.value)
    ensures Checked(h, Built(h, legacy, calls, keys), key) ==
      Progress([], LastHash(Built(h, legacy, calls, keys)), key.Some? && SomeKey(keys))
    ensures Verify(h, Built(h, legacy, calls, keys), key) == []
  {
    if calls == [] {
      LegacyVerifies(h, legacy, key);
      if legacy != [] { assert Legacy(legacy[|legacy| - 1]); }
    } else {
      var n := |calls| - 1;
      KeysPrefix(keys, key);
      BuiltVerifies(h, legacy, calls[..n], keys[..n], key);
      KeysSoFar(keys, key);
      NewRowPasses(h, Built(h, legacy, calls[..n], keys[..n]), calls[n], keys[n], key, key.Some? && SomeKey(keys[..n]));
    }
  }

  lemma KeysSoFar(keys: seq<Option<string>>, key: Option<string>)
    requires keys != [] && (key.Some? ==> SetOnce(keys, key.value))
    ensures var n := |keys| - 1;
      && (SomeKey(keys) <==> SomeKey(keys[..n]) || keys[n].Some?)
      && (key.Some? && keys[n].None? ==> !SomeKey(keys[..n]))
  {
    var n := |keys| - 1;
    if SomeKey(keys[..n]) {
      var k :| 0 <= k < n && keys[..n][k].Some?;
      assert keys[k].Some?;
    }
    if SomeKey(keys) {
      var k :| 0 <= k < |keys| && keys[k].Some?;
      if k < n { assert keys[..n][k].Some?; }
    }
  }

  // ----- what a log that verifies commits to -----

  /** Every row is hashed and names its predecessor. */
  ghost predicate FullyHashed(rows: seq<Row>) {
    forall k :: 0 <= k < |rows| ==> Truthy(rows[k].hash) && rows[k].prevHash.Some?
  }

  function Payloads(rows: seq<Row>): (r: seq<string>)
    ensures |r| == |rows| && forall k :: 0 <= k < |r| ==> r[k] == Payload(rows[k])
  {
    seq(|rows|, k requires 0 <= k < |rows| => Payload(rows[k]))
  }

  /** In a fully hashed log that verifies, each row names its predecessor's hash and hashes itself. */
  lemma {:induction false} LastLinks(h: Hasher, rows: seq<Row>, key: Option<string>)
    requires FullyHashed(rows) && rows != [] && Verify(h, rows, key) == []
    ensures var init, last := rows[..|rows| - 1], rows[|rows| - 1];
      && Verify(h, init, key) == [] && FullyHashed(init)
      && last.prevHash == Some(Checked(h, init, key).previousHash) && h.hash(Payload(last)) == last.hash.value
  {
    var init, last := rows[..|rows| - 1], rows[|rows| - 1];
    assert forall k :: 0 <= k < |init| ==> init[k] == rows[k];
    var p := Checked(h, init, key);
    assert Verify(h, rows, key) ==
      p.mismatches + ChainFaults(h, last, |rows| - 1, p.previousHash)
        + SealFaults(h, last, |rows| - 1, p.seenSealed, key);
    assert ChainFaults(h, last, |rows| - 1, p.previousHash) == [];
  }

  lemma {:induction false} PreviousIsLast(h: Hasher, rows: seq<Row>, key: Option<string>)
    requires FullyHashed(rows)
    ensures Checked(h, rows, key).previousHash == LastHash(rows)
  {
    if rows != [] { assert Truthy(rows[|rows| - 1].hash); }
  }

  /** A payload begins with the previous hash, up to its first bar. */
  lemma PayloadParts(p: string, a: string, q: string, b: string)
    requires NoBar(p) && NoBar(q) && p + [BAR] + a == q + [BAR] + b
    ensures p == q && a == b
  {
    var s, t := p + [BAR] + a, q + [BAR] + b;
    assert s[|p|] == BAR && t[|q|] == BAR;
    assert forall i :: 0 <= i < |p| ==> s[i] == p[i];
    assert forall i :: 0 <= i < |q| ==> t[i] == q[i];
    assert |p| == |q|;
    assert s[..|p|] == p && t[..|q|] == q;
    assert s[|p| + 1..] == a && t[|q| + 1..] == b;
  }

  lemma HashesHaveNoBar(h: Hasher, rows: seq<Row>, key: Option<string>)
    requires HasherOk(h) && FullyHashed(rows) && Verify(h, rows, key) == []
    ensures NoBar(LastHash(rows)) && (rows != [] ==> LastHash(rows) != "")
  {
    if rows != [] { LastLinks(h, rows, key); }
  }

  lemma LastPayloadsAgree(h: Hasher, one: seq<Row>, two: seq<Row>, key: Option<string>, other: Option<string>)
    requires HasherOk(h) && Injective(h) && FullyHashed(one) && FullyHashed(two) && one != [] && two != []
    requires Verify(h, one, key) == [] && Verify(h, two, other) == [] && LastHash(one) == LastHash(two)
    ensures Payload(one[|one| - 1]) == Payload(two[|two| - 1])
    ensures LastHash(one[..|one| - 1]) == LastHash(two[..|two| - 1])
  {
    var m, n := |one| - 1, |two| - 1;
    LastLinks(h, one, key);
    LastLinks(h, two, other);
    PreviousIsLast(h, one[..m], key);
    PreviousIsLast(h, two[..n], other);
    HashesHaveNoBar(h, one[..m], key);
    HashesHaveNoBar(h, two[..n], other);
    PayloadParts(LastHash(one[..m]), Body(one[m]), LastHash(two[..n]), Body(two[n]));
  }

  lemma PayloadsSnoc(rows: seq<Row>)
    requires rows != []
    ensures Payloads(rows) == Payloads(rows[..|rows| - 1]) + [Payload(rows[|rows| - 1])]
  {
  }

  /** With a collision-free hash, two fully hashed logs that both verify and end in the same hash have
      the same payloads, row by row. */
  lemma {:induction false} SameEndSameHistory(h: Hasher, one: seq<Row>, two: seq<Row>, key: Option<string>,
          other: Option<string>)
    requires HasherOk(h) && Injective(h) && FullyHashed(one) && FullyHashed(two)
    requires Verify(h, one, key) == [] && Verify(h, two, other) == [] && LastHash(one) == LastHash(two)
    ensures Payloads(one) == Payloads(two)
    decreases |one|
  {
    HashesHaveNoBar(h, one, key);
    HashesHaveNoBar(h, two, other);
    if one != [] && two != [] {
      LastPayloadsAgree(h, one, two, key, other);
      LastLinks(h, one, key);
      LastLinks(h, two, other);
      SameEndSameHistory(h, one[..|one| - 1], two[..|two| - 1], key, other);
      PayloadsSnoc(one);
      PayloadsSnoc(two);
    }
  }

  // ----- the log -----

  class AuditLog {
    const hasher: Hasher
    var rows: seq<Row>

    constructor (hasher: Hasher, legacy: seq<Row>)
      ensures this.hasher == hasher && rows == legacy
    {
      this.hasher, rows := hasher, legacy;
    }

    method Audit(call: Call, key: Option<string>)
      modifies this
      ensures rows == old(rows) + [NewRow(hasher, old(rows), call, key)]
    {
      var prevHash := "";
      if |rows| > 0 && Truthy(rows[|rows| - 1].hash) {
        prevHash := rows[|rows| - 1].hash.value;
      }
      var row := Row(Some(prevHash), call.timestamp, call.actor, call.action, call.target, call.details, None, None);
      var digest := hasher.hash(Payload(row));
      var mac: Option<string> := None;
      if key.Some? { mac := Some(hasher.seal(key.value, digest)); }
      rows := rows + [row.(hash := Some(digest), mac := mac)];
    }

    method CheckRow(p: Progress, id: nat, key: Option<string>) returns (next: Progress)
      requires id < |rows|
      ensures next == Check(hasher, p, rows[id], id, key)
    {
      var row, mismatches, seenSealed := rows[id], p.mismatches, p.seenSealed;
      if row.prevHash.Some? && row.prevHash.value != p.previousHash {
        mismatches := mismatches + [Mismatch(id, PrevHashMismatch)];
      }
      if Truthy(row.hash) && hasher.hash(Payload(row)) != row.hash.value {
        mismatches := mismatches + [Mismatch(id, HashMismatch)];
      }
      assert mismatches == p.mismatches + ChainFaults(hasher, row, id, p.previousHash);
      if key.Some? {
        if Truthy(row.mac) {
          seenSealed := true;
          if hasher.seal(key.value, OrEmpty(row.hash)) != row.mac.value {
            mismatches := mismatches + [Mismatch(id, MacMismatch)];
          }
        } else if seenSealed {
          mismatches := mismatches + [Mismatch(id, UnsignedAfterSigned)];
        }
      }
      next := Progress(mismatches, if Truthy(row.hash) then row.hash.value else p.previousHash, seenSealed);
    }

    method VerifyAuditChain(key: Option<string>) returns (mismatches: seq<Mismatch>)
      ensures mismatches == Verify(hasher, rows, key)
    {
      var p := Progress([], "", false);
      for id := 0 to |rows|
        invariant p == Checked(hasher, rows[..id], key)
      {
        assert rows[..id + 1] == rows[..id] + [rows[id]];
        CheckedSnoc(hasher, rows[..id], rows[id], key);
        p := CheckRow(p, id, key);
      }
      assert rows[..|rows|] == rows;
      mismatches := p.mismatches;
    }
  }
}
