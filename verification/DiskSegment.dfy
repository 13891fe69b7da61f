/** The append-only overflow segment of one chat, down to its bytes: a big-endian 32-bit
    length before every body, a write buffer that is flushed before reads, and a skip
    cursor instead of rewriting the file. */
module DiskSegments {
  import opened Frames

  const MAX_RECORD_BYTES: nat := 64 * 1024 * 1024
  const U32_LIMIT: nat := 0x1_0000_0000

  // ---------------------------------------------------------------------------
  // Record format
  // ---------------------------------------------------------------------------

  function ToBe32(n: nat): seq<Byte>
    requires n < U32_LIMIT
  {
    var a := n / 0x100;
    var b := a / 0x100;
    var c := b / 0x100;
    assert c < 0x100;
    [c, b % 0x100, a % 0x100, n % 0x100]
  }

  function FromBe32(b: seq<Byte>): nat
    requires |b| == 4
  {
    (b[0] as nat) * 0x100_0000 + (b[1] as nat) * 0x1_0000 + (b[2] as nat) * 0x100 + b[3] as nat
  }

  lemma {:induction false} Be32RoundTrip(n: nat)
    requires n < U32_LIMIT
    ensures FromBe32(ToBe32(n)) == n
  {
  }

  /** The bytes of the prefix, the most significant first. */
  lemma {:induction false} Be32Bytes(n: nat)
    requires n < U32_LIMIT
    ensures var b := ToBe32(n);
      b[0] as int == n / 0x100_0000 && b[1] as int == n / 0x1_0000 % 0x100
      && b[2] as int == n / 0x100 % 0x100 && b[3] as int == n % 0x100
  {
  }

  ghost predicate Storable(body: seq<Byte>) {
    |body| < U32_LIMIT
  }

  function Record(body: seq<Byte>): (r: seq<Byte>)
    requires Storable(body)
    ensures |r| == 4 + |body|
  {
    ToBe32(|body|) + body
  }

  function Encode(bodies: seq<seq<Byte>>): seq<Byte>
    requires forall i :: 0 <= i < |bodies| ==> Storable(bodies[i])
  {
    if bodies == [] then [] else Record(bodies[0]) + Encode(bodies[1..])
  }

  /** What a read at `at` makes of the file: the length first, then the body. */
  function ReadRecord(file: seq<Byte>, at: nat): Option<seq<Byte>> {
    if at + 4 > |file| then None
    else
      var len := FromBe32(file[at..at + 4]);
      if len > MAX_RECORD_BYTES || at + 4 + len > |file| then None
      else Some(file[at + 4..at + 4 + len])
  }

  lemma {:induction false} EncodeSplit(bodies: seq<seq<Byte>>, k: nat)
    requires forall i :: 0 <= i < |bodies| ==> Storable(bodies[i])
    requires k <= |bodies|
    ensures Encode(bodies) == Encode(bodies[..k]) + Encode(bodies[k..])
  {
    if k > 0 {
      EncodeSplit(bodies[1..], k - 1);
      assert bodies[..k][1..] == bodies[1..][..k - 1];
      assert bodies[k..] == bodies[1..][k - 1..];
    } else {
      assert bodies[..0] == [] && bodies[0..] == bodies;
    }
  }

  lemma EncodeOne(b: seq<Byte>)
    requires Storable(b)
    ensures Encode([b]) == Record(b)
  {
    assert [b][1..] == [];
    assert Record(b) + [] == Record(b);
  }

  lemma EncodeSnoc(bodies: seq<seq<Byte>>, b: seq<Byte>)
    requires forall i :: 0 <= i < |bodies| ==> Storable(bodies[i])
    requires Storable(b)
    ensures Encode(bodies + [b]) == Encode(bodies) + Record(b)
  {
    EncodeSplit(bodies + [b], |bodies|);
    assert (bodies + [b])[..|bodies|] == bodies;
    assert (bodies + [b])[|bodies|..] == [b];
    EncodeOne(b);
  }

  /** Reading where record k starts gives body k back, whatever follows it, up to the size
      limit the reader enforces. */
  lemma {:induction false} ReadsBack(file: seq<Byte>, bodies: seq<seq<Byte>>, k: nat)
    requires forall i :: 0 <= i < |bodies| ==> Storable(bodies[i])
    requires k < |bodies| && Encode(bodies) <= file
    ensures ReadRecord(file, |Encode(bodies[..k])|)
         == if |bodies[k]| <= MAX_RECORD_BYTES then Some(bodies[k]) else None
    ensures |Encode(bodies[..k + 1])| == |Encode(bodies[..k])| + 4 + |bodies[k]|
  {
    var b := bodies[k];
    EncodeSplit(bodies, k + 1);
    assert bodies[..k + 1] == bodies[..k] + [b];
    EncodeSnoc(bodies[..k], b);
    Be32RoundTrip(|b|);
    ReadsRecord(file, Encode(bodies[..k]), b, Encode(bodies[k + 1..]));
  }

  lemma ReadsRecord(file: seq<Byte>, before: seq<Byte>, b: seq<Byte>, after: seq<Byte>)
    requires Storable(b) && before + Record(b) + after <= file
    requires FromBe32(ToBe32(|b|)) == |b|
    ensures ReadRecord(file, |before|) == if |b| <= MAX_RECORD_BYTES then Some(b) else None
  {
    var at, p := |before|, before + Record(b) + after;
    assert p[at..at + 4] == ToBe32(|b|);
    assert p[at + 4..at + 4 + |b|] == b;
    assert file[at..at + 4] == p[at..at + 4];
    assert file[at + 4..at + 4 + |b|] == p[at + 4..at + 4 + |b|];
  }

  // ---------------------------------------------------------------------------
  // The segment
  // ---------------------------------------------------------------------------

  /** Outcome of one buffered write: on failure `cut` bytes of the data had been taken;
      either way `spill` bytes of the write buffer have reached the file. */
  datatype WriteIo = WriteIo(ok: bool, cut: nat, spill: nat)

  /** Outcomes of the calls one read may make; a failed flush has moved `moved` bytes. */
  datatype ReadIo = ReadIo(flushOk: bool, moved: nat, openOk: bool, seekOk: bool, headOk: bool, bodyOk: bool) {
    /** Every call the read makes works: a flush if the writer is dirty, an open if there is no
        reader yet, a seek and two reads. */
    predicate Works(dirty: bool, readerOpen: bool) {
      (dirty ==> flushOk) && (readerOpen || openOk) && seekOk && headOk && bodyOk
    }
  }

  datatype Read = Failed | Empty | Got(body: seq<Byte>, len: nat)

  class DiskSegment {
    var file: seq<Byte>
    var wbuf: seq<Byte>
    var records: nat
    var skipRecords: nat
    var skipBytes: nat
    var dirty: bool
    var readerOpen: bool
    /** Every body appended so far, and whether a write has stopped in mid-record. */
    ghost var bodies: seq<seq<Byte>>
    ghost var torn: bool

    ghost predicate Valid()
      reads this
    {
      && (forall i :: 0 <= i < |bodies| ==> Storable(bodies[i]))
      && records == |bodies| && skipRecords <= records
      && skipBytes == |Encode(bodies[..skipRecords])|
      && Encode(bodies) <= file + wbuf
      && (!torn ==> file + wbuf == Encode(bodies))
      && (!dirty ==> Encode(bodies) <= file)
    }

    /** The queue the segment stands for. */
    ghost function Live(): seq<seq<Byte>>
      reads this
      requires Valid()
    {
      bodies[skipRecords..]
    }

    /** Opens the chat's file for appending; `existing` is what it already holds. */
    constructor (existing: seq<Byte>)
      ensures file == existing && wbuf == [] && records == 0 && skipBytes == 0
      ensures existing == [] ==> Valid() && Live() == [] && !torn
    {
      file, wbuf, records, skipRecords, skipBytes := existing, [], 0, 0, 0;
      dirty, readerOpen := false, false;
      bodies, torn := [], existing != [];
    }

    method WriteAll(data: seq<Byte>, io: WriteIo) returns (ok: bool)
      modifies `file, `wbuf
      ensures ok == io.ok && old(file) <= file
      ensures file + wbuf == old(file + wbuf) + if ok then data else data[..if io.cut < |data| then io.cut else |data|]
    {
      ok := io.ok;
      var taken := if io.ok then data else data[..if io.cut < |data| then io.cut else |data|];
      wbuf := wbuf + taken;
      Spill(io.spill);
    }

    /** Some buffered bytes reach the file. */
    method Spill(n: nat)
      modifies `file, `wbuf
      ensures file + wbuf == old(file + wbuf) && old(file) <= file
    {
      var k := if n < |wbuf| then n else |wbuf|;
      assert wbuf == wbuf[..k] + wbuf[k..];
      file, wbuf := file + wbuf[..k], wbuf[k..];
    }

    /** Appends one record. The caller never appends again after a failure. */
    method Append(bytes: seq<Byte>, head: WriteIo, body: WriteIo) returns (ok: bool)
      requires Valid() && !torn
      modifies this
      ensures Valid() && skipRecords == old(skipRecords)
      ensures ok <==> |bytes| < U32_LIMIT && head.ok && body.ok
      ensures bodies == if ok then old(bodies) + [bytes] else old(bodies)
      ensures Live() == if ok then old(Live()) + [bytes] else old(Live())
      ensures ok || |bytes| >= U32_LIMIT ==> !torn
    {
      if |bytes| >= U32_LIMIT {
        return false;
      }
      assert bodies[..skipRecords] == (bodies + [bytes])[..skipRecords];
      ok := WriteAll(ToBe32(|bytes|), head);
      if !ok {
        torn := true;
        return;
      }
      ok := WriteAll(bytes, body);
      if !ok {
        torn := true;
        return;
      }
      EncodeSnoc(bodies, bytes);
      dirty := true;
      records := records + 1;
      bodies := bodies + [bytes];
    }

    method FlushWriter(io: ReadIo) returns (ok: bool)
      requires Valid()
      modifies `file, `wbuf, `dirty
      ensures Valid()
      ensures ok <==> old(dirty) ==> io.flushOk
      ensures ok ==> Encode(bodies) <= file
    {
      if dirty {
        if !io.flushOk {
          Spill(io.moved);
          return false;
        }
        file, wbuf := file + wbuf, [];
        dirty := false;
      }
      ok := true;
    }

    method EnsureReader(io: ReadIo) returns (ok: bool)
      requires Valid()
      modifies `file, `wbuf, `dirty, `readerOpen
      ensures Valid()
      ensures ok <==> (old(dirty) ==> io.flushOk) && (old(readerOpen) || io.openOk) && io.seekOk
      ensures ok ==> Encode(bodies) <= file
    {
      ok := FlushWriter(io);
      if ok && !readerOpen {
        readerOpen := io.openOk;
        ok := io.openOk;
      }
      ok := ok && io.seekOk;
    }

    /** Reads the oldest live record without consuming it. */
    method PeekOne(io: ReadIo) returns (r: Read)
      requires Valid()
      modifies `file, `wbuf, `dirty, `readerOpen
      ensures Valid()
      ensures r.Empty? <==> Live() == []
      ensures r.Got? ==> Live() != [] && r.body == Live()[0] && r.len == 4 + |r.body|
      ensures r.Got? <==> Live() != [] && |Live()[0]| <= MAX_RECORD_BYTES && io.Works(old(dirty), old(readerOpen))
    {
      if skipRecords >= records {
        return Empty;
      }
      var ready := EnsureReader(io);
      if !ready || !io.headOk {
        return Failed;
      }
      ReadsBack(file, bodies, skipRecords);
      if skipBytes + 4 > |file| {
        return Failed;
      }
      var len := FromBe32(file[skipBytes..skipBytes + 4]);
      if len > MAX_RECORD_BYTES {
        return Failed;
      }
      if skipBytes + 4 + len > |file| || !io.bodyOk {
        return Failed;
      }
      r := Got(file[skipBytes + 4..skipBytes + 4 + len], 4 + len);
    }

    /** Reads the oldest live record and moves the skip cursor past it. */
    method ConsumeOne(io: ReadIo) returns (r: Read)
      requires Valid()
      modifies `file, `wbuf, `dirty, `readerOpen, `skipRecords, `skipBytes
      ensures Valid()
      ensures r.Empty? <==> old(Live()) == []
      ensures r.Got? ==> old(Live()) == [r.body] + Live() && r.len == |r.body|
      ensures !r.Got? ==> Live() == old(Live())
      ensures r.Got? <==>
        old(Live()) != [] && |old(Live())[0]| <= MAX_RECORD_BYTES && io.Works(old(dirty), old(readerOpen))
    {
      r := PeekOne(io);
      if r.Got? {
        ReadsBack(file + wbuf, bodies, skipRecords);
        skipRecords := skipRecords + 1;
        skipBytes := skipBytes + r.len;
        r := Got(r.body, if r.len >= 4 then r.len - 4 else 0);
      }
    }
  }

  // ---------------------------------------------------------------------------
  // A file that was not empty when it was opened
  // ---------------------------------------------------------------------------

  /** The segment starts reading at offset 0 whatever the file held. It reads its first
      record back, for every record, exactly if the file was empty. */
  lemma {:induction false} StaleFileMisreads(existing: seq<Byte>)
    ensures existing == [] <==>
      forall b: seq<Byte> :: |b| <= MAX_RECORD_BYTES ==> ReadRecord(existing + Record(b), 0) == Some(b)
  {
    if existing == [] {
      forall b: seq<Byte> | |b| <= MAX_RECORD_BYTES ensures ReadRecord(existing + Record(b), 0) == Some(b) {
        Be32RoundTrip(|b|);
        ReadsRecord(existing + Record(b), [], b, []);
      }
    } else {
      var b := Misread(existing);
    }
  }

  lemma Misread(existing: seq<Byte>) returns (b: seq<Byte>)
    requires existing != []
    ensures |b| == 1 && ReadRecord(existing + Record(b), 0) != Some(b)
  {
    var x := if |existing| >= 5 && existing[4] == 1 then 2 else 1;
    ReadsOther(existing, x);
    b := [x];
  }

  /** Reading a one-byte record behind stale bytes succeeds only if the stale bytes begin with
      that very record. */
  lemma ReadsOther(existing: seq<Byte>, x: Byte)
    requires existing != [] && x != 0
    ensures ReadRecord(existing + Record([x]), 0) == Some([x]) ==>
      |existing| >= 5 && existing[4] == x
  {
    var f := existing + Record([x]);
    assert Record([x]) == [0, 0, 0, 1, x];
    if ReadRecord(f, 0) == Some([x]) {
      assert f[4..5] == [x] && f[4] == x;
      assert f[0..4] == [f[0], f[1], f[2], f[3]];
      assert f[0] == 0 && f[1] == 0 && f[2] == 0 && f[3] == 1;
    }
  }
}
