/** Byte ranges of an incremental blob: what a read or a write means, as functions of the bytes. */
module BlobSpec {
  import opened Common

  /** The bytes of the asked range that exist. */
  function Range(bytes: seq<Byte>, offset: nat, length: nat): seq<Byte> {
    if offset >= |bytes| then [] else bytes[offset..Min(|bytes|, offset + length)]
  }

  datatype Put = Put(offset: nat, data: seq<Byte>)

  predicate Fits(size: nat, put: Put) {
    put.offset + |put.data| <= size
  }

  /** A write past the end changes nothing; the length never changes. */
  function Written(bytes: seq<Byte>, put: Put): (after: seq<Byte>)
    ensures |after| == |bytes|
  {
    if Fits(|bytes|, put)
    then bytes[..put.offset] + put.data + bytes[put.offset + |put.data|..]
    else bytes
  }

  function AllWritten(bytes: seq<Byte>, puts: seq<Put>): (after: seq<Byte>)
    ensures |after| == |bytes|
  {
    if puts == [] then bytes else Written(AllWritten(bytes, puts[..|puts| - 1]), puts[|puts| - 1])
  }

  predicate Covers(size: nat, put: Put, i: nat) {
    Fits(size, put) && put.offset <= i < put.offset + |put.data|
  }

  ghost predicate LastOver(size: nat, puts: seq<Put>, i: nat, k: nat)
    requires k < |puts|
  {
    Covers(size, puts[k], i) && forall m :: k < m < |puts| ==> !Covers(size, puts[m], i)
  }

  lemma {:induction false} Untouched(bytes: seq<Byte>, puts: seq<Put>, i: nat)
    requires i < |bytes| && forall k :: 0 <= k < |puts| ==> !Covers(|bytes|, puts[k], i)
    ensures AllWritten(bytes, puts)[i] == bytes[i]
  {
    if puts != [] {
      var before := puts[..|puts| - 1];
      Untouched(bytes, before, i);
      WrittenAt(AllWritten(bytes, before), puts[|puts| - 1], i);
    }
  }

  lemma {:induction false} LastWriter(bytes: seq<Byte>, puts: seq<Put>, i: nat, k: nat)
    requires i < |bytes| && k < |puts| && LastOver(|bytes|, puts, i, k)
    ensures AllWritten(bytes, puts)[i] == puts[k].data[i - puts[k].offset]
  {
    var before, last := puts[..|puts| - 1], puts[|puts| - 1];
    WrittenAt(AllWritten(bytes, before), last, i);
    if k < |before| { LastWriter(bytes, before, i, k); }
  }

  /** Every byte after any writes: the one the last accepted write over it put there, or else the original. */
  lemma LastWriterWins(bytes: seq<Byte>, puts: seq<Put>, i: nat)
    requires i < |bytes|
    ensures (forall k :: 0 <= k < |puts| ==> !Covers(|bytes|, puts[k], i)) ==> AllWritten(bytes, puts)[i] == bytes[i]
    ensures forall k :: 0 <= k < |puts| && LastOver(|bytes|, puts, i, k) ==>
                          AllWritten(bytes, puts)[i] == puts[k].data[i - puts[k].offset]
  {
    if forall k :: 0 <= k < |puts| ==> !Covers(|bytes|, puts[k], i) { Untouched(bytes, puts, i); }
    forall k | 0 <= k < |puts| && LastOver(|bytes|, puts, i, k)
      ensures AllWritten(bytes, puts)[i] == puts[k].data[i - puts[k].offset]
    {
      LastWriter(bytes, puts, i, k);
    }
  }

  lemma WrittenAt(bytes: seq<Byte>, put: Put, i: nat)
    requires i < |bytes|
    ensures Written(bytes, put)[i] ==
            if Covers(|bytes|, put, i) then put.data[i - put.offset] else bytes[i]
  {
  }

  /** What an accepted write put down is what a read of that range returns, and every range away from it reads
      as before. */
  lemma ReadBack(bytes: seq<Byte>, put: Put, offset: nat, length: nat)
    requires Fits(|bytes|, put)
    ensures Range(Written(bytes, put), put.offset, |put.data|) == put.data
    ensures offset + length <= put.offset || put.offset + |put.data| <= offset ==>
              Range(Written(bytes, put), offset, length) == Range(bytes, offset, length)
  {
  }

  /** Reading on from where the last read was asked to stop. */
  function Chunks(bytes: seq<Byte>, lengths: seq<nat>): seq<Byte> {
    if lengths == [] then []
    else
      var before := lengths[..|lengths| - 1];
      Chunks(bytes, before) + Range(bytes, Total(before), lengths[|lengths| - 1])
  }

  /** Chunked reading is complete and exact for every choice of chunk sizes: it reassembles the blob. */
  lemma {:induction false} ChunksReassemble(bytes: seq<Byte>, lengths: seq<nat>)
    ensures Chunks(bytes, lengths) == bytes[..Min(|bytes|, Total(lengths))]
  {
    if lengths != [] {
      ChunksReassemble(bytes, lengths[..|lengths| - 1]);
    }
  }
}

module Blob {
  import opened Common
  import opened BlobSpec

  const USIZE_MAX := TWO_64 - 1

  /** `usize::saturating_add` and the truncating cast to a C `int`. */
  function SaturatingAdd(a: nat, b: nat): nat {
    if a + b > USIZE_MAX then USIZE_MAX else a + b
  }

  function AsCInt(x: nat): int {
    (x + TWO_31) % (2 * TWO_31) - TWO_31
  }

  lemma CastIsLossless(x: nat)
    ensures AsCInt(x) == x <==> x < TWO_31
  {
  }

  /** How the connection and the handle are found under the Mutex. */
  datatype Gate = Live | Closed | Poisoned

  datatype Error = LockError | ConnectionClosed | BlobSize | Sqlite(rc: int)

  datatype Reply<T> = Ok(value: T) | Err(error: Error)

  const SQLITE_OK := 0
  const SQLITE_ERROR := 1

  class XqliteBlob {
    const bytes: array<Byte>

    ghost predicate Valid() {
      bytes.Length < TWO_31
    }

    constructor (bytes: array<Byte>)
      requires bytes.Length < TWO_31
      ensures Valid() && this.bytes == bytes
    {
      this.bytes := bytes;
    }

    // SQLite's side: it refuses a range that is not inside the blob, and may refuse for reasons of its own.

    method BlobRead(length: int, offset: int, rc: int) returns (code: int, data: seq<Byte>)
      ensures length < 0 || offset < 0 || offset + length > bytes.Length ==> code == SQLITE_ERROR
      ensures !(length < 0 || offset < 0 || offset + length > bytes.Length) ==>
                code == rc && data == bytes[offset..offset + length]
    {
      if length < 0 || offset < 0 || offset + length > bytes.Length { return SQLITE_ERROR, []; }
      return rc, bytes[offset..offset + length];
    }

    method BlobWrite(data: seq<Byte>, length: int, offset: int, rc: int) returns (code: int)
      requires 0 <= length <= |data|
      modifies bytes
      ensures offset < 0 || offset + length > bytes.Length ==> code == SQLITE_ERROR && bytes[..] == old(bytes[..])
      ensures !(offset < 0 || offset + length > bytes.Length) ==>
                && code == rc
                && bytes[..] == if rc == SQLITE_OK then Written(old(bytes[..]), Put(offset, data[..length])) else old(bytes[..])
    {
      if offset < 0 || offset + length > bytes.Length { return SQLITE_ERROR; }
      if rc == SQLITE_OK {
        forall i | 0 <= i < length { bytes[offset + i] := data[i]; }
        assert bytes[..] == Written(old(bytes[..]), Put(offset, data[..length]));
      }
      return rc;
    }

    /** Every in-range answer is the range itself; nothing in range is answered without asking SQLite; and
        SQLite is never asked for a range it would refuse. */
    method Read(gate: Gate, offset: nat, length: nat, rc: int) returns (reply: Reply<seq<Byte>>)
      requires Valid() && offset <= USIZE_MAX && length <= USIZE_MAX
      ensures gate.Poisoned? ==> reply == Err(LockError)
      ensures gate.Closed? ==> reply == Err(ConnectionClosed)
      ensures gate.Live? ==>
                reply == if Range(bytes[..], offset, length) == [] || rc == SQLITE_OK
                         then Ok(Range(bytes[..], offset, length))
                         else Err(Sqlite(rc))
    {
      if gate.Poisoned? { return Err(LockError); }
      if gate.Closed? { return Err(ConnectionClosed); }
      var size := bytes.Length;
      var actual := if offset >= size then 0 else Min(length, size - offset);
      if actual == 0 { return Ok([]); }
      CastIsLossless(offset);
      CastIsLossless(actual);
      var code, data := BlobRead(AsCInt(actual), AsCInt(offset), rc);
      assert bytes[offset..offset + actual] == Range(bytes[..], offset, length);
      if code != SQLITE_OK { return Err(Sqlite(code)); }
      return Ok(data);
    }

    /** A write past the end is the size error and writes nothing, for every offset and length a `usize` holds. */
    method Write(gate: Gate, offset: nat, data: seq<Byte>, rc: int) returns (reply: Reply<()>)
      requires Valid() && offset <= USIZE_MAX && |data| <= USIZE_MAX
      modifies bytes
      ensures gate.Poisoned? ==> reply == Err(LockError)
      ensures gate.Closed? ==> reply == Err(ConnectionClosed)
      ensures gate.Live? ==>
                reply == if !Fits(bytes.Length, Put(offset, data)) then Err(BlobSize)
                         else if rc == SQLITE_OK then Ok(())
                         else Err(Sqlite(rc))
      ensures bytes[..] == if reply.Ok? then Written(old(bytes[..]), Put(offset, data)) else old(bytes[..])
    {
      if gate.Poisoned? { return Err(LockError); }
      if gate.Closed? { return Err(ConnectionClosed); }
      var size := bytes.Length;
      if SaturatingAdd(|data|, offset) > size { return Err(BlobSize); }
      CastIsLossless(offset);
      CastIsLossless(|data|);
      assert data[..|data|] == data;
      var code := BlobWrite(data, AsCInt(|data|), AsCInt(offset), rc);
      if code != SQLITE_OK { return Err(Sqlite(code)); }
      return Ok(());
    }
  }
}
