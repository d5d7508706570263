/** The SCSI data path: CDB decoding, the READ and WRITE copies, and READ
    CAPACITY (driver/src/scsi). A disk is a byte buffer; block k is its bytes
    512k to 512k + 511. */
module Scsi {
  import opened Protocol
  import opened BigEndian

  // Operation codes of SBC-2, sections 5.5 to 5.8 and 5.24 to 5.29.
  const READ6: Byte := 0x08
  const WRITE6: Byte := 0x0A
  const READ10: Byte := 0x28
  const WRITE10: Byte := 0x2A
  const READ12: Byte := 0xA8
  const WRITE12: Byte := 0xAA
  const READ16: Byte := 0x88
  const WRITE16: Byte := 0x8A

  const SERVICE_ACTION_READ_CAPACITY16: nat := 0x10
  const MAXIMUM_TRANSFER: nat := 1024 * 1024
  const SENSE_LENGTH: nat := 18
  const SENSE_FIXED_CURRENT: Byte := 0x70
  const ILLEGAL_REQUEST: Byte := 0x05
  const ILLEGAL_BLOCK: Byte := 0x21
  const INVALID_CDB: Byte := 0x24

  datatype SrbStatus = Success | DataOverrun | CheckSense | CheckNoSense

  datatype Access = Access(lba: nat, count: nat, write: bool)

  /** The blocks a CDB asks for; the six-byte forms read a zero count as 256. */
  function Decode(cdb: seq<Byte>, length: nat): Option<Access>
    requires |cdb| == 16
  {
    var op := cdb[0];
    var write := op == WRITE6 || op == WRITE10 || op == WRITE12 || op == WRITE16;
    if op == READ6 || op == WRITE6 then
      if length < 6 then None
      else Some(Access(Join4(0, cdb[1] % 32, cdb[2], cdb[3]), if cdb[4] == 0 then 256 else cdb[4], write))
    else if op == READ10 || op == WRITE10 then
      if length < 10 then None else Some(Access(Value(cdb[2..6]), Value(cdb[7..9]), write))
    else if op == READ12 || op == WRITE12 then
      if length < 12 then None else Some(Access(Value(cdb[2..6]), Value(cdb[6..10]), write))
    else if op == READ16 || op == WRITE16 then
      if length < 16 then None else Some(Access(Value(cdb[2..10]), Value(cdb[10..14]), write))
    else None
  }

  datatype Verdict = BadRequest | NoTransfer | OutOfRange | Accepted(access: Access)

  /** What HandleReadWrite decides before it copies anything. */
  function Judge(cdb: seq<Byte>, length: nat, size: nat, transferLength: nat, hasBuffer: bool): Verdict
    requires |cdb| == 16
  {
    match Decode(cdb, length)
    case None => BadRequest
    case Some(a) =>
      if a.count == 0 then NoTransfer
      else if a.lba >= size / SECTOR_SIZE || a.count > size / SECTOR_SIZE - a.lba then OutOfRange
      else if a.count * SECTOR_SIZE > MAXIMUM_TRANSFER || transferLength < a.count * SECTOR_SIZE || !hasBuffer
      then BadRequest
      else Accepted(a)
  }

  /** Every accepted transfer stays inside the disk and the request buffer, and none of
      the driver's 64-bit and 32-bit products overflows. */
  lemma AcceptedInBounds(cdb: seq<Byte>, length: nat, size: nat, transferLength: nat, hasBuffer: bool)
    requires |cdb| == 16 && size < U64_LIMIT
    requires Judge(cdb, length, size, transferLength, hasBuffer).Accepted?
    ensures var a := Judge(cdb, length, size, transferLength, hasBuffer).access;
            && 0 < a.count
            && (a.lba + a.count) * SECTOR_SIZE <= size
            && a.lba * SECTOR_SIZE < U64_LIMIT
            && a.count * SECTOR_SIZE <= transferLength
            && a.count * SECTOR_SIZE < U32_LIMIT
            && hasBuffer
  {
  }

  function Overwrite(bytes: seq<Byte>, at: nat, data: seq<Byte>): (r: seq<Byte>)
    requires at + |data| <= |bytes|
    ensures |r| == |bytes|
  {
    bytes[..at] + data + bytes[at + |data|..]
  }

  function Zeros(n: nat): (z: seq<Byte>)
    ensures |z| == n && forall k :: 0 <= k < n ==> z[k] == 0
  {
    seq(n, k => 0)
  }

  // ------------------------------------------------ The standard's encodings

  /** The CDB layouts of the standard. `flags` and `tail` are the bytes the driver
      ignores: the upper bits of byte 1, the group number and the control byte. */
  function Encode6(op: Byte, lba: nat, count: nat, flags: nat, tail: seq<Byte>): (c: seq<Byte>)
    requires lba < 0x20_0000 && 1 <= count <= 256 && flags < 8 && |tail| == 11
    ensures |c| == 16
  {
    [op, flags * 32 + lba / 0x1_0000, lba / 0x100 % 256, lba % 256, count % 256] + tail
  }

  function Encode10(op: Byte, lba: nat, count: nat, flags: Byte, group: Byte, tail: seq<Byte>): (c: seq<Byte>)
    requires lba < U32_LIMIT && count < 0x1_0000 && |tail| == 7
    ensures |c| == 16
  {
    [op, flags] + Bytes(lba, 4) + [group] + Bytes(count, 2) + tail
  }

  function Encode12(op: Byte, lba: nat, count: nat, flags: Byte, tail: seq<Byte>): (c: seq<Byte>)
    requires lba < U32_LIMIT && count < U32_LIMIT && |tail| == 6
    ensures |c| == 16
  {
    [op, flags] + Bytes(lba, 4) + Bytes(count, 4) + tail
  }

  function Encode16(op: Byte, lba: nat, count: nat, flags: Byte, tail: seq<Byte>): (c: seq<Byte>)
    requires lba < U64_LIMIT && count < U32_LIMIT && |tail| == 2
    ensures |c| == 16
  {
    [op, flags] + Bytes(lba, 8) + Bytes(count, 4) + tail
  }

  lemma Decode6Of(c: seq<Byte>, length: nat)
    requires |c| == 16 && c[0] in {READ6, WRITE6}
    ensures Decode(c, length) ==
              if length < 6 then None
              else Some(Access(Join4(0, c[1] % 32, c[2], c[3]), if c[4] == 0 then 256 else c[4], c[0] == WRITE6))
  {
  }

  lemma Parts6(lba: nat, count: nat, flags: nat)
    requires lba < 0x20_0000 && 1 <= count <= 256
    ensures (flags * 32 + lba / 0x1_0000) % 32 == lba / 0x1_0000
    ensures Join4(0, lba / 0x1_0000, lba / 0x100 % 256, lba % 256) == lba
    ensures (if count % 256 == 0 then 256 else count % 256) == count
  {
  }

  lemma Decode6InvertsEncode(op: Byte, lba: nat, count: nat, flags: nat, tail: seq<Byte>, length: nat)
    requires op in {READ6, WRITE6} && lba < 0x20_0000 && 1 <= count <= 256 && flags < 8 && |tail| == 11
    ensures Decode(Encode6(op, lba, count, flags, tail), length)
         == if length < 6 then None else Some(Access(lba, count, op == WRITE6))
  {
    hide Decode, Join4;
    var c := Encode6(op, lba, count, flags, tail);
    Decode6Of(c, length);
    Parts6(lba, count, flags);
  }

  lemma Decode10InvertsEncode(op: Byte, lba: nat, count: nat, flags: Byte, group: Byte, tail: seq<Byte>, length: nat)
    requires op in {READ10, WRITE10} && lba < U32_LIMIT && count < 0x1_0000 && |tail| == 7
    ensures Decode(Encode10(op, lba, count, flags, group, tail), length)
         == if length < 10 then None else Some(Access(lba, count, op == WRITE10))
  {
    hide Value, Bytes;
    var c := Encode10(op, lba, count, flags, group, tail);
    Powers();
    ValueOfBytes(lba, 4);
    ValueOfBytes(count, 2);
    assert c[2..6] == Bytes(lba, 4) && c[7..9] == Bytes(count, 2);
  }

  lemma Decode12InvertsEncode(op: Byte, lba: nat, count: nat, flags: Byte, tail: seq<Byte>, length: nat)
    requires op in {READ12, WRITE12} && lba < U32_LIMIT && count < U32_LIMIT && |tail| == 6
    ensures Decode(Encode12(op, lba, count, flags, tail), length)
         == if length < 12 then None else Some(Access(lba, count, op == WRITE12))
  {
    hide Value, Bytes;
    var c := Encode12(op, lba, count, flags, tail);
    Powers();
    ValueOfBytes(lba, 4);
    ValueOfBytes(count, 4);
    assert c[2..6] == Bytes(lba, 4) && c[6..10] == Bytes(count, 4);
  }

  lemma Decode16InvertsEncode(op: Byte, lba: nat, count: nat, flags: Byte, tail: seq<Byte>, length: nat)
    requires op in {READ16, WRITE16} && lba < U64_LIMIT && count < U32_LIMIT && |tail| == 2
    ensures Decode(Encode16(op, lba, count, flags, tail), length)
         == if length < 16 then None else Some(Access(lba, count, op == WRITE16))
  {
    hide Value, Bytes;
    var c := Encode16(op, lba, count, flags, tail);
    Powers();
    ValueOfBytes(lba, 8);
    ValueOfBytes(count, 4);
    assert c[2..10] == Bytes(lba, 8) && c[10..14] == Bytes(count, 4);
  }

  // ------------------------------------------------------------ READ CAPACITY

  function Capacity10(size: nat): (r: seq<Byte>)
    requires SECTOR_SIZE <= size
    ensures |r| == 8
  {
    var last := size / SECTOR_SIZE - 1;
    Bytes(if last >= U32_LIMIT then U32_LIMIT - 1 else last, 4) + Bytes(SECTOR_SIZE, 4)
  }

  function Capacity16(size: nat): (r: seq<Byte>)
    requires SECTOR_SIZE <= size
    ensures |r| == 32
  {
    Bytes(size / SECTOR_SIZE - 1, 8) + Bytes(SECTOR_SIZE, 4) + Zeros(20)
  }

  /** SBC-2 sections 5.10 and 5.11: a well-buffered one-block access succeeds exactly up
      to the last block either READ CAPACITY form reports. */
  lemma OneBlockIffCapacity(cdb: seq<Byte>, length: nat, size: nat, transferLength: nat)
    requires |cdb| == 16 && MINIMUM_DISK_SIZE <= size <= MAXIMUM_DISK_SIZE
    requires Decode(cdb, length).Some? && Decode(cdb, length).value.count == 1
    requires SECTOR_SIZE <= transferLength
    ensures Judge(cdb, length, size, transferLength, true).Accepted?
       <==> Decode(cdb, length).value.lba <= Value(Capacity16(size)[..8])
    ensures Value(Capacity10(size)[..4]) == Value(Capacity16(size)[..8])
    ensures Value(Capacity10(size)[4..]) == Value(Capacity16(size)[8..12]) == SECTOR_SIZE
  {
    var last := size / SECTOR_SIZE - 1;
    assert last < U32_LIMIT && size / SECTOR_SIZE == last + 1;
    Powers();
    ValueOfBytes(last, 8);
    ValueOfBytes(last, 4);
    ValueOfBytes(SECTOR_SIZE, 4);
    assert Capacity16(size)[..8] == Bytes(last, 8) && Capacity10(size)[..4] == Bytes(last, 4);
    assert Capacity16(size)[8..12] == Bytes(SECTOR_SIZE, 4) && Capacity10(size)[4..] == Bytes(SECTOR_SIZE, 4);
  }

  // -------------------------------------------------------------- The handlers

  /** The SRB fields the handlers read and write. */
  class Srb {
    const cdb: array<Byte>
    const cdbLength: nat
    const data: array?<Byte>
    const sense: array?<Byte>
    var transferLength: nat
    var checkCondition: bool

    constructor (cdb: array<Byte>, cdbLength: nat, data: array?<Byte>, sense: array?<Byte>, transferLength: nat)
      requires cdb.Length == 16 && (data != null ==> transferLength <= data.Length) && data != cdb && sense != cdb
      requires data != null ==> data != sense
      ensures Valid() && this.cdb == cdb && this.cdbLength == cdbLength && this.data == data && this.sense == sense
      ensures this.transferLength == transferLength && !checkCondition
    {
      this.cdb, this.cdbLength, this.data, this.sense := cdb, cdbLength, data, sense;
      this.transferLength, checkCondition := transferLength, false;
    }

    /** The buffers are distinct and the data buffer is as long as the SRB says. */
    ghost predicate Valid()
      reads this
    {
      && cdb.Length == 16 && data != cdb && sense != cdb
      && (data != null ==> transferLength <= data.Length && data != sense)
    }

    ghost function Buffers(): set<object> {
      (if data == null then {} else {data as object}) + (if sense == null then {} else {sense as object})
    }

    /** The SRB carries the error: no data moved, and the sense buffer, when large
        enough, holds exactly this fixed-format sense data. */
    ghost predicate Reports(status: SrbStatus, key: Byte, code: Byte)
      reads this, sense
    {
      && transferLength == 0 && checkCondition
      && status == (if sense != null && sense.Length >= SENSE_LENGTH then CheckSense else CheckNoSense)
      && (sense != null && sense.Length >= SENSE_LENGTH ==>
            sense[..SENSE_LENGTH] == [SENSE_FIXED_CURRENT, 0, key, 0, 0, 0, 0, 10, 0, 0, 0, 0, code, 0, 0, 0, 0, 0])
    }

    /** SetSense: no data moves, and fixed-format sense data is stored when it fits. */
    method SetSense(key: Byte, code: Byte) returns (status: SrbStatus)
      requires Valid()
      modifies this, if sense == null then {} else {sense}
      ensures Valid() && Reports(status, key, code)
    {
      transferLength, checkCondition := 0, true;
      if sense != null && sense.Length >= SENSE_LENGTH {
        forall i | 0 <= i < SENSE_LENGTH { sense[i] := 0; }
        sense[0] := SENSE_FIXED_CURRENT;
        sense[2] := key;
        sense[7] := 10;
        sense[12] := code;
        sense[13] := 0;
        return CheckSense;
      }
      return CheckNoSense;
    }

    /** The SRB carries the content, clipped to the transfer length there was; without a
        data buffer only an empty content can be carried. */
    ghost predicate Delivers(status: SrbStatus, content: seq<Byte>, available: nat)
      reads this, data, sense
    {
      if content != [] && data == null then Reports(status, ILLEGAL_REQUEST, INVALID_CDB)
      else
        && transferLength == Min(|content|, available)
        && (data != null ==> transferLength <= data.Length && data[..transferLength] == content[..transferLength])
        && status == if |content| > available then DataOverrun else Success
    }

    /** CopyScsiResponse: the first `length` bytes of the response. */
    method CopyResponse(response: array<Byte>, length: nat) returns (status: SrbStatus)
      requires Valid() && response != data && response != sense && length <= response.Length
      modifies this, Buffers()
      ensures Valid() && Delivers(status, response[..length], old(transferLength))
      ensures response[..] == old(response[..])
    {
      if length != 0 && data == null {
        status := SetSense(ILLEGAL_REQUEST, INVALID_CDB);
        return;
      }
      var available := transferLength;
      var transferred := Min(length, available);
      if transferred != 0 { CopyBytes(response, 0, data, 0, transferred); }
      transferLength := transferred;
      status := if length > available then DataOverrun else Success;
    }
  }

  function Min(a: nat, b: nat): nat {
    if a < b then a else b
  }

  /** RtlCopyMemory between distinct buffers. */
  method CopyBytes(source: array<Byte>, from: nat, target: array<Byte>, to: nat, n: nat)
    requires source != target && from + n <= source.Length && to + n <= target.Length
    modifies target
    ensures target[..] == Overwrite(old(target[..]), to, source[from..from + n])
  {
    forall i | 0 <= i < n { target[to + i] := source[from + i]; }
    assert target[..] == Overwrite(old(target[..]), to, source[from..from + n]);
  }

  method ParseReadWriteCdb(srb: Srb) returns (ok: bool, lba: nat, count: nat, isWrite: bool)
    requires srb.Valid()
    ensures (if ok then Some(Access(lba, count, isWrite)) else None) == Decode(srb.cdb[..], srb.cdbLength)
  {
    var cdb := srb.cdb;
    var op := cdb[0];
    ok, lba, count := false, 0, 0;
    isWrite := op == WRITE6 || op == WRITE10 || op == WRITE12 || op == WRITE16;
    if op == READ6 || op == WRITE6 {
      if srb.cdbLength < 6 { return; }
      lba := Join4(0, cdb[1] % 32, cdb[2], cdb[3]);
      count := if cdb[4] == 0 then 256 else cdb[4];
      ok := true;
    } else if op == READ10 || op == WRITE10 {
      if srb.cdbLength < 10 { return; }
      assert cdb[7..9][..1] == cdb[7..8] && cdb[7..8][..0] == [];
      assert Value(cdb[7..8]) == cdb[7];
      lba := ReadBigEndian32(cdb[2..6]);
      count := Join4(0, 0, cdb[7], cdb[8]);
      ok := true;
      assert cdb[..][2..6] == cdb[2..6] && cdb[..][7..9] == cdb[7..9];
    } else if op == READ12 || op == WRITE12 {
      if srb.cdbLength < 12 { return; }
      lba := ReadBigEndian32(cdb[2..6]);
      count := ReadBigEndian32(cdb[6..10]);
      ok := true;
      assert cdb[..][2..6] == cdb[2..6] && cdb[..][6..10] == cdb[6..10];
    } else if op == READ16 || op == WRITE16 {
      if srb.cdbLength < 16 { return; }
      lba := ReadBigEndian64(cdb, 2);
      count := ReadBigEndian32(cdb[10..14]);
      ok := true;
      assert cdb[..][2..10] == cdb[2..10] && cdb[..][10..14] == cdb[10..14];
    }
  }

  /** HandleReadWrite on the bytes of a leased view. */
  method HandleReadWrite(disk: array<Byte>, srb: Srb) returns (status: SrbStatus)
    requires srb.Valid() && disk != srb.data && disk != srb.sense && disk != srb.cdb
    modifies srb, disk, srb.Buffers()
    ensures var verdict :=
              Judge(old(srb.cdb[..]), srb.cdbLength, disk.Length, old(srb.transferLength), srb.data != null);
            match verdict
            case Accepted(a) =>
              var n := a.count * SECTOR_SIZE;
              var at := a.lba * SECTOR_SIZE;
              && status == Success && srb.transferLength == n && srb.checkCondition == old(srb.checkCondition)
              && srb.data != null && at + n <= disk.Length && n <= srb.data.Length
              && disk[..] == (if a.write then Overwrite(old(disk[..]), at, old(srb.data[..n])) else old(disk[..]))
              && srb.data[..] == (if a.write then old(srb.data[..])
                                  else Overwrite(old(srb.data[..]), 0, old(disk[at..at + n])))
            case NoTransfer =>
              disk[..] == old(disk[..]) && srb.transferLength == 0 && status == Success
            case OutOfRange =>
              disk[..] == old(disk[..]) && srb.Reports(status, ILLEGAL_REQUEST, ILLEGAL_BLOCK)
            case BadRequest =>
              disk[..] == old(disk[..]) && srb.Reports(status, ILLEGAL_REQUEST, INVALID_CDB)
  {
    hide Decode, Overwrite;
    var ok, lba, count, isWrite := ParseReadWriteCdb(srb);
    if !ok {
      status := srb.SetSense(ILLEGAL_REQUEST, INVALID_CDB);
      return;
    }
    if count == 0 {
      srb.transferLength := 0;
      return Success;
    }
    var blocks := disk.Length / SECTOR_SIZE;
    if lba >= blocks || count > blocks - lba {
      status := srb.SetSense(ILLEGAL_REQUEST, ILLEGAL_BLOCK);
      return;
    }
    var at, n := lba * SECTOR_SIZE, count * SECTOR_SIZE;
    if n > MAXIMUM_TRANSFER || srb.transferLength < n || srb.data == null {
      status := srb.SetSense(ILLEGAL_REQUEST, INVALID_CDB);
      return;
    }
    if isWrite {
      CopyBytes(srb.data, 0, disk, at, n);
    } else {
      CopyBytes(disk, at, srb.data, 0, n);
    }
    srb.transferLength := n;
    status := Success;
  }

  method HandleReadCapacity10(size: nat, srb: Srb) returns (status: SrbStatus)
    requires srb.Valid() && SECTOR_SIZE <= size
    modifies srb, srb.Buffers()
    ensures srb.Delivers(status, Capacity10(size), old(srb.transferLength))
  {
    var response := new Byte[8](i => 0);
    var last := size / SECTOR_SIZE - 1;
    WriteBigEndian32(response, 0, if last >= U32_LIMIT then U32_LIMIT - 1 else last);
    ghost var first := response[..4];
    WriteBigEndian32(response, 4, SECTOR_SIZE);
    assert response[..8] == first + Bytes(SECTOR_SIZE, 4);
    status := srb.CopyResponse(response, 8);
  }

  method HandleReadCapacity16(size: nat, srb: Srb) returns (status: SrbStatus)
    requires srb.Valid() && SECTOR_SIZE <= size
    modifies srb, srb.Buffers()
    ensures if srb.cdbLength >= 16 && old(srb.cdb[1]) % 32 == SERVICE_ACTION_READ_CAPACITY16
            then srb.Delivers(status, Capacity16(size), old(srb.transferLength))
            else srb.Reports(status, ILLEGAL_REQUEST, INVALID_CDB)
  {
    if srb.cdbLength < 16 || srb.cdb[1] % 32 != SERVICE_ACTION_READ_CAPACITY16 {
      status := srb.SetSense(ILLEGAL_REQUEST, INVALID_CDB);
      return;
    }
    var response := new Byte[32](i => 0);
    WriteBigEndian64(response, 0, size / SECTOR_SIZE - 1);
    ghost var first := response[..];
    assert first[..8] == Bytes(size / SECTOR_SIZE - 1, 8) && first[12..] == Zeros(20);
    WriteBigEndian32(response, 8, SECTOR_SIZE);
    assert response[..] == first[..8] + Bytes(SECTOR_SIZE, 4) + first[12..];
    assert response[..32] == response[..];
    status := srb.CopyResponse(response, 32);
  }
}
