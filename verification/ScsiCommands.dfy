/** The commands that only describe the adapter and its disks: INQUIRY, REQUEST SENSE, MODE
    SENSE and REPORT LUNS (driver/src/scsi/scsi_commands.cpp). */
module ScsiCommands {
  import opened Protocol
  import opened BigEndian
  import opened Driver
  import opened Scsi
  import opened AdapterExtension

  const INQUIRY: Byte := 0x12
  const REQUEST_SENSE: Byte := 0x03
  const MODE_SENSE: Byte := 0x1A
  const MODE_SENSE10: Byte := 0x5A
  const READ_CAPACITY: Byte := 0x25
  const READ_CAPACITY16: Byte := 0x9E
  const REPORT_LUNS: Byte := 0xA0

  const SUPPORTED_PAGES: Byte := 0x00
  const SERIAL_NUMBER: Byte := 0x80
  const IDENTIFICATION: Byte := 0x83
  const CACHING: Byte := 0x08
  const ALL_PAGES: Byte := 0x3F

  // "WISPDISK", "VIRTUAL DISK    ", "0002" and "WISPDK".
  const VENDOR: seq<Byte> := [0x57, 0x49, 0x53, 0x50, 0x44, 0x49, 0x53, 0x4B]
  const PRODUCT: seq<Byte> :=
    [0x56, 0x49, 0x52, 0x54, 0x55, 0x41, 0x4C, 0x20, 0x44, 0x49, 0x53, 0x4B, 0x20, 0x20, 0x20, 0x20]
  const REVISION: seq<Byte> := [0x30, 0x30, 0x30, 0x32]
  const PREFIX: seq<Byte> := [0x57, 0x49, 0x53, 0x50, 0x44, 0x4B]

  // -------------------------------------------------------------- Device names

  function HexDigit(d: nat): (b: Byte)
    requires d < 16
  {
    if d < 10 then 0x30 + d else 0x37 + d
  }

  /** The n low-order hexadecimal digits of a value, in ASCII. */
  function HexDigits(value: nat, n: nat): (r: seq<Byte>)
    ensures |r| == n
  {
    if n == 0 then [] else HexDigits(value / 16, n - 1) + [HexDigit(value % 16)]
  }

  function Pow16(n: nat): nat {
    if n == 0 then 1 else 16 * Pow16(n - 1)
  }

  /** Different numbers of n digits look different. */
  lemma {:induction false} HexTellsApart(a: nat, b: nat, n: nat)
    requires a < Pow16(n) && b < Pow16(n) && HexDigits(a, n) == HexDigits(b, n)
    ensures a == b
  {
    if n > 0 {
      var x, y := HexDigits(a, n), HexDigits(b, n);
      assert x[..n - 1] == HexDigits(a / 16, n - 1) && y[..n - 1] == HexDigits(b / 16, n - 1);
      assert x[n - 1] == HexDigit(a % 16) && y[n - 1] == HexDigit(b % 16);
      HexTellsApart(a / 16, b / 16, n - 1);
    }
  }

  /** The loop of WriteDeviceIdHex, on the eight bytes at `at`. */
  method WriteDeviceIdHex(a: array<Byte>, at: nat, device: nat)
    requires at + 8 <= a.Length
    modifies a
    ensures a[..at + 8] == old(a[..at]) + HexDigits(device, 8)
  {
    for index := 0 to 8
      invariant a[..at + index] == old(a[..at]) + HexDigits(Shifted(device, 8 - index), index)
    {
      ghost var before := HexDigits(Shifted(device, 8 - index), index);
      a[at + index] := HexDigit(Shifted(device, 7 - index) % 16);
      ShiftedOnce(device, 7 - index);
      assert HexDigits(Shifted(device, 7 - index), index + 1) == before + [a[at + index]];
      assert a[..at + index + 1] == a[..at + index] + [a[at + index]];
    }
  }

  /** The value without its n low-order hexadecimal digits. */
  function Shifted(value: nat, n: nat): nat {
    if n == 0 then value else Shifted(value / 16, n - 1)
  }

  lemma {:induction false} ShiftedOnce(value: nat, n: nat)
    ensures Shifted(value, n + 1) == Shifted(value, n) / 16
  {
    if n > 0 { ShiftedOnce(value / 16, n - 1); }
  }

  // ------------------------------------------------------------------ Contents

  function Clipped(content: seq<Byte>, length: nat): seq<Byte> {
    content[..Min(|content|, length)]
  }

  /** SPC-4 sections 6.6 and 7.8: the standard data and the vital product data pages. */
  function InquiryData(view: LunView, vital: bool, page: Byte): Option<seq<Byte>> {
    if !vital then
      if page != 0 then None
      else Some([0, if view.media == MEDIA_REMOVABLE then 0x80 else 0, 5, 2, 31, 0, 0, 0] + VENDOR + PRODUCT + REVISION)
    else if page == SUPPORTED_PAGES then Some([0, 0, 0, 3, SUPPORTED_PAGES, SERIAL_NUMBER, IDENTIFICATION])
    else if page == SERIAL_NUMBER then Some([0, SERIAL_NUMBER, 0, 14] + PREFIX + HexDigits(view.device, 8))
    else if page == IDENTIFICATION then
      Some([0, IDENTIFICATION, 0, 26, 2, 1, 0, 22] + VENDOR + PREFIX + HexDigits(view.device, 8))
    else None
  }

  function InquiryContent(view: LunView, cdb: seq<Byte>, length: nat): Option<seq<Byte>>
    requires |cdb| == 16
  {
    if length < 6 then None
    else
      match InquiryData(view, cdb[1] % 2 == 1, cdb[2])
      case None => None
      case Some(data) => Some(Clipped(data, cdb[4]))
  }

  function SenseContent(cdb: seq<Byte>, length: nat): Option<seq<Byte>>
    requires |cdb| == 16
  {
    if length < 6 then None
    else Some(Clipped([SENSE_FIXED_CURRENT, 0, 0, 0, 0, 0, 0, 10] + Zeros(10), cdb[4]))
  }

  /** The mode parameters: a header with the length of what follows, and the caching page. */
  function ModeData(tenByte: bool, caching: bool): seq<Byte> {
    var page: seq<Byte> := if caching then [CACHING, 0x12] + Zeros(18) else [];
    if tenByte then Bytes(6 + |page|, 2) + Zeros(6) + page else [3 + |page|] + Zeros(3) + page
  }

  function ModeContent(tenByte: bool, cdb: seq<Byte>, length: nat): Option<seq<Byte>>
    requires |cdb| == 16
  {
    var page := cdb[2] % 64;
    if length < (if tenByte then 10 else 6) || page !in {0, CACHING, ALL_PAGES} then None
    else Some(Clipped(ModeData(tenByte, page != 0), if tenByte then Join4(0, 0, cdb[7], cdb[8]) else cdb[4]))
  }

  predicate Describes(op: Byte) {
    op in {INQUIRY, REQUEST_SENSE, MODE_SENSE, MODE_SENSE10, READ_CAPACITY, READ_CAPACITY16}
  }

  /** What a leased disk answers to a command that describes it. */
  function ContentOf(view: LunView, cdb: seq<Byte>, length: nat): Option<seq<Byte>>
    requires |cdb| == 16 && SECTOR_SIZE <= view.size
  {
    var op := cdb[0];
    if op == INQUIRY then InquiryContent(view, cdb, length)
    else if op == REQUEST_SENSE then SenseContent(cdb, length)
    else if op == MODE_SENSE then ModeContent(false, cdb, length)
    else if op == MODE_SENSE10 then ModeContent(true, cdb, length)
    else if op == READ_CAPACITY then Some(Capacity10(view.size))
    else if op == READ_CAPACITY16 && length >= 16 && cdb[1] % 32 == SERVICE_ACTION_READ_CAPACITY16
    then Some(Capacity16(view.size))
    else None
  }

  /** The names a disk goes by, serial number and identification, are those of another disk
      exactly when the device ids are the same. */
  lemma NamesTellApart(a: LunView, b: LunView, page: Byte)
    requires a.device < U32_LIMIT && b.device < U32_LIMIT && page in {SERIAL_NUMBER, IDENTIFICATION}
    ensures InquiryData(a, true, page) == InquiryData(b, true, page) <==> a.device == b.device
  {
    assert Pow16(8) == U32_LIMIT;
    if InquiryData(a, true, page) == InquiryData(b, true, page) {
      var x, y := InquiryData(a, true, page).value, InquiryData(b, true, page).value;
      var n := if page == SERIAL_NUMBER then 10 else 22;
      assert x[n..] == HexDigits(a.device, 8) && y[n..] == HexDigits(b.device, 8);
      HexTellsApart(a.device, b.device, 8);
    }
  }

  // ---------------------------------------------------------------- REPORT LUNS

  predicate Small(numbers: seq<nat>) {
    forall k :: 0 <= k < |numbers| ==> numbers[k] < 256
  }

  /** One eight-byte entry per LUN, peripheral device addressing. */
  function Entries(numbers: seq<nat>): (r: seq<Byte>)
    requires Small(numbers)
    ensures |r| == 8 * |numbers|
  {
    seq(8 * |numbers|, k requires 0 <= k < 8 * |numbers| => if k % 8 == 1 then numbers[k / 8] else 0)
  }

  function LunList(numbers: seq<nat>): seq<Byte>
    requires Small(numbers)
  {
    Bytes(8 * |numbers|, 4) + Zeros(4) + Entries(numbers)
  }

  function ReportContent(numbers: seq<nat>, cdb: seq<Byte>, length: nat, path: nat, target: nat): Option<seq<Byte>>
    requires |cdb| == 16 && Small(numbers)
  {
    if length < 12 || path != 0 || target != 0 then None
    else Some(Clipped(LunList(numbers), Value(cdb[6..10])))
  }

  // -------------------------------------------------------------- The handlers

  /** RtlCopyMemory of a constant. */
  method Put(a: array<Byte>, at: nat, bytes: seq<Byte>)
    requires at + |bytes| <= a.Length
    modifies a
    ensures a[..at + |bytes|] == old(a[..at]) + bytes
  {
    forall i | 0 <= i < |bytes| { a[at + i] := bytes[i]; }
  }

  method HandleInquiry(view: LunView, srb: Srb) returns (status: SrbStatus)
    requires srb.Valid()
    modifies srb, srb.Buffers()
    ensures match InquiryContent(view, old(srb.cdb[..]), srb.cdbLength)
            case None => srb.Reports(status, ILLEGAL_REQUEST, INVALID_CDB)
            case Some(content) => srb.Delivers(status, content, old(srb.transferLength))
  {
    if srb.cdbLength < 6 {
      status := srb.SetSense(ILLEGAL_REQUEST, INVALID_CDB);
      return;
    }
    var vital, page, allocation := srb.cdb[1] % 2 == 1, srb.cdb[2], srb.cdb[4];
    var response := new Byte[64](i => 0);
    var length := InquiryResponse(view, vital, page, response);
    if length == 0 {
      status := srb.SetSense(ILLEGAL_REQUEST, INVALID_CDB);
      return;
    }
    assert response[..Min(length, allocation)] == Clipped(response[..length], allocation);
    status := srb.CopyResponse(response, Min(length, allocation));
  }

  /** The response of HandleInquiry before it is clipped; length 0 stands for an invalid page. */
  method InquiryResponse(view: LunView, vital: bool, page: Byte, response: array<Byte>) returns (length: nat)
    requires response.Length == 64 && response[..] == Zeros(64)
    modifies response
    ensures length <= response.Length
    ensures match InquiryData(view, vital, page)
            case None => length == 0
            case Some(data) => length == |data| > 0 && response[..length] == data
  {
    if !vital {
      if page != 0 { return 0; }
      PutStandardData(view, response);
      length := 36;
    } else if page == SUPPORTED_PAGES {
      response[3], response[4], response[5], response[6] := 3, SUPPORTED_PAGES, SERIAL_NUMBER, IDENTIFICATION;
      length := 7;
    } else if page == SERIAL_NUMBER {
      PutSerialNumber(view, response);
      length := 18;
    } else if page == IDENTIFICATION {
      PutIdentification(view, response);
      length := 30;
    } else {
      length := 0;
    }
  }

  method PutStandardData(view: LunView, response: array<Byte>)
    requires response.Length == 64 && response[..] == Zeros(64)
    modifies response
    ensures Some(response[..36]) == InquiryData(view, false, 0)
  {
    response[1] := if view.media == MEDIA_REMOVABLE then 0x80 else 0;
    response[2], response[3], response[4] := 5, 2, 31;
    assert response[..8] == [0, if view.media == MEDIA_REMOVABLE then 0x80 else 0, 5, 2, 31, 0, 0, 0];
    Put(response, 8, VENDOR);
    Put(response, 16, PRODUCT);
    Put(response, 32, REVISION);
  }

  method PutSerialNumber(view: LunView, response: array<Byte>)
    requires response.Length == 64 && response[..] == Zeros(64)
    modifies response
    ensures Some(response[..18]) == InquiryData(view, true, SERIAL_NUMBER)
  {
    response[1], response[3] := SERIAL_NUMBER, 14;
    assert response[..4] == [0, SERIAL_NUMBER, 0, 14];
    Put(response, 4, PREFIX);
    WriteDeviceIdHex(response, 10, view.device);
  }

  method PutIdentification(view: LunView, response: array<Byte>)
    requires response.Length == 64 && response[..] == Zeros(64)
    modifies response
    ensures Some(response[..30]) == InquiryData(view, true, IDENTIFICATION)
  {
    response[1], response[4], response[5], response[7] := IDENTIFICATION, 2, 1, 22;
    WriteBigEndian16(response, 2, 26);
    assert Bytes(26, 2) == Bytes(0, 1) + [26] && Bytes(0, 1) == [] + [0];
    assert response[..8] == [0, IDENTIFICATION, 0, 26, 2, 1, 0, 22];
    Put(response, 8, VENDOR);
    Put(response, 16, PREFIX);
    WriteDeviceIdHex(response, 22, view.device);
  }

  method HandleRequestSense(srb: Srb) returns (status: SrbStatus)
    requires srb.Valid()
    modifies srb, srb.Buffers()
    ensures match SenseContent(old(srb.cdb[..]), srb.cdbLength)
            case None => srb.Reports(status, ILLEGAL_REQUEST, INVALID_CDB)
            case Some(content) => srb.Delivers(status, content, old(srb.transferLength))
  {
    if srb.cdbLength < 6 {
      status := srb.SetSense(ILLEGAL_REQUEST, INVALID_CDB);
      return;
    }
    var response := new Byte[SENSE_LENGTH](i => 0);
    response[0], response[7] := SENSE_FIXED_CURRENT, 10;
    assert response[..] == [SENSE_FIXED_CURRENT, 0, 0, 0, 0, 0, 0, 10] + Zeros(10);
    assert response[..Min(SENSE_LENGTH, srb.cdb[4])] == Clipped(response[..], srb.cdb[4]);
    status := srb.CopyResponse(response, Min(SENSE_LENGTH, srb.cdb[4]));
  }

  method HandleModeSense(srb: Srb, tenByte: bool) returns (status: SrbStatus)
    requires srb.Valid()
    modifies srb, srb.Buffers()
    ensures match ModeContent(tenByte, old(srb.cdb[..]), srb.cdbLength)
            case None => srb.Reports(status, ILLEGAL_REQUEST, INVALID_CDB)
            case Some(content) => srb.Delivers(status, content, old(srb.transferLength))
  {
    var page := srb.cdb[2] % 64;
    if srb.cdbLength < (if tenByte then 10 else 6) || (page != 0 && page != CACHING && page != ALL_PAGES) {
      status := srb.SetSense(ILLEGAL_REQUEST, INVALID_CDB);
      return;
    }
    var allocation := if tenByte then Join4(0, 0, srb.cdb[7], srb.cdb[8]) else srb.cdb[4];
    var response, length := ModeResponse(tenByte, page != 0);
    assert response[..Min(length, allocation)] == Clipped(response[..length], allocation);
    status := srb.CopyResponse(response, Min(length, allocation));
  }

  method ModeResponse(tenByte: bool, caching: bool) returns (response: array<Byte>, length: nat)
    ensures fresh(response) && length <= response.Length && response[..length] == ModeData(tenByte, caching)
  {
    var header := if tenByte then 8 else 4;
    response, length := new Byte[32](i => 0), header;
    if caching {
      response[length], response[length + 1] := CACHING, 0x12;
      length := length + 20;
    }
    ghost var page: seq<Byte> := if caching then [CACHING, 0x12] + Zeros(18) else [];
    assert response[header..length] == page;
    if tenByte { WriteBigEndian16(response, 0, length - 2); } else { response[0] := length - 1; }
    assert response[header..length] == page;
    assert response[..header] == if tenByte then Bytes(6 + |page|, 2) + Zeros(6) else [3 + |page|] + Zeros(3);
    assert response[..length] == response[..header] + page;
  }

  lemma EntriesWritten(r: seq<Byte>, numbers: seq<nat>)
    requires |r| == 8 + 8 * DISK_COUNT && |numbers| <= DISK_COUNT && Small(numbers)
    requires forall k :: 0 <= k < 8 ==> r[k] == 0
    requires forall k :: 8 <= k < 8 + 8 * |numbers| ==> r[k] == if k % 8 == 1 then numbers[k / 8 - 1] else 0
    ensures r[4..8 + 8 * |numbers|] == Zeros(4) + Entries(numbers)
  {
    var written, wanted := r[4..8 + 8 * |numbers|], Zeros(4) + Entries(numbers);
    forall k | 0 <= k < |written| ensures written[k] == wanted[k] {
      assert written[k] == r[k + 4];
      if k >= 4 { assert wanted[k] == Entries(numbers)[k - 4]; }
    }
  }

  /** BuildLunList: the entries are written behind the eight bytes of the header. */
  method BuildLunList(adapter: Adapter, response: array<Byte>) returns (numbers: seq<nat>)
    requires adapter.luns.Length == DISK_COUNT && response.Length == 8 + 8 * DISK_COUNT
    requires forall k :: 0 <= k < response.Length ==> response[k] == 0
    requires forall i :: 0 <= i < DISK_COUNT ==> adapter.luns[i].number < 256
    modifies response
    ensures numbers == OnlineNumbers(adapter.luns[..], DISK_COUNT) && |numbers| <= DISK_COUNT && Small(numbers)
    ensures response[4..8 + 8 * |numbers|] == Zeros(4) + Entries(numbers)
  {
    numbers := adapter.SnapshotOnlineLuns();
    OnlineNumbersSmall(adapter.luns[..], DISK_COUNT);
    for index := 0 to |numbers|
      invariant forall k :: 0 <= k < 8 ==> response[k] == 0
      invariant forall k :: 8 <= k < response.Length ==>
                  response[k] == if k % 8 == 1 && k / 8 <= index then numbers[k / 8 - 1] else 0
    {
      response[8 + index * 8 + 1] := numbers[index];
    }
    EntriesWritten(response[..], numbers);
  }

  lemma {:induction false} OnlineNumbersSmall(luns: seq<Lun>, n: nat)
    requires n <= |luns| && forall i :: 0 <= i < |luns| ==> luns[i].number < 256
    ensures |OnlineNumbers(luns, n)| <= n && Small(OnlineNumbers(luns, n))
  {
    if n > 0 { OnlineNumbersSmall(luns, n - 1); }
  }

  method HandleReportLuns(adapter: Adapter, srb: Srb, path: nat, target: nat) returns (status: SrbStatus)
    requires srb.Valid() && adapter.luns.Length == DISK_COUNT
    requires forall i :: 0 <= i < DISK_COUNT ==> adapter.luns[i].number < 256
    modifies srb, srb.Buffers()
    ensures var numbers := OnlineNumbers(old(adapter.luns[..]), DISK_COUNT);
            && Small(numbers)
            && match ReportContent(numbers, old(srb.cdb[..]), srb.cdbLength, path, target)
               case None => srb.Reports(status, ILLEGAL_REQUEST, INVALID_CDB)
               case Some(content) => srb.Delivers(status, content, old(srb.transferLength))
  {
    OnlineNumbersSmall(adapter.luns[..], DISK_COUNT);
    if srb.cdbLength < 12 || path != 0 || target != 0 {
      status := srb.SetSense(ILLEGAL_REQUEST, INVALID_CDB);
      return;
    }
    var response := new Byte[8 + 8 * DISK_COUNT](i => 0);
    var numbers := BuildLunList(adapter, response);
    PutHeader(response, numbers);
    var allocation := ReadBigEndian32(srb.cdb[6..10]);
    assert srb.cdb[..][6..10] == srb.cdb[6..10];
    assert response[..Min(8 + 8 * |numbers|, allocation)] == Clipped(LunList(numbers), allocation);
    status := srb.CopyResponse(response, Min(8 + 8 * |numbers|, allocation));
  }

  method PutHeader(response: array<Byte>, numbers: seq<nat>)
    requires response.Length == 8 + 8 * DISK_COUNT && |numbers| <= DISK_COUNT && Small(numbers)
    requires response[4..8 + 8 * |numbers|] == Zeros(4) + Entries(numbers)
    modifies response
    ensures response[..8 + 8 * |numbers|] == LunList(numbers)
  {
    var length := 8 + 8 * |numbers|;
    ghost var was := response[4..];
    WriteBigEndian32(response, 0, 8 * |numbers|);
    assert response[..] == Bytes(8 * |numbers|, 4) + was;
    assert response[..length] == Bytes(8 * |numbers|, 4) + was[..length - 4];
    assert Bytes(8 * |numbers|, 4) + (Zeros(4) + Entries(numbers)) == LunList(numbers);
  }
}
