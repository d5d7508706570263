/** A SCSI request from lease to release (driver/src/storage/lun_io_lease.cpp,
    driver/src/scsi/scsi.cpp). */
module Dispatch {
  import opened Protocol
  import opened Driver
  import opened Scsi
  import opened ScsiCommands
  import opened AdapterExtension

  const TEST_UNIT_READY: Byte := 0x00
  const START_STOP_UNIT: Byte := 0x1B
  const MEDIUM_REMOVAL: Byte := 0x1E
  const SYNCHRONIZE_CACHE: Byte := 0x35
  const SYNCHRONIZE_CACHE16: Byte := 0x91
  const VERIFY: Byte := 0x2F
  const VERIFY16: Byte := 0x8F
  const MODE_SELECT: Byte := 0x15
  const MODE_SELECT10: Byte := 0x55
  const ILLEGAL_COMMAND: Byte := 0x20

  predicate IsReadWrite(op: Byte) {
    op in {READ6, WRITE6, READ10, WRITE10, READ12, WRITE12, READ16, WRITE16}
  }

  predicate MovesNothing(op: Byte) {
    op in {TEST_UNIT_READY, START_STOP_UNIT, MEDIUM_REMOVAL, SYNCHRONIZE_CACHE, SYNCHRONIZE_CACHE16,
           VERIFY, VERIFY16, MODE_SELECT, MODE_SELECT10}
  }

  predicate IsUnknown(op: Byte) {
    !IsReadWrite(op) && !MovesNothing(op) && !Describes(op)
  }

  /** Taking and giving back a lease leaves a slot as it was, drain event included. */
  lemma ReleaseUndoesAcquire(l: Lun)
    requires l.idle <==> l.active == 0
    ensures ReleasedLun(AcquiredLun(l)) == l
    ensures AcquiredLun(l).active == l.active + 1 && !AcquiredLun(l).idle
  {
  }

  /** The scope of a lease: its construction acquires, its end releases what was acquired. */
  class LunIoLease {
    const adapter: Adapter
    const lun: nat
    const view: Option<LunView>

    constructor (adapter: Adapter, path: nat, target: nat, lun: nat)
      requires adapter.luns.Length == DISK_COUNT
      modifies adapter.luns
      ensures this.adapter == adapter && this.lun == lun
      ensures view.Some? <==> CanAcquire(old(adapter.luns[..]), path, target, lun)
      ensures view.Some? ==>
                && view.value == ViewOf(old(adapter.luns[lun]))
                && adapter.View() == SetLun(old(adapter.View()), lun, AcquiredLun(old(adapter.luns[lun])))
      ensures view.None? ==> adapter.View() == old(adapter.View())
    {
      var acquired := adapter.AcquireLunIo(path, target, lun);
      this.adapter, this.lun, view := adapter, lun, acquired;
    }

    method End()
      requires view.Some? ==> lun < adapter.luns.Length
      modifies adapter.luns
      ensures adapter.View() ==
                if view.Some? then SetLun(old(adapter.View()), lun, ReleasedLun(old(adapter.luns[lun])))
                else old(adapter.View())
    {
      if view.Some? { adapter.ReleaseLunIo(lun); }
    }
  }

  /** The disk after a READ or WRITE: only an accepted WRITE changes it, exactly where it
      says; an accepted one always fits. */
  function DiskAfter(bytes: seq<Byte>, verdict: Verdict, data: seq<Byte>): seq<Byte> {
    if verdict.Accepted? && verdict.access.write
       && verdict.access.count * SECTOR_SIZE <= |data|
       && (verdict.access.lba + verdict.access.count) * SECTOR_SIZE <= |bytes|
    then Overwrite(bytes, verdict.access.lba * SECTOR_SIZE, data[..verdict.access.count * SECTOR_SIZE])
    else bytes
  }

  /** The status bytes of WispDiskHandleExecuteScsi. */
  datatype ScsiOutcome = NoDevice | Finished(status: SrbStatus)

  /** DispatchScsiCommand on a leased view whose backing store is `disk`. */
  method DispatchScsiCommand(view: LunView, disk: array<Byte>, srb: Srb) returns (status: SrbStatus)
    requires srb.Valid() && disk != srb.data && disk != srb.sense && disk != srb.cdb
    requires SECTOR_SIZE <= disk.Length == view.size
    modifies srb, disk, srb.Buffers()
    ensures var op := old(srb.cdb[0]);
            var verdict :=
              Judge(old(srb.cdb[..]), srb.cdbLength, disk.Length, old(srb.transferLength), srb.data != null);
            if IsReadWrite(op) && verdict.Accepted? then
              var a := verdict.access;
              var n, at := a.count * SECTOR_SIZE, a.lba * SECTOR_SIZE;
              && status == Success && srb.transferLength == n
              && srb.data != null && at + n <= disk.Length && n <= srb.data.Length
              && disk[..] == (if a.write then Overwrite(old(disk[..]), at, old(srb.data[..n])) else old(disk[..]))
              && (!a.write ==> srb.data[..n] == old(disk[at..at + n]))
            else disk[..] == old(disk[..])
    ensures Describes(old(srb.cdb[0])) ==>
              Carries(srb, status, ContentOf(view, old(srb.cdb[..]), srb.cdbLength), old(srb.transferLength))
    ensures MovesNothing(old(srb.cdb[0])) ==> status == Success && srb.transferLength == 0
    ensures IsUnknown(old(srb.cdb[0])) ==> srb.Reports(status, ILLEGAL_REQUEST, ILLEGAL_COMMAND)
  {
    var op := srb.cdb[0];
    if MovesNothing(op) {
      srb.transferLength := 0;
      status := Success;
    } else if Describes(op) {
      status := DescribeDisk(view, srb);
    } else if IsReadWrite(op) {
      status := HandleReadWrite(disk, srb);
    } else {
      status := srb.SetSense(ILLEGAL_REQUEST, ILLEGAL_COMMAND);
    }
  }

  /** The SRB carries the content, or reports an invalid CDB when there is none. */
  ghost predicate Carries(srb: Srb, status: SrbStatus, content: Option<seq<Byte>>, available: nat)
    reads srb, srb.data, srb.sense
  {
    match content
    case None => srb.Reports(status, ILLEGAL_REQUEST, INVALID_CDB)
    case Some(bytes) => srb.Delivers(status, bytes, available)
  }

  /** The cases of the dispatch that describe the disk. */
  method DescribeDisk(view: LunView, srb: Srb) returns (status: SrbStatus)
    requires srb.Valid() && SECTOR_SIZE <= view.size && Describes(srb.cdb[0])
    modifies srb, srb.Buffers()
    ensures Carries(srb, status, ContentOf(view, old(srb.cdb[..]), srb.cdbLength), old(srb.transferLength))
  {
    var op := srb.cdb[0];
    if op == INQUIRY {
      status := HandleInquiry(view, srb);
    } else if op == REQUEST_SENSE {
      status := HandleRequestSense(srb);
    } else if op == READ_CAPACITY {
      status := HandleReadCapacity10(view.size, srb);
    } else if op == READ_CAPACITY16 {
      status := HandleReadCapacity16(view.size, srb);
    } else {
      status := HandleModeSense(srb, op == MODE_SENSE10);
    }
  }

  /** WispDiskHandleExecuteScsi: every path gives back the lease it took, so the adapter is
      as it was; only an addressed, online disk is touched. `disk` is the memory the
      addressed slot's backing pointer names. */
  method HandleExecuteScsi(adapter: Adapter, disk: array<Byte>, srb: Srb, path: nat, target: nat, lun: nat)
    returns (outcome: ScsiOutcome)
    requires adapter.luns.Length == DISK_COUNT && lun < 256
    requires forall i :: 0 <= i < DISK_COUNT ==> adapter.luns[i].number == i
    requires lun < DISK_COUNT ==> (adapter.luns[lun].idle <==> adapter.luns[lun].active == 0)
    requires lun < DISK_COUNT && adapter.luns[lun].backing.Some? ==>
               disk.Length == adapter.luns[lun].size >= SECTOR_SIZE
    requires srb.Valid() && disk != srb.data && disk != srb.sense && disk != srb.cdb
    modifies adapter.luns, srb, disk, srb.Buffers()
    ensures adapter.View() == old(adapter.View())
    ensures srb.cdbLength == 0 ==>
              && disk[..] == old(disk[..]) && outcome.Finished?
              && srb.Reports(outcome.status, ILLEGAL_REQUEST, INVALID_CDB)
    ensures Lists(srb.cdbLength, old(srb.cdb[0])) ==>
              var numbers := OnlineNumbers(old(adapter.luns[..]), DISK_COUNT);
              && disk[..] == old(disk[..]) && outcome.Finished?
              && Small(numbers)
              && Carries(srb, outcome.status, ReportContent(numbers, old(srb.cdb[..]), srb.cdbLength, path, target),
                         old(srb.transferLength))
    ensures srb.cdbLength > 0 && !Lists(srb.cdbLength, old(srb.cdb[0])) ==>
              (outcome.NoDevice? <==> !CanAcquire(old(adapter.luns[..]), path, target, lun))
    ensures outcome.NoDevice? ==> disk[..] == old(disk[..]) && srb.transferLength == 0
    ensures outcome.Finished? && srb.cdbLength > 0 && IsReadWrite(old(srb.cdb[0])) ==>
              var size := old(adapter.luns[lun].size);
              var verdict := Judge(old(srb.cdb[..]), srb.cdbLength, size, old(srb.transferLength), srb.data != null);
              disk[..] == DiskAfter(old(disk[..]), verdict, if srb.data == null then [] else old(srb.data[..]))
    ensures outcome.Finished? && srb.cdbLength > 0 && Describes(old(srb.cdb[0])) ==>
              && disk[..] == old(disk[..])
              && Carries(srb, outcome.status,
                         ContentOf(ViewOf(old(adapter.luns[lun])), old(srb.cdb[..]), srb.cdbLength),
                         old(srb.transferLength))
  {
    hide Judge, ContentOf, ReportContent, OnlineNumbers, Srb.Reports, Srb.Delivers;
    if srb.cdbLength == 0 {
      var status := srb.SetSense(ILLEGAL_REQUEST, INVALID_CDB);
      return Finished(status);
    }
    if srb.cdb[0] == REPORT_LUNS {
      var status := HandleReportLuns(adapter, srb, path, target);
      return Finished(status);
    }
    var lease := new LunIoLease(adapter, path, target, lun);
    if lease.view.None? {
      srb.transferLength := 0;
      return NoDevice;
    }
    var status := DispatchScsiCommand(lease.view.value, disk, srb);
    ReleaseUndoesAcquire(old(adapter.luns[lun]));
    lease.End();
    assert adapter.luns[..] == old(adapter.luns[..]);
    outcome := Finished(status);
  }

  predicate Lists(length: nat, op: Byte) {
    length > 0 && op == REPORT_LUNS
  }
}
