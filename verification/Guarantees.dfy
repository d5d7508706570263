/** What the driver promises in every state of every interleaving, in the terms of its
    own documentation. */
module Guarantees {
  import opened Protocol
  import opened Driver
  import opened Scsi
  import opened System
  import opened Storage
  import opened StorageEvents
  import opened Invariant
  import opened TableSteps
  import opened Steps

  // ------------------------------------------------------------------ Storage

  /** A live lease reads and writes an allocated, unfreed buffer of exactly the size and
      device it was given, whatever deletes and shuts down meanwhile. The drain event is
      signalled exactly when the slot has no lease, and no freed memory was ever touched
      or freed again. */
  lemma LeaseSafety(s: System)
    requires Reachable(s)
    ensures !s.fault && |s.x.luns| == DISK_COUNT
    ensures forall l :: l in s.leases ==>
              var lease := s.leases[l];
              && lease.slot < DISK_COUNT && s.x.luns[lease.slot].state != Empty
              && s.x.luns[lease.slot].device == lease.view.device
              && lease.view.buffer in s.heap && lease.view.buffer !in s.freed
              && |s.heap[lease.view.buffer]| == lease.view.size == s.x.luns[lease.slot].size
    ensures forall i :: 0 <= i < DISK_COUNT ==>
              && s.x.luns[i].active == |On(s.leases, i)|
              && (s.x.luns[i].idle <==> On(s.leases, i) == {})
  {
    ReachableInvariant(s);
    forall l | l in s.leases
      ensures var lease := s.leases[l];
              && lease.slot < DISK_COUNT && s.x.luns[lease.slot].state != Empty
              && s.x.luns[lease.slot].device == lease.view.device
              && lease.view.buffer in s.heap && lease.view.buffer !in s.freed
              && |s.heap[lease.view.buffer]| == lease.view.size == s.x.luns[lease.slot].size
    {
      assert LeaseOk(s.x.luns, s.leases[l]);
    }
    forall i | 0 <= i < DISK_COUNT
      ensures s.x.luns[i].idle <==> On(s.leases, i) == {}
    {
      assert SlotOk(s.x.luns[i], i, s.x.nextDevice, ActiveWork(s), s.sweep.Sweeping?);
    }
  }

  /** Who is responsible for freeing a buffer. */
  datatype Owner = Slot(i: nat) | Procedure

  ghost function Owners(s: System, b: nat): set<Owner> {
    (set i | 0 <= i < |s.x.luns| && s.x.luns[i].backing == Some(b) :: Slot(i))
    + (if Held(ActiveWork(s)) == Some(b) then {Procedure} else {})
  }

  /** Every buffer that is live has exactly one owner, and a buffer that is not live has
      none: nothing leaks on any failure path and nothing is freed twice. */
  lemma PoolConservation(s: System, b: nat)
    requires Reachable(s)
    ensures |Owners(s, b)| == if b in s.heap then 1 else 0
    ensures b in s.freed ==> b !in s.heap
  {
    ReachableInvariant(s);
    if b in s.heap {
      if Held(ActiveWork(s)) == Some(b) {
        assert Owners(s, b) == {Procedure};
      } else {
        assert Backed(s.x.luns, b);
        var i :| 0 <= i < |s.x.luns| && s.x.luns[i].backing == Some(b);
        OneSlot(s, b, i);
      }
    } else {
      assert Owners(s, b) == {};
    }
  }

  lemma OneSlot(s: System, b: nat, i: nat)
    requires PoolOk(s.x.luns, s.heap, s.freed, ActiveWork(s)) && Held(ActiveWork(s)) != Some(b)
    requires i < |s.x.luns| && s.x.luns[i].backing == Some(b)
    ensures Owners(s, b) == {Slot(i)}
  {
  }

  /** With no removal or creation under way, the live memory is exactly the LUNs' backing. */
  lemma QuiescentPool(s: System, b: nat)
    requires Reachable(s) && ActiveWork(s).Ready?
    ensures b in s.heap <==> Backed(s.x.luns, b)
  {
    ReachableInvariant(s);
  }

  function ListedBytes(disks: seq<DiskState>): nat {
    if disks == [] then 0 else ListedBytes(disks[..|disks| - 1]) + disks[|disks| - 1].size
  }

  lemma {:induction false} InventoryBytes(luns: seq<Lun>, n: nat)
    requires n <= |luns| && forall i :: 0 <= i < n && luns[i].state == Empty ==> luns[i].size == 0
    ensures ListedBytes(Inventory(luns, n)) == SizesTo(luns, n)
    ensures |Inventory(luns, n)| <= n
  {
    if n > 0 {
      InventoryBytes(luns, n - 1);
      var before := Inventory(luns, n - 1);
      assert (before + [DiskStateOf(luns[n - 1])])[..|before|] == before && before + [] == before;
    }
  }

  /** Byte accounting: the check and the commit are separate sections, yet the total is
      always the sum of the live sizes, stays within the limit, and agrees with the
      disks that every ListState reply lists. At most one operation is ever pending. */
  lemma Accounting(s: System)
    requires Reachable(s)
    ensures s.x.total == Sizes(s.x.luns) <= MAXIMUM_TOTAL_BYTES
    ensures Snapshot(s.x).bytes == ListedBytes(Snapshot(s.x).disks) <= MAXIMUM_TOTAL_BYTES
    ensures |Snapshot(s.x).disks| <= DISK_COUNT
    ensures Snapshot(s.x).pending <= 1
  {
    ReachableInvariant(s);
    forall i | 0 <= i < |s.x.luns| && s.x.luns[i].state == Empty ensures s.x.luns[i].size == 0 {
      assert SlotOk(s.x.luns[i], i, s.x.nextDevice, ActiveWork(s), s.sweep.Sweeping?);
    }
    InventoryBytes(s.x.luns, |s.x.luns|);
    var ops := s.x.operations;
    forall k | 0 <= k < |ops| && ops[k].state == Pending ensures Find(ops, s.flight.cmd.identity.id) == k {
      FindUnique(ops, s.x.nextOperation, k);
    }
    AtMostOnePending(ops, |ops|);
  }

  /** The saturating subtraction of a removal never saturates. */
  lemma RemovalNeverSaturates(s: System, slot: nat)
    requires Reachable(s) && InRange(s, slot)
    ensures s.x.luns[slot].size <= s.x.total
    ensures FinalizeRemoval(s.x, slot).total == s.x.total - s.x.luns[slot].size
  {
    ReachableInvariant(s);
    SizesUpdate(s.x.luns, slot, ClearedLun(s.x.luns[slot]));
  }

  lemma {:induction false} AtMostOnePending(ops: seq<Record>, n: nat)
    requires n <= |ops| && forall j, k :: 0 <= j < k < |ops| && ops[j].state == Pending ==> ops[k].state != Pending
    ensures PendingCount(ops, n) <= 1
    ensures PendingCount(ops, n) == 1 ==> exists j :: 0 <= j < n && ops[j].state == Pending
  {
    if n > 0 { AtMostOnePending(ops, n - 1); }
  }

  lemma {:induction false} OnlineListed(luns: seq<Lun>, n: nat, l: nat)
    requires n <= |luns| && forall i :: 0 <= i < n ==> luns[i].number == i
    ensures l in OnlineNumbers(luns, n) <==> l < n && luns[l].state == Online
  {
    if n > 0 { OnlineListed(luns, n - 1, l); }
  }

  /** REPORT LUNS lists exactly the LUNs for which a SCSI request gets a lease. */
  lemma ReportedIffServed(s: System, l: nat)
    requires Reachable(s)
    ensures l in OnlineNumbers(s.x.luns, |s.x.luns|) <==> CanAcquire(s.x.luns, 0, 0, l)
  {
    ReachableInvariant(s);
    forall i | 0 <= i < |s.x.luns|
      ensures s.x.luns[i].number == i && (s.x.luns[i].state == Online ==> s.x.luns[i].backing.Some?)
    {
      assert SlotOk(s.x.luns[i], i, s.x.nextDevice, ActiveWork(s), s.sweep.Sweeping?);
    }
    OnlineListed(s.x.luns, |s.x.luns|, l);
  }

  // --------------------------------------------------------------- Management

  /** Busy is set exactly while one command holds the token, the idle event exactly while
      none does, and a Pending record is that command's own. */
  lemma SerializationToken(s: System)
    requires Reachable(s)
    ensures s.x.busy <==> s.flight.Flight?
    ensures s.x.idle <==> !s.x.busy
    ensures forall k :: 0 <= k < |s.x.operations| && s.x.operations[k].state == Pending ==>
              && Unpublished(s.flight) && s.flight.cmd.IsReserved()
              && Handle(s.x.instance, s.x.operations[k].id) == s.flight.cmd.identity
  {
    ReachableInvariant(s);
  }

  /** While the worker executes a reserved command, its copy is exactly the record in the
      table, so overwriting the whole record loses no concurrent update; and the record it
      looks up is always there and Pending. */
  lemma WorkerCopyIsCurrent(s: System)
    requires Reachable(s) && s.flight.Flight? && s.flight.cmd.IsReserved()
    ensures InPhase(s, Queued) ==> PendingRecord(s.x, s.flight.cmd.identity).Some?
    ensures InPhase(s, Working) ==> PendingRecord(s.x, s.flight.cmd.identity) == Some(s.flight.snapshot)
    ensures InPhase(s, Decided) ==>
              var r := PendingRecord(s.x, s.flight.cmd.identity);
              r.Some? && s.flight.snapshot == r.value.(
                state := s.flight.snapshot.state, result := s.flight.snapshot.result,
                device := s.flight.snapshot.device, lun := s.flight.snapshot.lun)
  {
    ReachableInvariant(s);
  }

  /** Live create records and LUNs with a creating operation are in bijection, and each such
      LUN has the device id of its record and the size, media kind and drive letter that
      were asked for. */
  lemma CreateRecordsMatchLuns(s: System)
    requires Reachable(s)
    ensures forall k :: 0 <= k < |s.x.operations| ==>
              s.x.operations[k].state == Succeeded && s.x.operations[k].mutation == CREATE_DISK ==>
                LunOf(s.x.luns, s.x.operations[k])
    ensures forall i :: 0 <= i < |s.x.luns| && s.x.luns[i].createId != 0 ==>
              var k := Find(s.x.operations, s.x.luns[i].createId);
              && k < |s.x.operations| && s.x.operations[k].state == Succeeded
              && s.x.operations[k].mutation == CREATE_DISK && s.x.operations[k].lun == i
              && s.x.operations[k].device == s.x.luns[i].device
              && HasParams(s.x.luns[i], s.x.operations[k].create)
  {
    ReachableInvariant(s);
  }

  /** Replies and queries agree: every outcome the driver has ever given for a handle, first
      answer or replay, is what a query of the handle answers now, except that a created disk
      may have been deleted since and that old handles are forgotten. */
  lemma RepliesAgreeWithQueries(s: System, srb: nat)
    requires Reachable(s) && srb in s.controls && !s.controls[srb].stage.Open? && s.controls[srb].stage.reply.Outcome?
    ensures var r := s.controls[srb].stage.reply.response;
            var q := Query(s.x, s.controls[srb].cmd.identity);
            && r.Matches(s.controls[srb].cmd.identity, s.controls[srb].cmd.Mutation())
            && (q.Some? ==>
                  var now := Respond(s.x.instance, q.value);
                  now == r || (r.state == StateCode(Succeeded) && now == r.(state := StateCode(Deleted))))
  {
    ReachableInvariant(s);
    assert ReplyOk(s, s.controls[srb], s.controls[srb].stage.reply);
  }

  /** Every operation id executes its mutation at most once, over any run of submissions,
      replays, evictions and parameter changes; the retained record says which. */
  lemma AtMostOnce(s: System, id: nat)
    requires Reachable(s)
    ensures Count(s.effects, id) <= 1
    ensures var r := Observe(s.x.operations, id);
            r.Some? ==>
              && (r.value.state in {Succeeded, Deleted} ==> Count(s.effects, id) == 1)
              && (r.value.state in {Reserved, Failed} ==> Count(s.effects, id) == 0)
              && (r.value.state == Pending ==>
                  Count(s.effects, id) == if s.flight.Flight? && s.flight.changed then 1 else 0)
  {
    ReachableInvariant(s);
    var k := Find(s.x.operations, id);
    if k < |s.x.operations| { assert Count(s.effects, id) == Expected(s.x.operations[k], s.flight); }
  }

  /** Every management SRB is completed at most once, completed ones are exactly the Done
      ones, and once the token is free every SRB admitted so far has its reply. */
  lemma CompletedOnce(s: System)
    requires Reachable(s)
    ensures forall i, j :: 0 <= i < j < |s.completions| ==> s.completions[i] != s.completions[j]
    ensures forall srb :: srb in s.completions <==> srb in s.controls && s.controls[srb].stage.Done?
    ensures s.flight.Free? ==> forall srb :: srb in s.controls ==> !s.controls[srb].stage.Open?
  {
    ReachableInvariant(s);
  }

  /** BusChangeDetected is raised for exactly the commands that changed the LUN table, once
      each and in order; only the command in flight may still owe its notification. */
  lemma BusChangeIffChanged(s: System)
    requires Reachable(s)
    ensures s.notices <= s.changes && |s.changes| <= |s.notices| + 1
    ensures s.flight.Free? ==> s.notices == s.changes
  {
    ReachableInvariant(s);
  }

  // ------------------------------------------------------------ Data integrity

  /** What an accepted READ through a lease delivers. */
  function Delivered(s: System, l: nat, a: Access): seq<Byte>
    requires l in s.leases && s.leases[l].view.buffer in s.heap
    requires (a.lba + a.count) * SECTOR_SIZE <= |s.heap[s.leases[l].view.buffer]|
  {
    s.heap[s.leases[l].view.buffer][a.lba * SECTOR_SIZE..(a.lba + a.count) * SECTOR_SIZE]
  }

  /** A lease's buffer holds what was last written to its device. */
  lemma LeasedContents(s: System, l: nat)
    requires StorageInv(s) && l in s.leases
    ensures var view := s.leases[l].view;
            view.buffer in s.heap && ContentsOk(s.heap[view.buffer], view.size, s.log, view.device)
  {
  }

  lemma SliceOfSlice(bytes: seq<Byte>, i: nat, j: nat, x: nat, y: nat)
    requires i <= j <= |bytes| && x <= y <= j - i
    ensures bytes[i..j][x..y] == bytes[i + x..i + y]
  {
    var a, b := bytes[i..j][x..y], bytes[i + x..i + y];
    assert |a| == |b|;
    forall k | 0 <= k < |a| ensures a[k] == b[k] {
      assert a[k] == bytes[i..j][x + k] == bytes[i + (x + k)];
    }
  }

  lemma BlockOfSlice(bytes: seq<Byte>, lba: nat, count: nat, k: nat)
    requires k < count && (lba + count) * SECTOR_SIZE <= |bytes|
    ensures Block(bytes[lba * SECTOR_SIZE..(lba + count) * SECTOR_SIZE], k) == Block(bytes, lba + k)
  {
    SliceOfSlice(bytes, lba * SECTOR_SIZE, (lba + count) * SECTOR_SIZE, k * SECTOR_SIZE, (k + 1) * SECTOR_SIZE);
  }

  lemma LeasedRead(bytes: seq<Byte>, view: LunView, log: seq<BlockWrite>, request: ScsiRequest, k: nat)
    requires ContentsOk(bytes, view.size, log, view.device) && view.size <= MAXIMUM_DISK_SIZE && request.WellFormed()
    requires var verdict :=
               Judge(request.cdb, request.cdbLength, view.size, request.transferLength, request.data.Some?);
             verdict.Accepted? && k < verdict.access.count
    ensures var a :=
              Judge(request.cdb, request.cdbLength, view.size, request.transferLength, request.data.Some?).access;
            && (a.lba + a.count) * SECTOR_SIZE <= |bytes|
            && Block(bytes[a.lba * SECTOR_SIZE..(a.lba + a.count) * SECTOR_SIZE], k)
               == LastWritten(log, view.device, a.lba + k)
  {
    hide Judge, LastWritten;
    AcceptedInBounds(request.cdb, request.cdbLength, view.size, request.transferLength, request.data.Some?);
    var a := Judge(request.cdb, request.cdbLength, view.size, request.transferLength, request.data.Some?).access;
    assert a.lba + k < view.size / SECTOR_SIZE;
    BlockOfSlice(bytes, a.lba, a.count, k);
  }

  lemma LeasedSize(s: System, l: nat)
    requires StorageInv(s) && l in s.leases
    ensures s.leases[l].view.size <= MAXIMUM_DISK_SIZE
  {
  }

  lemma LeaseReads(s: System, l: nat)
    requires Reachable(s) && l in s.leases
    ensures var view := s.leases[l].view;
            && view.buffer in s.heap && view.size <= MAXIMUM_DISK_SIZE
            && ContentsOk(s.heap[view.buffer], view.size, s.log, view.device)
  {
    ReachableInvariant(s);
    LeasedContents(s, l);
    LeasedSize(s, l);
  }

  /** Whole-run data integrity: each block delivered is the last block written to that
      device since it was created, or zeros, for every CDB form, any number of LUNs, and
      slots and buffers reused after deletion. */
  lemma DataIntegrity(s: System, l: nat, request: ScsiRequest, k: nat)
    requires Reachable(s) && l in s.leases && request.WellFormed()
    ensures var verdict := VerdictOf(s, l, request);
            verdict.Accepted? && k < verdict.access.count ==>
              var a := verdict.access;
              && s.leases[l].view.buffer in s.heap
              && (a.lba + a.count) * SECTOR_SIZE <= |s.heap[s.leases[l].view.buffer]|
              && Block(Delivered(s, l, a), k) == LastWritten(s.log, s.leases[l].view.device, a.lba + k)
  {
    LeaseReads(s, l);
    if VerdictOf(s, l, request).Accepted? && k < VerdictOf(s, l, request).access.count {
      LeasedRead(s.heap[s.leases[l].view.buffer], s.leases[l].view, s.log, request, k);
    }
  }

  /** The request buffer holds the bytes that a transfer copies. */
  predicate TransferInBoundsAt(s: System, l: nat, request: ScsiRequest)
    requires l in s.leases && request.WellFormed()
  {
    var verdict := VerdictOf(s, l, request);
    verdict.Accepted? && request.data.Some? && verdict.access.count * SECTOR_SIZE <= request.transferLength
  }

  lemma LogGrows(s: System, l: nat, request: ScsiRequest)
    requires Reachable(s) && l in s.leases && request.WellFormed()
    requires VerdictOf(s, l, request).Accepted? && VerdictOf(s, l, request).access.write
    ensures TransferInBoundsAt(s, l, request)
    ensures OnTransfer(s, l, request).log == s.log + [Written(s, l, request)]
  {
    ReachableInvariant(s);
    TransferInBounds(s, l, request);
    WriteView(s, l, request);
  }

  /** And an accepted WRITE becomes the last write of exactly the blocks it covers. */
  lemma WriteIsLast(s: System, l: nat, request: ScsiRequest, device: nat, block: nat)
    requires Reachable(s) && l in s.leases && request.WellFormed()
    ensures VerdictOf(s, l, request).Accepted? && VerdictOf(s, l, request).access.write ==>
              && TransferInBoundsAt(s, l, request)
              && var w := Written(s, l, request);
                 LastWritten(OnTransfer(s, l, request).log, device, block) ==
                   if Covers(w, device, block) then Block(w.data, block - w.lba) else LastWritten(s.log, device, block)
  {
    if VerdictOf(s, l, request).Accepted? && VerdictOf(s, l, request).access.write {
      LogGrows(s, l, request);
      var w := Written(s, l, request);
      assert (s.log + [w])[..|s.log|] == s.log && (s.log + [w])[|s.log|] == w;
    }
  }
}
