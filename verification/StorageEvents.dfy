/** Every event of the driver keeps the storage invariant. */
module StorageEvents {
  import opened Protocol
  import opened Driver
  import opened Scsi
  import opened System
  import opened Storage
  import opened StorageSteps

  /** The storage components of a state. */
  ghost predicate StoreIs(s: System, luns: seq<Lun>, total: nat, next: nat, heap: Heap, freed: set<nat>,
                          leases: map<nat, Lease>, log: seq<BlockWrite>, w: Work, sweeping: bool)
  {
    && s.x.luns == luns && s.x.total == total && s.x.nextDevice == next
    && s.heap == heap && s.freed == freed && s.leases == leases && s.log == log
    && ActiveWork(s) == w && s.sweep.Sweeping? == sweeping && !s.fault
  }

  predicate CreateAt(s: System) {
    AtWork(s, CREATE_DISK) && !s.sweep.Sweeping?
  }

  // ----------------------------------------------------------------- Creation

  lemma SelectView(s: System)
    requires CreateAt(s) && s.flight.work.Ready? && !s.fault && SizeOk(s.flight.snapshot.create.size)
    ensures var w := OnSelect(s).flight.work;
            && StoreIs(OnSelect(s), s.x.luns, s.x.total, s.x.nextDevice, s.heap, s.freed, s.leases, s.log, w, false)
            && Moves(s.x.luns, Ready, w) && (w.Ready? || w.Selected?)
            && (w.Selected? ==> s.x.total + w.request.size <= MAXIMUM_TOTAL_BYTES)
  {
    hide FirstIn;
  }

  lemma SelectKeeps(s: System)
    requires StorageInv(s) && CreateAt(s) && s.flight.work.Ready? && SizeOk(s.flight.snapshot.create.size)
    ensures StorageInv(OnSelect(s))
  {
    SelectView(s);
    MoveSlots(s.x.luns, s.x.nextDevice, Ready, false, OnSelect(s).flight.work);
  }

  lemma AllocateView(s: System, ok: bool, buffer: nat, contents: seq<Byte>)
    requires CreateAt(s) && s.flight.work.Selected? && !s.fault
    ensures var s' := OnAllocate(s, ok, buffer, contents);
            var w := s.flight.work;
            StoreIs(s', s.x.luns, s.x.total, s.x.nextDevice, if ok then s.heap[buffer := contents] else s.heap,
                    if ok then s.freed - {buffer} else s.freed, s.leases, s.log,
                    if ok then Allocated(w.slot, w.request, buffer) else Ready, false)
  {
  }

  /** The procedure has moved along, with the buffers it allocated or freed. */
  lemma WorkKeeps(s: System, s': System, heap: Heap, freed: set<nat>, w: Work)
    requires StorageInv(s) && SlotsOk(s.x.luns, s.x.nextDevice, w, s.sweep.Sweeping?)
    requires PoolOk(s.x.luns, heap, freed, w) && DataOk(s.x.luns, heap, s.log, s.x.nextDevice, w)
    requires Creating(w) ==> s.x.total + w.request.size <= MAXIMUM_TOTAL_BYTES
    requires StoreIs(s', s.x.luns, s.x.total, s.x.nextDevice, heap, freed, s.leases, s.log, w, s.sweep.Sweeping?)
    ensures StorageInv(s')
  {
  }

  lemma AllocateKeeps(s: System, ok: bool, buffer: nat, contents: seq<Byte>)
    requires StorageInv(s) && CreateAt(s) && s.flight.work.Selected?
    requires ok ==> buffer !in s.heap && |contents| == s.flight.work.request.size
    ensures StorageInv(OnAllocate(s, ok, buffer, contents))
  {
    hide OnAllocate, StoreIs;
    var s', w := OnAllocate(s, ok, buffer, contents), s.flight.work;
    var heap, freed := if ok then s.heap[buffer := contents] else s.heap, if ok then s.freed - {buffer} else s.freed;
    var w' := if ok then Allocated(w.slot, w.request, buffer) else Ready;
    AllocateView(s, ok, buffer, contents);
    MoveSlots(s.x.luns, s.x.nextDevice, w, false, w');
    HeldData(s.x.luns, s.heap, s.log, s.x.nextDevice, w, heap, w');
    if ok { AllocatePool(s.x.luns, s.heap, s.freed, w, buffer, contents); }
    WorkKeeps(s, s', heap, freed, w');
  }

  lemma ZeroKeeps(s: System)
    requires StorageInv(s) && CreateAt(s) && s.flight.work.Allocated?
    ensures StorageInv(OnZero(s))
  {
    var w, s' := s.flight.work, OnZero(s);
    MoveSlots(s.x.luns, s.x.nextDevice, w, false, s'.flight.work);
    ZeroPool(s.x.luns, s.heap, s.freed, w);
    HeldData(s.x.luns, s.heap, s.log, s.x.nextDevice, w, s'.heap, s'.flight.work);
  }

  predicate CommitFits(s: System)
    requires s.flight.Flight? && s.flight.work.Zeroed?
  {
    && InRange(s, s.flight.work.slot) && !s.x.stopping
    && s.x.luns[s.flight.work.slot].state == Empty && s.x.nextDevice != 0
  }

  lemma CommitView(s: System)
    requires CreateAt(s) && s.flight.work.Zeroed? && CommitFits(s) && !s.fault
    ensures var w := s.flight.work;
            var luns := s.x.luns[w.slot := NewLun(w.request, w.slot, s.x.nextDevice, w.buffer)];
            StoreIs(OnCommit(s), luns, s.x.total + w.request.size, (s.x.nextDevice + 1) % U32_LIMIT,
                    s.heap, s.freed, s.leases, s.log, Ready, false)
  {
  }

  lemma CommitKeeps(s: System)
    requires StorageInv(s) && CreateAt(s) && s.flight.work.Zeroed? && CommitFits(s)
    ensures StorageInv(OnCommit(s))
  {
    var w := s.flight.work;
    var l := NewLun(w.request, w.slot, s.x.nextDevice, w.buffer);
    CommitView(s);
    CommitSlots(s.x.luns, s.x.nextDevice, w);
    CommitPool(s.x.luns, s.heap, s.freed, w, l);
    CommitLeases(s.x.luns, s.leases, w.slot, l);
    SizesUpdate(s.x.luns, w.slot, l);
    CommitData(s.x.luns, s.heap, s.log, s.x.nextDevice, w);
  }

  lemma CommitFailsKeeps(s: System)
    requires StorageInv(s) && CreateAt(s) && s.flight.work.Zeroed? && InRange(s, s.flight.work.slot) && !CommitFits(s)
    ensures StorageInv(OnCommit(s))
  {
    MoveSlots(s.x.luns, s.x.nextDevice, s.flight.work, false, OnCommit(s).flight.work);
  }

  lemma DiscardKeeps(s: System)
    requires StorageInv(s) && CreateAt(s) && s.flight.work.Discarding?
    ensures StorageInv(OnDiscard(s))
  {
    var w, s' := s.flight.work, OnDiscard(s);
    MoveSlots(s.x.luns, s.x.nextDevice, w, false, Ready);
    FreePoolOk(s.x.luns, s.heap, s.freed, w, Ready);
    HeldData(s.x.luns, s.heap, s.log, s.x.nextDevice, w, s'.heap, Ready);
  }

  // ------------------------------------------------------------------ Removal

  /** `who` is the one procedure at work. */
  predicate Acts(s: System, who: Actor) {
    WorkOf(s, who) == ActiveWork(s) && (who == Worker <==> !s.sweep.Sweeping?)
  }

  lemma MarkKeeps(s: System)
    requires StorageInv(s) && AtWork(s, DELETE_DISK) && !s.sweep.Sweeping? && s.flight.work.Ready?
    ensures StorageInv(OnMark(s))
  {
    var slot := OnlineAt(s.x.luns, s.flight.snapshot.remove);
    if slot < |s.x.luns| {
      var l := s.x.luns[slot].(state := Stopping);
      var w := Marked(slot, s.x.luns[slot].device);
      StopSlots(s.x.luns, s.x.nextDevice, slot);
      SameBufferPool(s.x.luns, s.heap, s.freed, Ready, slot, l, w);
      SameBufferData(s.x.luns, s.heap, s.log, s.x.nextDevice, Ready, slot, l, w);
      SameSizeAccount(s.x.luns, s.x.total, Ready, slot, l, w);
      SameViewLeases(s.x.luns, s.leases, slot, l);
    }
  }

  lemma DrainKeeps(s: System, who: Actor)
    requires StorageInv(s) && Acts(s, who) && WorkOf(s, who).Marked?
    requires InRange(s, WorkOf(s, who).slot) && s.x.luns[WorkOf(s, who).slot].idle
    ensures var w := WorkOf(s, who); StorageInv(SetWork(s, who, Drained(w.slot, w.device)))
  {
    var w := WorkOf(s, who);
    MoveSlots(s.x.luns, s.x.nextDevice, w, s.sweep.Sweeping?, Drained(w.slot, w.device));
  }

  lemma DetachKeeps(s: System, who: Actor)
    requires StorageInv(s) && Acts(s, who) && WorkOf(s, who).Drained? && InRange(s, WorkOf(s, who).slot)
    ensures var w := WorkOf(s, who);
            var (backing, x) := Detach(s.x, w.slot, w.device);
            StorageInv(SetWork(s.(x := x), who, Detached(w.slot, w.device, backing)))
  {
    var w := WorkOf(s, who);
    var l := s.x.luns[w.slot].(backing := None);
    var w' := Detached(w.slot, w.device, s.x.luns[w.slot].backing);
    DetachSlots(s.x.luns, s.x.nextDevice, w, s.sweep.Sweeping?);
    DetachPool(s.x.luns, s.heap, s.freed, w);
    DrainedLeases(s.x.luns, s.leases, w.slot, l);
    SameSizeAccount(s.x.luns, s.x.total, w, w.slot, l, w');
    UnbackedData(s.x.luns, s.heap, s.log, s.x.nextDevice, w, w.slot, l, w');
  }

  lemma FreeKeeps(s: System, who: Actor)
    requires StorageInv(s) && Acts(s, who) && WorkOf(s, who).Detached?
    ensures StorageInv(OnFree(s, who))
  {
    var w, s' := WorkOf(s, who), OnFree(s, who);
    var w' := Freed(w.slot, w.device);
    MoveSlots(s.x.luns, s.x.nextDevice, w, s.sweep.Sweeping?, w');
    FreePoolOk(s.x.luns, s.heap, s.freed, w, w');
    HeldData(s.x.luns, s.heap, s.log, s.x.nextDevice, w, s'.heap, w');
  }

  lemma FinalizeView(s: System, who: Actor)
    requires Acts(s, who) && WorkOf(s, who).Freed? && InRange(s, WorkOf(s, who).slot) && !s.fault
    ensures var w := WorkOf(s, who);
            var size := s.x.luns[w.slot].size;
            StoreIs(OnFinalize(s, who), s.x.luns[w.slot := ClearedLun(s.x.luns[w.slot])],
                    if s.x.total >= size then s.x.total - size else 0, s.x.nextDevice,
                    s.heap, s.freed, s.leases, s.log, Ready, s.sweep.Sweeping?)
  {
  }

  lemma FinalizeKeeps(s: System, who: Actor)
    requires StorageInv(s) && Acts(s, who) && WorkOf(s, who).Freed? && InRange(s, WorkOf(s, who).slot)
    ensures StorageInv(OnFinalize(s, who))
  {
    var w := WorkOf(s, who);
    var l := ClearedLun(s.x.luns[w.slot]);
    FinalizeView(s, who);
    FinalizeSlots(s.x.luns, s.x.nextDevice, w, s.sweep.Sweeping?);
    FinalizePool(s.x.luns, s.heap, s.freed, w);
    FinalizeAccount(s.x.luns, s.x.total, w);
    DrainedLeases(s.x.luns, s.leases, w.slot, l);
    UnbackedData(s.x.luns, s.heap, s.log, s.x.nextDevice, w, w.slot, l, Ready);
  }

  /** Publication stamps the creating operation on an online LUN and nothing else. */
  lemma StampKeeps(s: System, s': System, slot: nat, id: nat)
    requires StorageInv(s) && ActiveWork(s) == Ready && InRange(s, slot) && s.x.luns[slot].state == Online
    requires StoreIs(s', s.x.luns[slot := s.x.luns[slot].(createId := id)], s.x.total, s.x.nextDevice,
                     s.heap, s.freed, s.leases, s.log, Ready, s.sweep.Sweeping?)
    ensures StorageInv(s')
  {
    var l := s.x.luns[slot].(createId := id);
    SameBufferPool(s.x.luns, s.heap, s.freed, Ready, slot, l, Ready);
    SameBufferData(s.x.luns, s.heap, s.log, s.x.nextDevice, Ready, slot, l, Ready);
    SameSizeAccount(s.x.luns, s.x.total, Ready, slot, l, Ready);
    SameViewLeases(s.x.luns, s.leases, slot, l);
    StampSlots(s.x.luns, s.x.nextDevice, s.sweep.Sweeping?, slot, id);
  }

  // ---------------------------------------------------------------------- I/O

  /** A slot's lease count and drain event change together with the leases. */
  lemma CountedKeeps(s: System, s': System, slot: nat, n: Lun, leases: map<nat, Lease>)
    requires StorageInv(s) && InRange(s, slot) && s.x.luns[slot].state != Empty
    requires n == s.x.luns[slot].(active := n.active, idle := n.idle) && (n.idle <==> n.active == 0)
    requires s.x.luns[slot].state == Stopping ==> n.active <= s.x.luns[slot].active
    requires LeasesOk(s.x.luns[slot := n], leases)
    requires StoreIs(s', s.x.luns[slot := n], s.x.total, s.x.nextDevice, s.heap, s.freed, leases, s.log,
                     ActiveWork(s), s.sweep.Sweeping?)
    ensures StorageInv(s')
  {
    var w := ActiveWork(s);
    CountSlots(s.x.luns, s.x.nextDevice, w, s.sweep.Sweeping?, slot, n);
    SameBufferPool(s.x.luns, s.heap, s.freed, w, slot, n, w);
    SameBufferData(s.x.luns, s.heap, s.log, s.x.nextDevice, w, slot, n, w);
    SameSizeAccount(s.x.luns, s.x.total, w, slot, n, w);
  }

  lemma AcquireView(s: System, l: nat, path: nat, target: nat, lun: nat)
    requires CanAcquire(s.x.luns, path, target, lun) && !s.fault
    ensures StoreIs(OnAcquire(s, l, path, target, lun), s.x.luns[lun := AcquiredLun(s.x.luns[lun])], s.x.total,
                    s.x.nextDevice, s.heap, s.freed, s.leases[l := Lease(lun, ViewOf(s.x.luns[lun]))], s.log,
                    ActiveWork(s), s.sweep.Sweeping?)
  {
  }

  lemma AcquireKeeps(s: System, l: nat, path: nat, target: nat, lun: nat)
    requires StorageInv(s) && l !in s.leases
    ensures StorageInv(OnAcquire(s, l, path, target, lun))
  {
    if CanAcquire(s.x.luns, path, target, lun) {
      AcquireView(s, l, path, target, lun);
      AcquireLeases(s.x.luns, s.leases, l, lun);
      assert SlotOk(s.x.luns[lun], lun, s.x.nextDevice, ActiveWork(s), s.sweep.Sweeping?);
      CountedKeeps(s, OnAcquire(s, l, path, target, lun), lun, AcquiredLun(s.x.luns[lun]),
                   s.leases[l := Lease(lun, ViewOf(s.x.luns[lun]))]);
    }
  }

  lemma ReleaseView(s: System, l: nat)
    requires l in s.leases && InRange(s, s.leases[l].slot) && !s.fault
    ensures var slot := s.leases[l].slot;
            StoreIs(OnRelease(s, l), s.x.luns[slot := ReleasedLun(s.x.luns[slot])], s.x.total, s.x.nextDevice,
                    s.heap, s.freed, s.leases - {l}, s.log, ActiveWork(s), s.sweep.Sweeping?)
  {
  }

  lemma ReleaseKeeps(s: System, l: nat)
    requires StorageInv(s) && l in s.leases && InRange(s, s.leases[l].slot)
    ensures StorageInv(OnRelease(s, l))
  {
    var slot := s.leases[l].slot;
    ReleaseView(s, l);
    ReleaseLeases(s.x.luns, s.leases, l);
    assert LeaseOk(s.x.luns, s.leases[l]) && s.x.luns[slot].active > 0;
    assert SlotOk(s.x.luns[slot], slot, s.x.nextDevice, ActiveWork(s), s.sweep.Sweeping?);
    CountedKeeps(s, OnRelease(s, l), slot, ReleasedLun(s.x.luns[slot]), s.leases - {l});
  }

  /** The memory an accepted transfer touches is live and large enough: no fault. */
  lemma TransferInBounds(s: System, l: nat, request: ScsiRequest)
    requires StorageInv(s) && l in s.leases && request.WellFormed() && VerdictOf(s, l, request).Accepted?
    ensures var view, a := s.leases[l].view, VerdictOf(s, l, request).access;
            && view.buffer in s.heap && (a.lba + a.count) * SECTOR_SIZE <= |s.heap[view.buffer]|
            && |s.heap[view.buffer]| == view.size
            && request.data.Some? && a.count * SECTOR_SIZE <= request.transferLength
  {
    var view := s.leases[l].view;
    assert LeaseOk(s.x.luns, s.leases[l]);
    assert s.x.luns[s.leases[l].slot].backing == Some(view.buffer);
    AcceptedInBounds(request.cdb, request.cdbLength, view.size, request.transferLength, request.data.Some?);
  }

  function Written(s: System, l: nat, request: ScsiRequest): BlockWrite
    requires l in s.leases && request.WellFormed() && VerdictOf(s, l, request).Accepted? && request.data.Some?
    requires VerdictOf(s, l, request).access.count * SECTOR_SIZE <= request.transferLength
  {
    var a := VerdictOf(s, l, request).access;
    WriteRecord(s.leases[l].view.device, a.lba, a.count, request.data.value[..a.count * SECTOR_SIZE])
  }

  lemma WriteView(s: System, l: nat, request: ScsiRequest)
    requires l in s.leases && request.WellFormed() && VerdictOf(s, l, request).Accepted? && !s.fault
    requires request.data.Some? && VerdictOf(s, l, request).access.write
    requires VerdictOf(s, l, request).access.count * SECTOR_SIZE <= request.transferLength
    requires var view, a := s.leases[l].view, VerdictOf(s, l, request).access;
             view.buffer in s.heap && (a.lba + a.count) * SECTOR_SIZE <= |s.heap[view.buffer]|
    ensures var w, b := Written(s, l, request), s.leases[l].view.buffer;
            StoreIs(OnTransfer(s, l, request), s.x.luns, s.x.total, s.x.nextDevice,
                    s.heap[b := Overwrite(s.heap[b], w.lba * SECTOR_SIZE, w.data)], s.freed, s.leases,
                    s.log + [w], ActiveWork(s), s.sweep.Sweeping?)
  {
  }

  /** Only bytes in live buffers and the log have changed. */
  lemma StoredKeeps(s: System, s': System, heap: Heap, log: seq<BlockWrite>)
    requires StorageInv(s)
    requires StoreIs(s', s.x.luns, s.x.total, s.x.nextDevice, heap, s.freed, s.leases, log,
                     ActiveWork(s), s.sweep.Sweeping?)
    requires PoolOk(s.x.luns, heap, s.freed, ActiveWork(s))
    requires DataOk(s.x.luns, heap, log, s.x.nextDevice, ActiveWork(s))
    ensures StorageInv(s')
  {
  }

  lemma WriteKeeps(s: System, l: nat, request: ScsiRequest)
    requires StorageInv(s) && l in s.leases && request.WellFormed()
    requires VerdictOf(s, l, request).Accepted? && VerdictOf(s, l, request).access.write
    ensures StorageInv(OnTransfer(s, l, request))
  {
    hide Judge, Overwrite, OnTransfer, StoreIs, DataOk;
    var slot, b, w := s.leases[l].slot, s.leases[l].view.buffer, ActiveWork(s);
    TransferInBounds(s, l, request);
    WriteView(s, l, request);
    var write := Written(s, l, request);
    assert LeaseOk(s.x.luns, s.leases[l]);
    WriteData(s.x.luns, s.heap, s.freed, s.log, s.x.nextDevice, w, slot, write);
    SameLengthPool(s.x.luns, s.heap, s.freed, w, b, Overwrite(s.heap[b], write.lba * SECTOR_SIZE, write.data));
    StoredKeeps(s, OnTransfer(s, l, request), s.heap[b := Overwrite(s.heap[b], write.lba * SECTOR_SIZE, write.data)],
                s.log + [write]);
  }

  lemma ReadKeeps(s: System, l: nat, request: ScsiRequest)
    requires StorageInv(s) && l in s.leases && request.WellFormed()
    requires VerdictOf(s, l, request).Accepted? ==> !VerdictOf(s, l, request).access.write
    ensures OnTransfer(s, l, request) == s
  {
    if VerdictOf(s, l, request).Accepted? { TransferInBounds(s, l, request); }
  }

  // ----------------------------------------------------------------- Shutdown

  lemma StopAllKeeps(s: System)
    requires StorageInv(s) && s.sweep.Waited? && s.flight.Free?
    ensures StorageInv(s.(x := s.x.(luns := Stopped(s.x.luns)), sweep := Sweeping(Ready)))
  {
    StopAllSlots(s.x.luns, s.x.nextDevice);
    StopAllPool(s.x.luns, s.heap, s.freed);
    StopAllAccount(s.x.luns, s.x.total);
    StopAllLeases(s.x.luns, s.leases);
    StopAllData(s.x.luns, s.heap, s.log, s.x.nextDevice);
  }

  lemma PickKeeps(s: System)
    requires StorageInv(s) && s.sweep.Sweeping? && s.sweep.work.Ready? && s.flight.Free?
    requires forall i :: 0 <= i < |s.x.luns| ==> s.x.luns[i].state != Online
    ensures StorageInv(OnPick(s))
  {
    var slot := FirstIn(s.x.luns, Stopping);
    if slot < |s.x.luns| { PickSlots(s.x.luns, s.x.nextDevice, slot); }
    else { SweptSlots(s.x.luns, s.x.nextDevice); }
  }
}
