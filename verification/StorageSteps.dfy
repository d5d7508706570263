/** How each kind of change keeps each component of the storage invariant. */
module StorageSteps {
  import opened Protocol
  import opened Driver
  import opened Scsi
  import opened System
  import opened Storage

  type Heap = map<nat, seq<Byte>>

  /** Slots other than i keep their buffers owned. */
  lemma KeepBacked(luns: seq<Lun>, luns': seq<Lun>, i: nat)
    requires |luns| == |luns'| && forall j :: 0 <= j < |luns| && j != i ==> luns'[j].backing == luns[j].backing
    ensures forall b: nat :: Backed(luns, b) && (i < |luns| ==> luns[i].backing != Some(b)) ==> Backed(luns', b)
  {
  }

  lemma SameBacked(luns: seq<Lun>, slot: nat, l: Lun)
    requires slot < |luns| && l.backing == luns[slot].backing
    ensures forall b: nat :: Backed(luns, b) ==> Backed(luns[slot := l], b)
  {
    KeepBacked(luns, luns[slot := l], slot);
    forall b: nat | luns[slot].backing == Some(b) ensures Backed(luns[slot := l], b) {
      assert luns[slot := l][slot].backing == Some(b);
    }
  }

  // -------------------------------------------------- Creation: the new LUN

  lemma CommitSlots(luns: seq<Lun>, next: nat, w: Work)
    requires SlotsOk(luns, next, w, false) && w.Zeroed? && next > 0
    ensures SlotsOk(luns[w.slot := NewLun(w.request, w.slot, next, w.buffer)], (next + 1) % U32_LIMIT, Ready, false)
  {
  }

  lemma CommitPool(luns: seq<Lun>, heap: Heap, freed: set<nat>, w: Work, l: Lun)
    requires PoolOk(luns, heap, freed, w) && w.Zeroed? && w.slot < |luns| && luns[w.slot].backing == None
    requires l.backing == Some(w.buffer) && l.size == w.request.size
    ensures PoolOk(luns[w.slot := l], heap, freed, Ready)
  {
    var luns' := luns[w.slot := l];
    assert luns'[w.slot].backing == Some(w.buffer);
    KeepBacked(luns, luns', w.slot);
  }

  lemma CommitLeases(luns: seq<Lun>, leases: map<nat, Lease>, slot: nat, l: Lun)
    requires LeasesOk(luns, leases) && slot < |luns| && luns[slot].state == Empty && luns[slot].active == l.active
    ensures LeasesOk(luns[slot := l], leases)
  {
  }

  /** A zeroed buffer is the right content for a device nobody has written to. */
  lemma CommitData(luns: seq<Lun>, heap: Heap, log: seq<BlockWrite>, next: nat, w: Work)
    requires DataOk(luns, heap, log, next, w) && w.Zeroed? && w.slot < |luns| && 0 < next < U32_LIMIT
    ensures DataOk(luns[w.slot := NewLun(w.request, w.slot, next, w.buffer)], heap, log, (next + 1) % U32_LIMIT, Ready)
  {
    forall k | 0 <= k < w.request.size / SECTOR_SIZE
      ensures Block(Zeros(w.request.size), k) == LastWritten(log, next, k)
    {
      BlockOfZeros(w.request.size, k);
      FreshDeviceHasNoWrites(log, next, k);
    }
  }

  // --------------------------------- Steps that only move the procedure along

  /** From `w` to `w'` over the same slots. */
  predicate Moves(luns: seq<Lun>, w: Work, w': Work) {
    match w'
    case Ready => !(w.Marked? || w.Drained? || w.Detached? || w.Freed?)
    case Selected(slot, request) => w.Ready? && slot < |luns| && luns[slot].state == Empty && SizeOk(request.size)
    case Allocated(slot, request, _) => w == Selected(slot, request)
    case Zeroed(slot, request, buffer) => w == Allocated(slot, request, buffer)
    case Discarding(buffer, status) => w.Zeroed? && w.buffer == buffer && status < 0
    case Marked(_, _) => false
    case Drained(slot, device) => w == Marked(slot, device) && slot < |luns| && luns[slot].active == 0
    case Detached(_, _, _) => false
    case Freed(slot, device) => w.Detached? && w.slot == slot && w.device == device
  }

  lemma MoveSlots(luns: seq<Lun>, next: nat, w: Work, sweeping: bool, w': Work)
    requires SlotsOk(luns, next, w, sweeping) && Moves(luns, w, w')
    ensures SlotsOk(luns, next, w', sweeping)
  {
  }

  lemma AllocatePool(luns: seq<Lun>, heap: Heap, freed: set<nat>, w: Work, buffer: nat, contents: seq<Byte>)
    requires PoolOk(luns, heap, freed, w) && w.Selected? && buffer !in heap
    requires |contents| == w.request.size
    ensures PoolOk(luns, heap[buffer := contents], freed - {buffer}, Allocated(w.slot, w.request, buffer))
  {
  }

  /** A change of the buffer the procedure holds is invisible to every LUN. */
  lemma HeldData(luns: seq<Lun>, heap: Heap, log: seq<BlockWrite>, next: nat, w: Work, heap': Heap, w': Work)
    requires DataOk(luns, heap, log, next, w)
    requires forall i :: 0 <= i < |luns| && luns[i].backing.Some? && luns[i].backing.value in heap' ==>
               luns[i].backing.value in heap && heap'[luns[i].backing.value] == heap[luns[i].backing.value]
    requires w'.Zeroed? && w'.buffer in heap' ==> heap'[w'.buffer] == Zeros(w'.request.size)
    ensures DataOk(luns, heap', log, next, w')
  {
  }

  lemma ZeroPool(luns: seq<Lun>, heap: Heap, freed: set<nat>, w: Work)
    requires PoolOk(luns, heap, freed, w) && w.Allocated?
    ensures PoolOk(luns, heap[w.buffer := Zeros(w.request.size)], freed, Zeroed(w.slot, w.request, w.buffer))
  {
  }

  /** Freeing the held buffer: it was live, and afterwards nobody owns it. */
  lemma FreePoolOk(luns: seq<Lun>, heap: Heap, freed: set<nat>, w: Work, w': Work)
    requires PoolOk(luns, heap, freed, w) && Held(w).Some? && Held(w').None?
    ensures Held(w).value in heap
    ensures PoolOk(luns, heap - {Held(w).value}, freed + {Held(w).value}, w')
  {
  }

  // -------------------------------------------------- Removal of one LUN

  lemma StopSlots(luns: seq<Lun>, next: nat, slot: nat)
    requires SlotsOk(luns, next, Ready, false) && slot < |luns| && luns[slot].state == Online
    ensures SlotsOk(luns[slot := luns[slot].(state := Stopping)], next, Marked(slot, luns[slot].device), false)
  {
  }

  /** A change of state, counters or creating operation leaves buffers and contents alone. */
  lemma SameBufferPool(luns: seq<Lun>, heap: Heap, freed: set<nat>, w: Work, slot: nat, l: Lun, w': Work)
    requires PoolOk(luns, heap, freed, w) && slot < |luns| && Held(w') == Held(w)
    requires l.backing == luns[slot].backing && l.size == luns[slot].size
    requires w'.Allocated? || w'.Zeroed? ==> w' == w
    ensures PoolOk(luns[slot := l], heap, freed, w')
  {
    hide Backed;
    SameBacked(luns, slot, l);
  }

  lemma SameBufferData(luns: seq<Lun>, heap: Heap, log: seq<BlockWrite>, next: nat, w: Work, slot: nat, l: Lun,
                       w': Work)
    requires DataOk(luns, heap, log, next, w) && slot < |luns|
    requires l.backing == luns[slot].backing && l.size == luns[slot].size && l.device == luns[slot].device
    requires w'.Zeroed? ==> w' == w
    ensures DataOk(luns[slot := l], heap, log, next, w')
  {
  }

  lemma SameSizeAccount(luns: seq<Lun>, total: nat, w: Work, slot: nat, l: Lun, w': Work)
    requires AccountOk(luns, total, w) && slot < |luns| && l.size == luns[slot].size
    requires Creating(w') ==> w' == w
    ensures AccountOk(luns[slot := l], total, w')
  {
    SizesUpdate(luns, slot, l);
  }

  lemma SameViewLeases(luns: seq<Lun>, leases: map<nat, Lease>, slot: nat, l: Lun)
    requires LeasesOk(luns, leases) && slot < |luns|
    requires l.active == luns[slot].active && (luns[slot].state != Empty ==> l.state != Empty)
    requires luns[slot].backing.Some? ==> l.backing.Some? && ViewOf(l) == ViewOf(luns[slot])
    ensures LeasesOk(luns[slot := l], leases)
  {
  }

  lemma DetachSlots(luns: seq<Lun>, next: nat, w: Work, sweeping: bool)
    requires SlotsOk(luns, next, w, sweeping) && w.Drained?
    ensures luns[w.slot].backing.Some?
    ensures SlotsOk(luns[w.slot := luns[w.slot].(backing := None)], next,
              Detached(w.slot, w.device, luns[w.slot].backing), sweeping)
  {
  }

  lemma DetachPool(luns: seq<Lun>, heap: Heap, freed: set<nat>, w: Work)
    requires PoolOk(luns, heap, freed, w) && w.Drained? && w.slot < |luns| && luns[w.slot].backing.Some?
    ensures PoolOk(luns[w.slot := luns[w.slot].(backing := None)], heap, freed,
              Detached(w.slot, w.device, luns[w.slot].backing))
  {
    KeepBacked(luns, luns[w.slot := luns[w.slot].(backing := None)], w.slot);
  }

  /** No lease survives the drain, so the detached buffer is no lease's view. */
  lemma DrainedLeases(luns: seq<Lun>, leases: map<nat, Lease>, slot: nat, l: Lun)
    requires LeasesOk(luns, leases) && slot < |luns| && luns[slot].active == 0 == l.active
    ensures LeasesOk(luns[slot := l], leases)
  {
    NoLeasesOnEmpty(leases, slot);
  }

  lemma UnbackedData(luns: seq<Lun>, heap: Heap, log: seq<BlockWrite>, next: nat, w: Work, slot: nat, l: Lun, w': Work)
    requires DataOk(luns, heap, log, next, w) && slot < |luns| && l.backing.None? && !w'.Zeroed?
    ensures DataOk(luns[slot := l], heap, log, next, w')
  {
  }

  lemma FinalizeSlots(luns: seq<Lun>, next: nat, w: Work, sweeping: bool)
    requires SlotsOk(luns, next, w, sweeping) && w.Freed?
    ensures SlotsOk(luns[w.slot := ClearedLun(luns[w.slot])], next, Ready, sweeping)
    ensures luns[w.slot].backing.None? && luns[w.slot].active == 0
  {
  }

  lemma FinalizePool(luns: seq<Lun>, heap: Heap, freed: set<nat>, w: Work)
    requires PoolOk(luns, heap, freed, w) && w.Freed? && w.slot < |luns| && luns[w.slot].backing.None?
    ensures PoolOk(luns[w.slot := ClearedLun(luns[w.slot])], heap, freed, Ready)
  {
    KeepBacked(luns, luns[w.slot := ClearedLun(luns[w.slot])], w.slot);
  }

  /** The saturating subtraction of FinalizeRemovalLocked never saturates. */
  lemma FinalizeAccount(luns: seq<Lun>, total: nat, w: Work)
    requires AccountOk(luns, total, w) && w.Freed? && w.slot < |luns|
    ensures total >= luns[w.slot].size
    ensures AccountOk(luns[w.slot := ClearedLun(luns[w.slot])], total - luns[w.slot].size, Ready)
  {
    SizesUpdate(luns, w.slot, ClearedLun(luns[w.slot]));
  }

  lemma StampSlots(luns: seq<Lun>, next: nat, sweeping: bool, slot: nat, id: nat)
    requires SlotsOk(luns, next, Ready, sweeping) && slot < |luns| && luns[slot].state == Online
    ensures SlotsOk(luns[slot := luns[slot].(createId := id)], next, Ready, sweeping)
  {
  }

  // ------------------------------------------------------------------- Leases

  lemma CountSlots(luns: seq<Lun>, next: nat, w: Work, sweeping: bool, slot: nat, l: Lun)
    requires SlotsOk(luns, next, w, sweeping) && slot < |luns| && luns[slot].state != Empty
    requires l == luns[slot].(active := l.active, idle := l.idle) && (l.idle <==> l.active == 0)
    requires luns[slot].active == 0 ==> luns[slot].state == Online || l.active == 0
    requires luns[slot].state == Stopping ==> l.active <= luns[slot].active
    ensures SlotsOk(luns[slot := l], next, w, sweeping)
  {
  }

  lemma AcquireLeases(luns: seq<Lun>, leases: map<nat, Lease>, l: nat, slot: nat)
    requires LeasesOk(luns, leases) && l !in leases && slot < |luns|
    requires luns[slot].state == Online && luns[slot].backing.Some?
    ensures LeasesOk(luns[slot := AcquiredLun(luns[slot])], leases[l := Lease(slot, ViewOf(luns[slot]))])
  {
    var lease := Lease(slot, ViewOf(luns[slot]));
    var luns' := luns[slot := AcquiredLun(luns[slot])];
    forall i | 0 <= i < |luns| ensures luns'[i].active == |On(leases[l := lease], i)| {
      OnAfterAcquire(leases, l, lease, i);
    }
  }

  lemma ReleaseLeases(luns: seq<Lun>, leases: map<nat, Lease>, l: nat)
    requires LeasesOk(luns, leases) && l in leases
    ensures luns[leases[l].slot].active > 0
    ensures LeasesOk(luns[leases[l].slot := ReleasedLun(luns[leases[l].slot])], leases - {l})
  {
    var slot := leases[l].slot;
    OnAfterRelease(leases, l, slot);
    var luns' := luns[slot := ReleasedLun(luns[slot])];
    forall i | 0 <= i < |luns| ensures luns'[i].active == |On(leases - {l}, i)| {
      OnAfterRelease(leases, l, i);
    }
  }

  /** A write through a lease changes the leased LUN's content and nobody else's. */
  lemma WriteData(luns: seq<Lun>, heap: Heap, freed: set<nat>, log: seq<BlockWrite>, next: nat, w: Work, slot: nat,
                  a: BlockWrite)
    requires PoolOk(luns, heap, freed, w) && DataOk(luns, heap, log, next, w)
    requires slot < |luns| && luns[slot].backing.Some? && luns[slot].device == a.device
    requires Issued(a.device, next, U32_LIMIT)
    requires (a.lba + a.count) * SECTOR_SIZE <= luns[slot].size
    requires forall i :: 0 <= i < |luns| && i != slot && luns[i].backing.Some? ==> luns[i].device != a.device
    ensures var b := luns[slot].backing.value;
            DataOk(luns, heap[b := Overwrite(heap[b], a.lba * SECTOR_SIZE, a.data)], log + [a], next, w)
  {
    var b := luns[slot].backing.value;
    var heap' := heap[b := Overwrite(heap[b], a.lba * SECTOR_SIZE, a.data)];
    forall i | 0 <= i < |luns| && luns[i].backing.Some? && luns[i].backing.value in heap'
      ensures ContentsOk(heap'[luns[i].backing.value], luns[i].size, log + [a], luns[i].device)
    {
      ContentsAfterWrite(heap[luns[i].backing.value], luns[i].size, log, a, luns[i].device, next);
    }
  }

  lemma SameLengthPool(luns: seq<Lun>, heap: Heap, freed: set<nat>, w: Work, b: nat, bytes: seq<Byte>)
    requires PoolOk(luns, heap, freed, w) && b in heap && |bytes| == |heap[b]|
    ensures PoolOk(luns, heap[b := bytes], freed, w)
  {
  }

  // ----------------------------------------------------------------- Shutdown

  lemma StopAllSlots(luns: seq<Lun>, next: nat)
    requires SlotsOk(luns, next, Ready, false)
    ensures SlotsOk(Stopped(luns), next, Ready, true)
  {
  }

  lemma StopAllPool(luns: seq<Lun>, heap: Heap, freed: set<nat>)
    requires PoolOk(luns, heap, freed, Ready)
    ensures PoolOk(Stopped(luns), heap, freed, Ready)
  {
  }

  lemma {:induction false} StopAllSizesTo(luns: seq<Lun>, n: nat)
    requires n <= |luns|
    ensures SizesTo(Stopped(luns), n) == SizesTo(luns, n)
  {
    if n > 0 { StopAllSizesTo(luns, n - 1); }
  }

  lemma StopAllAccount(luns: seq<Lun>, total: nat)
    requires AccountOk(luns, total, Ready)
    ensures AccountOk(Stopped(luns), total, Ready)
  {
    StopAllSizesTo(luns, |luns|);
  }

  lemma StopAllLeases(luns: seq<Lun>, leases: map<nat, Lease>)
    requires LeasesOk(luns, leases)
    ensures LeasesOk(Stopped(luns), leases)
  {
  }

  lemma StopAllData(luns: seq<Lun>, heap: Heap, log: seq<BlockWrite>, next: nat)
    requires DataOk(luns, heap, log, next, Ready)
    ensures DataOk(Stopped(luns), heap, log, next, Ready)
  {
  }

  lemma PickSlots(luns: seq<Lun>, next: nat, slot: nat)
    requires SlotsOk(luns, next, Ready, true) && slot < |luns| && luns[slot].state == Stopping
    ensures SlotsOk(luns, next, Marked(slot, luns[slot].device), true)
  {
  }

  lemma SweptSlots(luns: seq<Lun>, next: nat)
    requires SlotsOk(luns, next, Ready, true) && forall i :: 0 <= i < |luns| ==> luns[i].state == Empty
    ensures SlotsOk(luns, next, Ready, false)
  {
  }
}
