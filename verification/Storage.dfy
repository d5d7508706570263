/** The storage invariant: slots, pool buffers, leases, byte accounting and block
    contents, kept by every event of System.dfy that touches them. */
module Storage {
  import opened Protocol
  import opened Driver
  import opened Scsi
  import opened System

  predicate Issued(id: nat, next: nat, limit: nat) {
    0 < id < limit && (next == 0 || id < next)
  }

  predicate SizeOk(size: nat) {
    MINIMUM_DISK_SIZE <= size <= MAXIMUM_DISK_SIZE && size % SECTOR_SIZE == 0
  }

  predicate Removing(w: Work, slot: nat) {
    (w.Marked? || w.Drained? || w.Detached? || w.Freed?) && w.slot == slot
  }

  predicate Creating(w: Work) {
    w.Selected? || w.Allocated? || w.Zeroed?
  }

  /** The buffer owned by the procedure itself rather than by a LUN. */
  function Held(w: Work): Option<nat> {
    if w.Allocated? || w.Zeroed? || w.Discarding? then Some(w.buffer)
    else if w.Detached? then w.backing
    else None
  }

  predicate SlotOk(l: Lun, i: nat, next: nat, w: Work, sweeping: bool) {
    match l.state
    case Empty => l == FreshLun(i)
    case Online =>
      && l.number == i && (l.idle <==> l.active == 0)
      && Issued(l.device, next, U32_LIMIT) && SizeOk(l.size) && l.backing.Some?
    case Stopping =>
      && l.number == i && (l.idle <==> l.active == 0)
      && Issued(l.device, next, U32_LIMIT) && SizeOk(l.size)
      && (l.backing.None? <==> (w.Detached? || w.Freed?) && w.slot == i)
      && (sweeping || Removing(w, i))
  }

  ghost predicate WorkOk(luns: seq<Lun>, w: Work) {
    && (Creating(w) ==> w.slot < |luns| && luns[w.slot].state == Empty && SizeOk(w.request.size))
    && (w.Discarding? ==> w.status < 0)
    && (w.Marked? || w.Drained? || w.Detached? || w.Freed? ==>
          && w.slot < |luns| && luns[w.slot].state == Stopping && luns[w.slot].device == w.device
          && (w.Marked? || luns[w.slot].active == 0))
    && (w.Detached? ==> w.backing.Some?)
  }

  ghost predicate SlotsOk(luns: seq<Lun>, next: nat, w: Work, sweeping: bool) {
    && |luns| == DISK_COUNT && next < U32_LIMIT
    && (forall i :: 0 <= i < |luns| ==> SlotOk(luns[i], i, next, w, sweeping))
    && (forall i, j :: 0 <= i < j < |luns| && luns[i].state != Empty && luns[j].state != Empty ==>
          luns[i].device != luns[j].device)
    && WorkOk(luns, w)
  }

  /** Every live buffer has exactly one owner, a LUN or the running procedure, and no
      freed buffer is live. */
  ghost predicate PoolOk(luns: seq<Lun>, heap: map<nat, seq<Byte>>, freed: set<nat>, w: Work) {
    && (forall i :: 0 <= i < |luns| && luns[i].backing.Some? ==>
          && luns[i].backing.value in heap && |heap[luns[i].backing.value]| == luns[i].size
          && Held(w) != luns[i].backing)
    && (forall i, j :: 0 <= i < j < |luns| && luns[i].backing.Some? ==> luns[i].backing != luns[j].backing)
    && (Held(w).Some? ==> Held(w).value in heap)
    && (w.Allocated? || w.Zeroed? ==> |heap[w.buffer]| == w.request.size)
    && (forall b :: b in heap ==> Held(w) == Some(b) || Backed(luns, b))
    && (forall b :: b in freed ==> b !in heap)
  }

  ghost predicate Backed(luns: seq<Lun>, b: nat) {
    exists i :: 0 <= i < |luns| && luns[i].backing == Some(b)
  }

  function On(leases: map<nat, Lease>, slot: nat): set<nat> {
    set l | l in leases && leases[l].slot == slot
  }

  predicate LeaseOk(luns: seq<Lun>, lease: Lease) {
    && lease.slot < |luns| && luns[lease.slot].state != Empty
    && luns[lease.slot].backing == Some(lease.view.buffer)
    && lease.view == ViewOf(luns[lease.slot])
  }

  ghost predicate LeasesOk(luns: seq<Lun>, leases: map<nat, Lease>) {
    && (forall l :: l in leases ==> LeaseOk(luns, leases[l]))
    && (forall i :: 0 <= i < |luns| ==> luns[i].active == |On(leases, i)|)
  }

  /** The bytes held by the first n slots. */
  function SizesTo(luns: seq<Lun>, n: nat): nat
    requires n <= |luns|
  {
    if n == 0 then 0 else SizesTo(luns, n - 1) + luns[n - 1].size
  }

  function Sizes(luns: seq<Lun>): nat {
    SizesTo(luns, |luns|)
  }

  /** The quota check stays true until the commit that relies on it. */
  ghost predicate AccountOk(luns: seq<Lun>, total: nat, w: Work) {
    && total == Sizes(luns) <= MAXIMUM_TOTAL_BYTES
    && (Creating(w) ==> total + w.request.size <= MAXIMUM_TOTAL_BYTES)
  }

  function Block(bytes: seq<Byte>, k: nat): seq<Byte>
    requires (k + 1) * SECTOR_SIZE <= |bytes|
  {
    bytes[k * SECTOR_SIZE..(k + 1) * SECTOR_SIZE]
  }

  predicate Covers(w: BlockWrite, device: nat, block: nat) {
    w.device == device && w.lba <= block < w.lba + w.count
  }

  predicate WriteIssued(w: BlockWrite, next: nat) {
    Issued(w.device, next, U32_LIMIT)
  }

  /** The reference: what the last accepted write to a block of a device left there. */
  function LastWritten(log: seq<BlockWrite>, device: nat, block: nat): (r: seq<Byte>)
    ensures |r| == SECTOR_SIZE
  {
    if log == [] then Zeros(SECTOR_SIZE)
    else
      var w := log[|log| - 1];
      if Covers(w, device, block) then Block(w.data, block - w.lba)
      else LastWritten(log[..|log| - 1], device, block)
  }

  ghost predicate ContentsOk(bytes: seq<Byte>, size: nat, log: seq<BlockWrite>, device: nat)
  {
    && |bytes| == size
    && (forall k :: 0 <= k < size / SECTOR_SIZE ==> Block(bytes, k) == LastWritten(log, device, k))
  }

  ghost predicate DataOk(luns: seq<Lun>, heap: map<nat, seq<Byte>>, log: seq<BlockWrite>, next: nat, w: Work) {
    && (forall i :: 0 <= i < |log| ==> WriteIssued(log[i], next))
    && (forall i :: 0 <= i < |luns| && luns[i].backing.Some? && luns[i].backing.value in heap ==>
          ContentsOk(heap[luns[i].backing.value], luns[i].size, log, luns[i].device))
    && (w.Zeroed? && w.buffer in heap ==> heap[w.buffer] == Zeros(w.request.size))
  }

  /** The procedure that is changing the LUN table: the shutdown loop's or the worker's. */
  function ActiveWork(s: System): Work {
    if s.sweep.Sweeping? then s.sweep.work else if s.flight.Flight? then s.flight.work else Ready
  }

  ghost predicate StorageInv(s: System) {
    var w := ActiveWork(s);
    && SlotsOk(s.x.luns, s.x.nextDevice, w, s.sweep.Sweeping?)
    && PoolOk(s.x.luns, s.heap, s.freed, w)
    && LeasesOk(s.x.luns, s.leases)
    && AccountOk(s.x.luns, s.x.total, w)
    && DataOk(s.x.luns, s.heap, s.log, s.x.nextDevice, w)
    && !s.fault
  }

  // ------------------------------------------------------------ Helper lemmas

  lemma {:induction false} SizesToUpdate(luns: seq<Lun>, n: nat, i: nat, l: Lun)
    requires n <= |luns| && i < |luns|
    ensures SizesTo(luns[i := l], n) == SizesTo(luns, n) + if i < n then l.size - luns[i].size else 0
    ensures i < n ==> luns[i].size <= SizesTo(luns, n)
  {
    if n > 0 { SizesToUpdate(luns, n - 1, i, l); }
  }

  lemma SizesUpdate(luns: seq<Lun>, i: nat, l: Lun)
    requires i < |luns|
    ensures Sizes(luns[i := l]) == Sizes(luns) - luns[i].size + l.size
    ensures luns[i].size <= Sizes(luns)
  {
    SizesToUpdate(luns, |luns|, i, l);
  }

  lemma OnAfterAcquire(leases: map<nat, Lease>, l: nat, lease: Lease, i: nat)
    requires l !in leases
    ensures |On(leases[l := lease], i)| == |On(leases, i)| + if lease.slot == i then 1 else 0
  {
    assert On(leases[l := lease], i) == On(leases, i) + if lease.slot == i then {l} else {};
  }

  lemma OnAfterRelease(leases: map<nat, Lease>, l: nat, i: nat)
    requires l in leases
    ensures |On(leases - {l}, i)| == |On(leases, i)| - if leases[l].slot == i then 1 else 0
    ensures leases[l].slot == i ==> |On(leases, i)| > 0
  {
    assert On(leases - {l}, i) == On(leases, i) - if leases[l].slot == i then {l} else {};
    if leases[l].slot == i { assert l in On(leases, i); }
  }

  lemma NoLeasesOnEmpty(leases: map<nat, Lease>, i: nat)
    requires |On(leases, i)| == 0
    ensures forall l :: l in leases ==> leases[l].slot != i
  {
    assert On(leases, i) == {};
    assert forall l :: l in leases && leases[l].slot == i ==> l in On(leases, i);
  }

  lemma {:induction false} FreshDeviceHasNoWrites(log: seq<BlockWrite>, next: nat, block: nat)
    requires next > 0 && forall i :: 0 <= i < |log| ==> WriteIssued(log[i], next)
    ensures LastWritten(log, next, block) == Zeros(SECTOR_SIZE)
  {
    if log != [] { FreshDeviceHasNoWrites(log[..|log| - 1], next, block); }
  }

  lemma BlockOfZeros(size: nat, k: nat)
    requires (k + 1) * SECTOR_SIZE <= size
    ensures Block(Zeros(size), k) == Zeros(SECTOR_SIZE)
  {
  }

  /** An accepted write changes exactly the blocks it covers, to the bytes written. */
  lemma BlockAfterWrite(bytes: seq<Byte>, lba: nat, count: nat, data: seq<Byte>, k: nat)
    requires |data| == count * SECTOR_SIZE && (lba + count) * SECTOR_SIZE <= |bytes| && (k + 1) * SECTOR_SIZE <= |bytes|
    ensures Block(Overwrite(bytes, lba * SECTOR_SIZE, data), k)
         == if lba <= k < lba + count then Block(data, k - lba) else Block(bytes, k)
  {
  }

  lemma ContentsAfterWrite(bytes: seq<Byte>, size: nat, log: seq<BlockWrite>, w: BlockWrite, device: nat, next: nat)
    requires forall i :: 0 <= i < |log| ==> WriteIssued(log[i], next)
    requires WriteIssued(w, next) && ContentsOk(bytes, size, log, device)
    requires w.device == device ==> (w.lba + w.count) * SECTOR_SIZE <= size
    ensures ContentsOk(if w.device == device then Overwrite(bytes, w.lba * SECTOR_SIZE, w.data) else bytes,
                       size, log + [w], device)
  {
    var r := if w.device == device then Overwrite(bytes, w.lba * SECTOR_SIZE, w.data) else bytes;
    assert (log + [w])[..|log|] == log;
    forall k | 0 <= k < size / SECTOR_SIZE
      ensures Block(r, k) == LastWritten(log + [w], device, k)
    {
      assert (k + 1) * SECTOR_SIZE <= size;
      if w.device == device { BlockAfterWrite(bytes, w.lba, w.count, w.data, k); }
    }
  }
}
