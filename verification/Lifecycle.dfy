/** CreateDisk, DeleteDisk and the shutdown loop as the driver runs them, section after
    section on the adapter in place (driver/src/storage/lun_store.cpp,
    driver/src/support/stor_port_pool_allocation.cpp). Here nobody interferes between the
    sections; System.dfy has the interleavings. */
module Lifecycle {
  import opened Protocol
  import opened Driver
  import opened Scsi
  import opened Storage
  import opened StorageSteps
  import opened AdapterExtension

  /** StorPort's pool: allocation n succeeds or fails as `script(n)` says, with a fresh buffer. */
  class Pool {
    const script: nat -> bool
    var requests: nat
    var next: nat
    var live: map<nat, seq<Byte>>

    /** Every buffer to come is fresh. */
    ghost predicate Valid()
      reads this
    {
      forall b :: b in live ==> b < next
    }

    constructor (script: nat -> bool)
      ensures Valid() && this.script == script && live == map[]
    {
      this.script := script;
      requests, next, live := 0, 0, map[];
    }

    method Allocate(size: nat) returns (buffer: Option<nat>)
      requires Valid()
      modifies this
      ensures Valid() && (buffer.Some? <==> script(old(requests))) && requests == old(requests) + 1
      ensures buffer.Some? ==> buffer.value !in old(live) && live == old(live)[buffer.value := Zeros(size)]
      ensures buffer.None? ==> live == old(live)
    {
      buffer := None;
      if script(requests) {
        buffer := Some(next);
        live := live[next := Zeros(size)];
        next := next + 1;
      }
      requests := requests + 1;
    }

    method Free(buffer: nat)
      requires Valid() && buffer in live
      modifies this`live
      ensures Valid() && live == old(live) - {buffer}
    {
      live := live - {buffer};
    }
  }

  /** An allocation that frees itself at the end of its scope unless it was released. */
  class PoolAllocation {
    const pool: Pool
    var allocation: Option<nat>

    constructor (pool: Pool, size: nat)
      requires pool.Valid()
      modifies pool
      ensures this.pool == pool && pool.Valid() && (allocation.Some? <==> pool.script(old(pool.requests)))
      ensures allocation.Some? ==>
                allocation.value !in old(pool.live) && pool.live == old(pool.live)[allocation.value := Zeros(size)]
      ensures allocation.None? ==> pool.live == old(pool.live)
    {
      var buffer := pool.Allocate(size);
      this.pool, allocation := pool, buffer;
    }

    method Release() returns (buffer: Option<nat>)
      modifies this
      ensures buffer == old(allocation) && allocation == None
    {
      buffer := allocation;
      allocation := None;
    }

    method End()
      requires pool.Valid() && (allocation.Some? ==> allocation.value in pool.live)
      modifies pool
      ensures pool.Valid()
      ensures pool.live == if allocation.Some? then old(pool.live) - {allocation.value} else old(pool.live)
    {
      if allocation.Some? { pool.Free(allocation.value); }
    }
  }

  /** LunStore::CreateDisk: on success exactly one zeroed buffer is live more and the slot
      owns it; on every failure neither the adapter nor the pool has changed. */
  method CreateDisk(adapter: Adapter, pool: Pool, request: CreateParams) returns (status: Status, device: nat, lun: nat)
    requires adapter.luns.Length == DISK_COUNT && pool.Valid()
    modifies adapter, adapter.luns, pool
    ensures pool.Valid()
    ensures var x := old(adapter.View());
            var (selected, slot) := SelectAvailable(x, request.size);
            status == if !NtSuccess(selected) then selected
                      else if !pool.script(old(pool.requests)) || x.nextDevice == 0 then STATUS_INSUFFICIENT_RESOURCES
                      else STATUS_SUCCESS
    ensures NtSuccess(status) ==>
              && lun == SelectAvailable(old(adapter.View()), request.size).1 < DISK_COUNT
              && device == old(adapter.nextDevice)
              && adapter.luns[lun].backing.Some? && adapter.luns[lun].backing.value !in old(pool.live)
              && pool.live == old(pool.live)[adapter.luns[lun].backing.value := Zeros(request.size)]
              && adapter.View() == Commit(old(adapter.View()), request, lun, adapter.luns[lun].backing.value).1
    ensures !NtSuccess(status) ==> adapter.View() == old(adapter.View()) && pool.live == old(pool.live)
  {
    device, lun := 0, 0;
    var selected;
    status, selected := adapter.SelectAvailableLun(request.size);
    if !NtSuccess(status) { return; }
    var allocation := new PoolAllocation(pool, request.size);
    if allocation.allocation.None? { return STATUS_INSUFFICIENT_RESOURCES, 0, 0; }
    status, device := adapter.CommitNewLun(request, selected, allocation.allocation.value);
    if NtSuccess(status) {
      var _ := allocation.Release();
      lun := selected;
    }
    allocation.End();
    if !NtSuccess(status) { assert pool.live == old(pool.live); }
  }

  /** The slot holds a live buffer of its own and has drained. */
  predicate Drainable(l: Lun, live: map<nat, seq<Byte>>) {
    l.state == Stopping && l.idle && l.backing.Some? && l.backing.value in live
  }

  /** DrainAndFreeBacking after the wait, and the final section. */
  method DrainAndFinalize(adapter: Adapter, pool: Pool, slot: nat)
    requires slot < adapter.luns.Length && pool.Valid() && Drainable(adapter.luns[slot], pool.live)
    modifies adapter, adapter.operations, adapter.luns, pool
    ensures pool.Valid() && pool.live == old(pool.live) - {old(adapter.luns[slot]).backing.value}
    ensures adapter.View() == Finalize(old(adapter.View()), slot, old(adapter.luns[slot]).device)
  {
    ghost var x := adapter.View();
    var device := adapter.luns[slot].device;
    var backing := adapter.DetachBackingStore(slot, device);
    if backing.Some? { pool.Free(backing.value); }
    ghost var detached := adapter.View();
    adapter.FinalizeDiskRemoval(slot, device);
    assert detached.luns[slot := ClearedLun(detached.luns[slot])] == x.luns[slot := ClearedLun(x.luns[slot])];
  }

  /** ManagementController::DeleteDisk: the device's slot is emptied, its create record is
      Deleted and its buffer freed; an unknown device changes nothing. */
  method DeleteDisk(adapter: Adapter, pool: Pool, device: nat) returns (status: Status)
    requires pool.Valid()
    requires var slot := OnlineAt(adapter.luns[..], device);
             slot < adapter.luns.Length ==> Drainable(adapter.luns[slot].(state := Stopping), pool.live)
    modifies adapter, adapter.operations, adapter.luns, pool
    ensures pool.Valid()
    ensures var x, slot := old(adapter.View()), OnlineAt(old(adapter.luns[..]), device);
            if slot == |x.luns| then
              status == STATUS_NO_SUCH_DEVICE && adapter.View() == x && pool.live == old(pool.live)
            else
              && status == STATUS_SUCCESS && pool.live == old(pool.live) - {x.luns[slot].backing.value}
              && adapter.View() == Finalize(x, slot, device)
  {
    ghost var x := adapter.View();
    var slot := adapter.MarkLunStopping(device);
    if slot == adapter.luns.Length { return STATUS_NO_SUCH_DEVICE; }
    ghost var stopped := adapter.View();
    assert adapter.luns[slot] == x.luns[slot].(state := Stopping);
    DrainAndFinalize(adapter, pool, slot);
    assert stopped.luns[slot := ClearedLun(stopped.luns[slot])] == x.luns[slot := ClearedLun(x.luns[slot])];
    status := STATUS_SUCCESS;
  }

  // ------------------------------------------------------------- The shutdown loop

  /** Slots hold distinct live buffers, and an empty slot is fresh. */
  ghost predicate Accounted(x: Extension, live: map<nat, seq<Byte>>) {
    && (forall i :: 0 <= i < |x.luns| ==>
        if x.luns[i].state == Empty then x.luns[i] == FreshLun(i) else Owning(x.luns[i], live))
    && (forall i, j :: 0 <= i < j < |x.luns| && x.luns[i].state != Empty ==> x.luns[i].backing != x.luns[j].backing)
    && x.total == Sizes(x.luns)
  }

  predicate Owning(l: Lun, live: map<nat, seq<Byte>>) {
    l.idle && l.active == 0 && l.backing.Some? && l.backing.value in live
  }

  /** The buffers of the first n slots. */
  function Backings(luns: seq<Lun>, n: nat): set<nat>
    requires n <= |luns|
  {
    if n == 0 then {} else Backings(luns, n - 1) + if luns[n - 1].backing.Some? then {luns[n - 1].backing.value} else {}
  }

  function Stoppings(luns: seq<Lun>, n: nat): nat
    requires n <= |luns|
  {
    if n == 0 then 0 else Stoppings(luns, n - 1) + if luns[n - 1].state == Stopping then 1 else 0
  }

  lemma {:induction false} BackingsSame(luns: seq<Lun>, luns': seq<Lun>, n: nat)
    requires n <= |luns| == |luns'| && forall i :: 0 <= i < n ==> luns'[i].backing == luns[i].backing
    ensures Backings(luns', n) == Backings(luns, n)
  {
    if n > 0 { BackingsSame(luns, luns', n - 1); }
  }

  lemma {:induction false} Cleared(luns: seq<Lun>, slot: nat, n: nat)
    requires n <= |luns| && slot < |luns| && luns[slot].state == Stopping && luns[slot].backing.Some?
    ensures var luns' := luns[slot := ClearedLun(luns[slot])];
            && Stoppings(luns', n) == Stoppings(luns, n) - (if slot < n then 1 else 0)
            && Backings(luns, n) == Backings(luns', n) + if slot < n then {luns[slot].backing.value} else {}
  {
    if n > 0 { Cleared(luns, slot, n - 1); }
  }

  lemma ClearedAccounted(x: Extension, live: map<nat, seq<Byte>>, slot: nat, x': Extension)
    requires Accounted(x, live) && slot < |x.luns| && x.luns[slot].state == Stopping && x.luns[slot].number == slot
    requires x' == Finalize(x, slot, x.luns[slot].device)
    ensures Accounted(x', live - {x.luns[slot].backing.value})
  {
    SizesUpdate(x.luns, slot, ClearedLun(x.luns[slot]));
  }

  lemma {:induction false} BackingsLive(x: Extension, n: nat, live: map<nat, seq<Byte>>)
    requires n <= |x.luns| && Accounted(x, live)
    ensures forall b :: b in Backings(x.luns, n) ==> b in live
  {
    if n > 0 { BackingsLive(x, n - 1, live); }
  }

  lemma Shrinks(live: map<nat, seq<Byte>>, all: set<nat>, held: set<nat>, rest: set<nat>, b: nat)
    requires held == rest + {b} && b !in rest && held <= all
    ensures live - (all - held) - {b} == live - (all - rest)
  {
    assert all - rest == (all - held) + {b};
  }

  lemma {:induction false} NoneLeft(luns: seq<Lun>, n: nat)
    requires n <= |luns| && forall i :: 0 <= i < |luns| ==> luns[i] == FreshLun(i)
    ensures Backings(luns, n) == {} && SizesTo(luns, n) == 0
  {
    if n > 0 { NoneLeft(luns, n - 1); }
  }

  /** Where the loop stands: of the buffers in `all`, those of emptied slots are freed. */
  ghost predicate Releasing(x: Extension, live: map<nat, seq<Byte>>, before: map<nat, seq<Byte>>, all: set<nat>) {
    && Accounted(x, live)
    && (forall i :: 0 <= i < |x.luns| ==> x.luns[i].number == i && x.luns[i].state != Online)
    && Backings(x.luns, |x.luns|) <= all && live == before - (all - Backings(x.luns, |x.luns|))
  }

  lemma ReleasingStep(x: Extension, live: map<nat, seq<Byte>>, before: map<nat, seq<Byte>>, all: set<nat>, slot: nat)
    requires Releasing(x, live, before, all) && slot < |x.luns| && x.luns[slot].state == Stopping
    ensures Drainable(x.luns[slot], live)
    ensures var x' := Finalize(x, slot, x.luns[slot].device);
            && Releasing(x', live - {x.luns[slot].backing.value}, before, all)
            && Stoppings(x'.luns, |x'.luns|) < Stoppings(x.luns, |x.luns|)
  {
    var x' := Finalize(x, slot, x.luns[slot].device);
    var b := x.luns[slot].backing.value;
    Cleared(x.luns, slot, |x.luns|);
    ClearedAccounted(x, live, slot, x');
    BackingsLive(x', |x'.luns|, live - {b});
    Shrinks(before, all, Backings(x.luns, |x.luns|), Backings(x'.luns, |x'.luns|), b);
  }

  lemma ReleasingStarts(x: Extension, live: map<nat, seq<Byte>>)
    requires Accounted(x, live) && forall i :: 0 <= i < |x.luns| ==> x.luns[i].number == i
    ensures Releasing(x.(luns := Stopped(x.luns)), live, live, Backings(x.luns, |x.luns|))
  {
    BackingsSame(x.luns, Stopped(x.luns), |x.luns|);
    StopAllSizesTo(x.luns, |x.luns|);
  }

  lemma ReleasingEnds(x: Extension, live: map<nat, seq<Byte>>, before: map<nat, seq<Byte>>, all: set<nat>)
    requires Releasing(x, live, before, all) && FirstIn(x.luns, Stopping) == |x.luns|
    ensures forall i :: 0 <= i < |x.luns| ==> x.luns[i] == FreshLun(i)
    ensures live == before - all && x.total == 0
  {
    NoneLeft(x.luns, |x.luns|);
  }

  /** DrainAndReleaseDisks: the loop ends with every slot fresh, no byte accounted for and
      exactly the disks' buffers freed. */
  method DrainAndReleaseDisks(adapter: Adapter, pool: Pool)
    requires pool.Valid() && Accounted(adapter.View(), pool.live)
    requires forall i :: 0 <= i < adapter.luns.Length ==> adapter.luns[i].number == i
    modifies adapter, adapter.operations, adapter.luns, pool
    ensures pool.Valid() && pool.live == old(pool.live) - old(Backings(adapter.luns[..], adapter.luns.Length))
    ensures forall i :: 0 <= i < adapter.luns.Length ==> adapter.luns[i] == FreshLun(i)
    ensures adapter.total == 0
  {
    ghost var live, all := pool.live, Backings(adapter.luns[..], adapter.luns.Length);
    ReleasingStarts(adapter.View(), live);
    adapter.MarkAllLunsStopping();
    var slot := adapter.FirstStoppingLun();
    while slot < adapter.luns.Length
      invariant pool.Valid() && Releasing(adapter.View(), pool.live, live, all)
      invariant slot == FirstIn(adapter.luns[..], Stopping)
      decreases Stoppings(adapter.luns[..], adapter.luns.Length)
    {
      ReleasingStep(adapter.View(), pool.live, live, all, slot);
      DrainAndFinalize(adapter, pool, slot);
      slot := adapter.FirstStoppingLun();
    }
    ReleasingEnds(adapter.View(), pool.live, live, all);
    assert forall i :: 0 <= i < adapter.luns.Length ==> adapter.luns[i] == adapter.View().luns[i];
  }
}
