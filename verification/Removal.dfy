/** delete_allocation (cli/src/driver/windows/disk/removal.rs): the volumes are prepared,
    the driver is asked, and the mount points come back only when the driver is known to
    have kept the disk. */
module Removal {
  import opened Protocol
  import opened Driver
  import opened System
  import opened Invariant
  import opened Recovery
  import opened Client
  import opened Saga

  /** The first entry of the device from k on, or the number of disks. */
  function EntryFrom(disks: seq<DiskState>, device: nat, k: nat): (r: nat)
    requires k <= |disks|
    ensures k <= r <= |disks|
    ensures r < |disks| ==> disks[r].device == device
    decreases |disks| - k
  {
    if k == |disks| || disks[k].device == device then k else EntryFrom(disks, device, k + 1)
  }

  predicate OnlineIn(state: StateResponse, instance: nat, device: nat) {
    && state.instance == instance
    && exists k :: 0 <= k < |state.disks| && state.disks[k].device == device && state.disks[k].state == 1
  }

  /** The inventory lets the deletion begin. */
  predicate Deletable(state: StateResponse, instance: nat, device: nat) {
    && state.instance == instance
    && var k := EntryFrom(state.disks, device, 0);
       k < |state.disks| && state.disks[k].state == 1
  }

  datatype RemovalResult =
    | NotBegun
    | NotPrepared(restored: bool)
    | Kept(restored: bool)
    | NotConfirmed
    | DiskDeleted

  /** The error carries UnresolvedOutcome. */
  predicate IsUnresolved(answer: DeleteResult) {
    answer.DeleteUnresolved? || answer.Unconfirmed?
  }

  /** The world after the volumes have been prepared and the driver was asked. */
  function Asked(w: World, vs: seq<Vol>, force: bool, script: Script): World {
    PrepareAll(w, vs, force, script).1.Made(AskDriver)
  }

  /** The volumes after the driver was asked with them in state `vs`. */
  predicate Settles(w: World, vs: seq<Vol>, script: Script, result: RemovalResult, t: World) {
    match result
    case Kept(restored) => (restored, t) == (RestoreAll(w, vs, 0, true, script).0, RestoreAll(w, vs, 0, true, script).1)
    case NotConfirmed => t == w
    case DiskDeleted => t == w
    case _ => false
  }

  /** What each result means for the volumes: `w` and `vs` are before, `t` is after. */
  predicate VolumesAfter(w: World, vs: seq<Vol>, force: bool, script: Script, result: RemovalResult, t: World) {
    var (prepared, w1, vs1) := PrepareAll(w, vs, force, script);
    match result
    case NotBegun => t == w
    case NotPrepared(restored) =>
      !prepared && (restored, t) == (RestoreAll(w1, vs1, 0, true, script).0, RestoreAll(w1, vs1, 0, true, script).1)
    case _ => prepared && Settles(Asked(w, vs, force, script), vs1, script, result, t)
  }

  /** The driver is asked only after every volume was locked or forced, dismounted and
      unmounted, in this order and with nothing in between; and whenever the restoration
      reports success, the mounts are exactly the original ones. */
  lemma DeletionOrder(w: World, vs: seq<Vol>, force: bool, script: Script, result: RemovalResult, t: World)
    requires AllOpened(vs) && VolumesAfter(w, vs, force, script, result, t)
    requires forall i :: 0 <= i < |vs| ==> forall p :: p in vs[i].points ==> p in w.mounts && w.mounts[p] == vs[i].name
    ensures var us := PrepareAll(w, vs, force, script).2;
            result.Kept? || result.NotConfirmed? || result.DiskDeleted? ==>
              && Asked(w, vs, force, script).log == w.log + LockLog(us, 0) + DismountLog(us, 0)
                 + RemoveAllLog(us, 0) + [AskDriver]
              && (forall i :: 0 <= i < |vs| ==> (us[i].locked || force) && us[i].removed == vs[i].points)
    ensures (result.NotPrepared? || result.Kept?) && result.restored ==> t.mounts == w.mounts
    ensures result.NotConfirmed? || result.DiskDeleted? ==>
              t.mounts == w.mounts - Missing(PrepareAll(w, vs, force, script).2, 0)
  {
    var (prepared, w1, us) := PrepareAll(w, vs, force, script);
    PreparedInOrder(w, vs, force, script);
    PreparedIsPrefix(w, vs, force, script);
    RestoreUndoesPrepare(w, vs, force, script, w1);
    RestoreUndoesPrepare(w, vs, force, script, Asked(w, vs, force, script));
  }

  /** The last call read an inventory in which the disk is online. */
  predicate SawOnline(asked: System, adapter: Adapter, instance: nat, device: nat)
    reads adapter
  {
    var state := StateCall(asked, instance, adapter.LastChoice()).1;
    state.Some? && OnlineIn(state.value, instance, device)
  }

  /** An inventory that names the instance is that adapter's own current state. */
  method ReadInventory(adapter: Adapter, instance: nat) returns (state: Option<StateResponse>)
    requires Reachable(adapter.system)
    modifies adapter
    ensures Reachable(adapter.system)
    ensures state.Some? && state.value.instance == instance ==> state.value == Snapshot(adapter.system.x)
    ensures state == StateCall(old(adapter.system), instance, adapter.LastChoice()).1
  {
    state := adapter.State(instance);
  }

  /** Whether the allocation is positively known to remain online. */
  method StillOnline(adapter: Adapter, instance: nat, device: nat) returns (online: bool)
    requires Reachable(adapter.system)
    modifies adapter
    ensures Reachable(adapter.system)
    ensures online <==> SawOnline(old(adapter.system), adapter, instance, device)
    ensures online ==> OnlineIn(Snapshot(adapter.system.x), instance, device)
  {
    var state := ReadInventory(adapter, instance);
    online := state.Some? && OnlineIn(state.value, instance, device);
  }

  /** What follows an unconfirmed deletion: the volumes get their mount points back when the
      inventory read next shows that the driver still has the disk, and not otherwise. */
  method Compensate(adapter: Adapter, os: Os, deletion: DiskDeletion, answer: DeleteResult, instance: nat, device: nat)
    returns (result: RemovalResult)
    requires Reachable(adapter.system) && deletion.Valid() && !answer.Confirmed?
    modifies adapter, os, deletion.volumes
    ensures Reachable(adapter.system) && (result.Kept? || result.NotConfirmed?)
    ensures Settles(old(os.world), old(deletion.Views()), os.script, result, os.world)
    ensures if IsUnresolved(answer) then result.NotConfirmed?
            else result.Kept? <==> SawOnline(old(adapter.system), adapter, instance, device)
    ensures result.Kept? ==> OnlineIn(Snapshot(adapter.system.x), instance, device)
  {
    if !IsUnresolved(answer) {
      var online := StillOnline(adapter, instance, device);
      if online {
        var restored := deletion.Restore(os);
        return Kept(restored);
      }
    }
    result := NotConfirmed;
  }

  /** The second half of delete_allocation, with every volume prepared. An unresolved
      outcome never restores, and the mount points come back only when the driver, as it is
      then, holds the disk online. */
  method DeletePrepared(adapter: Adapter, os: Os, deletion: DiskDeletion, instance: nat, device: nat, waits: nat)
    returns (result: RemovalResult, ghost handle: Handle, ghost answer: DeleteResult, ghost asked: System)
    requires Reachable(adapter.system) && 0 < device < U32_LIMIT && deletion.Valid()
    modifies adapter, os, deletion.volumes
    ensures Reachable(adapter.system)
    ensures Settles(old(os.world).Made(AskDriver), old(deletion.Views()), os.script, result, os.world)
    ensures IsUnresolved(answer) ==> result.NotConfirmed?
    ensures result.DiskDeleted? <==> answer.Confirmed?
    ensures !answer.Confirmed? && !IsUnresolved(answer) ==>
              (result.Kept? <==> SawOnline(asked, adapter, instance, device))
    ensures result.Kept? ==> OnlineIn(Snapshot(adapter.system.x), instance, device)
    ensures result.DiskDeleted? ==>
              && ExactlyOnce(adapter.system, handle.id) && handle.instance == instance
              && Gone(adapter.system.x.luns, adapter.system.x.nextDevice, device)
  {
    os.world := os.world.Made(AskDriver);
    var reply;
    ghost var trace, before;
    reply, handle, trace, before := adapter.DeleteById(instance, device, waits);
    answer, asked := reply, adapter.system;
    if reply.Confirmed? { return DiskDeleted, handle, answer, asked; }
    result := Compensate(adapter, os, deletion, reply, instance, device);
  }

  /** delete_allocation; `answer` is what the driver deletion returned, when it was asked. */
  method DeleteAllocation(adapter: Adapter, os: Os, deletion: DiskDeletion, instance: nat, device: nat, force: bool,
                          waits: nat)
    returns (result: RemovalResult, ghost handle: Handle, ghost answer: Option<DeleteResult>, ghost asked: System)
    requires Reachable(adapter.system) && 0 < device < U32_LIMIT && deletion.Valid()
    modifies adapter, os, deletion.volumes
    ensures Reachable(adapter.system)
    ensures VolumesAfter(old(os.world), old(deletion.Views()), force, os.script, result, os.world)
    ensures answer.Some? <==> result.Kept? || result.NotConfirmed? || result.DiskDeleted?
    ensures answer.Some? && IsUnresolved(answer.value) ==> result.NotConfirmed?
    ensures answer.Some? ==> (result.DiskDeleted? <==> answer.value.Confirmed?)
    ensures answer.Some? && !answer.value.Confirmed? && !IsUnresolved(answer.value) ==>
              (result.Kept? <==> SawOnline(asked, adapter, instance, device))
    ensures result.Kept? ==> OnlineIn(Snapshot(adapter.system.x), instance, device)
    ensures result.DiskDeleted? ==>
              && ExactlyOnce(adapter.system, handle.id) && handle.instance == instance
              && Gone(adapter.system.x.luns, adapter.system.x.nextDevice, device)
  {
    handle, answer, asked := Handle(0, 0), None, adapter.system;
    var state := ReadInventory(adapter, instance);
    if state.None? || !Deletable(state.value, instance, device) { return NotBegun, handle, answer, asked; }
    var prepared := deletion.PrepareVolumes(os, force);
    if !prepared {
      var restored := deletion.Restore(os);
      return NotPrepared(restored), handle, answer, asked;
    }
    ghost var reply;
    result, handle, reply, asked := DeletePrepared(adapter, os, deletion, instance, device, waits);
    answer := Some(reply);
  }
}
