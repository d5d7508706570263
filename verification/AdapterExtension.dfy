/** The adapter extension in its own form: fixed tables and fields updated in place.
    One method per section executed under LunLock; each is proved against the
    function of Driver.dfy that System.dfy interleaves. */
module AdapterExtension {
  import opened Protocol
  import opened Driver

  class Adapter {
    const instance: nat
    var stopping: bool
    var busy: bool
    var idle: bool
    var nextDevice: nat
    var nextOperation: nat
    const operations: array<Record>
    var total: nat
    const luns: array<Lun>

    ghost function View(): Extension
      reads this, operations, luns
    {
      Extension(stopping, busy, idle, nextDevice, instance, nextOperation, operations[..], total, luns[..])
    }

    /** AdapterContext::Initialize with the management and disk initialisation it runs. */
    constructor (instance: nat)
      ensures View() == Initial(instance)
      ensures fresh(operations) && fresh(luns)
    {
      this.instance := instance;
      stopping, busy, idle := false, false, true;
      nextDevice, nextOperation, total := 1, 1, 0;
      operations := new Record[OPERATION_COUNT](i => NO_RECORD);
      luns := new Lun[DISK_COUNT](i requires i >= 0 => FreshLun(i));
      new;
      assert operations[..] == Initial(instance).operations;
      assert luns[..] == Initial(instance).luns;
    }

    // ------------------------------------------------------------ Lifecycle

    method SetStopping(value: bool)
      modifies this
      ensures View() == old(View()).(stopping := value)
    {
      stopping := value;
    }

    method CloseAdmission()
      modifies this
      ensures View() == old(View()).(stopping := true)
    {
      stopping := true;
    }

    // ------------------------------------------------------------- LunStore

    method SelectAvailableLun(size: nat) returns (status: Status, selected: nat)
      ensures (status, selected) == SelectAvailable(View(), size)
    {
      selected := luns.Length;
      if stopping { return STATUS_DEVICE_NOT_READY, selected; }
      if total > (MAXIMUM_TOTAL_BYTES - size) % U64_LIMIT { return STATUS_QUOTA_EXCEEDED, selected; }
      for index := 0 to luns.Length
        invariant forall j :: 0 <= j < index ==> luns[j].state != Empty
      {
        if luns[index].state == Empty { return STATUS_SUCCESS, index; }
      }
      return STATUS_INSUFFICIENT_RESOURCES, selected;
    }

    method CommitNewLun(request: CreateParams, selected: nat, allocation: nat) returns (status: Status, device: nat)
      requires selected < luns.Length
      modifies this, luns
      ensures (status, View()) == Commit(old(View()), request, selected, allocation)
      ensures NtSuccess(status) ==> device == old(nextDevice) && luns[selected].device == device
    {
      device := 0;
      if stopping || luns[selected].state != Empty { return STATUS_DEVICE_NOT_READY, 0; }
      if nextDevice == 0 { return STATUS_INSUFFICIENT_RESOURCES, 0; }
      device := nextDevice;
      nextDevice := (nextDevice + 1) % U32_LIMIT;
      luns[selected] := Lun(Online, device, selected, request.media, request.letter, request.size,
                            0, Some(allocation), 0, true);
      total := total + request.size;
      status := STATUS_SUCCESS;
    }

    method MarkLunStopping(device: nat) returns (slot: nat)
      modifies luns
      ensures slot == OnlineAt(old(luns[..]), device)
      ensures View() == if slot < luns.Length then StopLun(old(View()), slot) else old(View())
    {
      for index := 0 to luns.Length
        invariant forall j :: 0 <= j < index ==> !Serves(luns[j], device)
        invariant luns[..] == old(luns[..])
      {
        if luns[index].state == Online && luns[index].device == device {
          luns[index] := luns[index].(state := Stopping);
          return index;
        }
      }
      return luns.Length;
    }

    method DetachBackingStore(slot: nat, device: nat) returns (backing: Option<nat>)
      requires slot < luns.Length
      modifies luns
      ensures (backing, View()) == Detach(old(View()), slot, device)
    {
      if luns[slot].state != Stopping || luns[slot].device != device { return None; }
      backing := luns[slot].backing;
      luns[slot] := luns[slot].(backing := None);
    }

    method FinalizeRemovalLocked(slot: nat)
      requires slot < luns.Length
      modifies this, luns
      ensures View() == FinalizeRemoval(old(View()), slot)
    {
      total := if total >= luns[slot].size then total - luns[slot].size else 0;
      luns[slot] := luns[slot].(backing := None, size := 0, device := 0, media := 0, letter := 0,
                                createId := 0, state := Empty);
    }

    method MarkAllLunsStopping()
      modifies luns
      ensures View() == old(View()).(luns := Stopped(old(luns[..])))
    {
      for index := 0 to luns.Length
        invariant forall k :: 0 <= k < luns.Length ==>
                    luns[k] == if k < index then Stopped(old(luns[..]))[k] else old(luns[k])
      {
        if luns[index].state == Online {
          luns[index] := luns[index].(state := Stopping);
        }
      }
    }

    method FirstStoppingLun() returns (slot: nat)
      ensures slot == FirstIn(luns[..], Stopping)
    {
      for index := 0 to luns.Length
        invariant forall j :: 0 <= j < index ==> luns[j].state != Stopping
      {
        if luns[index].state == Stopping { return index; }
      }
      return luns.Length;
    }

    method AcquireLunIo(path: nat, target: nat, lun: nat) returns (view: Option<LunView>)
      requires luns.Length == DISK_COUNT
      modifies luns
      ensures view.Some? <==> CanAcquire(old(luns[..]), path, target, lun)
      ensures view.Some? ==>
                && view.value == ViewOf(old(luns[lun]))
                && View() == SetLun(old(View()), lun, AcquiredLun(old(luns[lun])))
      ensures view.None? ==> View() == old(View())
    {
      if path != 0 || target != 0 || lun >= DISK_COUNT { return None; }
      if luns[lun].state != Online || luns[lun].backing.None? { return None; }
      var active := luns[lun].active;
      luns[lun] := luns[lun].(active := active + 1);
      if active == 0 {
        luns[lun] := luns[lun].(idle := false);
      }
      view := Some(LunView(luns[lun].backing.value, luns[lun].size, luns[lun].media, luns[lun].device));
    }

    method ReleaseLunIo(lun: nat)
      requires lun < luns.Length
      modifies luns
      ensures View() == SetLun(old(View()), lun, ReleasedLun(old(luns[lun])))
    {
      if luns[lun].active != 0 {
        luns[lun] := luns[lun].(active := luns[lun].active - 1);
        if luns[lun].active == 0 {
          luns[lun] := luns[lun].(idle := true);
        }
      }
    }

    method SnapshotOnlineLuns() returns (numbers: seq<nat>)
      ensures numbers == OnlineNumbers(luns[..], luns.Length)
    {
      numbers := [];
      for index := 0 to luns.Length
        invariant numbers == OnlineNumbers(luns[..], index)
      {
        if luns[index].state == Online { numbers := numbers + [luns[index].number]; }
      }
    }

    // ------------------------------------------------- ManagementController

    method FindOperationLocked(id: nat) returns (k: nat)
      ensures k == Find(operations[..], id)
    {
      if id == 0 { return operations.Length; }
      for index := 0 to operations.Length
        invariant forall j :: 0 <= j < index ==> operations[j].id != id
      {
        if operations[index].id == id { return index; }
      }
      return operations.Length;
    }

    method ReserveOperation(mutation: nat) returns (status: Status, result: Record)
      modifies this, operations
      ensures (status, result, View()) == Driver.Reserve(old(View()), mutation)
    {
      result := NO_RECORD;
      if mutation != CREATE_DISK && mutation != DELETE_DISK { return STATUS_INVALID_PARAMETER, result; }
      if stopping { return STATUS_DEVICE_NOT_READY, result; }
      var selected, index := operations.Length, 0;
      while index < operations.Length
        invariant 0 <= index <= operations.Length && 0 <= selected <= operations.Length
        invariant Scan(operations[..], index, selected) == Victim(operations[..])
      {
        var candidate := operations[index];
        if candidate.id == 0 {
          selected := index;
          break;
        }
        if !(candidate.state == Pending || (candidate.state == Succeeded && candidate.mutation == CREATE_DISK)) {
          if selected == operations.Length || candidate.id < operations[selected].id {
            selected := index;
          }
        }
        index := index + 1;
      }
      assert selected == Victim(operations[..]);
      if selected == operations.Length || nextOperation == 0 { return STATUS_INSUFFICIENT_RESOURCES, result; }
      operations[selected] := NO_RECORD.(id := nextOperation, mutation := mutation,
                                         state := OperationState.Reserved, result := STATUS_PENDING);
      nextOperation := (nextOperation + 1) % U64_LIMIT;
      return STATUS_SUCCESS, operations[selected];
    }

    method QueryOperation(handle: Handle) returns (record: Option<Record>)
      ensures record == Query(View(), handle)
    {
      var k := FindOperationLocked(handle.id);
      if handle.instance != instance || k == operations.Length { return None; }
      record := Some(operations[k]);
    }

    method SnapshotState() returns (response: StateResponse)
      ensures response == Snapshot(View())
    {
      var pending, disks := 0, [];
      for index := 0 to operations.Length
        invariant pending == PendingCount(operations[..], index)
      {
        if operations[index].state == Pending { pending := pending + 1; }
      }
      for index := 0 to luns.Length
        invariant disks == Inventory(luns[..], index)
      {
        if luns[index].state != Empty { disks := disks + [DiskStateOf(luns[index])]; }
      }
      response := StateResponse(instance, total, pending, disks);
    }

    method BindOperationLocked(cmd: Command) returns (admission: Admission)
      modifies operations
      ensures (admission, View()) == Bind(old(View()), cmd)
    {
      var k := FindOperationLocked(cmd.identity.id);
      if cmd.identity.instance != instance || k == operations.Length { return Refused(STATUS_NOT_FOUND); }
      var record := operations[k];
      if record.mutation != cmd.Mutation() { return Refused(STATUS_INVALID_PARAMETER); }
      if record.state != OperationState.Reserved {
        if cmd.Mutation() == CREATE_DISK {
          if record.create != cmd.create { return Refused(STATUS_INVALID_PARAMETER); }
        } else if record.remove != cmd.remove {
          return Refused(STATUS_INVALID_PARAMETER);
        }
        return Replayed(record);
      }
      operations[k] := operations[k].(create := cmd.create, remove := cmd.remove);
      if cmd.Mutation() == DELETE_DISK {
        operations[k] := operations[k].(device := cmd.remove);
      }
      operations[k] := operations[k].(state := Pending);
      assert operations[..] == old(operations[..])[k := BoundRecord(record, cmd)];
      return Accepted;
    }

    method PrepareSubmission(cmd: Command) returns (admission: Admission)
      modifies this, operations
      ensures (admission, View()) == Prepare(old(View()), cmd)
    {
      if stopping { return Refused(STATUS_DEVICE_NOT_READY); }
      if busy { return Refused(STATUS_DEVICE_BUSY); }
      busy, idle := true, false;
      admission := Accepted;
      if cmd.IsReserved() {
        admission := BindOperationLocked(cmd);
        if !admission.Accepted? { EndManagementLocked(); }
      }
    }

    method EndManagementLocked()
      modifies this
      ensures View() == Ended(old(View()))
    {
      busy, idle := false, true;
    }

    method FailOperationLocked(id: nat, status: Status) returns (reply: Reply)
      modifies operations
      ensures (reply, View()) == Fail(old(View()), id, status)
    {
      var k := FindOperationLocked(id);
      if k == operations.Length { return Error(STATUS_NOT_FOUND); }
      operations[k] := operations[k].(state := Failed, result := status);
      reply := Outcome(Respond(instance, operations[k]));
    }

    method MarkCreatesDeletedLocked(device: nat)
      modifies operations
      ensures View() == old(View()).(operations := CreatesDeleted(old(operations[..]), device))
    {
      for index := 0 to operations.Length
        invariant forall k :: 0 <= k < operations.Length ==>
                    operations[k] == if k < index then DeletedIf(old(operations[k]), device) else old(operations[k])
      {
        var record := operations[index];
        if record.mutation == CREATE_DISK && record.device == device && record.state == Succeeded {
          operations[index] := record.(state := Deleted);
        }
      }
    }

    method FinalizeDiskRemoval(slot: nat, device: nat)
      requires slot < luns.Length
      modifies this, operations, luns
      ensures View() == Finalize(old(View()), slot, device)
    {
      MarkCreatesDeletedLocked(device);
      FinalizeRemovalLocked(slot);
    }

    method SnapshotPendingOperation(handle: Handle) returns (snapshot: Option<Record>)
      ensures snapshot == PendingRecord(View(), handle)
    {
      var k := FindOperationLocked(handle.id);
      if handle.instance != instance || k == operations.Length || operations[k].state != Pending { return None; }
      snapshot := Some(operations[k]);
    }

    method PublishOperationResult(snapshot: Record) returns (reply: Reply)
      requires NtSuccess(snapshot.result) && snapshot.mutation == CREATE_DISK ==> snapshot.lun < luns.Length
      modifies operations, luns
      ensures (reply, View()) == Publish(old(View()), snapshot)
    {
      var k := FindOperationLocked(snapshot.id);
      if k == operations.Length { return Error(STATUS_NOT_FOUND); }
      if NtSuccess(snapshot.result) && snapshot.mutation == CREATE_DISK {
        luns[snapshot.lun] := luns[snapshot.lun].(createId := snapshot.id);
      }
      operations[k] := snapshot;
      reply := Outcome(Respond(instance, snapshot));
    }
  }
}
