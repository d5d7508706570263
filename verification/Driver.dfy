/** The adapter extension as a value, and what each section executed under
    LunLock does to it. Every function here is the specification of one such
    section; AdapterExtension.dfy proves the in-place code against them and
    System.dfy interleaves them. */
module Driver {
  import opened Protocol

  datatype LunState = Empty | Online | Stopping

  /** WISPDISK_LUN; `backing` names a pool buffer, `idle` is NoActiveRequestsEvent. */
  datatype Lun = Lun(
    state: LunState, device: nat, number: nat, media: nat, letter: nat, size: nat,
    createId: nat, backing: Option<nat>, active: nat, idle: bool)

  /** WISPDISK_OPERATION_RECORD; `remove` is the device named by a delete. */
  datatype Record = Record(
    id: nat, mutation: nat, state: OperationState, result: Status, device: nat, lun: nat,
    create: CreateParams, remove: nat)

  const NO_RECORD := Record(0, 0, Unused, 0, 0, 0, NO_CREATE, 0)

  /** The lock-protected fields of WISPDISK_ADAPTER_EXTENSION; `idle` is ManagementIdleEvent. */
  datatype Extension = Extension(
    stopping: bool, busy: bool, idle: bool,
    nextDevice: nat, instance: nat, nextOperation: nat,
    operations: seq<Record>, total: nat, luns: seq<Lun>)

  function FreshLun(i: nat): Lun {
    Lun(Empty, 0, i, 0, 0, 0, 0, None, 0, true)
  }

  function Initial(instance: nat): Extension {
    Extension(false, false, true, 1, instance, 1,
              seq(OPERATION_COUNT, i => NO_RECORD), 0, seq(DISK_COUNT, i requires i >= 0 => FreshLun(i)))
  }

  // ---------------------------------------------------------------- LunStore

  /** The first slot from i on in the given state, or |luns|. */
  function FirstFrom(luns: seq<Lun>, state: LunState, i: nat): (r: nat)
    requires i <= |luns|
    ensures i <= r <= |luns|
    ensures r < |luns| ==> luns[r].state == state
    ensures forall j :: i <= j < r ==> luns[j].state != state
    decreases |luns| - i
  {
    if i == |luns| || luns[i].state == state then i else FirstFrom(luns, state, i + 1)
  }

  function FirstIn(luns: seq<Lun>, state: LunState): (r: nat)
    ensures r <= |luns|
    ensures r < |luns| ==> luns[r].state == state
    ensures forall j :: 0 <= j < r ==> luns[j].state != state
  {
    FirstFrom(luns, state, 0)
  }

  predicate Serves(l: Lun, device: nat) {
    l.state == Online && l.device == device
  }

  /** The first online slot from i on that holds the device, or |luns|. */
  function OnlineFrom(luns: seq<Lun>, device: nat, i: nat): (r: nat)
    requires i <= |luns|
    ensures i <= r <= |luns|
    ensures r < |luns| ==> Serves(luns[r], device)
    ensures forall j :: i <= j < r ==> !Serves(luns[j], device)
    decreases |luns| - i
  {
    if i == |luns| || Serves(luns[i], device) then i else OnlineFrom(luns, device, i + 1)
  }

  function OnlineAt(luns: seq<Lun>, device: nat): (r: nat)
    ensures r <= |luns|
    ensures r < |luns| ==> Serves(luns[r], device)
    ensures forall j :: 0 <= j < r ==> !Serves(luns[j], device)
  {
    OnlineFrom(luns, device, 0)
  }

  /** SelectAvailableLun: admission, quota and slot are checked, nothing is taken yet.
      The 64-bit subtraction wraps; command validation keeps it from doing so. */
  function SelectAvailable(x: Extension, size: nat): (Status, nat) {
    if x.stopping then (STATUS_DEVICE_NOT_READY, |x.luns|)
    else if x.total > (MAXIMUM_TOTAL_BYTES - size) % U64_LIMIT then (STATUS_QUOTA_EXCEEDED, |x.luns|)
    else
      var slot := FirstIn(x.luns, Empty);
      if slot < |x.luns| then (STATUS_SUCCESS, slot) else (STATUS_INSUFFICIENT_RESOURCES, slot)
  }

  function NewLun(p: CreateParams, slot: nat, device: nat, buffer: nat): Lun {
    Lun(Online, device, slot, p.media, p.letter, p.size, 0, Some(buffer), 0, true)
  }

  /** CommitNewLun: the status, and the extension after it. A 32-bit device id that
      wraps to zero ends creation for this adapter instance. */
  function Commit(x: Extension, p: CreateParams, slot: nat, buffer: nat): (Status, Extension)
    requires slot < |x.luns|
  {
    if x.stopping || x.luns[slot].state != Empty then (STATUS_DEVICE_NOT_READY, x)
    else if x.nextDevice == 0 then (STATUS_INSUFFICIENT_RESOURCES, x)
    else (STATUS_SUCCESS,
          x.(nextDevice := (x.nextDevice + 1) % U32_LIMIT,
             luns := x.luns[slot := NewLun(p, slot, x.nextDevice, buffer)],
             total := x.total + p.size))
  }

  function SetLun(x: Extension, slot: nat, lun: Lun): Extension
    requires slot < |x.luns|
  {
    x.(luns := x.luns[slot := lun])
  }

  /** MarkLunStopping after its search found `slot`. */
  function StopLun(x: Extension, slot: nat): Extension
    requires slot < |x.luns|
  {
    SetLun(x, slot, x.luns[slot].(state := Stopping))
  }

  /** DetachBackingStore: the detached pointer, and the extension after it. */
  function Detach(x: Extension, slot: nat, device: nat): (Option<nat>, Extension)
    requires slot < |x.luns|
  {
    if x.luns[slot].state != Stopping || x.luns[slot].device != device then (None, x)
    else (x.luns[slot].backing, SetLun(x, slot, x.luns[slot].(backing := None)))
  }

  function ClearedLun(lun: Lun): Lun {
    lun.(backing := None, size := 0, device := 0, media := 0, letter := 0, createId := 0, state := Empty)
  }

  /** FinalizeRemovalLocked, with its saturating subtraction. */
  function FinalizeRemoval(x: Extension, slot: nat): Extension
    requires slot < |x.luns|
  {
    var size := x.luns[slot].size;
    SetLun(x, slot, ClearedLun(x.luns[slot])).(total := if x.total >= size then x.total - size else 0)
  }

  function Stopped(luns: seq<Lun>): (r: seq<Lun>)
    ensures |r| == |luns|
    ensures forall i :: 0 <= i < |luns| ==>
              r[i] == if luns[i].state == Online then luns[i].(state := Stopping) else luns[i]
  {
    seq(|luns|, i requires 0 <= i < |luns| => if luns[i].state == Online then luns[i].(state := Stopping) else luns[i])
  }

  /** The view a lease hands to the SCSI handlers. */
  datatype LunView = LunView(buffer: nat, size: nat, media: nat, device: nat)

  predicate CanAcquire(luns: seq<Lun>, path: nat, target: nat, lun: nat) {
    && path == 0 && target == 0 && lun < |luns|
    && luns[lun].state == Online && luns[lun].backing.Some?
  }

  function ViewOf(lun: Lun): LunView
    requires lun.backing.Some?
  {
    LunView(lun.backing.value, lun.size, lun.media, lun.device)
  }

  /** AcquireLunIo on a slot that CanAcquire. */
  function AcquiredLun(lun: Lun): Lun {
    lun.(active := lun.active + 1, idle := if lun.active == 0 then false else lun.idle)
  }

  /** ReleaseLunIo. */
  function ReleasedLun(lun: Lun): Lun {
    if lun.active == 0 then lun
    else lun.(active := lun.active - 1, idle := if lun.active == 1 then true else lun.idle)
  }

  function DiskStateOf(lun: Lun): DiskState {
    DiskState(lun.device, lun.number, lun.size, lun.media, lun.letter, lun.createId,
              if lun.state == Online then 1 else 2)
  }

  /** The ListState entries of the first n slots. */
  function Inventory(luns: seq<Lun>, n: nat): seq<DiskState>
    requires n <= |luns|
  {
    if n == 0 then []
    else Inventory(luns, n - 1) + if luns[n - 1].state == Empty then [] else [DiskStateOf(luns[n - 1])]
  }

  /** The slots reported by REPORT LUNS. */
  function OnlineNumbers(luns: seq<Lun>, n: nat): seq<nat>
    requires n <= |luns|
  {
    if n == 0 then []
    else OnlineNumbers(luns, n - 1) + if luns[n - 1].state == Online then [luns[n - 1].number] else []
  }

  // ---------------------------------------------------- ManagementController

  function FindFrom(ops: seq<Record>, id: nat, i: nat): (k: nat)
    requires i <= |ops|
    ensures i <= k <= |ops|
    ensures k < |ops| ==> ops[k].id == id
    ensures forall j :: i <= j < k ==> ops[j].id != id
    decreases |ops| - i
  {
    if i == |ops| || ops[i].id == id then i else FindFrom(ops, id, i + 1)
  }

  /** FindOperationLocked: the index of the record, or |ops|; id 0 names nothing. */
  function Find(ops: seq<Record>, id: nat): (k: nat)
    ensures k <= |ops|
    ensures k < |ops| ==> id != 0 && ops[k].id == id
    ensures id != 0 ==> forall j :: 0 <= j < k ==> ops[j].id != id
    ensures id == 0 ==> k == |ops|
  {
    if id == 0 then |ops| else FindFrom(ops, id, 0)
  }

  /** CopyResultLocked followed by WriteOperationResponse. */
  function Respond(instance: nat, r: Record): OperationResponse {
    OperationResponse(instance, r.id, r.mutation, StateCode(r.state), r.result, r.device, 0, 0, r.lun)
  }

  /** A reservation must not overwrite the record: a command is working on it, or a disk
      that exists carries its id. */
  predicate Pinned(r: Record) {
    r.state == Pending || (r.state == Succeeded && r.mutation == CREATE_DISK)
  }

  /** The reservation scan from record i on, with the candidate selected so far. */
  function Scan(ops: seq<Record>, i: nat, selected: nat): (r: nat)
    requires i <= |ops| && selected <= |ops|
    ensures r <= |ops|
    decreases |ops| - i
  {
    if i == |ops| then selected
    else if ops[i].id == 0 then i
    else if Pinned(ops[i]) then Scan(ops, i + 1, selected)
    else if selected == |ops| || ops[i].id < ops[selected].id then Scan(ops, i + 1, i)
    else Scan(ops, i + 1, selected)
  }

  function Victim(ops: seq<Record>): (r: nat)
    ensures r <= |ops|
  {
    Scan(ops, 0, |ops|)
  }

  function FreshRecord(id: nat, mutation: nat): Record {
    NO_RECORD.(id := id, mutation := mutation, state := Reserved, result := STATUS_PENDING)
  }

  /** ReserveOperation: the status, the record copied out on success, and the extension after it. */
  function Reserve(x: Extension, mutation: nat): (Status, Record, Extension) {
    if mutation != CREATE_DISK && mutation != DELETE_DISK then (STATUS_INVALID_PARAMETER, NO_RECORD, x)
    else if x.stopping then (STATUS_DEVICE_NOT_READY, NO_RECORD, x)
    else
      var victim := Victim(x.operations);
      if victim == |x.operations| || x.nextOperation == 0 then (STATUS_INSUFFICIENT_RESOURCES, NO_RECORD, x)
      else
        var record := FreshRecord(x.nextOperation, mutation);
        (STATUS_SUCCESS, record,
         x.(operations := x.operations[victim := record],
            nextOperation := (x.nextOperation + 1) % U64_LIMIT))
  }

  /** QueryOperation: the retained record of a handle. */
  function Query(x: Extension, handle: Handle): Option<Record> {
    var k := Find(x.operations, handle.id);
    if handle.instance != x.instance || k == |x.operations| then None else Some(x.operations[k])
  }

  function PendingCount(ops: seq<Record>, n: nat): nat
    requires n <= |ops|
  {
    if n == 0 then 0 else PendingCount(ops, n - 1) + if ops[n - 1].state == Pending then 1 else 0
  }

  /** SnapshotState. */
  function Snapshot(x: Extension): StateResponse {
    StateResponse(x.instance, x.total, PendingCount(x.operations, |x.operations|), Inventory(x.luns, |x.luns|))
  }

  /** MutationCommand; `operation` is one of the four mutation codes. */
  datatype Command = Command(operation: nat, identity: Handle, create: CreateParams, remove: nat) {
    predicate IsReserved() {
      operation == CREATE_RESERVED || operation == DELETE_RESERVED
    }

    function Mutation(): nat {
      if operation == CREATE_DISK || operation == CREATE_RESERVED then CREATE_DISK else DELETE_DISK
    }

    /** What the protocol handlers guarantee before they submit a command. */
    predicate Validated() {
      && operation in {CREATE_DISK, DELETE_DISK, CREATE_RESERVED, DELETE_RESERVED}
      && (Mutation() == CREATE_DISK ==> ValidCreate(create) && remove == 0)
      && (Mutation() == DELETE_DISK ==> create == NO_CREATE && 0 < remove < U32_LIMIT)
    }
  }

  datatype Admission = Refused(status: Status) | Replayed(record: Record) | Accepted

  function BoundRecord(r: Record, cmd: Command): Record {
    r.(create := cmd.create, remove := cmd.remove, state := Pending,
       device := if cmd.Mutation() == DELETE_DISK then cmd.remove else r.device)
  }

  /** BindOperationLocked: a replay is answered from the record, a reservation becomes Pending. */
  function Bind(x: Extension, cmd: Command): (Admission, Extension) {
    var k := Find(x.operations, cmd.identity.id);
    if cmd.identity.instance != x.instance || k == |x.operations| then (Refused(STATUS_NOT_FOUND), x)
    else
      var r := x.operations[k];
      if r.mutation != cmd.Mutation() then (Refused(STATUS_INVALID_PARAMETER), x)
      else if r.state != Reserved then
        if (if cmd.Mutation() == CREATE_DISK then r.create != cmd.create else r.remove != cmd.remove)
        then (Refused(STATUS_INVALID_PARAMETER), x)
        else (Replayed(r), x)
      else (Accepted, x.(operations := x.operations[k := BoundRecord(r, cmd)]))
  }

  function Begun(x: Extension): Extension {
    x.(busy := true, idle := false)
  }

  /** EndManagementLocked. */
  function Ended(x: Extension): Extension {
    x.(busy := false, idle := true)
  }

  /** PrepareSubmission: admission, binding and the publication of Pending are one section. */
  function Prepare(x: Extension, cmd: Command): (Admission, Extension) {
    if x.stopping then (Refused(STATUS_DEVICE_NOT_READY), x)
    else if x.busy then (Refused(STATUS_DEVICE_BUSY), x)
    else if !cmd.IsReserved() then (Accepted, Begun(x))
    else
      var (admission, bound) := Bind(Begun(x), cmd);
      if admission.Accepted? then (admission, bound) else (admission, Ended(bound))
  }

  /** What the driver writes into a management SRB. */
  datatype Reply =
    | Error(status: Status)
    | Outcome(response: OperationResponse)
    | Legacy(status: Status, device: nat, lun: nat)

  /** FailOperationLocked. */
  function Fail(x: Extension, id: nat, status: Status): (Reply, Extension) {
    var k := Find(x.operations, id);
    if k == |x.operations| then (Error(STATUS_NOT_FOUND), x)
    else
      var r := x.operations[k].(state := Failed, result := status);
      (Outcome(Respond(x.instance, r)), x.(operations := x.operations[k := r]))
  }

  /** MarkCreatesDeletedLocked. */
  function CreatesDeleted(ops: seq<Record>, device: nat): (r: seq<Record>)
    ensures |r| == |ops|
    ensures forall k :: 0 <= k < |ops| ==> r[k] == DeletedIf(ops[k], device)
  {
    seq(|ops|, k requires 0 <= k < |ops| => DeletedIf(ops[k], device))
  }

  function DeletedIf(r: Record, device: nat): Record {
    if r.mutation == CREATE_DISK && r.device == device && r.state == Succeeded then r.(state := Deleted) else r
  }

  /** FinalizeDiskRemoval: the slot empties and its create record becomes Deleted together. */
  function Finalize(x: Extension, slot: nat, device: nat): Extension
    requires slot < |x.luns|
  {
    FinalizeRemoval(x.(operations := CreatesDeleted(x.operations, device)), slot)
  }

  /** SnapshotPendingOperation. */
  function PendingRecord(x: Extension, handle: Handle): Option<Record> {
    var k := Find(x.operations, handle.id);
    if handle.instance != x.instance || k == |x.operations| || x.operations[k].state != Pending then None
    else Some(x.operations[k])
  }

  /** PublishOperationResult: the whole record is overwritten from the worker's copy. */
  function Publish(x: Extension, snapshot: Record): (Reply, Extension)
    requires NtSuccess(snapshot.result) && snapshot.mutation == CREATE_DISK ==> snapshot.lun < |x.luns|
  {
    var k := Find(x.operations, snapshot.id);
    if k == |x.operations| then (Error(STATUS_NOT_FOUND), x)
    else
      var bound := if NtSuccess(snapshot.result) && snapshot.mutation == CREATE_DISK
                   then SetLun(x, snapshot.lun, x.luns[snapshot.lun].(createId := snapshot.id)) else x;
      (Outcome(Respond(x.instance, snapshot)), bound.(operations := x.operations[k := snapshot]))
  }
}
