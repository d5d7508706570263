/** Creating and deleting a disk from the client's side (cli/src/driver/windows/adapter):
    reserve a handle, resolve the operation, check what came back. */
module Client {
  import opened Protocol
  import opened Driver
  import opened System
  import opened Storage
  import opened Invariant
  import opened TableSteps
  import opened Steps
  import opened Guarantees
  import opened Retention
  import opened History
  import opened Recovery

  // ----------------------------------------------------------------- Reserving

  function ReserveEvents(mutation: nat, choice: Choice): seq<Event> {
    if choice.delivery.Delivered? then choice.before + [ReserveOp(mutation)] else choice.before
  }

  /** `wanted` is the instance the caller will go on with: another adapter that answers
      the reservation is not that one. */
  predicate ReserveFits(s: System, wanted: Option<nat>, mutation: nat, choice: Choice) {
    && Runs(s, ReserveEvents(mutation, choice))
    && (choice.delivery.Elsewhere? ==> wanted.Some? && choice.delivery.other.instance != wanted.value)
  }

  function ReserveAnswer(x: Extension, mutation: nat): Answer {
    var (status, record, _) := Reserve(x, mutation);
    if NtSuccess(status) then Received(Respond(x.instance, record)) else Failure(DriverRejection(status))
  }

  function ReserveCall(s: System, wanted: Option<nat>, mutation: nat, choice: Choice): (System, Answer) {
    if !ReserveFits(s, wanted, mutation, choice) then (s, Failure(Transport))
    else
      var t := After(s, ReserveEvents(mutation, choice));
      match choice.delivery
      case Lost => (t, Failure(Transport))
      case Elsewhere(other) => (t, ReserveAnswer(other, mutation))
      case Delivered(_, answered, _) =>
        (t, if answered then
              RunsSplit(s, choice.before, [ReserveOp(mutation)]);
              ReserveAnswer(After(s, choice.before).x, mutation)
            else Failure(Transport))
  }

  /** reserve_operation: what the client makes of the reply. */
  function HandleOf(mutation: nat, answer: Answer): Option<Handle> {
    if answer.Received? && answer.response.mutation == mutation && answer.response.IsValidReservation()
    then Some(Handle(answer.response.instance, answer.response.id)) else None
  }

  /** A handle new to this call, reserved for the mutation and not submitted yet. */
  ghost predicate Fresh(s: System, t: System, handle: Handle, mutation: nat) {
    && Untried(t, handle) && !Issued(handle.id, s.x.nextOperation, U64_LIMIT)
    && var r := Observe(t.x.operations, handle.id);
       r.Some? && r.value.id == handle.id && r.value.mutation == mutation && r.value.state == Reserved
  }

  lemma ReservedFresh(s: System, mutation: nat)
    requires Reachable(s) && KnownSrb(s) && Reserves(s, ReserveOp(mutation))
    ensures var t := Next(s, ReserveOp(mutation));
            && HandleOf(mutation, ReserveAnswer(s.x, mutation)) == Some(Handle(s.x.instance, s.x.nextOperation))
            && Fresh(s, t, Handle(s.x.instance, s.x.nextOperation), mutation) && Reachable(t)
  {
    ReachableInvariant(s);
    StepsReachable(s, ReserveOp(mutation));
    FreshIsObserved(s, mutation);
    CountsKept(s, mutation);
  }

  lemma CountsKept(s: System, mutation: nat)
    requires Inv(s) && KnownSrb(s) && Reserves(s, ReserveOp(mutation))
    ensures Next(s, ReserveOp(mutation)).effects == s.effects && Count(s.effects, s.x.nextOperation) == 0
    ensures Issued(s.x.nextOperation, Next(s, ReserveOp(mutation)).x.nextOperation, U64_LIMIT)
    ensures Next(s, ReserveOp(mutation)).x.instance == s.x.instance
  {
    hide StorageInv, Scan;
  }

  /** A handle the client accepts is fresh, and one from another instance says so. */
  lemma ReserveCallFresh(s: System, wanted: Option<nat>, mutation: nat, choice: Choice)
    requires Reachable(s) && (mutation == CREATE_DISK || mutation == DELETE_DISK)
    ensures var (t, answer) := ReserveCall(s, wanted, mutation, choice);
            var handle := HandleOf(mutation, answer);
            && Reachable(t)
            && (answer.Received? ==>
                  || (handle.Some? && Fresh(s, t, handle.value, mutation))
                  || (wanted.Some? && answer.response.instance != wanted.value))
  {
    if ReserveFits(s, wanted, mutation, choice) {
      StaysReachable(s, ReserveEvents(mutation, choice));
      if choice.delivery.Delivered? && choice.delivery.answered {
        RunsSplit(s, choice.before, [ReserveOp(mutation)]);
        StaysReachable(s, choice.before);
        DeliveredFresh(s, choice.before, mutation);
      }
    }
  }

  lemma DeliveredFresh(s: System, before: seq<Event>, mutation: nat)
    requires Reachable(s) && Runs(s, before) && Reachable(After(s, before)) && KnownSrb(After(s, before))
    requires Runs(After(s, before), [ReserveOp(mutation)])
    ensures var t := After(s, before);
            var u := After(t, [ReserveOp(mutation)]);
            ReserveAnswer(t.x, mutation).Received? ==>
              var handle := HandleOf(mutation, ReserveAnswer(t.x, mutation));
              handle.Some? && Fresh(s, u, handle.value, mutation)
  {
    var t := After(s, before);
    assert After(t, [ReserveOp(mutation)]) == Next(t, ReserveOp(mutation));
    if ReserveAnswer(t.x, mutation).Received? {
      ReservedFresh(t, mutation);
      ReachableInvariant(s);
      if Issued(t.x.nextOperation, s.x.nextOperation, U64_LIMIT) { ObservationsFollow(s, before, t.x.nextOperation); }
    }
  }

  // ----------------------------------------------------------------- Inventory

  predicate StateFits(s: System, wanted: nat, choice: Choice) {
    && Runs(s, choice.before)
    && (choice.delivery.Elsewhere? ==> choice.delivery.other.instance != wanted)
  }

  /** StateResponse::is_valid. */
  predicate IsValidInventory(state: StateResponse) {
    state.instance != 0 && |state.disks| <= DISK_COUNT
  }

  function InventoryOf(x: Extension): Option<StateResponse> {
    if IsValidInventory(Snapshot(x)) then Some(Snapshot(x)) else None
  }

  /** Adapter::state: the inventory, when one could be read. */
  function StateCall(s: System, wanted: nat, choice: Choice): (System, Option<StateResponse>) {
    if !StateFits(s, wanted, choice) then (s, None)
    else
      var t := After(s, choice.before);
      match choice.delivery
      case Lost => (t, None)
      case Elsewhere(other) => (t, InventoryOf(other))
      case Delivered(_, answered, _) => (t, if answered then InventoryOf(t.x) else None)
  }

  lemma StateCallReachable(s: System, wanted: nat, choice: Choice)
    requires Reachable(s)
    ensures Reachable(StateCall(s, wanted, choice).0)
  {
    if StateFits(s, wanted, choice) { StaysReachable(s, choice.before); }
  }

  /** An inventory of the handle's own instance does not list a device that is gone. */
  lemma StateCallConfirms(s: System, handle: Handle, cmd: Command, choice: Choice, r: OperationResponse)
    requires Reachable(s) && handle.instance == s.x.instance && Succeeds(s, handle, cmd, r)
    requires cmd.Mutation() == DELETE_DISK
    ensures var (t, state) := StateCall(s, handle.instance, choice);
            && Reachable(t) && Succeeds(t, handle, cmd, r)
            && (state.Some? && state.value.instance == handle.instance ==> !Listed(state.value, cmd.remove))
  {
    if StateFits(s, handle.instance, choice) {
      SucceedsForever(s, choice.before, handle, cmd, r);
      StaysReachable(s, choice.before);
      GoneIsUnlisted(After(s, choice.before), cmd.remove);
    }
  }

  lemma GoneIsUnlisted(s: System, device: nat)
    requires Reachable(s) && Gone(s.x.luns, s.x.nextDevice, device)
    ensures !Listed(Snapshot(s.x), device)
  {
    ReachableInvariant(s);
    GoneIsFreed(s, device);
  }

  // ------------------------------------------------------------------- Adapter

  datatype CreatedDisk = CreatedDisk(instance: nat, device: nat, path: nat, target: nat, lun: nat)

  datatype CreateResult =
    | CreateNotReserved(error: ClientError)
    | Created(disk: CreatedDisk)
    | CreateRejected(status: Status)
    | CreateRemoved(device: nat)
    | CreateUnresolved

  datatype DeleteResult =
    | DeleteNotReserved(error: ClientError)
    | AdapterChanged
    | Confirmed
    | DeleteRejected(status: Status)
    | DeleteUnresolved
    | Unconfirmed(inventory: Option<StateResponse>)

  /** The disk is at its LUN number under its device id, created by this handle with the
      size, media kind and letter asked for; or it has been removed for good. */
  ghost predicate DiskStands(s: System, handle: Handle, disk: CreatedDisk, request: CreateParams) {
    || (disk.lun < |s.x.luns| && s.x.luns[disk.lun].state != Empty
        && s.x.luns[disk.lun].number == disk.lun && s.x.luns[disk.lun].device == disk.device
        && s.x.luns[disk.lun].createId == handle.id && HasParams(s.x.luns[disk.lun], request))
    || Gone(s.x.luns, s.x.nextDevice, disk.device)
  }

  /** The attempt ended without a decision only after every wait of its budget. */
  predicate GivesUp(trace: seq<Call>, handle: Handle, mutation: nat, waits: nat) {
    Disciplined(trace, handle, mutation) && trace != [] && Last(trace) == Paused(false) && Pauses(trace) == waits
  }

  /** The result of a creation is the outcome its history of calls ended with. */
  ghost predicate Tells(trace: seq<Call>, handle: Handle, mutation: nat, result: CreateResult) {
    exists outcome :: Ends(trace, handle, mutation, outcome) &&
      match outcome
      case Resolved(r) => result == Created(CreatedDisk(r.instance, r.device, r.path, r.target, r.lun))
      case Rejected(status) => result == CreateRejected(status)
      case Removed(device) => result == CreateRemoved(device)
      case Unresolved(_, _) => result == CreateUnresolved
  }

  lemma ResolvedStands(s: System, cmd: Command, r: OperationResponse)
    requires Reachable(s) && Succeeds(s, cmd.identity, cmd, r) && cmd.Mutation() == CREATE_DISK
    ensures DiskStands(s, cmd.identity, CreatedDisk(r.instance, r.device, r.path, r.target, r.lun), cmd.create)
  {
    ReachableInvariant(s);
  }

  class Adapter {
    const script: nat -> Choice
    var system: System
    var calls: nat

    constructor (script: nat -> Choice, system: System)
      ensures this.script == script && this.system == system && calls == 0
    {
      this.script, this.system, calls := script, system, 0;
    }

    /** What the environment did at the last call. */
    function LastChoice(): Choice
      reads this
    {
      script(if calls == 0 then 0 else calls - 1)
    }

    method ReserveOperation(wanted: Option<nat>, mutation: nat) returns (answer: Answer)
      requires Reachable(system) && (mutation == CREATE_DISK || mutation == DELETE_DISK)
      modifies this
      ensures (system, answer) == ReserveCall(old(system), wanted, mutation, script(old(calls)))
      ensures calls == old(calls) + 1
    {
      var (after, reply) := ReserveCall(system, wanted, mutation, script(calls));
      system, calls, answer := after, calls + 1, reply;
    }

    method State(wanted: nat) returns (state: Option<StateResponse>)
      requires Reachable(system)
      modifies this
      ensures (system, state) == StateCall(old(system), wanted, script(old(calls))) && calls == old(calls) + 1
      ensures Reachable(system)
    {
      StateCallReachable(system, wanted, script(calls));
      var (after, reply) := StateCall(system, wanted, script(calls));
      system, calls, state := after, calls + 1, reply;
    }

    method Recover(cmd: Command, waits: nat) returns (outcome: Outcome, ghost trace: seq<Call>)
      requires InHand(system, cmd.identity, cmd) && Untried(system, cmd.identity)
      modifies this
      ensures InHand(system, cmd.identity, cmd) && Concluded(system, cmd, outcome)
      ensures Disciplined(trace, cmd.identity, cmd.Mutation()) && Ends(trace, cmd.identity, cmd.Mutation(), outcome)
      ensures outcome.Unresolved? ==> Pauses(trace) == waits
    {
      var attempt := new Attempt(cmd, script, system, calls, waits);
      outcome := ResolveOperation(attempt);
      system, calls, trace := attempt.system, attempt.calls, attempt.trace;
    }

    /** create_disk: Created means that exactly one LUN was committed for the handle this
        call reserved, a rejection that none was, an unresolved outcome at most one. */
    method CreateDisk(request: CreateParams, waits: nat)
      returns (result: CreateResult, ghost handle: Handle, ghost trace: seq<Call>)
      requires Reachable(system) && ValidCreate(request)
      modifies this
      ensures Reachable(system)
      ensures !result.CreateNotReserved? ==> !Issued(handle.id, old(system.x.nextOperation), U64_LIMIT)
      ensures match result
              case CreateNotReserved(_) => system == old(ReserveCall(system, None, CREATE_DISK, script(calls))).0
              case Created(disk) =>
                && ExactlyOnce(system, handle.id) && disk.instance == handle.instance == system.x.instance
                && disk.device != 0 && disk.path == 0 && disk.target == 0 && disk.lun < DISK_COUNT
                && DiskStands(system, handle, disk, request)
              case CreateRejected(_) => NotExecuted(system, handle)
              case CreateRemoved(device) =>
                ExactlyOnce(system, handle.id) && Gone(system.x.luns, system.x.nextDevice, device)
              case CreateUnresolved =>
                Count(system.effects, handle.id) <= 1 && GivesUp(trace, handle, CREATE_DISK, waits)
      ensures !result.CreateNotReserved? ==> Tells(trace, handle, CREATE_DISK, result)
    {
      hide ReserveCall, Disciplined, NotExecuted, ExactlyOnce, DiskStands;
      ReserveCallFresh(system, None, CREATE_DISK, script(calls));
      var answer := ReserveOperation(None, CREATE_DISK);
      var reserved := HandleOf(CREATE_DISK, answer);
      handle, trace := Handle(0, 0), [];
      if reserved.None? {
        return CreateNotReserved(if answer.Failure? then answer.error else InvalidReply), handle, trace;
      }
      handle := reserved.value;
      var cmd := Command(CREATE_RESERVED, reserved.value, request, 0);
      var outcome;
      outcome, trace := Recover(cmd, waits);
      match outcome {
        case Resolved(r) =>
          // The conversion to a created disk cannot fail.
          assert r.IsValidCreatedDisk();
          result := Created(CreatedDisk(r.instance, r.device, r.path, r.target, r.lun));
          ResolvedStands(system, cmd, r);
        case Rejected(status) => result := CreateRejected(status);
        case Removed(device) => result := CreateRemoved(device);
        case Unresolved(_, _) => result := CreateUnresolved;
      }
    }

    /** The confirmation of a completed delete: it fails only when no inventory of this
        instance could be read. */
    method ConfirmDelete(cmd: Command, ghost r: OperationResponse) returns (result: DeleteResult)
      requires Reachable(system) && cmd.identity.instance == system.x.instance && cmd.Mutation() == DELETE_DISK
      requires Succeeds(system, cmd.identity, cmd, r)
      modifies this
      ensures Reachable(system) && Succeeds(system, cmd.identity, cmd, r)
      ensures var seen := StateCall(old(system), cmd.identity.instance, LastChoice()).1;
              result == if Confirms(seen, cmd.identity.instance, cmd.remove) then Confirmed else Unconfirmed(seen)
      ensures result.Unconfirmed? ==>
                result.inventory.None? || result.inventory.value.instance != cmd.identity.instance
    {
      hide StateCall, Succeeds, Listed, Gone;
      StateCallConfirms(system, cmd.identity, cmd, script(calls), r);
      var state := State(cmd.identity.instance);
      if state.None? || state.value.instance != cmd.identity.instance || Listed(state.value, cmd.remove) {
        return Unconfirmed(state);
      }
      result := Confirmed;
    }

    /** The second half of delete_by_id: the reserved delete is resolved and confirmed. */
    method DeleteReserved(cmd: Command, waits: nat)
      returns (result: DeleteResult, ghost trace: seq<Call>, ghost asked: System)
      requires InHand(system, cmd.identity, cmd) && Untried(system, cmd.identity) && cmd.Mutation() == DELETE_DISK
      modifies this
      ensures Reachable(system)
      ensures DeleteTells(asked, LastChoice(), system, cmd, waits, trace, result)
    {
      var outcome;
      outcome, trace := Recover(cmd, waits);
      asked := system;
      match outcome {
        case Rejected(status) => result := DeleteRejected(status);
        case Unresolved(_, _) => result := DeleteUnresolved;
        case Removed(_) => assert false;
        case Resolved(r) => result := ConfirmDelete(cmd, r);
      }
    }

    /** delete_by_id: Confirmed means that exactly one delete was executed for the handle this
        call reserved and the device no longer exists; so it does even when the
        confirmation fails, which happens only when no inventory of this adapter instance
        could be read. */
    method DeleteById(instance: nat, device: nat, waits: nat)
      returns (result: DeleteResult, ghost handle: Handle, ghost trace: seq<Call>, ghost asked: System)
      requires Reachable(system) && 0 < device < U32_LIMIT
      modifies this
      ensures Reachable(system)
      ensures result.DeleteNotReserved? ==>
                system == old(ReserveCall(system, Some(instance), DELETE_DISK, script(calls))).0
      ensures result.AdapterChanged? ==>
                && handle.instance != instance
                && system == old(ReserveCall(system, Some(instance), DELETE_DISK, script(calls))).0
      ensures !result.DeleteNotReserved? && !result.AdapterChanged? ==>
                && handle.instance == instance && !Issued(handle.id, old(system.x.nextOperation), U64_LIMIT)
                && DeleteTells(asked, LastChoice(), system, Command(DELETE_RESERVED, handle, NO_CREATE, device),
                               waits, trace, result)
    {
      ReserveCallFresh(system, Some(instance), DELETE_DISK, script(calls));
      var answer := ReserveOperation(Some(instance), DELETE_DISK);
      var reserved := HandleOf(DELETE_DISK, answer);
      handle, trace, asked := Handle(0, 0), [], system;
      if reserved.None? {
        return DeleteNotReserved(if answer.Failure? then answer.error else InvalidReply), handle, trace, asked;
      }
      handle := reserved.value;
      if reserved.value.instance != instance { return AdapterChanged, handle, trace, asked; }
      result, trace, asked := DeleteReserved(Command(DELETE_RESERVED, reserved.value, NO_CREATE, device), waits);
    }
  }

  /** What the result of a reserved delete says about the driver `s`, its history of calls,
      and the inventory read last, from the driver `asked`. */
  ghost predicate DeleteTells(asked: System, choice: Choice, s: System, cmd: Command, waits: nat, trace: seq<Call>,
                              result: DeleteResult)
  {
    var handle, device := cmd.identity, cmd.remove;
    var seen := StateCall(asked, handle.instance, choice).1;
    match result
    case Confirmed =>
      ExactlyOnce(s, handle.id) && Gone(s.x.luns, s.x.nextDevice, device) && Confirms(seen, handle.instance, device)
    case Unconfirmed(inventory) =>
      && ExactlyOnce(s, handle.id) && Gone(s.x.luns, s.x.nextDevice, device)
      && inventory == seen && (seen.None? || seen.value.instance != handle.instance)
    case DeleteRejected(status) => NotExecuted(s, handle) && Ends(trace, handle, DELETE_DISK, Rejected(status))
    case DeleteUnresolved => Count(s.effects, handle.id) <= 1 && GivesUp(trace, handle, DELETE_DISK, waits)
    case _ => false
  }

  /** The inventory shows that the device is gone from the instance. */
  predicate Confirms(state: Option<StateResponse>, instance: nat, device: nat) {
    state.Some? && state.value.instance == instance && !Listed(state.value, device)
  }
}
