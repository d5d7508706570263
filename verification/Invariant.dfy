/** The inductive invariant of the driver: the management token, the operation table,
    the link between create records and LUNs, effect counts, and SRB ownership. */
module Invariant {
  import opened Protocol
  import opened Driver
  import opened System
  import opened Storage

  // ------------------------------------------------------- Serialization token

  /** Busy means exactly that a command is in flight, the idle event that none is;
      once shutdown has waited for idle, none ever is again. */
  ghost predicate TokenOk(x: Extension, flight: Flight, sweep: Sweep) {
    && (x.busy <==> flight.Flight?)
    && (x.idle <==> flight.Free?)
    && (!sweep.NotStarted? ==> x.stopping)
    && (!sweep.NotStarted? && !sweep.Closed? ==> flight.Free?)
  }

  ghost predicate SweepOk(luns: seq<Lun>, sweep: Sweep) {
    && (sweep.Sweeping? ==>
          && (forall i :: 0 <= i < |luns| ==> luns[i].state != Online)
          && !Creating(sweep.work) && !sweep.work.Discarding?)
    && (sweep.Swept? || sweep.Released? ==> forall i :: 0 <= i < |luns| ==> luns[i].state == Empty)
  }

  // ------------------------------------------------------------ Operation table

  ghost predicate RecordOk(r: Record, next: nat) {
    && (r.id == 0 ==> r == NO_RECORD)
    && r.lun < DISK_COUNT
    && (r.id != 0 ==>
          && Issued(r.id, next, U64_LIMIT)
          && (r.mutation == CREATE_DISK || r.mutation == DELETE_DISK)
          && r.state != Unused
          && (r.state == Succeeded ==> r.result == STATUS_SUCCESS)
          && (r.state == Failed ==> r.result < 0)
          && (r.state == Deleted ==> r.mutation == CREATE_DISK && r.result == STATUS_SUCCESS)
          && (r.mutation == CREATE_DISK && (r.state == Succeeded || r.state == Deleted) ==> r.device != 0)
          && (r.mutation == DELETE_DISK && r.state != Reserved ==> r.device == r.remove))
  }

  ghost predicate TableOk(ops: seq<Record>, next: nat) {
    && |ops| == OPERATION_COUNT && next < U64_LIMIT
    && (forall k :: 0 <= k < |ops| ==> RecordOk(ops[k], next))
    && (forall j, k :: 0 <= j < k < |ops| && ops[j].id != 0 ==> ops[j].id != ops[k].id)
  }

  /** The command in flight still owns a Pending record. */
  predicate Unpublished(f: Flight) {
    f.Flight? && (f.phase.Admitted? || f.phase.Queued? || f.phase.Working? || f.phase.Decided?)
  }

  predicate SameParameters(r: Record, cmd: Command) {
    r.mutation == cmd.Mutation() && r.create == cmd.create && r.remove == cmd.remove
  }

  /** The work belongs to the command: a create works on its request, a delete on its device. */
  predicate WorkMatches(w: Work, cmd: Command) {
    && (Creating(w) ==> cmd.Mutation() == CREATE_DISK && w.request == cmd.create)
    && (w.Discarding? ==> cmd.Mutation() == CREATE_DISK)
    && (w.Marked? || w.Drained? || w.Detached? || w.Freed? ==> cmd.Mutation() == DELETE_DISK && w.device == cmd.remove)
  }

  ghost predicate DecidedOk(luns: seq<Lun>, next: nat, f: Flight)
    requires f.Flight?
  {
    var r := f.snapshot;
    && f.changed == NtSuccess(r.result)
    && (r.state == if f.changed then Succeeded else Failed)
    && (f.changed ==> r.result == STATUS_SUCCESS)
    && (r.mutation == DELETE_DISK ==> r.device == f.cmd.remove)
    && (f.changed && r.mutation == DELETE_DISK ==> Gone(luns, next, r.device))
    && (f.changed && r.mutation == CREATE_DISK ==>
          && r.lun < |luns| && luns[r.lun].state == Online && luns[r.lun].device == r.device
          && luns[r.lun].createId == 0 && HasParams(luns[r.lun], r.create))
  }

  /** The LUN is the disk that was asked for. */
  predicate HasParams(l: Lun, p: CreateParams) {
    l.size == p.size && l.media == p.media && l.letter == p.letter
  }

  /** No LUN holds the device, and no later LUN can. */
  ghost predicate Gone(luns: seq<Lun>, next: nat, device: nat) {
    && Issued(device, next, U32_LIMIT)
    && (forall i :: 0 <= i < |luns| && luns[i].state != Empty ==> luns[i].device != device)
  }

  ghost predicate PhaseOk(luns: seq<Lun>, next: nat, f: Flight)
    requires f.Flight?
  {
    && f.cmd.Validated()
    && (!f.phase.Working? ==> f.work.Ready?)
    && (f.phase.Working? ==> SameParameters(f.snapshot, f.cmd) && WorkMatches(f.work, f.cmd))
    && (f.phase.Decided? ==> SameParameters(f.snapshot, f.cmd) && DecidedOk(luns, next, f))
    && (f.phase.Admitted? || f.phase.Queued? || f.phase.Working? ==> !f.changed)
    && (f.phase.Answered? || f.phase.Completed? ==> f.announce == f.changed)
    && (f.phase.Notified? ==> f.changed)
    && f.snapshot.lun < DISK_COUNT
  }

  /** A Pending record is the in-flight command's own, and until the command publishes
      its result the table still holds exactly the record the worker copied. */
  ghost predicate FlightOk(ops: seq<Record>, luns: seq<Lun>, instance: nat, next: nat, f: Flight) {
    && (forall k :: 0 <= k < |ops| && ops[k].state == Pending ==>
          Unpublished(f) && f.cmd.IsReserved() && ops[k].id == f.cmd.identity.id)
    && (f.Flight? ==> PhaseOk(luns, next, f))
    && (Unpublished(f) && f.cmd.IsReserved() ==>
          var k := Find(ops, f.cmd.identity.id);
          && f.cmd.identity.instance == instance && k < |ops|
          && ops[k].state == Pending && SameParameters(ops[k], f.cmd)
          && (f.cmd.Mutation() == DELETE_DISK ==> ops[k].device == f.cmd.remove)
          && (f.phase.Working? ==> f.snapshot == ops[k])
          && (f.phase.Decided? ==> f.snapshot.id == ops[k].id))
  }

  /** Live create records and LUNs that carry a creating operation, in bijection. */
  ghost predicate BindingOk(ops: seq<Record>, luns: seq<Lun>) {
    && (forall k :: 0 <= k < |ops| && ops[k].state == Succeeded && ops[k].mutation == CREATE_DISK ==>
        LunOf(luns, ops[k]))
    && (forall i :: 0 <= i < |luns| && luns[i].createId != 0 ==>
          var k := Find(ops, luns[i].createId);
          && luns[i].state != Empty && k < |ops|
          && ops[k].state == Succeeded && ops[k].mutation == CREATE_DISK && ops[k].lun == i)
  }

  predicate LunOf(luns: seq<Lun>, r: Record) {
    && r.lun < |luns| && luns[r.lun].state != Empty
    && luns[r.lun].device == r.device && luns[r.lun].createId == r.id
    && HasParams(luns[r.lun], r.create)
  }

  // --------------------------------------------------------------- Effect counts

  function Expected(r: Record, f: Flight): nat {
    match r.state
    case Succeeded => 1
    case Deleted => 1
    case Pending => if f.Flight? && f.changed then 1 else 0
    case _ => 0
  }

  ghost predicate EffectsOk(ops: seq<Record>, next: nat, effects: map<nat, nat>, f: Flight) {
    && (forall k :: 0 <= k < |ops| && ops[k].id != 0 ==> Count(effects, ops[k].id) == Expected(ops[k], f))
    && (forall id :: id in effects ==> Issued(id, next, U64_LIMIT) && effects[id] <= 1)
  }

  // --------------------------------------------------------------- SRB ownership

  /** A handle whose outcome is fixed: its record is terminal or was evicted. */
  predicate Settled(ops: seq<Record>, next: nat, id: nat) {
    && Issued(id, next, U64_LIMIT)
    && (Find(ops, id) == |ops| ||
        var state := ops[Find(ops, id)].state; state == Succeeded || state == Failed || state == Deleted)
  }

  /** What a query of the id finds. */
  function Observe(ops: seq<Record>, id: nat): Option<Record> {
    if Find(ops, id) == |ops| then None else Some(ops[Find(ops, id)])
  }

  /** The reply is what the retained record says, or said before a created disk was deleted. */
  predicate Recorded(ops: seq<Record>, instance: nat, r: OperationResponse) {
    var q := Observe(ops, r.id);
    q.Some? ==>
      || r == Respond(instance, q.value)
      || (q.value.state == Deleted && r == Respond(instance, q.value.(state := Succeeded)))
  }

  /** A reply about a handle tells the truth, and goes on doing so. */
  ghost predicate ReplyOk(s: System, c: Control, reply: Driver.Reply) {
    match reply
    case Error(status) => status < 0 && !(c.accepted && c.cmd.IsReserved())
    case Legacy(_, _, _) => !c.cmd.IsReserved()
    case Outcome(r) =>
      && c.cmd.IsReserved()
      && r.Matches(c.cmd.identity, c.cmd.Mutation()) && r.instance == s.x.instance
      && Settled(s.x.operations, s.x.nextOperation, r.id) && Recorded(s.x.operations, s.x.instance, r)
      && OutcomeOk(s.x.luns, s.x.nextDevice, Count(s.effects, r.id), r)
      && (r.state == StateCode(Succeeded) && r.mutation == CREATE_DISK && Observe(s.x.operations, r.id).None? ==>
            Gone(s.x.luns, s.x.nextDevice, r.device))
      && (c.accepted ==> r.state != StateCode(Deleted))
      && (c.accepted && r.mutation == DELETE_DISK ==> r.device == c.cmd.remove)
  }

  ghost predicate OutcomeOk(luns: seq<Lun>, next: nat, count: nat, r: OperationResponse) {
    && r.path == 0 && r.target == 0 && r.lun < DISK_COUNT
    && (r.state == StateCode(Succeeded) || r.state == StateCode(Failed) || r.state == StateCode(Deleted))
    && count == (if r.state == StateCode(Failed) then 0 else 1)
    && (if r.state == StateCode(Failed) then r.result < 0 else r.result == STATUS_SUCCESS)
    && (r.state == StateCode(Deleted) ==> r.mutation == CREATE_DISK)
    && (r.state != StateCode(Failed) && r.mutation == CREATE_DISK ==> r.device != 0)
    && ((r.state == StateCode(Succeeded) && r.mutation == DELETE_DISK) || r.state == StateCode(Deleted) ==>
          Gone(luns, next, r.device))
  }

  /** The slot a create response names holds the disk that was asked for. */
  predicate Placed(luns: seq<Lun>, r: OperationResponse, p: CreateParams) {
    && r.lun < |luns| && luns[r.lun].state != Empty
    && luns[r.lun].device == r.device && luns[r.lun].createId == r.id && HasParams(luns[r.lun], p)
  }

  /** A completed delete, or a create whose disk has been deleted since. */
  predicate Vanished(r: Record) {
    r.state == Deleted || (r.state == Succeeded && r.mutation == DELETE_DISK)
  }

  /** Such a record means that its device is gone. */
  ghost predicate DeletesOk(ops: seq<Record>, luns: seq<Lun>, next: nat) {
    forall k :: 0 <= k < |ops| && Vanished(ops[k]) ==> Gone(luns, next, ops[k].device)
  }

  predicate StageOk(phase: Phase, stage: Stage) {
    match phase
    case Answered => stage.Replied?
    case Completed => stage.Done?
    case Notified => stage.Done?
    case _ => stage.Open?
  }

  /** The only SRB awaiting its reply is the one in flight. */
  ghost predicate OwnershipOk(controls: map<nat, Control>, f: Flight) {
    && (f.Flight? ==>
          && f.srb in controls && controls[f.srb].cmd == f.cmd && controls[f.srb].accepted
          && StageOk(f.phase, controls[f.srb].stage))
    && (forall srb :: srb in controls && controls[srb].stage.Open? ==> f.Flight? && f.srb == srb)
  }

  ghost predicate RepliesOk(s: System) {
    forall srb :: srb in s.controls && !s.controls[srb].stage.Open? ==>
      ReplyOk(s, s.controls[srb], s.controls[srb].stage.reply)
  }

  /** Every SRB is completed at most once, and Done means completed. */
  ghost predicate CompletionsOk(controls: map<nat, Control>, completions: seq<nat>) {
    && (forall i, j :: 0 <= i < j < |completions| ==> completions[i] != completions[j])
    && (forall srb :: srb in completions <==> srb in controls && controls[srb].stage.Done?)
  }

  /** BusChangeDetected follows exactly the commands that changed the LUN table. */
  ghost predicate NoticesOk(changes: seq<nat>, notices: seq<nat>, f: Flight) {
    if f.Flight? && f.changed && !f.phase.Notified? then changes == notices + [f.srb] else changes == notices
  }

  ghost predicate ManagementInv(s: System) {
    && s.x.instance > 0
    && TokenOk(s.x, s.flight, s.sweep)
    && SweepOk(s.x.luns, s.sweep)
    && TableOk(s.x.operations, s.x.nextOperation)
    && FlightOk(s.x.operations, s.x.luns, s.x.instance, s.x.nextDevice, s.flight)
    && BindingOk(s.x.operations, s.x.luns)
    && EffectsOk(s.x.operations, s.x.nextOperation, s.effects, s.flight)
    && DeletesOk(s.x.operations, s.x.luns, s.x.nextDevice)
    && OwnershipOk(s.controls, s.flight)
    && RepliesOk(s)
    && CompletionsOk(s.controls, s.completions)
    && NoticesOk(s.changes, s.notices, s.flight)
  }

  ghost predicate Inv(s: System) {
    StorageInv(s) && ManagementInv(s)
  }
}
