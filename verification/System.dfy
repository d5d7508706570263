/** The whole driver as a transition system. Each event is one section executed
    under LunLock, or one action the driver performs between two sections
    (allocating, zeroing, waiting for a drain, freeing, completing, notifying).
    Submitters, the one worker, I/O threads, stop and restart callbacks and the
    shutdown thread interleave freely. */
module System {
  import opened Protocol
  import opened Driver
  import opened Scsi

  /** Where CreateDisk, or DeleteDisk and the shutdown loop, stand between two sections. */
  datatype Work =
    | Ready
    | Selected(slot: nat, request: CreateParams)
    | Allocated(slot: nat, request: CreateParams, buffer: nat)
    | Zeroed(slot: nat, request: CreateParams, buffer: nat)
    | Discarding(buffer: nat, status: Status)
    | Marked(slot: nat, device: nat)
    | Drained(slot: nat, device: nat)
    | Detached(slot: nat, device: nat, backing: Option<nat>)
    | Freed(slot: nat, device: nat)

  datatype Phase = Admitted | Queued | Working | Decided | Answered | Completed | Notified

  /** The command that holds the management token. `snapshot` is the worker's copy of the
      operation record, `announce` its retained busChanged flag; `changed` is history: the
      command has changed the LUN table. */
  datatype Flight =
    | Free
    | Flight(cmd: Command, srb: nat, phase: Phase, snapshot: Record, work: Work, changed: bool, announce: bool)

  /** ManagementController::Shutdown. */
  datatype Sweep = NotStarted | Closed | Waited | Sweeping(work: Work) | Swept | Released

  datatype Lease = Lease(slot: nat, view: LunView)

  /** A management SRB from admission to completion. */
  datatype Stage = Open | Replied(reply: Reply) | Done(reply: Reply)
  datatype Control = Control(cmd: Command, accepted: bool, stage: Stage)

  /** An accepted WRITE: `count` whole blocks of a device from `lba` on. */
  datatype WriteRecord = WriteRecord(device: nat, lba: nat, count: nat, data: seq<Byte>)
  type BlockWrite = w: WriteRecord | |w.data| == w.count * SECTOR_SIZE witness WriteRecord(0, 0, 0, [])

  /** `heap` holds the live pool buffers, `freed` those that were freed and not handed out
      again. The last fields are history: SRBs completed, mutations executed per operation
      id, SRBs whose command changed the LUN table, SRBs announced by BusChangeDetected,
      accepted writes, and whether freed or foreign memory was ever touched. */
  datatype System = System(
    x: Extension, heap: map<nat, seq<Byte>>, freed: set<nat>, leases: map<nat, Lease>,
    flight: Flight, sweep: Sweep, controls: map<nat, Control>,
    completions: seq<nat>, effects: map<nat, nat>, changes: seq<nat>, notices: seq<nat>,
    log: seq<BlockWrite>, fault: bool)

  function Boot(instance: nat): System {
    System(Initial(instance), map[], {}, map[], Free, NotStarted, map[], [], map[], [], [], [], false)
  }

  datatype ScsiRequest = ScsiRequest(cdb: seq<Byte>, cdbLength: nat, transferLength: nat, data: Option<seq<Byte>>) {
    predicate WellFormed() {
      |cdb| == 16 && (data.Some? ==> transferLength <= |data.value|)
    }
  }

  datatype Actor = Worker | Sweeper

  datatype Event =
    | ReserveOp(mutation: nat)
    | Submit(srb: nat, cmd: Command)
    | Enqueue(ok: bool)
    | Start(reject: bool)
    | Select
    | Allocate(ok: bool, buffer: nat, contents: seq<Byte>)
    | Zero
    | CommitLun
    | Discard
    | Mark
    | Drain(who: Actor)
    | DetachBacking(who: Actor)
    | FreeBacking(who: Actor)
    | FinalizeLun(who: Actor)
    | PublishResult
    | CompleteSrb(srb: nat)
    | Notify
    | End
    | Acquire(lease: nat, path: nat, target: nat, lun: nat)
    | Transfer(lease: nat, request: ScsiRequest)
    | Release(lease: nat)
    | SetStopping(value: bool)
    | Close
    | AwaitIdle
    | StopAll
    | PickStopping
    | ReleaseWorker

  predicate IsIo(e: Event) {
    e.Acquire? || e.Transfer? || e.Release?
  }

  predicate IsLifecycle(e: Event) {
    e.SetStopping? || e.Close? || e.AwaitIdle? || e.StopAll? || e.PickStopping? || e.ReleaseWorker?
  }

  predicate IsCreation(e: Event) {
    e.Select? || e.Allocate? || e.Zero? || e.CommitLun? || e.Discard?
  }

  predicate IsRemoval(e: Event) {
    e.Mark? || e.Drain? || e.DetachBacking? || e.FreeBacking? || e.FinalizeLun?
  }

  predicate IsManagement(e: Event) {
    !IsIo(e) && !IsLifecycle(e) && !IsCreation(e) && !IsRemoval(e)
  }

  function WorkOf(s: System, who: Actor): Work {
    if who == Worker then if s.flight.Flight? && s.flight.phase == Working then s.flight.work else Ready
    else if s.sweep.Sweeping? then s.sweep.work else Ready
  }

  function SetWork(s: System, who: Actor, work: Work): System
    requires if who == Worker then s.flight.Flight? else s.sweep.Sweeping?
  {
    if who == Worker then s.(flight := s.flight.(work := work)) else s.(sweep := Sweeping(work))
  }

  predicate InPhase(s: System, phase: Phase) {
    s.flight.Flight? && s.flight.phase == phase
  }

  predicate AtWork(s: System, mutation: nat) {
    InPhase(s, Working) && s.flight.snapshot.mutation == mutation
  }

  predicate InRange(s: System, slot: nat) {
    slot < |s.x.luns|
  }

  predicate Enabled(s: System, e: Event) {
    match e
    case ReserveOp(_) => true
    case Submit(srb, cmd) => srb !in s.controls && cmd.Validated()
    case Enqueue(_) => InPhase(s, Admitted)
    case Start(reject) => InPhase(s, Queued) && (reject ==> s.flight.cmd.IsReserved())
    case Select => AtWork(s, CREATE_DISK) && s.flight.work.Ready?
    case Allocate(ok, buffer, contents) =>
      && AtWork(s, CREATE_DISK) && s.flight.work.Selected?
      // The pool may hand out a buffer that was freed before, with whatever it holds.
      && (ok ==> buffer !in s.heap && |contents| == s.flight.work.request.size)
    case Zero => AtWork(s, CREATE_DISK) && s.flight.work.Allocated?
    case CommitLun => AtWork(s, CREATE_DISK) && s.flight.work.Zeroed? && InRange(s, s.flight.work.slot)
    case Discard => AtWork(s, CREATE_DISK) && s.flight.work.Discarding?
    case Mark => AtWork(s, DELETE_DISK) && s.flight.work.Ready?
    case Drain(who) =>
      var w := WorkOf(s, who);
      w.Marked? && InRange(s, w.slot) && s.x.luns[w.slot].idle
    case DetachBacking(who) => WorkOf(s, who).Drained? && InRange(s, WorkOf(s, who).slot)
    case FreeBacking(who) => WorkOf(s, who).Detached?
    case FinalizeLun(who) => WorkOf(s, who).Freed? && InRange(s, WorkOf(s, who).slot)
    case PublishResult => InPhase(s, Decided) && InRange(s, s.flight.snapshot.lun)
    case CompleteSrb(srb) => srb in s.controls && s.controls[srb].stage.Replied?
    case Notify => InPhase(s, Completed) && s.flight.announce
    case End => InPhase(s, Notified) || (InPhase(s, Completed) && !s.flight.announce)
    case Acquire(l, _, _, _) => l !in s.leases
    case Transfer(l, request) => l in s.leases && request.WellFormed()
    case Release(l) => l in s.leases && InRange(s, s.leases[l].slot)
    // Stop and restart may come at any time, but no restart follows the start of shutdown.
    case SetStopping(value) => value || s.sweep.NotStarted?
    case Close => s.sweep.NotStarted?
    case AwaitIdle => s.sweep.Closed? && s.x.idle
    case StopAll => s.sweep.Waited?
    case PickStopping => s.sweep.Sweeping? && s.sweep.work.Ready?
    case ReleaseWorker => s.sweep.Swept?
  }

  // ------------------------------------------------------------- Management

  function Bump(effects: map<nat, nat>, cmd: Command): map<nat, nat> {
    if cmd.IsReserved() then effects[cmd.identity.id := Count(effects, cmd.identity.id) + 1] else effects
  }

  /** How often the mutation of an operation id has been executed. */
  function Count(effects: map<nat, nat>, id: nat): nat {
    if id in effects then effects[id] else 0
  }

  function SetReply(s: System, srb: nat, reply: Driver.Reply): System
    requires srb in s.controls
  {
    s.(controls := s.controls[srb := s.controls[srb].(stage := Replied(reply))])
  }

  function OnSubmit(s: System, srb: nat, cmd: Command): System {
    var (admission, x) := Prepare(s.x, cmd);
    match admission
    case Accepted =>
      s.(x := x, flight := Flight(cmd, srb, Admitted, NO_RECORD, Ready, false, false),
         controls := s.controls[srb := Control(cmd, true, Open)])
    case Refused(status) =>
      s.(x := x, controls := s.controls[srb := Control(cmd, false, Replied(Error(status)))])
    case Replayed(record) =>
      s.(x := x, controls := s.controls[srb := Control(cmd, false, Replied(Outcome(Respond(x.instance, record))))])
  }

  /** The reply and the extension after a command is failed before it executed. */
  function FailCommand(x: Extension, cmd: Command): (Driver.Reply, Extension) {
    if cmd.IsReserved() then Fail(x, cmd.identity.id, STATUS_INSUFFICIENT_RESOURCES)
    else (Error(STATUS_INSUFFICIENT_RESOURCES), x)
  }

  function OnEnqueue(s: System, ok: bool): System
    requires InPhase(s, Admitted) && s.flight.srb in s.controls
  {
    if ok then s.(flight := s.flight.(phase := Queued))
    else
      var (reply, x) := FailCommand(s.x, s.flight.cmd);
      SetReply(s, s.flight.srb, reply).(x := Ended(x), flight := Free)
  }

  /** The bus-change flag the worker retains before it gives the SRB away. */
  predicate BusChanged(reply: Driver.Reply) {
    match reply
    case Error(status) => status == STATUS_SUCCESS
    case Outcome(r) => r.state == StateCode(Succeeded) && NtSuccess(r.result)
    case Legacy(status, _, _) => status == STATUS_SUCCESS
  }

  function Answer(s: System, reply: Driver.Reply): System
    requires s.flight.Flight? && s.flight.srb in s.controls
  {
    SetReply(s, s.flight.srb, reply).(flight := s.flight.(phase := Answered, announce := BusChanged(reply)))
  }

  function OnStart(s: System, reject: bool): System
    requires InPhase(s, Queued) && s.flight.srb in s.controls
  {
    var cmd := s.flight.cmd;
    if reject then
      var (reply, x) := FailCommand(s.x, cmd);
      Answer(s.(x := x), reply)
    else if cmd.IsReserved() then
      match PendingRecord(s.x, cmd.identity)
      case None => Answer(s, Error(STATUS_NOT_FOUND))
      case Some(record) => s.(flight := s.flight.(phase := Working, snapshot := record))
    else
      var record := NO_RECORD.(mutation := cmd.Mutation(), create := cmd.create, remove := cmd.remove);
      s.(flight := s.flight.(phase := Working, snapshot := record))
  }

  /** The mutation has its result; nothing is published yet. */
  function Decide(s: System, status: Status, device: nat, lun: nat): System
    requires s.flight.Flight?
  {
    var state := if NtSuccess(status) then Succeeded else Failed;
    s.(flight := s.flight.(phase := Decided, work := Ready,
       snapshot := s.flight.snapshot.(result := status, state := state, device := device, lun := lun)))
  }

  /** A failed create leaves the copied device and LUN as they were. */
  function DecideFailed(s: System, status: Status): System
    requires s.flight.Flight?
  {
    Decide(s, status, s.flight.snapshot.device, s.flight.snapshot.lun)
  }

  function Effect(s: System): System
    requires s.flight.Flight?
  {
    s.(effects := Bump(s.effects, s.flight.cmd), changes := s.changes + [s.flight.srb],
       flight := s.flight.(changed := true))
  }

  function OnSelect(s: System): System
    requires s.flight.Flight?
  {
    var request := s.flight.snapshot.create;
    var (status, slot) := SelectAvailable(s.x, request.size);
    if NtSuccess(status) then SetWork(s, Worker, Selected(slot, request)) else DecideFailed(s, status)
  }

  function OnAllocate(s: System, ok: bool, buffer: nat, contents: seq<Byte>): System
    requires s.flight.Flight? && s.flight.work.Selected?
  {
    var w := s.flight.work;
    if ok then
      SetWork(s.(heap := s.heap[buffer := contents], freed := s.freed - {buffer}), Worker,
              Allocated(w.slot, w.request, buffer))
    else DecideFailed(s, STATUS_INSUFFICIENT_RESOURCES)
  }

  function OnZero(s: System): System
    requires s.flight.Flight? && s.flight.work.Allocated?
  {
    var w := s.flight.work;
    if w.buffer !in s.heap then s.(fault := true)
    else SetWork(s.(heap := s.heap[w.buffer := Zeros(w.request.size)]), Worker, Zeroed(w.slot, w.request, w.buffer))
  }

  function OnCommit(s: System): System
    requires s.flight.Flight? && s.flight.work.Zeroed? && InRange(s, s.flight.work.slot)
  {
    var w := s.flight.work;
    var (status, x) := Commit(s.x, w.request, w.slot, w.buffer);
    if NtSuccess(status) then Decide(Effect(s.(x := x)), status, s.x.nextDevice, w.slot)
    else SetWork(s, Worker, Discarding(w.buffer, status))
  }

  /** StorPortFreePool; freeing what is not live is a fault. */
  function FreePool(s: System, buffer: nat): System {
    s.(heap := s.heap - {buffer}, freed := s.freed + {buffer}, fault := s.fault || buffer !in s.heap)
  }

  function OnDiscard(s: System): System
    requires s.flight.Flight? && s.flight.work.Discarding?
  {
    DecideFailed(FreePool(s, s.flight.work.buffer), s.flight.work.status)
  }

  function OnMark(s: System): System
    requires s.flight.Flight?
  {
    var device := s.flight.snapshot.remove;
    var slot := OnlineAt(s.x.luns, device);
    if slot == |s.x.luns| then Decide(s, STATUS_NO_SUCH_DEVICE, device, s.flight.snapshot.lun)
    else SetWork(s.(x := StopLun(s.x, slot)), Worker, Marked(slot, device))
  }

  function OnFree(s: System, who: Actor): System
    requires WorkOf(s, who).Detached?
  {
    var w := WorkOf(s, who);
    SetWork(if w.backing.Some? then FreePool(s, w.backing.value) else s, who, Freed(w.slot, w.device))
  }

  function OnFinalize(s: System, who: Actor): System
    requires WorkOf(s, who).Freed? && InRange(s, WorkOf(s, who).slot)
  {
    var w := WorkOf(s, who);
    var t := s.(x := Finalize(s.x, w.slot, w.device));
    if who == Worker then Decide(Effect(t), STATUS_SUCCESS, s.flight.snapshot.remove, s.flight.snapshot.lun)
    else t.(sweep := Sweeping(Ready))
  }

  function OnPublish(s: System): System
    requires InPhase(s, Decided) && s.flight.srb in s.controls && InRange(s, s.flight.snapshot.lun)
  {
    var snapshot := s.flight.snapshot;
    if s.flight.cmd.IsReserved() then
      var (reply, x) := Publish(s.x, snapshot);
      Answer(s.(x := x), reply)
    else Answer(s, LegacyReply(snapshot))
  }

  /** WriteCreateResponse carries the new identity; WriteDeleteResponse is a bare header. */
  function LegacyReply(snapshot: Record): Driver.Reply {
    if snapshot.mutation == CREATE_DISK then Legacy(snapshot.result, snapshot.device, snapshot.lun)
    else Legacy(snapshot.result, 0, 0)
  }

  function OnComplete(s: System, srb: nat): System
    requires srb in s.controls && s.controls[srb].stage.Replied?
  {
    var c := s.controls[srb];
    s.(controls := s.controls[srb := c.(stage := Done(c.stage.reply))],
       completions := s.completions + [srb],
       flight := if s.flight.Flight? && s.flight.srb == srb then s.flight.(phase := Completed) else s.flight)
  }

  // --------------------------------------------------------------------- I/O

  function OnAcquire(s: System, l: nat, path: nat, target: nat, lun: nat): System {
    if CanAcquire(s.x.luns, path, target, lun) then
      s.(x := SetLun(s.x, lun, AcquiredLun(s.x.luns[lun])),
         leases := s.leases[l := Lease(lun, ViewOf(s.x.luns[lun]))])
    else s
  }

  /** The verdict of HandleReadWrite on a leased view. */
  function VerdictOf(s: System, l: nat, request: ScsiRequest): Verdict
    requires l in s.leases && request.WellFormed()
  {
    Judge(request.cdb, request.cdbLength, s.leases[l].view.size, request.transferLength, request.data.Some?)
  }

  /** The copy of HandleReadWrite; touching memory outside a live buffer is a fault. */
  function OnTransfer(s: System, l: nat, request: ScsiRequest): System
    requires l in s.leases && request.WellFormed()
  {
    var view := s.leases[l].view;
    match VerdictOf(s, l, request)
    case Accepted(a) =>
      var n := a.count * SECTOR_SIZE;
      if view.buffer !in s.heap || a.lba * SECTOR_SIZE + n > |s.heap[view.buffer]| then s.(fault := true)
      else if a.write then
        var data := request.data.value[..n];
        s.(heap := s.heap[view.buffer := Overwrite(s.heap[view.buffer], a.lba * SECTOR_SIZE, data)],
           log := s.log + [WriteRecord(view.device, a.lba, a.count, data)])
      else s
    case _ => s
  }

  function OnRelease(s: System, l: nat): System
    requires l in s.leases && InRange(s, s.leases[l].slot)
  {
    var slot := s.leases[l].slot;
    s.(x := SetLun(s.x, slot, ReleasedLun(s.x.luns[slot])), leases := s.leases - {l})
  }

  // ---------------------------------------------------------------- Shutdown

  function OnPick(s: System): System
    requires s.sweep.Sweeping?
  {
    var slot := FirstIn(s.x.luns, Stopping);
    if slot < |s.x.luns| then SetWork(s, Sweeper, Marked(slot, s.x.luns[slot].device)) else s.(sweep := Swept)
  }

  /** The in-flight SRB is one the driver knows. */
  predicate KnownSrb(s: System) {
    s.flight.Flight? ==> s.flight.srb in s.controls
  }

  function Next(s: System, e: Event): System
    requires Enabled(s, e) && KnownSrb(s)
  {
    match e
    case ReserveOp(mutation) => s.(x := Reserve(s.x, mutation).2)
    case Submit(srb, cmd) => OnSubmit(s, srb, cmd)
    case Enqueue(ok) => OnEnqueue(s, ok)
    case Start(reject) => OnStart(s, reject)
    case Select => OnSelect(s)
    case Allocate(ok, buffer, contents) => OnAllocate(s, ok, buffer, contents)
    case Zero => OnZero(s)
    case CommitLun => OnCommit(s)
    case Discard => OnDiscard(s)
    case Mark => OnMark(s)
    case Drain(who) => var w := WorkOf(s, who); SetWork(s, who, Drained(w.slot, w.device))
    case DetachBacking(who) =>
      var w := WorkOf(s, who);
      var (backing, x) := Detach(s.x, w.slot, w.device);
      SetWork(s.(x := x), who, Detached(w.slot, w.device, backing))
    case FreeBacking(who) => OnFree(s, who)
    case FinalizeLun(who) => OnFinalize(s, who)
    case PublishResult => OnPublish(s)
    case CompleteSrb(srb) => OnComplete(s, srb)
    case Notify => s.(notices := s.notices + [s.flight.srb], flight := s.flight.(phase := Notified))
    case End => s.(x := Ended(s.x), flight := Free)
    case Acquire(l, path, target, lun) => OnAcquire(s, l, path, target, lun)
    case Transfer(l, request) => OnTransfer(s, l, request)
    case Release(l) => OnRelease(s, l)
    case SetStopping(value) => s.(x := s.x.(stopping := value))
    case Close => s.(x := s.x.(stopping := true), sweep := Closed)
    case AwaitIdle => s.(sweep := Waited)
    case StopAll => s.(x := s.x.(luns := Stopped(s.x.luns)), sweep := Sweeping(Ready))
    case PickStopping => OnPick(s)
    case ReleaseWorker => s.(sweep := Released)
  }

  // -------------------------------------------------------------------- Runs

  /** The events can be executed one after the other from s. */
  predicate Runs(s: System, es: seq<Event>)
    decreases |es|
  {
    es == [] || (KnownSrb(s) && Enabled(s, es[0]) && Runs(Next(s, es[0]), es[1..]))
  }

  function After(s: System, es: seq<Event>): System
    requires Runs(s, es)
    decreases |es|
  {
    if es == [] then s else After(Next(s, es[0]), es[1..])
  }

  /** s is reached by some interleaving from the initialisation of some adapter. */
  ghost predicate Reachable(s: System) {
    exists instance: nat, es: seq<Event> :: instance > 0 && Runs(Boot(instance), es) && After(Boot(instance), es) == s
  }

  lemma RunsCons(s: System, e: Event, es: seq<Event>)
    requires KnownSrb(s) && Enabled(s, e) && Runs(Next(s, e), es)
    ensures Runs(s, [e] + es) && After(s, [e] + es) == After(Next(s, e), es)
  {
    assert ([e] + es)[1..] == es;
  }

  lemma {:induction false} RunsConcat(s: System, es: seq<Event>, fs: seq<Event>)
    requires Runs(s, es) && Runs(After(s, es), fs)
    ensures Runs(s, es + fs) && After(s, es + fs) == After(After(s, es), fs)
    decreases |es|
  {
    if es == [] {
      assert es + fs == fs;
    } else {
      RunsConcat(Next(s, es[0]), es[1..], fs);
      assert (es + fs)[1..] == es[1..] + fs;
    }
  }

  lemma {:induction false} RunsSplit(s: System, es: seq<Event>, fs: seq<Event>)
    requires Runs(s, es + fs)
    ensures Runs(s, es) && Runs(After(s, es), fs) && After(s, es + fs) == After(After(s, es), fs)
    decreases |es|
  {
    if es == [] {
      assert es + fs == fs;
    } else {
      assert (es + fs)[1..] == es[1..] + fs;
      RunsSplit(Next(s, es[0]), es[1..], fs);
    }
  }

  /** Whatever runs on from a reachable state stays reachable. */
  lemma StaysReachable(s: System, es: seq<Event>)
    requires Reachable(s) && Runs(s, es)
    ensures Reachable(After(s, es))
  {
    var instance: nat, fs: seq<Event> :| instance > 0 && Runs(Boot(instance), fs) && After(Boot(instance), fs) == s;
    RunsConcat(Boot(instance), fs, es);
  }
}
