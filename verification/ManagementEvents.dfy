/** Every event of the driver keeps the management invariant and evolves what clients see. */
module ManagementEvents {
  import opened Protocol
  import opened Driver
  import opened System
  import opened Storage
  import opened Invariant
  import opened TableSteps
  import opened ManagementSteps

  ghost predicate Kept(s: System, s': System) {
    ManagementInv(s') && Evolves(s, s')
  }

  /** The histories and tables a step leaves alone. */
  ghost predicate SameBooks(s: System, s': System) {
    && s'.controls == s.controls && s'.completions == s.completions && s'.effects == s.effects
    && s'.changes == s.changes && s'.notices == s.notices
    && s'.x.operations == s.x.operations && s'.x.nextOperation == s.x.nextOperation
    && s'.x.instance == s.x.instance
  }

  lemma SameReplies(s: System, s': System)
    requires RepliesOk(s) && SameBooks(s, s') && s'.x.nextDevice == s.x.nextDevice && SamePresence(s.x.luns, s'.x.luns)
    requires DeletesOk(s.x.operations, s.x.luns, s.x.nextDevice)
    ensures Evolves(s, s') && RepliesOk(s')
  {
    SameEvolves(s, s');
    RepliesStay(s, s');
  }

  // ------------------------------------------- I/O, lifecycle and the sweeper

  /** Steps that touch neither the command in flight nor the books. */
  lemma AsideKept(s: System, s': System)
    requires ManagementInv(s) && SameBooks(s, s') && s'.flight == s.flight
    requires s'.x.nextDevice == s.x.nextDevice && SamePresence(s.x.luns, s'.x.luns)
    requires s.flight.Flight? && s.flight.phase.Decided? ==>
               forall i :: 0 <= i < |s.x.luns| ==> s'.x.luns[i].state == s.x.luns[i].state
    requires TokenOk(s'.x, s'.flight, s'.sweep) && SweepOk(s'.x.luns, s'.sweep)
    ensures Kept(s, s')
  {
  }

  /** Only storage that no command, record or client refers to has changed. */
  ghost predicate Aside(s: System, s': System) {
    && SameBooks(s, s') && s'.flight == s.flight && s'.sweep == s.sweep && s'.x.nextDevice == s.x.nextDevice
    && s'.x.busy == s.x.busy && s'.x.idle == s.x.idle && s'.x.stopping == s.x.stopping
    && SamePresence(s.x.luns, s'.x.luns)
    && (forall i :: 0 <= i < |s.x.luns| ==> s'.x.luns[i].state == s.x.luns[i].state)
  }

  lemma IoKept(s: System, s': System)
    requires ManagementInv(s) && Aside(s, s')
    ensures Kept(s, s')
  {
    AsideKept(s, s');
  }

  lemma AcquireAside(s: System, l: nat, path: nat, target: nat, lun: nat)
    ensures Aside(s, OnAcquire(s, l, path, target, lun))
  {
    if CanAcquire(s.x.luns, path, target, lun) {
      CountAside(s, OnAcquire(s, l, path, target, lun), lun, AcquiredLun(s.x.luns[lun]));
    }
  }

  lemma CountAside(s: System, s': System, slot: nat, l: Lun)
    requires SameBooks(s, s') && s'.flight == s.flight && s'.sweep == s.sweep && InRange(s, slot)
    requires s'.x == s.x.(luns := s.x.luns[slot := l]) && l == s.x.luns[slot].(active := l.active, idle := l.idle)
    ensures Aside(s, s')
  {
  }

  lemma ReleaseAside(s: System, l: nat)
    requires l in s.leases && InRange(s, s.leases[l].slot)
    ensures Aside(s, OnRelease(s, l))
  {
  }

  lemma TransferAside(s: System, l: nat, request: ScsiRequest)
    requires l in s.leases && request.WellFormed()
    ensures Aside(s, OnTransfer(s, l, request))
  {
  }

  lemma StoppingKept(s: System, value: bool)
    requires ManagementInv(s) && (value || s.sweep.NotStarted?)
    ensures Kept(s, s.(x := s.x.(stopping := value)))
  {
  }

  lemma CloseKept(s: System)
    requires ManagementInv(s) && s.sweep.NotStarted?
    ensures Kept(s, s.(x := s.x.(stopping := true), sweep := Closed))
  {
  }

  lemma AwaitIdleKept(s: System)
    requires ManagementInv(s) && s.sweep.Closed? && s.x.idle
    ensures Kept(s, s.(sweep := Waited))
  {
  }

  lemma StopAllKept(s: System)
    requires ManagementInv(s) && s.sweep.Waited?
    ensures Kept(s, s.(x := s.x.(luns := Stopped(s.x.luns)), sweep := Sweeping(Ready)))
  {
    AsideKept(s, s.(x := s.x.(luns := Stopped(s.x.luns)), sweep := Sweeping(Ready)));
  }

  lemma SweptKept(s: System)
    requires ManagementInv(s) && s.sweep.Sweeping?
    requires forall i :: 0 <= i < |s.x.luns| ==> s.x.luns[i].state != Stopping
    ensures Kept(s, s.(sweep := Swept))
  {
  }

  lemma ReleaseWorkerKept(s: System)
    requires ManagementInv(s) && s.sweep.Swept?
    ensures Kept(s, s.(sweep := Released))
  {
  }

  /** The shutdown loop moves along, possibly detaching a backing or freeing it. */
  lemma SweeperKept(s: System, s': System)
    requires ManagementInv(s) && s.sweep.Sweeping? && s'.sweep.Sweeping?
    requires Aside(s, s'.(sweep := s.sweep)) && !Creating(s'.sweep.work) && !s'.sweep.work.Discarding?
    ensures Kept(s, s')
  {
  }

  // --------------------------------------------------- The command in flight

  /** A command moves between two phases in which its SRB is still open. */
  lemma InternalKept(s: System, s': System)
    requires ManagementInv(s) && SameBooks(s, s') && s'.sweep == s.sweep
    requires s'.x.nextDevice == s.x.nextDevice && SamePresence(s.x.luns, s'.x.luns)
    requires s'.x.busy == s.x.busy && s'.x.idle == s.x.idle && s'.x.stopping == s.x.stopping
    requires Unpublished(s.flight) && Unpublished(s'.flight)
    requires s'.flight.cmd == s.flight.cmd && s'.flight.srb == s.flight.srb && s'.flight.changed == s.flight.changed
    requires FlightOk(s'.x.operations, s'.x.luns, s'.x.instance, s'.x.nextDevice, s'.flight)
    requires SweepOk(s'.x.luns, s'.sweep)
    ensures Kept(s, s')
  {
    SameReplies(s, s');
    PresenceBinding(s.x.operations, s.x.luns, s'.x.luns);
    PresenceDeletes(s.x.operations, s.x.luns, s.x.nextDevice, s'.x.luns);
  }

  lemma WorkingFlight(ops: seq<Record>, luns: seq<Lun>, instance: nat, next: nat, f: Flight, luns': seq<Lun>, w: Work)
    requires FlightOk(ops, luns, instance, next, f) && f.Flight? && f.phase.Working? && WorkMatches(w, f.cmd)
    ensures FlightOk(ops, luns', instance, next, f.(work := w))
  {
  }

  lemma FailedFlight(ops: seq<Record>, luns: seq<Lun>, instance: nat, next: nat, f: Flight, status: Status, device: nat)
    requires FlightOk(ops, luns, instance, next, f) && f.Flight? && f.phase.Working? && status < 0
    requires f.cmd.Mutation() == DELETE_DISK ==> device == f.cmd.remove
    ensures FlightOk(ops, luns, instance, next,
              f.(phase := Decided, work := Ready,
                  snapshot := f.snapshot.(result := status, state := Failed, device := device)))
  {
  }

  lemma EnqueuedKept(s: System)
    requires Inv(s) && InPhase(s, Admitted)
    ensures Kept(s, OnEnqueue(s, true))
  {
    InternalKept(s, OnEnqueue(s, true));
  }

  /** The worker finds its record, still Pending. */
  lemma StartedFlight(s: System)
    requires FlightOk(s.x.operations, s.x.luns, s.x.instance, s.x.nextDevice, s.flight)
    requires TableOk(s.x.operations, s.x.nextOperation) && InPhase(s, Queued) && s.flight.srb in s.controls
    ensures var s' := OnStart(s, false);
            && s' == s.(flight := s'.flight) && s'.flight.Flight? && s'.flight.phase.Working?
            && s'.flight.cmd == s.flight.cmd && s'.flight.srb == s.flight.srb && s'.flight.changed == s.flight.changed
            && FlightOk(s.x.operations, s.x.luns, s.x.instance, s.x.nextDevice, s'.flight)
  {
    if s.flight.cmd.IsReserved() {
      assert RecordOk(s.x.operations[Find(s.x.operations, s.flight.cmd.identity.id)], s.x.nextOperation);
    }
  }

  lemma StartedKept(s: System)
    requires Inv(s) && InPhase(s, Queued)
    ensures Kept(s, OnStart(s, false))
  {
    hide OnStart, StorageInv, TableOk, BindingOk, EffectsOk, RepliesOk;
    StartedFlight(s);
    InternalKept(s, OnStart(s, false));
  }

  lemma SelectKept(s: System)
    requires Inv(s) && AtWork(s, CREATE_DISK) && s.flight.work.Ready?
    ensures Kept(s, OnSelect(s))
  {
    var s' := OnSelect(s);
    var status := SelectAvailable(s.x, s.flight.snapshot.create.size).0;
    if NtSuccess(status) {
      WorkingFlight(s.x.operations, s.x.luns, s.x.instance, s.x.nextDevice, s.flight, s.x.luns, s'.flight.work);
    } else {
      FailedFlight(s.x.operations, s.x.luns, s.x.instance, s.x.nextDevice, s.flight, status, s.flight.snapshot.device);
    }
    InternalKept(s, s');
  }

  lemma AllocateKept(s: System, ok: bool, buffer: nat, contents: seq<Byte>)
    requires Inv(s) && AtWork(s, CREATE_DISK) && s.flight.work.Selected?
    ensures Kept(s, OnAllocate(s, ok, buffer, contents))
  {
    var s' := OnAllocate(s, ok, buffer, contents);
    if ok {
      WorkingFlight(s.x.operations, s.x.luns, s.x.instance, s.x.nextDevice, s.flight, s.x.luns, s'.flight.work);
    } else {
      FailedFlight(s.x.operations, s.x.luns, s.x.instance, s.x.nextDevice, s.flight,
                   STATUS_INSUFFICIENT_RESOURCES, s.flight.snapshot.device);
    }
    InternalKept(s, s');
  }

  lemma ZeroKept(s: System)
    requires Inv(s) && AtWork(s, CREATE_DISK) && s.flight.work.Allocated?
    ensures Kept(s, OnZero(s))
  {
    WorkingFlight(s.x.operations, s.x.luns, s.x.instance, s.x.nextDevice, s.flight, s.x.luns, OnZero(s).flight.work);
    InternalKept(s, OnZero(s));
  }

  lemma DiscardKept(s: System)
    requires Inv(s) && AtWork(s, CREATE_DISK) && s.flight.work.Discarding?
    ensures Kept(s, OnDiscard(s))
  {
    FailedFlight(s.x.operations, s.x.luns, s.x.instance, s.x.nextDevice, s.flight,
                 s.flight.work.status, s.flight.snapshot.device);
    InternalKept(s, OnDiscard(s));
  }

  predicate CommitFailsAt(s: System) {
    && AtWork(s, CREATE_DISK) && s.flight.work.Zeroed? && InRange(s, s.flight.work.slot)
    && OnCommit(s).flight.phase == Working
  }

  lemma CommitFailedView(s: System)
    requires CommitFailsAt(s)
    ensures OnCommit(s) == s.(flight := s.flight.(work := OnCommit(s).flight.work))
    ensures OnCommit(s).flight.work.Discarding?
  {
  }

  lemma CommitFailedKept(s: System)
    requires Inv(s) && CommitFailsAt(s)
    ensures Kept(s, OnCommit(s))
  {
    var s' := OnCommit(s);
    CommitFailedView(s);
    WorkingFlight(s.x.operations, s.x.luns, s.x.instance, s.x.nextDevice, s.flight, s.x.luns, s'.flight.work);
    InternalKept(s, s');
  }

  lemma NoDeviceKept(s: System)
    requires Inv(s) && AtWork(s, DELETE_DISK) && OnlineAt(s.x.luns, s.flight.snapshot.remove) == |s.x.luns|
    ensures Kept(s, OnMark(s))
  {
    FailedFlight(s.x.operations, s.x.luns, s.x.instance, s.x.nextDevice, s.flight,
                 STATUS_NO_SUCH_DEVICE, s.flight.snapshot.remove);
    InternalKept(s, OnMark(s));
  }

  lemma MarkedKept(s: System, slot: nat)
    requires Inv(s) && AtWork(s, DELETE_DISK) && InRange(s, slot) && Serves(s.x.luns[slot], s.flight.snapshot.remove)
    ensures Kept(s, SetWork(s.(x := StopLun(s.x, slot)), Worker, Marked(slot, s.flight.snapshot.remove)))
  {
    var w := Marked(slot, s.flight.snapshot.remove);
    var s' := SetWork(s.(x := StopLun(s.x, slot)), Worker, w);
    SlotPresence(s.x.luns, slot, s.x.luns[slot].(state := Stopping));
    WorkingFlight(s.x.operations, s.x.luns, s.x.instance, s.x.nextDevice, s.flight, s'.x.luns, w);
    InternalKept(s, s');
  }

  /** The worker's removal moves along between two sections. */
  lemma RemovalKept(s: System, s': System)
    requires ManagementInv(s) && AtWork(s, DELETE_DISK) && s.flight.Flight? && s'.flight.Flight?
    requires Aside(s, s'.(flight := s.flight)) && s'.flight == s.flight.(work := s'.flight.work)
    requires WorkMatches(s'.flight.work, s.flight.cmd)
    ensures Kept(s, s')
  {
    WorkingFlight(s.x.operations, s.x.luns, s.x.instance, s.x.nextDevice, s.flight, s'.x.luns, s'.flight.work);
    InternalKept(s, s');
  }

  // ------------------------------------------ Steps that change the LUN table

  /** A create that has its LUN is decided: the record will name exactly this LUN. */
  lemma CreatedFlight(ops: seq<Record>, luns: seq<Lun>, instance: nat, next: nat, f: Flight,
                      luns': seq<Lun>, next': nat, slot: nat)
    requires FlightOk(ops, luns, instance, next, f) && f.Flight? && f.phase.Working? && f.work.Zeroed?
    requires slot < |luns'| && slot < DISK_COUNT && luns'[slot].state == Online && luns'[slot].createId == 0
    requires HasParams(luns'[slot], f.work.request)
    ensures FlightOk(ops, luns', instance, next',
              f.(phase := Decided, work := Ready, changed := true,
                 snapshot := f.snapshot.(result := STATUS_SUCCESS, state := Succeeded,
                                         device := luns'[slot].device, lun := slot)))
  {
  }

  lemma CommittedFlight(s: System)
    requires Inv(s) && CommitsAt(s)
    ensures var s' := OnCommit(s);
            FlightOk(s'.x.operations, s'.x.luns, s'.x.instance, s'.x.nextDevice, s'.flight)
  {
    hide FlightOk, TableOk, BindingOk, RepliesOk;
    var s', slot := OnCommit(s), s.flight.work.slot;
    CreatedFlight(s.x.operations, s.x.luns, s.x.instance, s.x.nextDevice, s.flight, s'.x.luns, s'.x.nextDevice, slot);
  }

  /** The command has executed its mutation: history grows by one effect. */
  ghost predicate Executes(s: System, s': System) {
    && s'.controls == s.controls && s'.completions == s.completions && s'.notices == s.notices
    && s'.x.instance == s.x.instance && s'.x.nextOperation == s.x.nextOperation && s'.sweep == s.sweep
    && s'.x.busy == s.x.busy && s'.x.idle == s.x.idle && s'.x.stopping == s.x.stopping
    && s.flight.Flight? && s.flight.phase.Working?
    && s'.flight.Flight? && s'.flight.phase.Decided? && s'.flight.changed
    && s'.flight.cmd == s.flight.cmd && s'.flight.srb == s.flight.srb
    && s'.effects == Bump(s.effects, s.flight.cmd) && s'.changes == s.changes + [s.flight.srb]
  }

  lemma ExecutedEvolves(s: System, s': System)
    requires ManagementInv(s) && Executes(s, s')
    requires TableEvolves(s.x.operations, s.x.nextOperation, s'.x.operations, s'.x.nextOperation)
    requires DevicesEvolve(s.x.luns, s.x.nextDevice, s'.x.luns, s'.x.nextDevice)
    ensures Evolves(s, s') && RepliesOk(s')
  {
    BumpEvolves(s.x.operations, s.x.luns, s.x.instance, s.x.nextDevice, s.effects, s.flight);
    RepliesStay(s, s');
  }

  lemma ExecutedKept(s: System, s': System)
    requires ManagementInv(s) && Executes(s, s') && Evolves(s, s') && RepliesOk(s')
    requires TableOk(s'.x.operations, s'.x.nextOperation) && BindingOk(s'.x.operations, s'.x.luns)
    requires EffectsOk(s'.x.operations, s'.x.nextOperation, s'.effects, s'.flight)
    requires DeletesOk(s'.x.operations, s'.x.luns, s'.x.nextDevice)
    requires FlightOk(s'.x.operations, s'.x.luns, s'.x.instance, s'.x.nextDevice, s'.flight)
    requires SweepOk(s'.x.luns, s'.sweep)
    ensures Kept(s, s')
  {
  }

  lemma CommitExecutes(s: System)
    requires CommitsAt(s)
    ensures Executes(s, OnCommit(s)) && OnCommit(s).x.operations == s.x.operations
    ensures var w := s.flight.work;
            && OnCommit(s).x.luns == s.x.luns[w.slot := NewLun(w.request, w.slot, s.x.nextDevice, w.buffer)]
            && OnCommit(s).x.nextDevice == (s.x.nextDevice + 1) % U32_LIMIT
            && s.x.luns[w.slot].state == Empty && s.x.nextDevice != 0 && !s.x.stopping
  {
  }

  predicate CommitsAt(s: System) {
    && AtWork(s, CREATE_DISK) && s.flight.work.Zeroed? && InRange(s, s.flight.work.slot)
    && OnCommit(s).flight.phase == Decided
  }

  lemma CommittedKept(s: System)
    requires Inv(s) && CommitsAt(s)
    ensures Kept(s, OnCommit(s))
  {
    CommittedFlight(s);
    CommitExecutes(s);
    CommittedBooks(s, OnCommit(s));
  }

  lemma CommittedBooks(s: System, s': System)
    requires Inv(s) && Executes(s, s') && s'.x.operations == s.x.operations && s.flight.work.Zeroed?
    requires var w := s.flight.work;
             && InRange(s, w.slot) && s.x.luns[w.slot].state == Empty && s.x.nextDevice != 0 && !s.x.stopping
             && s'.x.luns == s.x.luns[w.slot := NewLun(w.request, w.slot, s.x.nextDevice, w.buffer)]
             && s'.x.nextDevice == (s.x.nextDevice + 1) % U32_LIMIT
    requires FlightOk(s'.x.operations, s'.x.luns, s'.x.instance, s'.x.nextDevice, s'.flight)
    ensures Kept(s, s')
  {
    hide TableOk, EffectsOk, RepliesOk;
    var w := s.flight.work;
    var l := NewLun(w.request, w.slot, s.x.nextDevice, w.buffer);
    CommitPresence(s.x.luns, s.x.nextDevice, w.slot, l);
    CommitBinding(s.x.operations, s.x.luns, w.slot, l);
    DevicesDeletes(s.x.operations, s.x.luns, s.x.nextDevice, s'.x.luns, s'.x.nextDevice);
    BumpEffects(s.x.operations, s.x.luns, s.x.instance, s.x.nextOperation, s.x.nextDevice, s.effects,
                s.flight, s'.flight);
    ExecutedEvolves(s, s');
    ExecutedKept(s, s');
  }

  // ------------------------------------------------------------- Finalization

  predicate FinalizesAt(s: System, who: Actor) {
    WorkOf(s, who).Freed? && InRange(s, WorkOf(s, who).slot)
  }

  lemma FinalizedGone(luns: seq<Lun>, next: nat, w: Work, sweeping: bool)
    requires SlotsOk(luns, next, w, sweeping) && w.Freed?
    ensures Gone(luns[w.slot := ClearedLun(luns[w.slot])], next, w.device)
    ensures DevicesEvolve(luns, next, luns[w.slot := ClearedLun(luns[w.slot])], next)
  {
  }

  /** What the final section of a removal does to the tables. */
  ghost predicate Finalizes(s: System, s': System, w: Work) {
    && w.Freed? && InRange(s, w.slot)
    && s'.x.luns == s.x.luns[w.slot := ClearedLun(s.x.luns[w.slot])]
    && s'.x.operations == CreatesDeleted(s.x.operations, w.device)
    && s'.x.nextOperation == s.x.nextOperation && s'.x.nextDevice == s.x.nextDevice
  }

  /** The tables after the final section, whoever runs it. */
  lemma FinalizedTables(s: System, s': System, w: Work)
    requires Inv(s) && w == ActiveWork(s) && Finalizes(s, s', w)
    ensures TableOk(s'.x.operations, s'.x.nextOperation) && BindingOk(s'.x.operations, s'.x.luns)
    ensures TableEvolves(s.x.operations, s.x.nextOperation, s'.x.operations, s'.x.nextOperation)
    ensures DevicesEvolve(s.x.luns, s.x.nextDevice, s'.x.luns, s'.x.nextDevice)
    ensures DeletesOk(s'.x.operations, s'.x.luns, s'.x.nextDevice)
    ensures Gone(s'.x.luns, s'.x.nextDevice, w.device)
    ensures forall id: nat :: Find(s'.x.operations, id) == Find(s.x.operations, id)
  {
    DeletedTable(s.x.operations, s.x.nextOperation, w.device);
    FinalizedGone(s.x.luns, s.x.nextDevice, w, s.sweep.Sweeping?);
    FinalizedBinding(s.x.operations, s.x.nextOperation, s.x.luns, s.x.nextDevice, w, s.sweep.Sweeping?);
    DevicesDeletes(s.x.operations, s.x.luns, s.x.nextDevice, s'.x.luns, s'.x.nextDevice);
    DeletedDeletes(s.x.operations, s'.x.luns, s'.x.nextDevice, w.device);
  }

  lemma FinalizedBinding(ops: seq<Record>, next: nat, luns: seq<Lun>, nextDevice: nat, w: Work, sweeping: bool)
    requires TableOk(ops, next) && BindingOk(ops, luns) && SlotsOk(luns, nextDevice, w, sweeping) && w.Freed?
    ensures BindingOk(CreatesDeleted(ops, w.device), luns[w.slot := ClearedLun(luns[w.slot])])
  {
  }

  lemma DeletedDeletes(ops: seq<Record>, luns: seq<Lun>, next: nat, device: nat)
    requires DeletesOk(ops, luns, next) && Gone(luns, next, device)
    ensures DeletesOk(CreatesDeleted(ops, device), luns, next)
  {
  }

  /** The worker finalizes a delete: its record is still Pending and untouched. */
  lemma FinalizedFlight(s: System, s': System, w: Work)
    requires Inv(s) && AtWork(s, DELETE_DISK) && w == s.flight.work && Finalizes(s, s', w)
    requires s'.flight == s.flight.(phase := Decided, work := Ready, changed := true,
               snapshot := s.flight.snapshot.(result := STATUS_SUCCESS, state := Succeeded,
                   device := s.flight.snapshot.remove))
    requires Gone(s'.x.luns, s'.x.nextDevice, w.device) && s'.x.instance == s.x.instance
    requires forall id: nat :: Find(s'.x.operations, id) == Find(s.x.operations, id)
    ensures FlightOk(s'.x.operations, s'.x.luns, s'.x.instance, s'.x.nextDevice, s'.flight)
  {
  }

  lemma FinalizeExecutes(s: System)
    requires FinalizesAt(s, Worker)
    ensures var s' := OnFinalize(s, Worker);
            && Executes(s, s') && Finalizes(s, s', s.flight.work)
            && s'.flight == s.flight.(phase := Decided, work := Ready, changed := true,
                 snapshot := s.flight.snapshot.(result := STATUS_SUCCESS, state := Succeeded,
                     device := s.flight.snapshot.remove))
  {
  }

  lemma WorkerFinalizedKept(s: System)
    requires Inv(s) && FinalizesAt(s, Worker)
    ensures Kept(s, OnFinalize(s, Worker))
  {
    FinalizeExecutes(s);
    WorkerFinalizedBooks(s, OnFinalize(s, Worker));
  }

  lemma WorkerFinalizedBooks(s: System, s': System)
    requires Inv(s) && AtWork(s, DELETE_DISK) && Executes(s, s') && Finalizes(s, s', s.flight.work)
    requires s'.flight == s.flight.(phase := Decided, work := Ready, changed := true,
               snapshot := s.flight.snapshot.(result := STATUS_SUCCESS, state := Succeeded,
                   device := s.flight.snapshot.remove))
    ensures Kept(s, s')
  {
    FinalizedTables(s, s', s.flight.work);
    FinalizedFlight(s, s', s.flight.work);
    DeletedEffects(s.x.operations, s.x.nextOperation, s.effects, s.flight, s.flight.work.device);
    BumpEffectsDeleted(s, s');
    ExecutedEvolves(s, s');
    ExecutedKept(s, s');
  }

  lemma BumpEffectsDeleted(s: System, s': System)
    requires ManagementInv(s) && AtWork(s, DELETE_DISK) && s.flight.work.Freed? && Executes(s, s')
    requires s'.x.operations == CreatesDeleted(s.x.operations, s.flight.work.device)
    ensures EffectsOk(s'.x.operations, s'.x.nextOperation, s'.effects, s'.flight)
  {
    BumpEffects(s.x.operations, s.x.luns, s.x.instance, s.x.nextOperation, s.x.nextDevice, s.effects,
                s.flight, s'.flight);
    DeletedEffects(s.x.operations, s.x.nextOperation, s'.effects, s'.flight, s.flight.work.device);
  }

  lemma SweeperFinalizedKept(s: System, s': System)
    requires Inv(s) && s.sweep.Sweeping? && Finalizes(s, s', s.sweep.work)
    requires s'.sweep == Sweeping(Ready) && s'.flight == s.flight && s'.controls == s.controls
    requires s'.completions == s.completions && s'.effects == s.effects && s'.changes == s.changes
    requires s'.notices == s.notices && s'.x.instance == s.x.instance
    requires s'.x.busy == s.x.busy && s'.x.idle == s.x.idle && s'.x.stopping == s.x.stopping
    ensures Kept(s, s')
  {
    hide TableOk, BindingOk, DeletesOk, EffectsOk, TableEvolves, DevicesEvolve;
    FinalizedTables(s, s', s.sweep.work);
    DeletedEffects(s.x.operations, s.x.nextOperation, s.effects, s.flight, s.sweep.work.device);
    RepliesStay(s, s');
  }

  // ------------------------------------------------------------- Publication

  /** The command in flight gets its reply and keeps the token. */
  ghost predicate Answers(s: System, s': System, reply: Driver.Reply) {
    && s.flight.Flight? && s.flight.srb in s.controls
    && s'.controls == s.controls[s.flight.srb := s.controls[s.flight.srb].(stage := Replied(reply))]
    && s'.flight == s.flight.(phase := Answered, announce := BusChanged(reply))
    && s'.completions == s.completions && s'.effects == s.effects && s'.changes == s.changes
    && s'.notices == s.notices && s'.sweep == s.sweep && s'.x.nextDevice == s.x.nextDevice
    && s'.x.nextOperation == s.x.nextOperation && s'.x.instance == s.x.instance
    && s'.x.busy == s.x.busy && s'.x.idle == s.x.idle && s'.x.stopping == s.x.stopping
  }

  /** The tables after an answer, and the truth of the answer itself. */
  lemma AnsweredKept(s: System, s': System, reply: Driver.Reply)
    requires ManagementInv(s) && Answers(s, s', reply) && Unpublished(s.flight) && s.flight.work.Ready?
    requires Evolves(s, s') && ReplyOk(s', s.controls[s.flight.srb], reply) && BusChanged(reply) == s.flight.changed
    requires TableOk(s'.x.operations, s'.x.nextOperation) && BindingOk(s'.x.operations, s'.x.luns)
    requires EffectsOk(s'.x.operations, s'.x.nextOperation, s'.effects, s'.flight)
    requires DeletesOk(s'.x.operations, s'.x.luns, s'.x.nextDevice) && SweepOk(s'.x.luns, s'.sweep)
    requires forall k :: 0 <= k < |s'.x.operations| ==> s'.x.operations[k].state != Pending
    ensures Kept(s, s')
  {
    hide EffectsOk, TableOk, BindingOk, DeletesOk, SweepOk, TableEvolves, DevicesEvolve;
    RepliesStay(s, s');
  }

  lemma AnswerAnswers(s: System, reply: Driver.Reply)
    requires s.flight.Flight? && s.flight.srb in s.controls
    ensures Answers(s, Answer(s, reply), reply) && Answer(s, reply).x == s.x
  {
  }

  lemma LegacyPublishedKept(s: System)
    requires Inv(s) && InPhase(s, Decided) && !s.flight.cmd.IsReserved()
    ensures Kept(s, Answer(s, LegacyReply(s.flight.snapshot)))
  {
    var reply := LegacyReply(s.flight.snapshot);
    AnswerAnswers(s, reply);
    SameEvolves(s, Answer(s, reply));
    AnsweredKept(s, Answer(s, reply), reply);
  }

  /** The index of the in-flight command's record. */
  function Own(s: System): nat
    requires s.flight.Flight?
  {
    Find(s.x.operations, s.flight.cmd.identity.id)
  }

  ghost predicate HoldsRecord(s: System) {
    && s.flight.Flight? && s.flight.cmd.IsReserved() && Unpublished(s.flight)
    && Own(s) < |s.x.operations|
    && s.x.operations[Own(s)].state == Pending && s.x.operations[Own(s)].id == s.flight.cmd.identity.id != 0
    && s.x.operations[Own(s)].mutation == s.flight.cmd.Mutation()
    && SameParameters(s.x.operations[Own(s)], s.flight.cmd)
    && (s.flight.cmd.Mutation() == DELETE_DISK ==> s.x.operations[Own(s)].device == s.flight.cmd.remove)
    && s.flight.cmd.identity.instance == s.x.instance
    && RecordOk(s.x.operations[Own(s)], s.x.nextOperation)
    && (forall j :: 0 <= j < |s.x.operations| && j != Own(s) ==> s.x.operations[j].state != Pending)
  }

  lemma FlightHoldsRecord(s: System)
    requires ManagementInv(s) && Unpublished(s.flight) && s.flight.cmd.IsReserved()
    ensures HoldsRecord(s)
  {
  }

  /** The record of the command in flight becomes terminal and the answer says so. */
  lemma ClosedRecordKept(s: System, s': System, r: Record)
    requires Inv(s) && HoldsRecord(s) && s.flight.work.Ready?
    requires Answers(s, s', Outcome(Respond(s.x.instance, r))) && SamePresenceOrStamp(s, s', r)
    requires s'.x.operations == s.x.operations[Own(s) := r]
    requires Closes(s, r)
    ensures Kept(s, s')
  {
    hide TableOk, BindingOk, DeletesOk, EffectsOk, StorageInv;
    ClosedTables(s, s', r);
    ClosedEffects(s, s', r);
    ClosedReply(s, s', r);
    AnsweredKept(s, s', Outcome(Respond(s.x.instance, r)));
  }

  /** The final record of the command in flight. */
  ghost predicate Closes(s: System, r: Record)
    requires HoldsRecord(s)
  {
    var old_ := s.x.operations[Own(s)];
    && r.id == old_.id && r.mutation == old_.mutation && r.create == old_.create && r.remove == old_.remove
    && r.lun < DISK_COUNT
    && (r.state == if s.flight.changed then Succeeded else Failed)
    && (if s.flight.changed then r.result == STATUS_SUCCESS else r.result < 0)
    && (r.mutation == DELETE_DISK ==> r.device == s.flight.cmd.remove)
    && (s.flight.changed && r.mutation == DELETE_DISK ==> Gone(s.x.luns, s.x.nextDevice, r.device))
    && (s.flight.changed && r.mutation == CREATE_DISK ==>
          && r.lun < |s.x.luns| && s.x.luns[r.lun].state == Online && s.x.luns[r.lun].device == r.device != 0
          && s.x.luns[r.lun].createId == 0 && HasParams(s.x.luns[r.lun], r.create))
  }

  ghost predicate SamePresenceOrStamp(s: System, s': System, r: Record) {
    if s.flight.Flight? && s.flight.changed && r.mutation == CREATE_DISK then
      r.lun < |s.x.luns| && s'.x.luns == s.x.luns[r.lun := s.x.luns[r.lun].(createId := r.id)]
    else s'.x.luns == s.x.luns
  }

  lemma ClosedTables(s: System, s': System, r: Record)
    requires Inv(s) && HoldsRecord(s) && Closes(s, r) && SamePresenceOrStamp(s, s', r)
    requires s'.x.operations == s.x.operations[Own(s) := r]
    requires s'.x.nextOperation == s.x.nextOperation && s'.x.nextDevice == s.x.nextDevice
    ensures TableOk(s'.x.operations, s'.x.nextOperation) && BindingOk(s'.x.operations, s'.x.luns)
    ensures TableEvolves(s.x.operations, s.x.nextOperation, s'.x.operations, s'.x.nextOperation)
    ensures DevicesEvolve(s.x.luns, s.x.nextDevice, s'.x.luns, s'.x.nextDevice)
    ensures DeletesOk(s'.x.operations, s'.x.luns, s'.x.nextDevice)
    ensures Find(s'.x.operations, r.id) == Own(s)
  {
    hide SweepOk, EffectsOk, RepliesOk, OwnershipOk, CompletionsOk, StorageInv;
    var ops, next, luns, k := s.x.operations, s.x.nextOperation, s.x.luns, Own(s);
    ReplaceTable(ops, next, k, r);
    ReplaceDeletes(ops, luns, s.x.nextDevice, k, r);
    if s.flight.changed && r.mutation == CREATE_DISK { PublishBinding(ops, next, luns, k, r); }
    else { ReplaceBinding(ops, next, luns, k, r); }
    DevicesDeletes(s'.x.operations, luns, s.x.nextDevice, s'.x.luns, s'.x.nextDevice);
  }

  lemma ClosedEffects(s: System, s': System, r: Record)
    requires ManagementInv(s) && HoldsRecord(s) && Closes(s, r)
    requires s'.x.operations == s.x.operations[Own(s) := r] && s'.effects == s.effects
    requires s'.x.nextOperation == s.x.nextOperation && s'.flight.Flight? && s'.flight.changed == s.flight.changed
    ensures EffectsOk(s'.x.operations, s'.x.nextOperation, s'.effects, s'.flight)
    ensures Count(s'.effects, r.id) == if s.flight.changed then 1 else 0
  {
  }

  lemma ClosedReply(s: System, s': System, r: Record)
    requires ManagementInv(s) && HoldsRecord(s) && Closes(s, r)
    requires s'.x.operations == s.x.operations[Own(s) := r] && Find(s'.x.operations, r.id) == Own(s)
    requires s'.x.instance == s.x.instance && s'.x.nextOperation == s.x.nextOperation
    requires s'.x.nextDevice == s.x.nextDevice
    requires DevicesEvolve(s.x.luns, s.x.nextDevice, s'.x.luns, s'.x.nextDevice)
    requires Count(s'.effects, r.id) == if s.flight.changed then 1 else 0
    ensures ReplyOk(s', s.controls[s.flight.srb], Outcome(Respond(s.x.instance, r)))
  {
  }

  lemma PublishAnswers(s: System)
    requires InPhase(s, Decided) && s.flight.srb in s.controls && InRange(s, s.flight.snapshot.lun)
    requires HoldsRecord(s) && s.flight.snapshot.id == s.flight.cmd.identity.id
    requires s.flight.changed == NtSuccess(s.flight.snapshot.result)
    ensures var s', r := OnPublish(s), s.flight.snapshot;
            && Answers(s, s', Outcome(Respond(s.x.instance, r))) && SamePresenceOrStamp(s, s', r)
            && s'.x.operations == s.x.operations[Own(s) := r]
  {
  }

  lemma PublishedKept(s: System)
    requires Inv(s) && InPhase(s, Decided) && InRange(s, s.flight.snapshot.lun) && s.flight.cmd.IsReserved()
    ensures Kept(s, OnPublish(s))
  {
    FlightHoldsRecord(s);
    PublishAnswers(s);
    SnapshotCloses(s);
    ClosedRecordKept(s, OnPublish(s), s.flight.snapshot);
  }

  /** The worker's copy is the record it overwrites plus its own result: nothing that
      happened in between is lost. */
  lemma SnapshotCloses(s: System)
    requires Inv(s) && InPhase(s, Decided) && s.flight.cmd.IsReserved() && HoldsRecord(s)
    ensures Closes(s, s.flight.snapshot)
  {
  }

  // -------------------------------------------- Commands that never executed

  function FailedRecord(r: Record): Record {
    r.(state := Failed, result := STATUS_INSUFFICIENT_RESOURCES)
  }

  lemma FailedCloses(s: System)
    requires HoldsRecord(s) && !s.flight.changed
    ensures Closes(s, FailedRecord(s.x.operations[Own(s)]))
    ensures FailCommand(s.x, s.flight.cmd)
         == (Outcome(Respond(s.x.instance, FailedRecord(s.x.operations[Own(s)]))),
             s.x.(operations := s.x.operations[Own(s) := FailedRecord(s.x.operations[Own(s)])]))
  {
  }

  lemma RejectedKept(s: System)
    requires Inv(s) && InPhase(s, Queued) && s.flight.cmd.IsReserved()
    ensures Kept(s, OnStart(s, true))
  {
    FlightHoldsRecord(s);
    FailedCloses(s);
    ClosedRecordKept(s, OnStart(s, true), FailedRecord(s.x.operations[Own(s)]));
  }

  /** The command in flight gets its reply from the submitter and gives the token back. */
  ghost predicate Abandons(s: System, s': System, reply: Driver.Reply) {
    && s.flight.Flight? && s.flight.srb in s.controls
    && s'.controls == s.controls[s.flight.srb := s.controls[s.flight.srb].(stage := Replied(reply))]
    && s'.flight == Free && s'.x.luns == s.x.luns
    && s'.completions == s.completions && s'.effects == s.effects && s'.changes == s.changes
    && s'.notices == s.notices && s'.sweep == s.sweep && s'.x.nextDevice == s.x.nextDevice
    && s'.x.nextOperation == s.x.nextOperation && s'.x.instance == s.x.instance
    && !s'.x.busy && s'.x.idle && s'.x.stopping == s.x.stopping
  }

  lemma AbandonedKept(s: System, s': System, reply: Driver.Reply)
    requires ManagementInv(s) && Abandons(s, s', reply) && Unpublished(s.flight) && !s.flight.changed
    requires Evolves(s, s') && ReplyOk(s', s.controls[s.flight.srb], reply)
    requires TableOk(s'.x.operations, s'.x.nextOperation) && BindingOk(s'.x.operations, s'.x.luns)
    requires EffectsOk(s'.x.operations, s'.x.nextOperation, s'.effects, s'.flight)
    requires DeletesOk(s'.x.operations, s'.x.luns, s'.x.nextDevice)
    requires forall k :: 0 <= k < |s'.x.operations| ==> s'.x.operations[k].state != Pending
    ensures Kept(s, s')
  {
    hide EffectsOk, TableOk, BindingOk, DeletesOk, SweepOk, TableEvolves, DevicesEvolve;
    RepliesStay(s, s');
  }

  lemma QueueFailedAbandons(s: System)
    requires InPhase(s, Admitted) && s.flight.srb in s.controls
    ensures var (reply, x) := FailCommand(s.x, s.flight.cmd);
            Abandons(s, OnEnqueue(s, false), reply) && OnEnqueue(s, false).x.operations == x.operations
  {
  }

  lemma LegacyQueueFailedKept(s: System)
    requires Inv(s) && InPhase(s, Admitted) && !s.flight.cmd.IsReserved()
    ensures Kept(s, OnEnqueue(s, false))
  {
    var s' := OnEnqueue(s, false);
    QueueFailedAbandons(s);
    SameEvolves(s, s');
    AbandonedKept(s, s', Error(STATUS_INSUFFICIENT_RESOURCES));
  }

  lemma QueueFailedKept(s: System)
    requires Inv(s) && InPhase(s, Admitted) && s.flight.cmd.IsReserved()
    ensures Kept(s, OnEnqueue(s, false))
  {
    FlightHoldsRecord(s);
    FailedCloses(s);
    QueueFailedAbandons(s);
    AbandonedRecordKept(s, OnEnqueue(s, false), FailedRecord(s.x.operations[Own(s)]));
  }

  lemma AbandonedRecordKept(s: System, s': System, r: Record)
    requires Inv(s) && HoldsRecord(s) && Closes(s, r) && !s.flight.changed
    requires Abandons(s, s', Outcome(Respond(s.x.instance, r)))
    requires s'.x.operations == s.x.operations[Own(s) := r]
    ensures Kept(s, s')
  {
    ClosedTables(s, s', r);
    ReplaceEffects(s.x.operations, s.x.nextOperation, s.effects, s.flight, Own(s), r, Free);
    ClosedReply(s, s', r);
    AbandonedKept(s, s', Outcome(Respond(s.x.instance, r)));
  }

  // ---------------------------------------------------------------- Admission

  lemma RefusedKept(s: System, srb: nat, cmd: Command, accepted: bool, reply: Driver.Reply)
    requires Inv(s) && srb !in s.controls && ReplyOk(s, Control(cmd, false, Replied(reply)), reply)
    ensures Kept(s, s.(controls := s.controls[srb := Control(cmd, false, Replied(reply))]))
  {
    hide TableOk, BindingOk, DeletesOk, SweepOk, EffectsOk, StorageInv;
    var s' := s.(controls := s.controls[srb := Control(cmd, false, Replied(reply))]);
    SameEvolves(s, s');
    ReplyStays(s, s', s'.controls[srb], reply);
    RepliesStay(s, s');
  }

  /** Without the token a submission is refused or replayed, and nothing has changed. */
  lemma NotAccepted(s: System, cmd: Command)
    requires ManagementInv(s) && !Prepare(s.x, cmd).0.Accepted?
    ensures Prepare(s.x, cmd).1 == s.x
    ensures Prepare(s.x, cmd).0.Refused? ==> Prepare(s.x, cmd).0.status < 0
  {
  }

  /** A replay only ever copies a terminal record: a Pending one implies the token is taken. */
  lemma ReplayOk(s: System, cmd: Command)
    requires ManagementInv(s) && Prepare(s.x, cmd).0.Replayed?
    ensures var reply := Outcome(Respond(s.x.instance, Prepare(s.x, cmd).0.record));
            ReplyOk(s, Control(cmd, false, Replied(reply)), reply)
  {
  }

  /** The reservation of the command becomes Pending with the command's parameters. */
  lemma BoundTables(s: System, cmd: Command)
    requires Inv(s) && cmd.Validated() && cmd.IsReserved() && Prepare(s.x, cmd).0.Accepted?
    ensures var k, x := Find(s.x.operations, cmd.identity.id), Prepare(s.x, cmd).1;
            && k < |s.x.operations| && x.operations == s.x.operations[k := BoundRecord(s.x.operations[k], cmd)]
            && s.flight.Free? && !s.x.stopping && s.x.operations[k].state == Reserved
            && s.x.operations[k].mutation == cmd.Mutation() && cmd.identity.instance == s.x.instance
            && x == Begun(s.x).(operations := x.operations)
            && TableOk(x.operations, x.nextOperation)
            && TableEvolves(s.x.operations, s.x.nextOperation, x.operations, x.nextOperation)
            && Find(x.operations, cmd.identity.id) == k
            && BindingOk(x.operations, s.x.luns) && DeletesOk(x.operations, s.x.luns, s.x.nextDevice)
            && (forall j :: 0 <= j < |s.x.operations| ==> s.x.operations[j].state != Pending)
  {
    var ops, next, k := s.x.operations, s.x.nextOperation, Find(s.x.operations, cmd.identity.id);
    var r := BoundRecord(ops[k], cmd);
    assert RecordOk(ops[k], next);
    ReplaceTable(ops, next, k, r);
    ReplaceBinding(ops, next, s.x.luns, k, r);
    ReplaceDeletes(ops, s.x.luns, s.x.nextDevice, k, r);
  }

  function AcceptedState(s: System, srb: nat, cmd: Command): System {
    s.(x := Prepare(s.x, cmd).1, flight := Flight(cmd, srb, Admitted, NO_RECORD, Ready, false, false),
       controls := s.controls[srb := Control(cmd, true, Open)])
  }

  lemma BoundFlight(s: System, srb: nat, cmd: Command)
    requires Inv(s) && cmd.Validated() && cmd.IsReserved() && Prepare(s.x, cmd).0.Accepted?
    ensures FlightOk(Prepare(s.x, cmd).1.operations, s.x.luns, s.x.instance, s.x.nextDevice,
                     Flight(cmd, srb, Admitted, NO_RECORD, Ready, false, false))
  {
    BoundTables(s, cmd);
  }

  lemma AcceptedReservedKept(s: System, srb: nat, cmd: Command)
    requires Inv(s) && srb !in s.controls && cmd.Validated() && cmd.IsReserved() && Prepare(s.x, cmd).0.Accepted?
    ensures Kept(s, AcceptedState(s, srb, cmd))
  {
    hide TableOk, BindingOk, DeletesOk, SweepOk, FlightOk, TableEvolves, StorageInv;
    var s' := AcceptedState(s, srb, cmd);
    var k := Find(s.x.operations, cmd.identity.id);
    BoundTables(s, cmd);
    BoundFlight(s, srb, cmd);
    ReplaceEffects(s.x.operations, s.x.nextOperation, s.effects, Free, k, s'.x.operations[k], s'.flight);
    RepliesStay(s, s');
  }

  lemma AcceptedLegacyKept(s: System, srb: nat, cmd: Command)
    requires Inv(s) && srb !in s.controls && cmd.Validated() && !cmd.IsReserved() && Prepare(s.x, cmd).0.Accepted?
    ensures Kept(s, AcceptedState(s, srb, cmd))
  {
    hide TableOk, BindingOk, DeletesOk, SweepOk, StorageInv;
  }

  lemma SubmitKept(s: System, srb: nat, cmd: Command)
    requires Inv(s) && srb !in s.controls && cmd.Validated()
    ensures Kept(s, OnSubmit(s, srb, cmd))
  {
    var admission := Prepare(s.x, cmd).0;
    if admission.Accepted? {
      if cmd.IsReserved() { AcceptedReservedKept(s, srb, cmd); } else { AcceptedLegacyKept(s, srb, cmd); }
    } else {
      NotAccepted(s, cmd);
      if admission.Refused? {
        RefusedKept(s, srb, cmd, false, Error(admission.status));
      } else {
        ReplayOk(s, cmd);
        RefusedKept(s, srb, cmd, false, Outcome(Respond(s.x.instance, admission.record)));
      }
    }
  }

  // --------------------------------------------- Completion and reservation

  lemma CompleteKept(s: System, srb: nat)
    requires Inv(s) && srb in s.controls && s.controls[srb].stage.Replied?
    ensures Kept(s, OnComplete(s, srb))
  {
    hide TableOk, BindingOk, DeletesOk, SweepOk, StorageInv, TableEvolves, DevicesEvolve;
    var s' := OnComplete(s, srb);
    SameEvolves(s, s');
    RepliesStay(s, s');
    hide TableOk, BindingOk, DeletesOk, SweepOk, EffectsOk, StorageInv;
  }

  lemma NotifyKept(s: System)
    requires Inv(s) && InPhase(s, Completed) && s.flight.announce
    ensures Kept(s, s.(notices := s.notices + [s.flight.srb], flight := s.flight.(phase := Notified)))
  {
    hide TableOk, BindingOk, DeletesOk, SweepOk, StorageInv;
    var s' := s.(notices := s.notices + [s.flight.srb], flight := s.flight.(phase := Notified));
    SameEvolves(s, s');
    RepliesStay(s, s');
  }

  lemma EndKept(s: System)
    requires Inv(s) && (InPhase(s, Notified) || (InPhase(s, Completed) && !s.flight.announce))
    ensures Kept(s, s.(x := Ended(s.x), flight := Free))
  {
    hide TableOk, BindingOk, DeletesOk, SweepOk, StorageInv;
    var s' := s.(x := Ended(s.x), flight := Free);
    SameEvolves(s, s');
    RepliesStay(s, s');
  }

  lemma ReservedKept(s: System, s': System, v: nat, mutation: nat)
    requires Inv(s) && v < |s.x.operations| && (s.x.operations[v].id == 0 || !Pinned(s.x.operations[v]))
    requires s.x.nextOperation > 0 && (mutation == CREATE_DISK || mutation == DELETE_DISK)
    requires s' == s.(x := s.x.(operations := s.x.operations[v := FreshRecord(s.x.nextOperation, mutation)],
                                nextOperation := (s.x.nextOperation + 1) % U64_LIMIT))
    ensures Kept(s, s')
  {
    var ops, next := s.x.operations, s.x.nextOperation;
    ReserveTable(ops, next, v, mutation);
    ReserveBinding(ops, next, s.x.luns, v, mutation);
    ReserveEffects(ops, next, s.effects, s.flight, v, mutation);
    ReserveFlight(ops, next, s.x.luns, s.x.instance, s.x.nextDevice, s.flight, v, mutation);
    ReserveDeletes(ops, s.x.luns, s.x.nextDevice, v, FreshRecord(next, mutation));
    RepliesStay(s, s');
  }

  lemma ReserveKept(s: System, mutation: nat)
    requires Inv(s)
    ensures Kept(s, s.(x := Reserve(s.x, mutation).2))
  {
    var s' := s.(x := Reserve(s.x, mutation).2);
    if NtSuccess(Reserve(s.x, mutation).0) {
      VictimPicks(s.x.operations);
      ReservedKept(s, s', Victim(s.x.operations), mutation);
    } else {
      SameEvolves(s, s);
    }
  }
}
