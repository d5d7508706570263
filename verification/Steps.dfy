/** Every event keeps the whole invariant, so every reachable state has it. */
module Steps {
  import opened Protocol
  import opened Driver
  import opened System
  import opened Storage
  import opened StorageEvents
  import opened Invariant
  import opened ManagementSteps
  import opened ManagementEvents

  ghost predicate Good(s: System, s': System) {
    Inv(s') && Evolves(s, s')
  }

  lemma AcquireStep(s: System, l: nat, path: nat, target: nat, lun: nat)
    requires Inv(s) && l !in s.leases
    ensures Good(s, OnAcquire(s, l, path, target, lun))
  {
    AcquireKeeps(s, l, path, target, lun);
    AcquireAside(s, l, path, target, lun);
    IoKept(s, OnAcquire(s, l, path, target, lun));
  }

  lemma ReleaseStep(s: System, l: nat)
    requires Inv(s) && l in s.leases && InRange(s, s.leases[l].slot)
    ensures Good(s, OnRelease(s, l))
  {
    ReleaseKeeps(s, l);
    ReleaseAside(s, l);
    IoKept(s, OnRelease(s, l));
  }

  lemma TransferStep(s: System, l: nat, request: ScsiRequest)
    requires Inv(s) && l in s.leases && request.WellFormed()
    ensures Good(s, OnTransfer(s, l, request))
  {
    if VerdictOf(s, l, request).Accepted? && VerdictOf(s, l, request).access.write { WriteKeeps(s, l, request); }
    else { ReadKeeps(s, l, request); }
    TransferAside(s, l, request);
    IoKept(s, OnTransfer(s, l, request));
  }

  lemma IoStep(s: System, e: Event)
    requires Inv(s) && Enabled(s, e) && IsIo(e)
    ensures Good(s, Next(s, e))
  {
    match e
    case Acquire(l, path, target, lun) => AcquireStep(s, l, path, target, lun);
    case Release(l) => ReleaseStep(s, l);
    case Transfer(l, request) => TransferStep(s, l, request);
  }

  /** Storage is untouched by a step that keeps its components. */
  lemma UntouchedStep(s: System, s': System)
    requires Inv(s) && Kept(s, s')
    requires StoreIs(s', s.x.luns, s.x.total, s.x.nextDevice, s.heap, s.freed, s.leases, s.log,
                     ActiveWork(s), s.sweep.Sweeping?)
    ensures Good(s, s')
  {
  }

  lemma StoppingStep(s: System, value: bool)
    requires Inv(s) && (value || s.sweep.NotStarted?)
    ensures Good(s, s.(x := s.x.(stopping := value)))
  {
    StoppingKept(s, value);
    UntouchedStep(s, s.(x := s.x.(stopping := value)));
  }

  lemma CloseStep(s: System)
    requires Inv(s) && s.sweep.NotStarted?
    ensures Good(s, s.(x := s.x.(stopping := true), sweep := Closed))
  {
    CloseKept(s);
    UntouchedStep(s, s.(x := s.x.(stopping := true), sweep := Closed));
  }

  lemma AwaitIdleStep(s: System)
    requires Inv(s) && s.sweep.Closed? && s.x.idle
    ensures Good(s, s.(sweep := Waited))
  {
    AwaitIdleKept(s);
    UntouchedStep(s, s.(sweep := Waited));
  }

  lemma ReleaseWorkerStep(s: System)
    requires Inv(s) && s.sweep.Swept?
    ensures Good(s, s.(sweep := Released))
  {
    ReleaseWorkerKept(s);
    UntouchedStep(s, s.(sweep := Released));
  }

  lemma StopAllStep(s: System)
    requires Inv(s) && s.sweep.Waited?
    ensures Good(s, s.(x := s.x.(luns := Stopped(s.x.luns)), sweep := Sweeping(Ready)))
  {
    StopAllKeeps(s);
    StopAllKept(s);
  }

  lemma PickStep(s: System)
    requires Inv(s) && s.sweep.Sweeping? && s.sweep.work.Ready?
    ensures Good(s, OnPick(s))
  {
    PickKeeps(s);
    if FirstIn(s.x.luns, Stopping) == |s.x.luns| { SweptKept(s); }
    else { SweeperKept(s, OnPick(s)); }
  }

  lemma FlagStep(s: System, e: Event)
    requires Inv(s) && Enabled(s, e) && (e.SetStopping? || e.Close? || e.AwaitIdle? || e.ReleaseWorker?)
    ensures Good(s, Next(s, e))
  {
    match e
    case SetStopping(value) => StoppingStep(s, value);
    case Close => CloseStep(s);
    case AwaitIdle => AwaitIdleStep(s);
    case ReleaseWorker => ReleaseWorkerStep(s);
  }

  lemma LifecycleStep(s: System, e: Event)
    requires Inv(s) && Enabled(s, e) && IsLifecycle(e)
    ensures Good(s, Next(s, e))
  {
    if e.StopAll? { StopAllStep(s); } else if e.PickStopping? { PickStep(s); } else { FlagStep(s, e); }
  }

  lemma SelectStep(s: System)
    requires Inv(s) && AtWork(s, CREATE_DISK) && s.flight.work.Ready?
    ensures Good(s, OnSelect(s))
  {
    SelectKeeps(s);
    SelectKept(s);
  }

  lemma AllocateStep(s: System, ok: bool, buffer: nat, contents: seq<Byte>)
    requires Inv(s) && AtWork(s, CREATE_DISK) && s.flight.work.Selected?
    requires ok ==> buffer !in s.heap && |contents| == s.flight.work.request.size
    ensures Good(s, OnAllocate(s, ok, buffer, contents))
  {
    AllocateKeeps(s, ok, buffer, contents);
    AllocateKept(s, ok, buffer, contents);
  }

  lemma ZeroStep(s: System)
    requires Inv(s) && AtWork(s, CREATE_DISK) && s.flight.work.Allocated?
    ensures Good(s, OnZero(s))
  {
    ZeroKeeps(s);
    ZeroKept(s);
  }

  lemma CommitStep(s: System)
    requires Inv(s) && AtWork(s, CREATE_DISK) && s.flight.work.Zeroed? && InRange(s, s.flight.work.slot)
    ensures Good(s, OnCommit(s))
  {
    if CommitFits(s) {
      CommitKeeps(s);
      CommitFitsAt(s);
      CommittedKept(s);
    } else {
      CommitFailsKeeps(s);
      CommitFailsAtCommit(s);
      CommitFailedKept(s);
    }
  }

  lemma CommitFitsAt(s: System)
    requires AtWork(s, CREATE_DISK) && s.flight.work.Zeroed? && CommitFits(s)
    ensures CommitsAt(s)
  {
  }

  lemma CommitFailsAtCommit(s: System)
    requires AtWork(s, CREATE_DISK) && s.flight.work.Zeroed? && InRange(s, s.flight.work.slot) && !CommitFits(s)
    ensures CommitFailsAt(s)
  {
  }

  lemma DiscardStep(s: System)
    requires Inv(s) && AtWork(s, CREATE_DISK) && s.flight.work.Discarding?
    ensures Good(s, OnDiscard(s))
  {
    DiscardKeeps(s);
    DiscardKept(s);
  }

  lemma CreationStep(s: System, e: Event)
    requires Inv(s) && Enabled(s, e) && IsCreation(e)
    ensures Good(s, Next(s, e))
  {
    match e
    case Select => SelectStep(s);
    case Allocate(ok, buffer, contents) => AllocateStep(s, ok, buffer, contents);
    case Zero => ZeroStep(s);
    case CommitLun => CommitStep(s);
    case Discard => DiscardStep(s);
  }

  predicate Removal(w: Work) {
    w.Marked? || w.Drained? || w.Detached? || w.Freed?
  }

  /** While shutdown sweeps no command is in flight, so the actor's work is the active one. */
  lemma ActsAlone(s: System, who: Actor)
    requires Inv(s) && Removal(WorkOf(s, who))
    ensures Acts(s, who) && (if who == Worker then AtWork(s, DELETE_DISK) else s.sweep.Sweeping?)
  {
  }

  /** A removal moves along without touching tables, by the worker or the shutdown loop. */
  lemma MovedKept(s: System, s': System, who: Actor, w: Work)
    requires Inv(s) && Removal(WorkOf(s, who)) && Removal(w) && w.device == WorkOf(s, who).device
    requires s'.flight.Flight? == s.flight.Flight?
    requires if who == Worker then s.flight.Flight? && s'.flight == s.flight.(work := w) && s'.sweep == s.sweep
             else s'.flight == s.flight && s'.sweep == Sweeping(w)
    requires Aside(s, s'.(flight := s.flight, sweep := s.sweep))
    ensures Kept(s, s')
  {
    ActsAlone(s, who);
    if who == Worker { RemovalKept(s, s'); } else { SweeperKept(s, s'); }
  }

  lemma DrainStep(s: System, who: Actor)
    requires Inv(s) && WorkOf(s, who).Marked? && InRange(s, WorkOf(s, who).slot) && s.x.luns[WorkOf(s, who).slot].idle
    ensures var w := WorkOf(s, who); Good(s, SetWork(s, who, Drained(w.slot, w.device)))
  {
    var w := WorkOf(s, who);
    ActsAlone(s, who);
    DrainKeeps(s, who);
    MovedKept(s, SetWork(s, who, Drained(w.slot, w.device)), who, Drained(w.slot, w.device));
  }

  lemma DetachAside(s: System, s': System, slot: nat, device: nat)
    requires InRange(s, slot) && s' == s.(x := Detach(s.x, slot, device).1)
    ensures Aside(s, s')
  {
  }

  lemma DetachStep(s: System, who: Actor)
    requires Inv(s) && WorkOf(s, who).Drained? && InRange(s, WorkOf(s, who).slot)
    ensures var w := WorkOf(s, who);
            var (backing, x) := Detach(s.x, w.slot, w.device);
            Good(s, SetWork(s.(x := x), who, Detached(w.slot, w.device, backing)))
  {
    var w := WorkOf(s, who);
    var (backing, x) := Detach(s.x, w.slot, w.device);
    var w' := Detached(w.slot, w.device, backing);
    ActsAlone(s, who);
    DetachKeeps(s, who);
    DetachAside(s, s.(x := x), w.slot, w.device);
    MovedKept(s, SetWork(s.(x := x), who, w'), who, w');
  }

  lemma FreeStep(s: System, who: Actor)
    requires Inv(s) && WorkOf(s, who).Detached?
    ensures Good(s, OnFree(s, who))
  {
    var w := WorkOf(s, who);
    ActsAlone(s, who);
    FreeKeeps(s, who);
    MovedKept(s, OnFree(s, who), who, Freed(w.slot, w.device));
  }

  lemma SweeperFinalizes(s: System)
    requires FinalizesAt(s, Sweeper)
    ensures var s' := OnFinalize(s, Sweeper);
            && Finalizes(s, s', s.sweep.work) && s'.sweep == Sweeping(Ready) && s'.flight == s.flight
            && s'.controls == s.controls && s'.completions == s.completions && s'.effects == s.effects
            && s'.changes == s.changes && s'.notices == s.notices && s'.x.instance == s.x.instance
            && s'.x.busy == s.x.busy && s'.x.idle == s.x.idle && s'.x.stopping == s.x.stopping
  {
  }

  lemma FinalizeStep(s: System, who: Actor)
    requires Inv(s) && FinalizesAt(s, who)
    ensures Good(s, OnFinalize(s, who))
  {
    ActsAlone(s, who);
    FinalizeKeeps(s, who);
    if who == Worker {
      WorkerFinalizedKept(s);
    } else {
      SweeperFinalizes(s);
      SweeperFinalizedKept(s, OnFinalize(s, Sweeper));
    }
  }

  lemma MarkStep(s: System)
    requires Inv(s) && AtWork(s, DELETE_DISK) && s.flight.work.Ready?
    ensures Good(s, OnMark(s))
  {
    var slot := OnlineAt(s.x.luns, s.flight.snapshot.remove);
    MarkKeeps(s);
    if slot == |s.x.luns| { NoDeviceKept(s); } else { MarkedKept(s, slot); }
  }

  // --------------------------------------------------------------- Management

  lemma NotifyStep(s: System)
    requires Inv(s) && InPhase(s, Completed) && s.flight.announce
    ensures Good(s, s.(notices := s.notices + [s.flight.srb], flight := s.flight.(phase := Notified)))
  {
    NotifyKept(s);
    UntouchedStep(s, s.(notices := s.notices + [s.flight.srb], flight := s.flight.(phase := Notified)));
  }

  lemma EndStep(s: System)
    requires Inv(s) && (InPhase(s, Notified) || (InPhase(s, Completed) && !s.flight.announce))
    ensures Good(s, s.(x := Ended(s.x), flight := Free))
  {
    EndKept(s);
    UntouchedStep(s, s.(x := Ended(s.x), flight := Free));
  }

  lemma CompleteStep(s: System, srb: nat)
    requires Inv(s) && srb in s.controls && s.controls[srb].stage.Replied?
    ensures Good(s, OnComplete(s, srb))
  {
    CompleteKept(s, srb);
    UntouchedStep(s, OnComplete(s, srb));
  }

  lemma ReserveStep(s: System, mutation: nat)
    requires Inv(s)
    ensures Good(s, s.(x := Reserve(s.x, mutation).2))
  {
    ReserveKept(s, mutation);
    UntouchedStep(s, s.(x := Reserve(s.x, mutation).2));
  }

  lemma SubmitUntouched(s: System, srb: nat, cmd: Command)
    requires TokenOk(s.x, s.flight, s.sweep) && !s.fault
    ensures var s' := OnSubmit(s, srb, cmd);
            StoreIs(s', s.x.luns, s.x.total, s.x.nextDevice, s.heap, s.freed, s.leases, s.log,
                    ActiveWork(s), s.sweep.Sweeping?)
  {
    PrepareUntouched(s.x, cmd);
  }

  lemma PrepareUntouched(x: Extension, cmd: Command)
    ensures var x' := Prepare(x, cmd).1;
            x'.luns == x.luns && x'.total == x.total && x'.nextDevice == x.nextDevice
    ensures Prepare(x, cmd).0.Accepted? ==> !x.busy && !x.stopping
  {
  }

  lemma SubmitStep(s: System, srb: nat, cmd: Command)
    requires Inv(s) && srb !in s.controls && cmd.Validated()
    ensures Good(s, OnSubmit(s, srb, cmd))
  {
    SubmitKept(s, srb, cmd);
    SubmitUntouched(s, srb, cmd);
    UntouchedStep(s, OnSubmit(s, srb, cmd));
  }

  lemma EnqueueStep(s: System, ok: bool)
    requires Inv(s) && InPhase(s, Admitted)
    ensures s.flight.srb in s.controls && Good(s, OnEnqueue(s, ok))
  {
    if ok { EnqueuedKept(s); }
    else if s.flight.cmd.IsReserved() { QueueFailedKept(s); }
    else { LegacyQueueFailedKept(s); }
    EnqueueUntouched(s, ok);
    UntouchedStep(s, OnEnqueue(s, ok));
  }

  lemma EnqueueUntouched(s: System, ok: bool)
    requires InPhase(s, Admitted) && s.flight.srb in s.controls && s.flight.work.Ready? && !s.sweep.Sweeping?
    requires !s.fault
    ensures StoreIs(OnEnqueue(s, ok), s.x.luns, s.x.total, s.x.nextDevice, s.heap, s.freed, s.leases, s.log,
                    Ready, false)
  {
  }

  lemma StartStep(s: System, reject: bool)
    requires Inv(s) && InPhase(s, Queued) && (reject ==> s.flight.cmd.IsReserved())
    ensures s.flight.srb in s.controls && Good(s, OnStart(s, reject))
  {
    if reject { RejectedKept(s); } else { StartedKept(s); }
    StartUntouched(s, reject);
    UntouchedStep(s, OnStart(s, reject));
  }

  lemma StartUntouched(s: System, reject: bool)
    requires InPhase(s, Queued) && s.flight.srb in s.controls && s.flight.work.Ready? && !s.sweep.Sweeping? && !s.fault
    ensures StoreIs(OnStart(s, reject), s.x.luns, s.x.total, s.x.nextDevice, s.heap, s.freed, s.leases, s.log,
                    Ready, false)
  {
  }

  lemma LegacyPublishStep(s: System)
    requires Inv(s) && InPhase(s, Decided) && InRange(s, s.flight.snapshot.lun) && !s.flight.cmd.IsReserved()
    ensures s.flight.srb in s.controls && Good(s, OnPublish(s))
  {
    LegacyPublishedKept(s);
    UntouchedStep(s, Answer(s, LegacyReply(s.flight.snapshot)));
  }

  lemma ReservedPublishStep(s: System)
    requires Inv(s) && InPhase(s, Decided) && InRange(s, s.flight.snapshot.lun) && s.flight.cmd.IsReserved()
    ensures s.flight.srb in s.controls && Good(s, OnPublish(s))
  {
    var r, s' := s.flight.snapshot, OnPublish(s);
    PublishedKept(s);
    FlightHoldsRecord(s);
    PublishAnswers(s);
    if s.flight.changed && r.mutation == CREATE_DISK { StampKeeps(s, s', r.lun, r.id); }
    else { UntouchedStep(s, s'); }
  }

  // ------------------------------------------------------------- Main theorems

  lemma RemovalStep(s: System, e: Event)
    requires Inv(s) && Enabled(s, e) && IsRemoval(e)
    ensures Good(s, Next(s, e))
  {
    match e
    case Mark => MarkStep(s);
    case Drain(who) => DrainStep(s, who);
    case DetachBacking(who) => DetachStep(s, who);
    case FreeBacking(who) => FreeStep(s, who);
    case FinalizeLun(who) => FinalizeStep(s, who);
  }

  predicate HoldsToken(e: Event) {
    e.Enqueue? || e.Start? || e.PublishResult? || e.Notify? || e.End?
  }

  /** The steps of the command that holds the token. */
  lemma TokenStep(s: System, e: Event)
    requires Inv(s) && Enabled(s, e) && HoldsToken(e)
    ensures Good(s, Next(s, e))
  {
    match e
    case Enqueue(ok) => EnqueueStep(s, ok);
    case Start(reject) => StartStep(s, reject);
    case PublishResult => if s.flight.cmd.IsReserved() { ReservedPublishStep(s); } else { LegacyPublishStep(s); }
    case Notify => NotifyStep(s);
    case End => EndStep(s);
  }

  lemma AdmissionStep(s: System, e: Event)
    requires Inv(s) && Enabled(s, e) && (e.ReserveOp? || e.Submit? || e.CompleteSrb?)
    ensures Good(s, Next(s, e))
  {
    match e
    case ReserveOp(mutation) => ReserveStep(s, mutation);
    case Submit(srb, cmd) => SubmitStep(s, srb, cmd);
    case CompleteSrb(srb) => CompleteStep(s, srb);
  }

  lemma SrbIsKnown(s: System)
    requires Inv(s)
    ensures KnownSrb(s)
  {
  }

  /** Every event of the driver, in any state that has the invariant, keeps it, and only
      lets handles and devices evolve in the promised order. */
  lemma StepKeepsInvariant(s: System, e: Event)
    requires Inv(s) && Enabled(s, e)
    ensures KnownSrb(s) && Good(s, Next(s, e))
  {
    SrbIsKnown(s);
    if IsIo(e) { IoStep(s, e); }
    else if IsLifecycle(e) { LifecycleStep(s, e); }
    else if IsCreation(e) { CreationStep(s, e); }
    else if IsRemoval(e) { RemovalStep(s, e); }
    else if HoldsToken(e) { TokenStep(s, e); }
    else { AdmissionStep(s, e); }
  }

  lemma {:induction false} RunKeepsInvariant(s: System, es: seq<Event>)
    requires Inv(s) && Runs(s, es)
    ensures Inv(After(s, es))
    decreases |es|
  {
    if es != [] {
      StepKeepsInvariant(s, es[0]);
      RunKeepsInvariant(Next(s, es[0]), es[1..]);
    }
  }

  lemma {:induction false} ZeroSizes(luns: seq<Lun>, n: nat)
    requires n <= |luns| && forall i :: 0 <= i < n ==> luns[i].size == 0
    ensures SizesTo(luns, n) == 0
  {
    if n > 0 { ZeroSizes(luns, n - 1); }
  }

  lemma BootStorage(instance: nat)
    ensures StorageInv(Boot(instance))
  {
    ZeroSizes(Boot(instance).x.luns, DISK_COUNT);
    assert forall i: nat :: On(map[], i) == {};
  }

  lemma BootManagement(instance: nat)
    requires instance > 0
    ensures ManagementInv(Boot(instance))
  {
  }

  /** Every state of every interleaving of every adapter has the invariant. */
  lemma ReachableInvariant(s: System)
    requires Reachable(s)
    ensures Inv(s)
  {
    var instance: nat, es: seq<Event> :| instance > 0 && Runs(Boot(instance), es) && After(Boot(instance), es) == s;
    BootStorage(instance);
    BootManagement(instance);
    RunKeepsInvariant(Boot(instance), es);
  }
}
