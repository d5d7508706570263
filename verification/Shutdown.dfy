/** Shutdown: once admission is closed and the leases have drained, the worker and the
    shutdown thread run out of steps only when everything has been released. */
module Shutdown {
  import opened Protocol
  import opened Driver
  import opened Scsi
  import opened System
  import opened Storage
  import opened Invariant
  import opened TableSteps
  import opened Frames
  import opened Steps
  import opened Progress

  // ------------------------------------------------------------------- Measure

  /** The slots among the first n that still hold a disk. */
  function Occupied(luns: seq<Lun>, n: nat): nat
    requires n <= |luns|
  {
    if n == 0 then 0 else Occupied(luns, n - 1) + if luns[n - 1].state == Empty then 0 else 1
  }

  /** The steps of the shutdown thread: six for each slot it has to empty. */
  function SweepRank(sweep: Sweep, luns: seq<Lun>): nat {
    match sweep
    case NotStarted => 0
    case Closed => 10 + 6 * |luns|
    case Waited => 9 + 6 * |luns|
    case Sweeping(w) => 2 + 6 * Occupied(luns, |luns|) + if w.Ready? then 5 else WorkRank(w) - 5
    case Swept => 1
    case Released => 0
  }

  function StepsLeft(s: System): nat {
    FlightRank(s.flight) + SweepRank(s.sweep, s.x.luns)
  }

  lemma {:induction false} OccupiedUpdate(luns: seq<Lun>, n: nat, slot: nat, l: Lun)
    requires n <= |luns| && slot < |luns|
    ensures Occupied(luns[slot := l], n) ==
              Occupied(luns, n) +
              if slot < n then (if l.state == Empty then 0 else 1) - (if luns[slot].state == Empty then 0 else 1)
              else 0
  {
    if n > 0 { OccupiedUpdate(luns, n - 1, slot, l); }
  }

  lemma {:induction false} OccupiedSame(luns: seq<Lun>, luns': seq<Lun>, n: nat)
    requires n <= |luns| == |luns'| && forall i :: 0 <= i < n ==> (luns'[i].state == Empty <==> luns[i].state == Empty)
    ensures Occupied(luns', n) == Occupied(luns, n) <= n
  {
    if n > 0 { OccupiedSame(luns, luns', n - 1); }
  }

  // --------------------------------------------------- The shutdown's progress

  predicate SweepAdvanced(s: System, t: System) {
    SweepRank(t.sweep, t.x.luns) < SweepRank(s.sweep, s.x.luns) && t.flight == s.flight && t.leases == s.leases
  }

  lemma StopAllAdvances(s: System)
    requires KnownSrb(s) && Enabled(s, StopAll)
    ensures SweepAdvanced(s, Next(s, StopAll))
  {
    OccupiedSame(s.x.luns, Stopped(s.x.luns), |s.x.luns|);
  }

  lemma PickAdvances(s: System)
    requires KnownSrb(s) && Enabled(s, PickStopping)
    ensures SweepAdvanced(s, Next(s, PickStopping))
  {
  }

  lemma LifecycleAdvances(s: System, e: Event)
    requires KnownSrb(s) && Enabled(s, e) && IsLifecycle(e) && Advances(s, e)
    ensures SweepAdvanced(s, Next(s, e))
  {
    if e.StopAll? { StopAllAdvances(s); } else if e.PickStopping? { PickAdvances(s); }
  }

  lemma DetachAdvances(s: System)
    requires KnownSrb(s) && Enabled(s, DetachBacking(Sweeper))
    ensures SweepAdvanced(s, Next(s, DetachBacking(Sweeper)))
  {
    var w := s.sweep.work;
    OccupiedUpdate(s.x.luns, |s.x.luns|, w.slot, s.x.luns[w.slot].(backing := None));
  }

  lemma SweeperAdvances(s: System, e: Event)
    requires KnownSrb(s) && Enabled(s, e) && (e.Drain? || e.DetachBacking? || e.FreeBacking?) && e.who == Sweeper
    ensures SweepAdvanced(s, Next(s, e))
  {
    hide Occupied;
    if e.DetachBacking? { DetachAdvances(s); }
  }

  lemma SweeperFinalizes(s: System)
    requires WorkOk(s.x.luns, WorkOf(s, Sweeper)) && KnownSrb(s) && Enabled(s, FinalizeLun(Sweeper))
    ensures SweepAdvanced(s, Next(s, FinalizeLun(Sweeper)))
  {
    var w := s.sweep.work;
    OccupiedUpdate(s.x.luns, |s.x.luns|, w.slot, ClearedLun(s.x.luns[w.slot]));
  }

  lemma WorkerAlone(s: System)
    requires Inv(s) && Closing(s)
    ensures s.flight.Flight? ==> s.sweep.Closed?
    ensures s.x.stopping && !s.fault && |s.x.luns| == DISK_COUNT
    ensures WorkOk(s.x.luns, ActiveWork(s))
  {
  }

  lemma FlightCounts(s: System, t: System)
    requires FlightAdvanced(s, t) && s.sweep.Closed?
    ensures StepsLeft(t) < StepsLeft(s)
  {
  }

  /** With no command in flight the step is the shutdown thread's. */
  lemma StepOfSweeper(s: System, e: Event)
    requires s.flight.Free? && Enabled(s, e) && Advances(s, e)
    ensures IsLifecycle(e) || (IsRemoval(e) && !e.Mark? && e.who == Sweeper)
  {
  }

  lemma ThreadAdvances(s: System, e: Event)
    requires s.flight.Free? && WorkOk(s.x.luns, ActiveWork(s)) && Enabled(s, e) && Advances(s, e)
    ensures SweepAdvanced(s, Next(s, e))
  {
    StepOfSweeper(s, e);
    if IsLifecycle(e) { LifecycleAdvances(s, e); }
    else if e.FinalizeLun? { SweeperFinalizes(s); }
    else { SweeperAdvances(s, e); }
  }

  /** Every step of the worker or the shutdown thread leaves fewer steps to go. */
  lemma AdvanceCounts(s: System, e: Event)
    requires Inv(s) && Closing(s) && KnownSrb(s) && Enabled(s, e) && Advances(s, e)
    ensures StepsLeft(Next(s, e)) < StepsLeft(s) && Next(s, e).leases == s.leases
  {
    WorkerAlone(s);
    if s.flight.Flight? { CommandAdvances(s, e); FlightCounts(s, Next(s, e)); } else { ThreadAdvances(s, e); }
  }

  predicate Undisturbed(s: System, t: System) {
    && t.flight == s.flight && t.sweep == s.sweep && |t.x.luns| == |s.x.luns|
    && (forall i :: 0 <= i < |s.x.luns| ==> (t.x.luns[i].state == Empty <==> s.x.luns[i].state == Empty))
  }

  lemma AcquireUndisturbed(s: System, l: nat, path: nat, target: nat, lun: nat)
    ensures Undisturbed(s, OnAcquire(s, l, path, target, lun))
  {
  }

  lemma ReleaseUndisturbed(s: System, l: nat)
    requires l in s.leases && InRange(s, s.leases[l].slot)
    ensures Undisturbed(s, OnRelease(s, l))
  {
  }

  lemma TransferUndisturbed(s: System, l: nat, request: ScsiRequest)
    requires l in s.leases && request.WellFormed()
    ensures Undisturbed(s, OnTransfer(s, l, request))
  {
    hide Judge, Overwrite;
  }

  lemma SubmitUndisturbed(s: System, srb: nat, cmd: Command)
    requires s.x.stopping
    ensures Undisturbed(s, OnSubmit(s, srb, cmd))
  {
  }

  lemma OthersUndisturbed(s: System, e: Event)
    requires s.x.stopping && KnownSrb(s) && Enabled(s, e) && !Advances(s, e) && !e.Close?
    requires e.CompleteSrb? && s.flight.Flight? ==> e.srb != s.flight.srb
    ensures Undisturbed(s, Next(s, e))
  {
    if e.Transfer? { TransferUndisturbed(s, e.lease, e.request); }
    else if e.Acquire? { AcquireUndisturbed(s, e.lease, e.path, e.target, e.lun); }
    else if e.Release? { ReleaseUndisturbed(s, e.lease); }
    else if e.Submit? { SubmitUndisturbed(s, e.srb, e.cmd); }
  }

  /** And nobody else can add to them. */
  lemma OthersDoNotDelay(s: System, e: Event)
    requires Inv(s) && Closing(s) && KnownSrb(s) && Enabled(s, e) && !Advances(s, e)
    ensures StepsLeft(Next(s, e)) == StepsLeft(s)
  {
    hide StorageInv, Next;
    WorkerAlone(s);
    if e.CompleteSrb? { CompletionOfOthers(s, e.srb); }
    OthersUndisturbed(s, e);
    OccupiedSame(s.x.luns, Next(s, e).x.luns, |s.x.luns|);
  }

  function StepsTaken(s: System, es: seq<Event>): nat
    requires Runs(s, es)
    decreases |es|
  {
    if es == [] then 0 else (if Advances(s, es[0]) then 1 else 0) + StepsTaken(Next(s, es[0]), es[1..])
  }

  /** In every run after shutdown has begun, with any interference, the worker and the
      shutdown thread make at most this many steps. */
  lemma {:induction false} ShutdownIsBounded(s: System, es: seq<Event>)
    requires Inv(s) && Closing(s) && Runs(s, es)
    ensures StepsTaken(s, es) + StepsLeft(After(s, es)) <= StepsLeft(s) <= 118
    decreases |es|
  {
    hide Enabled, Next, Advances;
    WorkerAlone(s);
    OccupiedSame(s.x.luns, s.x.luns, |s.x.luns|);
    if es != [] {
      StepKeepsInvariant(s, es[0]);
      StaysClosing(s, es[0]);
      if Advances(s, es[0]) { AdvanceCounts(s, es[0]); } else { OthersDoNotDelay(s, es[0]); }
      ShutdownIsBounded(Next(s, es[0]), es[1..]);
    }
  }

  // ------------------------------------------------------------------ No deadlock

  /** A step that the worker or the shutdown thread can take. */
  function NextStep(s: System): Event {
    if s.flight.Flight? then NextOfFlight(s.flight)
    else
      match s.sweep
      case Closed => AwaitIdle
      case Waited => StopAll
      case Sweeping(w) => if w.Ready? then PickStopping else NextRemoval(Sweeper, w)
      case _ => ReleaseWorker
  }

  /** Once shutdown has begun and the leases have drained, there is always a step until the
      worker has been released. */
  lemma NeverStuck(s: System)
    requires Inv(s) && Closing(s) && !s.sweep.Released? && s.leases == map[]
    ensures Enabled(s, NextStep(s)) && Advances(s, NextStep(s))
  {
    WorkerAlone(s);
    if s.flight.Flight? { CommandNeverStuck(s); }
    else if s.sweep.Sweeping? && !s.sweep.work.Ready? { SweeperEnabled(s); }
  }

  lemma SweeperEnabled(s: System)
    requires Inv(s) && s.sweep.Sweeping? && !s.sweep.work.Ready? && s.leases == map[]
    ensures Enabled(s, NextRemoval(Sweeper, s.sweep.work)) && Advances(s, NextRemoval(Sweeper, s.sweep.work))
  {
    ActorEnabled(s, Sweeper);
  }

  /** Shutdown terminates: from every reachable state in which it has begun and no lease
      is left, the driver's own steps lead to the release of the worker, in at most 118
      steps. */
  lemma {:induction false} ShutdownCompletes(s: System) returns (es: seq<Event>)
    requires Inv(s) && Closing(s) && s.leases == map[]
    ensures Runs(s, es) && After(s, es).sweep.Released? && |es| <= StepsLeft(s)
    decreases StepsLeft(s)
  {
    hide Inv, Enabled, Next, Advances;
    if s.sweep.Released? { return []; }
    var e := NextStep(s);
    NeverStuck(s);
    StepKeepsInvariant(s, e);
    StaysClosing(s, e);
    AdvanceCounts(s, e);
    var rest := ShutdownCompletes(Next(s, e));
    RunsCons(s, e, rest);
    es := [e] + rest;
  }

  // ------------------------------------------------------------- After shutdown

  /** When the worker is released every disk is gone: all slots are empty, no byte is
      accounted for, no pool buffer is live, and no record is Pending or a live create. */
  lemma ReleasedIsEmpty(s: System)
    requires Reachable(s) && s.sweep.Released?
    ensures forall i :: 0 <= i < |s.x.luns| ==> s.x.luns[i] == FreshLun(i)
    ensures s.x.total == 0 && s.heap == map[] && s.leases == map[] && s.flight.Free?
    ensures forall k :: 0 <= k < |s.x.operations| ==>
              var r := s.x.operations[k];
              r.state != Pending && !(r.state == Succeeded && r.mutation == CREATE_DISK)
    ensures s.notices == s.changes && forall srb :: srb in s.controls ==> !s.controls[srb].stage.Open?
  {
    ReachableInvariant(s);
    ReleasedSlots(s);
    ZeroSizes(s.x.luns, |s.x.luns|);
    ReleasedHeap(s);
  }

  lemma ReleasedSlots(s: System)
    requires Inv(s) && s.sweep.Released?
    ensures forall i :: 0 <= i < |s.x.luns| ==> s.x.luns[i] == FreshLun(i)
  {
  }

  lemma ReleasedHeap(s: System)
    requires Inv(s) && s.sweep.Released?
    ensures s.heap == map[] && s.leases == map[]
  {
  }

  /** What the worker and the shutdown thread own. */
  predicate Untouched(s: System, t: System) {
    && t.x == s.x && t.heap == s.heap && t.freed == s.freed && t.leases == s.leases
    && t.flight == s.flight && t.sweep == s.sweep && t.log == s.log && t.effects == s.effects
  }

  lemma NothingEnabled(s: System, e: Event)
    requires s.sweep.Released? && s.flight.Free? && s.leases == map[] && Enabled(s, e)
    ensures e.ReserveOp? || e.Submit? || e.Acquire? || e.CompleteSrb? || (e.SetStopping? && e.value)
    ensures !Advances(s, e)
  {
  }

  lemma FrozenStep(s: System, e: Event)
    requires s.x.stopping && KnownSrb(s) && Enabled(s, e) && s.flight.Free?
    requires e.ReserveOp? || e.Submit? || e.Acquire? || e.CompleteSrb? || (e.SetStopping? && e.value)
    requires forall i :: 0 <= i < |s.x.luns| ==> s.x.luns[i].state == Empty
    ensures Untouched(s, Next(s, e))
  {
  }

  /** After the release nothing touches the adapter's storage again, whatever requests
      still arrive: no worker step, no lease, no write, no new record. */
  lemma {:induction false} FrozenForever(s: System, es: seq<Event>)
    requires Reachable(s) && s.sweep.Released? && Runs(s, es)
    ensures Untouched(s, After(s, es)) && StepsTaken(s, es) == 0
    decreases |es|
  {
    if es != [] {
      ReleasedIsEmpty(s);
      ReleasedStops(s);
      NothingEnabled(s, es[0]);
      FrozenStep(s, es[0]);
      StaysReachable(s, [es[0]]);
      assert Runs(Next(s, es[0]), [es[0]][1..]) && After(s, [es[0]]) == Next(s, es[0]);
      FrozenForever(Next(s, es[0]), es[1..]);
    }
  }

  lemma ReleasedStops(s: System)
    requires Reachable(s) && s.sweep.Released?
    ensures s.x.stopping
  {
    ReachableInvariant(s);
  }
}
