/** What events leave alone, whatever the state they happen in: which of them may reserve
    ids, put a command in flight, answer an SRB or begin the shutdown. */
module Frames {
  import opened Protocol
  import opened Driver
  import opened Scsi
  import opened System
  import opened Invariant

  /** The table holds the same ids at the same places. */
  predicate SameIds(x: Extension, y: Extension) {
    && y.nextOperation == x.nextOperation && |y.operations| == |x.operations|
    && (forall k :: 0 <= k < |x.operations| ==> y.operations[k].id == x.operations[k].id)
  }

  /** A command is in flight only because it was before or because this event submitted it. */
  predicate CommandFrom(f: Flight, e: Event, g: Flight) {
    g.Flight? ==>
      || (f.Flight? && g.cmd == f.cmd && g.srb == f.srb && (Unpublished(g) ==> Unpublished(f)))
      || (e.Submit? && g.cmd == e.cmd && g.srb == e.srb)
  }

  predicate Answers(f: Flight, e: Event, srb: nat) {
    f.Flight? && f.srb == srb && (e.Enqueue? || e.Start? || e.PublishResult?)
  }

  /** Who submitted an SRB and whether it took the token never changes; the rest changes
      only by its own answer and its completion. */
  predicate ControlsFrom(s: System, e: Event, controls: map<nat, Control>) {
    forall srb :: srb in s.controls ==>
      && srb in controls && controls[srb].cmd == s.controls[srb].cmd
      && controls[srb].accepted == s.controls[srb].accepted
      && (controls[srb] == s.controls[srb] || e == CompleteSrb(srb) || Answers(s.flight, e, srb))
  }

  predicate Frame(s: System, e: Event, t: System) {
    && (t.sweep.NotStarted? ==> s.sweep.NotStarted?)
    && (!e.ReserveOp? ==> SameIds(s.x, t.x))
    && CommandFrom(s.flight, e, t.flight)
    && ControlsFrom(s, e, t.controls)
  }

  // -------------------------------------- Work, I/O, stop, restart and shutdown

  /** No SRB is taken, answered or completed and no command put in flight. */
  predicate Quiet(s: System, t: System) {
    && (t.sweep.NotStarted? ==> s.sweep.NotStarted?)
    && SameIds(s.x, t.x) && t.controls == s.controls
    && (t.flight.Flight? ==>
          && s.flight.Flight? && t.flight.cmd == s.flight.cmd && t.flight.srb == s.flight.srb
          && (Unpublished(t.flight) ==> Unpublished(s.flight)))
  }

  lemma SelectQuiet(s: System)
    requires InPhase(s, Working)
    ensures Quiet(s, OnSelect(s))
  {
    hide FirstFrom;
  }

  lemma CommitQuiet(s: System)
    requires InPhase(s, Working) && s.flight.work.Zeroed? && InRange(s, s.flight.work.slot)
    ensures Quiet(s, OnCommit(s))
  {
    hide NewLun;
  }

  lemma BufferQuiet(s: System, e: Event)
    requires KnownSrb(s) && Enabled(s, e) && (e.Allocate? || e.Zero? || e.Discard?)
    ensures Quiet(s, Next(s, e))
  {
  }

  lemma MarkQuiet(s: System)
    requires InPhase(s, Working)
    ensures Quiet(s, OnMark(s))
  {
    hide OnlineFrom;
  }

  lemma FinalizeQuiet(s: System, who: Actor)
    requires WorkOf(s, who).Freed? && InRange(s, WorkOf(s, who).slot)
    ensures Quiet(s, OnFinalize(s, who))
  {
  }

  lemma FreeQuiet(s: System, who: Actor)
    requires WorkOf(s, who).Detached?
    ensures Quiet(s, OnFree(s, who))
  {
  }

  lemma WorkQuiet(s: System, x: Extension, who: Actor, w: Work)
    requires if who == Worker then InPhase(s, Working) else s.sweep.Sweeping?
    requires x.operations == s.x.operations && x.nextOperation == s.x.nextOperation
    ensures Quiet(s, SetWork(s.(x := x), who, w))
  {
  }

  lemma DrainQuiet(s: System, who: Actor)
    requires WorkOf(s, who).Marked?
    ensures var w := WorkOf(s, who); Quiet(s, SetWork(s, who, Drained(w.slot, w.device)))
  {
    var w := WorkOf(s, who);
    assert s == s.(x := s.x);
    WorkQuiet(s, s.x, who, Drained(w.slot, w.device));
  }

  lemma DetachQuiet(s: System, who: Actor)
    requires WorkOf(s, who).Drained? && InRange(s, WorkOf(s, who).slot)
    ensures var w := WorkOf(s, who);
            var (backing, x) := Detach(s.x, w.slot, w.device);
            Quiet(s, SetWork(s.(x := x), who, Detached(w.slot, w.device, backing)))
  {
    var w := WorkOf(s, who);
    var (backing, x) := Detach(s.x, w.slot, w.device);
    WorkQuiet(s, x, who, Detached(w.slot, w.device, backing));
  }

  lemma TransferQuiet(s: System, l: nat, request: ScsiRequest)
    requires l in s.leases && request.WellFormed()
    ensures Quiet(s, OnTransfer(s, l, request))
  {
  }

  lemma LeaseQuiet(s: System, e: Event)
    requires KnownSrb(s) && Enabled(s, e) && (e.Acquire? || e.Release?)
    ensures Quiet(s, Next(s, e))
  {
    hide AcquiredLun, ReleasedLun;
  }

  lemma PickQuiet(s: System)
    requires s.sweep.Sweeping?
    ensures Quiet(s, OnPick(s))
  {
  }

  lemma FlagQuiet(s: System, e: Event)
    requires KnownSrb(s) && Enabled(s, e) && IsLifecycle(e) && !e.PickStopping?
    ensures Quiet(s, Next(s, e))
  {
    hide Stopped;
  }

  lemma RemovalQuiet(s: System, e: Event)
    requires KnownSrb(s) && Enabled(s, e) && IsRemoval(e)
    ensures Quiet(s, Next(s, e))
  {
    if e.Mark? { MarkQuiet(s); }
    else if e.FreeBacking? { FreeQuiet(s, e.who); }
    else if e.FinalizeLun? { FinalizeQuiet(s, e.who); }
    else if e.Drain? { DrainQuiet(s, e.who); }
    else { DetachQuiet(s, e.who); }
  }

  lemma CreationQuiet(s: System, e: Event)
    requires KnownSrb(s) && Enabled(s, e) && IsCreation(e)
    ensures Quiet(s, Next(s, e))
  {
    if e.Select? { SelectQuiet(s); } else if e.CommitLun? { CommitQuiet(s); } else { BufferQuiet(s, e); }
  }

  lemma QuietStep(s: System, e: Event)
    requires KnownSrb(s) && Enabled(s, e) && !IsManagement(e)
    ensures Quiet(s, Next(s, e))
  {
    if IsCreation(e) { CreationQuiet(s, e); }
    else if IsRemoval(e) { RemovalQuiet(s, e); }
    else if e.Transfer? { TransferQuiet(s, e.lease, e.request); }
    else if IsIo(e) { LeaseQuiet(s, e); }
    else if e.PickStopping? { PickQuiet(s); }
    else { FlagQuiet(s, e); }
  }

  // ------------------------------------------------------------- Management

  lemma PrepareIds(x: Extension, cmd: Command)
    ensures SameIds(x, Prepare(x, cmd).1)
  {
  }

  lemma FailIds(x: Extension, cmd: Command)
    ensures SameIds(x, FailCommand(x, cmd).1)
  {
  }

  lemma SubmitFrame(s: System, srb: nat, cmd: Command)
    requires srb !in s.controls && SameIds(s.x, Prepare(s.x, cmd).1)
    ensures Frame(s, Submit(srb, cmd), OnSubmit(s, srb, cmd))
  {
  }

  lemma AnswerFrame(s: System, e: Event, x: Extension, reply: Driver.Reply)
    requires s.flight.Flight? && s.flight.srb in s.controls && Answers(s.flight, e, s.flight.srb) && SameIds(s.x, x)
    ensures Frame(s, e, Answer(s.(x := x), reply))
    ensures Frame(s, e, SetReply(s, s.flight.srb, reply).(x := x, flight := Free))
  {
  }

  lemma EnqueueFrame(s: System, ok: bool)
    requires InPhase(s, Admitted) && s.flight.srb in s.controls
    ensures Frame(s, Enqueue(ok), OnEnqueue(s, ok))
  {
    var (reply, x) := FailCommand(s.x, s.flight.cmd);
    FailIds(s.x, s.flight.cmd);
    AnswerFrame(s, Enqueue(ok), Ended(x), reply);
  }

  lemma StartFrame(s: System, reject: bool)
    requires InPhase(s, Queued) && s.flight.srb in s.controls
    ensures Frame(s, Start(reject), OnStart(s, reject))
  {
    if reject {
      FailIds(s.x, s.flight.cmd);
      AnswerFrame(s, Start(reject), FailCommand(s.x, s.flight.cmd).1, FailCommand(s.x, s.flight.cmd).0);
    } else if s.flight.cmd.IsReserved() && PendingRecord(s.x, s.flight.cmd.identity).None? {
      assert s == s.(x := s.x);
      AnswerFrame(s, Start(reject), s.x, Error(STATUS_NOT_FOUND));
    }
  }

  lemma PublishIds(x: Extension, snapshot: Record)
    requires snapshot.lun < |x.luns|
    ensures SameIds(x, Publish(x, snapshot).1)
  {
  }

  lemma PublishFrame(s: System)
    requires InPhase(s, Decided) && s.flight.srb in s.controls && InRange(s, s.flight.snapshot.lun)
    ensures Frame(s, PublishResult, OnPublish(s))
  {
    var r := s.flight.snapshot;
    PublishIds(s.x, r);
    AnswerFrame(s, PublishResult, Publish(s.x, r).1, Publish(s.x, r).0);
    assert s == s.(x := s.x);
    AnswerFrame(s, PublishResult, s.x, LegacyReply(r));
  }

  lemma ClosingFrame(s: System, e: Event)
    requires KnownSrb(s) && Enabled(s, e) && (e.ReserveOp? || e.CompleteSrb? || e.Notify? || e.End?)
    ensures Frame(s, e, Next(s, e))
  {
  }

  /** The frame of every event in every state. */
  lemma EventFrame(s: System, e: Event)
    requires KnownSrb(s) && Enabled(s, e)
    ensures Frame(s, e, Next(s, e))
  {
    if !IsManagement(e) { QuietStep(s, e); }
    else if e.Submit? { PrepareIds(s.x, e.cmd); SubmitFrame(s, e.srb, e.cmd); }
    else if e.Enqueue? { EnqueueFrame(s, e.ok); }
    else if e.Start? { StartFrame(s, e.reject); }
    else if e.PublishResult? { PublishFrame(s); }
    else { ClosingFrame(s, e); }
  }

  // ------------------------------------------------------- Facts about any event

  /** Shutdown has begun. */
  predicate Closing(s: System) {
    !s.sweep.NotStarted?
  }

  lemma StaysClosing(s: System, e: Event)
    requires KnownSrb(s) && Enabled(s, e) && Closing(s)
    ensures Closing(Next(s, e))
  {
    EventFrame(s, e);
  }

  lemma OthersKeepIds(s: System, e: Event)
    requires KnownSrb(s) && Enabled(s, e) && !e.ReserveOp?
    ensures SameIds(s.x, Next(s, e).x)
  {
    EventFrame(s, e);
  }

  lemma FlightComesFrom(s: System, e: Event)
    requires KnownSrb(s) && Enabled(s, e)
    ensures CommandFrom(s.flight, e, Next(s, e).flight)
  {
    EventFrame(s, e);
  }

  lemma ControlsComeFrom(s: System, e: Event)
    requires KnownSrb(s) && Enabled(s, e)
    ensures ControlsFrom(s, e, Next(s, e).controls)
  {
    EventFrame(s, e);
  }
}
