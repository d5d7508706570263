/** The command in flight: it has at most twelve steps to take, nobody can add to them,
    it waits for nothing but the leases of the LUN it removes, and with it every SRB that
    the driver admits can be completed. */
module Progress {
  import opened Protocol
  import opened Driver
  import opened System
  import opened Storage
  import opened Invariant
  import opened Frames
  import opened Steps
  import History

  // ------------------------------------------------------------------- Measure

  function WorkRank(w: Work): nat {
    match w
    case Ready => 10
    case Selected(_, _) => 9
    case Allocated(_, _, _) => 8
    case Zeroed(_, _, _) => 7
    case Discarding(_, _) => 5
    case Marked(_, _) => 9
    case Drained(_, _) => 8
    case Detached(_, _, _) => 7
    case Freed(_, _) => 6
  }

  /** The steps a command in flight has before it at most. */
  function FlightRank(f: Flight): (r: nat)
    ensures r <= 12 && (r == 0 <==> f.Free?)
  {
    if f.Free? then 0
    else
      match f.phase
      case Admitted => 12
      case Queued => 11
      case Working => WorkRank(f.work)
      case Decided => 4
      case Answered => 3
      case Completed => 2
      case Notified => 1
  }

  /** The event is a step of the worker, of the submitter that holds the token, or of the
      shutdown thread. */
  predicate Advances(s: System, e: Event) {
    match e
    case ReserveOp(_) => false
    case Submit(_, _) => false
    case Acquire(_, _, _, _) => false
    case Transfer(_, _) => false
    case Release(_) => false
    case SetStopping(_) => false
    case Close => false
    case CompleteSrb(srb) => InPhase(s, Answered) && s.flight.srb == srb
    case _ => true
  }

  /** Nobody outside the driver has to ask for the event. */
  predicate Internal(e: Event) {
    !e.ReserveOp? && !e.Submit? && !e.Acquire? && !e.Transfer? && !e.SetStopping? && !e.Close?
  }

  predicate AllInternal(es: seq<Event>) {
    forall i :: 0 <= i < |es| ==> Internal(es[i])
  }

  // ------------------------------------------------ The command's own steps

  /** The command has fewer steps before it, and the shutdown thread as many as before. */
  predicate FlightAdvanced(s: System, t: System) {
    && FlightRank(t.flight) < FlightRank(s.flight)
    && (s.flight.Flight? && t.flight.Flight? ==> t.flight.srb == s.flight.srb)
    && t.sweep == s.sweep && t.leases == s.leases && |t.x.luns| == |s.x.luns|
  }

  lemma SelectAdvances(s: System)
    requires InPhase(s, Working) && s.flight.work.Ready?
    ensures FlightAdvanced(s, OnSelect(s))
  {
    hide FirstFrom;
  }

  lemma CommitAdvances(s: System)
    requires InPhase(s, Working) && s.flight.work.Zeroed? && InRange(s, s.flight.work.slot)
    ensures FlightAdvanced(s, OnCommit(s))
  {
    hide NewLun;
  }

  lemma BufferAdvances(s: System, e: Event)
    requires KnownSrb(s) && Enabled(s, e) && (e.Allocate? || e.Zero? || e.Discard?)
    ensures !s.fault && !Next(s, e).fault ==> FlightAdvanced(s, Next(s, e))
  {
  }

  lemma CreationAdvances(s: System, e: Event)
    requires KnownSrb(s) && Enabled(s, e) && IsCreation(e)
    ensures s.flight.Flight? && (!s.fault && !Next(s, e).fault ==> FlightAdvanced(s, Next(s, e)))
  {
    if e.Select? { SelectAdvances(s); } else if e.CommitLun? { CommitAdvances(s); } else { BufferAdvances(s, e); }
  }

  lemma MarkAdvances(s: System)
    requires InPhase(s, Working) && s.flight.work.Ready?
    ensures FlightAdvanced(s, OnMark(s))
  {
    hide OnlineFrom;
  }

  lemma FinalizeAdvances(s: System)
    requires WorkOf(s, Worker).Freed? && InRange(s, WorkOf(s, Worker).slot)
    ensures FlightAdvanced(s, OnFinalize(s, Worker))
  {
  }

  lemma RemovalAdvances(s: System, e: Event)
    requires KnownSrb(s) && Enabled(s, e) && IsRemoval(e) && !e.Mark? && e.who == Worker
    ensures FlightAdvanced(s, Next(s, e))
  {
    hide OnFinalize;
    if e.FinalizeLun? { FinalizeAdvances(s); }
  }

  lemma PublishAdvances(s: System)
    requires InPhase(s, Decided) && s.flight.srb in s.controls && InRange(s, s.flight.snapshot.lun)
    ensures FlightAdvanced(s, OnPublish(s))
  {
  }

  lemma StartAdvances(s: System, reject: bool)
    requires InPhase(s, Queued) && s.flight.srb in s.controls
    requires FailCommand(s.x, s.flight.cmd).1.luns == s.x.luns
    ensures FlightAdvanced(s, OnStart(s, reject))
  {
    hide Respond;
  }

  lemma EnqueueAdvances(s: System, ok: bool)
    requires InPhase(s, Admitted) && s.flight.srb in s.controls
    requires FailCommand(s.x, s.flight.cmd).1.luns == s.x.luns
    ensures FlightAdvanced(s, OnEnqueue(s, ok))
  {
  }

  lemma FailKeepsLuns(x: Extension, cmd: Command)
    ensures FailCommand(x, cmd).1.luns == x.luns
  {
  }

  lemma ManagementAdvances(s: System, e: Event)
    requires KnownSrb(s) && Enabled(s, e) && IsManagement(e) && Advances(s, e)
    ensures s.flight.Flight? && FlightAdvanced(s, Next(s, e))
  {
    if e.PublishResult? {
      PublishAdvances(s);
    } else if e.Start? {
      FailKeepsLuns(s.x, s.flight.cmd);
      StartAdvances(s, e.reject);
    } else if e.Enqueue? {
      FailKeepsLuns(s.x, s.flight.cmd);
      EnqueueAdvances(s, e.ok);
    }
  }

  /** The step is the command's: the shutdown thread waits until none is in flight. */
  lemma StepOfCommand(s: System, e: Event)
    requires TokenOk(s.x, s.flight, s.sweep) && s.flight.Flight? && Enabled(s, e) && Advances(s, e)
    ensures IsCreation(e) || IsManagement(e) || (IsRemoval(e) && (e.Mark? || e.who == Worker))
  {
  }

  lemma AdvancesByKind(s: System, e: Event)
    requires s.flight.Flight? && KnownSrb(s) && Enabled(s, e) && Advances(s, e) && !s.fault && !Next(s, e).fault
    requires IsCreation(e) || IsManagement(e) || (IsRemoval(e) && (e.Mark? || e.who == Worker))
    ensures FlightAdvanced(s, Next(s, e))
  {
    if IsCreation(e) { CreationAdvances(s, e); }
    else if IsManagement(e) { ManagementAdvances(s, e); }
    else if e.Mark? { MarkAdvances(s); }
    else { RemovalAdvances(s, e); }
  }

  /** Every own step brings the command nearer to its end. */
  lemma CommandAdvances(s: System, e: Event)
    requires Inv(s) && s.flight.Flight? && KnownSrb(s) && Enabled(s, e) && Advances(s, e)
    ensures FlightAdvanced(s, Next(s, e))
  {
    StepKeepsInvariant(s, e);
    StepOfCommand(s, e);
    AdvancesByKind(s, e);
  }

  // ------------------------------------------------------- Everybody else's steps

  lemma SubmitLeaves(s: System, srb: nat, cmd: Command)
    requires s.x.busy
    ensures OnSubmit(s, srb, cmd).flight == s.flight
  {
  }

  lemma OthersLeaveFlight(s: System, e: Event)
    requires s.flight.Flight? && s.x.busy && KnownSrb(s) && Enabled(s, e) && !Advances(s, e)
    requires e.CompleteSrb? ==> e.srb != s.flight.srb
    ensures Next(s, e).flight == s.flight
  {
    if e.Submit? { SubmitLeaves(s, e.srb, e.cmd); }
  }

  /** The SRB in flight is completed only once it has been answered. */
  lemma CompletionOfOthers(s: System, srb: nat)
    requires OwnershipOk(s.controls, s.flight) && Enabled(s, CompleteSrb(srb)) && !Advances(s, CompleteSrb(srb))
    ensures s.flight.Flight? ==> srb != s.flight.srb
  {
  }

  /** No other event touches the command: submissions, reservations, I/O, stop, restart
      and the start of shutdown do not set it back. */
  lemma OthersLeaveCommand(s: System, e: Event)
    requires Inv(s) && s.flight.Flight? && KnownSrb(s) && Enabled(s, e) && !Advances(s, e)
    ensures Next(s, e).flight == s.flight
  {
    if e.CompleteSrb? { CompletionOfOthers(s, e.srb); }
    OthersLeaveFlight(s, e);
  }

  // ------------------------------------------------------------ Bounds over runs

  predicate InFlight(s: System, srb: nat) {
    s.flight.Flight? && s.flight.srb == srb
  }

  /** The steps the command of an SRB has before it at most. */
  function CommandRank(s: System, srb: nat): nat {
    if InFlight(s, srb) then FlightRank(s.flight) else 0
  }

  /** The steps the command of an SRB took in a run. */
  function CommandSteps(s: System, es: seq<Event>, srb: nat): nat
    requires Runs(s, es)
    decreases |es|
  {
    if es == [] then 0
    else (if InFlight(s, srb) && Advances(s, es[0]) then 1 else 0) + CommandSteps(Next(s, es[0]), es[1..], srb)
  }

  lemma RankFalls(s: System, e: Event, srb: nat)
    requires Inv(s) && KnownSrb(s) && Enabled(s, e) && srb in s.controls
    ensures CommandRank(Next(s, e), srb) + (if InFlight(s, srb) && Advances(s, e) then 1 else 0) <= CommandRank(s, srb)
  {
    if s.flight.Free? {
      FlightComesFrom(s, e);
    } else if Advances(s, e) {
      CommandAdvances(s, e);
    } else {
      OthersLeaveCommand(s, e);
    }
  }

  /** In every run, with any interference, the command of an admitted SRB takes at most
      twelve steps, each one brings its end nearer, and nothing moves its end away. */
  lemma {:induction false} CommandIsBounded(s: System, es: seq<Event>, srb: nat)
    requires Inv(s) && Runs(s, es) && srb in s.controls
    ensures CommandSteps(s, es, srb) + CommandRank(After(s, es), srb) <= CommandRank(s, srb) <= 12
    decreases |es|
  {
    hide Inv, Enabled, Next, Advances;
    if es != [] {
      StepKeepsInvariant(s, es[0]);
      RankFalls(s, es[0], srb);
      ControlsComeFrom(s, es[0]);
      CommandIsBounded(Next(s, es[0]), es[1..], srb);
    }
  }

  lemma OpenIsInFlight(s: System, srb: nat)
    requires Inv(s) && srb in s.controls
    ensures s.controls[srb].stage.Open? ==> InFlight(s, srb)
  {
  }

  /** In whatever order the driver's threads run, once the command has taken as many steps
      as its rank its SRB has been answered. */
  lemma EnoughSteps(s: System, es: seq<Event>, srb: nat)
    requires Inv(s) && Runs(s, es) && srb in s.controls && CommandSteps(s, es, srb) >= CommandRank(s, srb)
    ensures srb in After(s, es).controls && !After(s, es).controls[srb].stage.Open?
  {
    CommandIsBounded(s, es, srb);
    RunKeepsInvariant(s, es);
    History.ControlKept(s, es, srb);
    OpenIsInFlight(After(s, es), srb);
  }

  // ------------------------------------------------------- No command is stuck

  function NextRemoval(who: Actor, w: Work): Event {
    match w
    case Marked(_, _) => Drain(who)
    case Drained(_, _) => DetachBacking(who)
    case Detached(_, _, _) => FreeBacking(who)
    case _ => FinalizeLun(who)
  }

  /** An own step the command can take next. */
  function NextOfFlight(f: Flight): Event
    requires f.Flight?
  {
    match f.phase
    case Admitted => Enqueue(true)
    case Queued => Start(false)
    case Working =>
      (match f.work
       case Ready => if f.snapshot.mutation == CREATE_DISK then Select else Mark
       case Selected(_, _) => Allocate(false, 0, [])
       case Allocated(_, _, _) => Zero
       case Zeroed(_, _, _) => CommitLun
       case Discarding(_, _) => Discard
       case w => NextRemoval(Worker, w))
    case Decided => PublishResult
    case Answered => CompleteSrb(f.srb)
    case Completed => if f.announce then Notify else End
    case Notified => End
  }

  /** The removal waits until the last lease on its LUN has been released. */
  predicate Draining(s: System, w: Work) {
    w.Marked? && On(s.leases, w.slot) != {}
  }

  lemma IdleIffUnleased(s: System, slot: nat)
    requires StorageInv(s) && slot < |s.x.luns| && s.x.luns[slot].state == Stopping
    ensures s.x.luns[slot].idle <==> On(s.leases, slot) == {}
  {
    assert SlotOk(s.x.luns[slot], slot, s.x.nextDevice, ActiveWork(s), s.sweep.Sweeping?);
  }

  lemma RemovalEnabled(s: System, who: Actor)
    requires WorkOk(s.x.luns, ActiveWork(s)) && WorkOf(s, who) == ActiveWork(s) && Removal(ActiveWork(s))
    requires ActiveWork(s).Marked? ==>
               (s.x.luns[ActiveWork(s).slot].idle <==> On(s.leases, ActiveWork(s).slot) == {})
    ensures Enabled(s, NextRemoval(who, ActiveWork(s))) <==> !Draining(s, ActiveWork(s))
  {
  }

  lemma ActorEnabled(s: System, who: Actor)
    requires StorageInv(s) && WorkOf(s, who) == ActiveWork(s) && Removal(ActiveWork(s))
    ensures Enabled(s, NextRemoval(who, ActiveWork(s))) <==> !Draining(s, ActiveWork(s))
  {
    IdleIffUnleased(s, ActiveWork(s).slot);
    RemovalEnabled(s, who);
  }

  lemma SimpleEnabled(s: System)
    requires Inv(s) && s.flight.Flight? && !s.sweep.Sweeping? && !(s.flight.phase.Working? && Removal(s.flight.work))
    ensures Enabled(s, NextOfFlight(s.flight))
  {
  }

  lemma FlightStepAdvances(s: System)
    requires s.flight.Flight?
    ensures Advances(s, NextOfFlight(s.flight))
  {
  }

  predicate CommandDraining(s: System) {
    InPhase(s, Working) && Draining(s, s.flight.work)
  }

  /** A command in flight can take its next own step unless the LUN it removes still has
      leases; there is nothing else it could wait for. */
  lemma CommandNeverStuck(s: System)
    requires Inv(s) && s.flight.Flight?
    ensures Advances(s, NextOfFlight(s.flight))
    ensures Enabled(s, NextOfFlight(s.flight)) <==> !CommandDraining(s)
  {
    FlightStepAdvances(s);
    if InPhase(s, Working) && Removal(s.flight.work) { ActorEnabled(s, Worker); } else { SimpleEnabled(s); }
  }

  /** One own step, whatever the command is doing. */
  lemma CommandStep(s: System) returns (e: Event)
    requires Inv(s) && s.flight.Flight? && s.leases == map[]
    ensures KnownSrb(s) && Enabled(s, e) && Advances(s, e) && Internal(e)
    ensures Inv(Next(s, e)) && FlightAdvanced(s, Next(s, e))
  {
    hide Enabled, Next, StorageInv, ManagementInv;
    e := NextOfFlight(s.flight);
    CommandNeverStuck(s);
    StepKeepsInvariant(s, e);
    CommandAdvances(s, e);
  }

  lemma StepsCons(s: System, e: Event, es: seq<Event>, srb: nat)
    requires KnownSrb(s) && Enabled(s, e) && Runs(Next(s, e), es) && InFlight(s, srb) && Advances(s, e)
    ensures Runs(s, [e] + es) && CommandSteps(s, [e] + es, srb) == 1 + CommandSteps(Next(s, e), es, srb)
  {
    RunsCons(s, e, es);
    assert ([e] + es)[1..] == es;
  }

  lemma InternalCons(e: Event, es: seq<Event>)
    requires Internal(e) && AllInternal(es)
    ensures AllInternal([e] + es)
  {
  }

  /** The driver's own steps bring every command to its end and give the token back, in at
      most as many steps as its rank. */
  lemma {:induction false} CommandFinishes(s: System) returns (es: seq<Event>)
    requires Inv(s) && s.flight.Flight? && s.leases == map[]
    ensures Runs(s, es) && After(s, es).flight.Free?
    ensures |es| == CommandSteps(s, es, s.flight.srb) <= FlightRank(s.flight) && AllInternal(es)
    decreases FlightRank(s.flight)
  {
    hide Inv, Enabled, Next, Advances;
    var e := CommandStep(s);
    es := [];
    if Next(s, e).flight.Flight? { es := CommandFinishes(Next(s, e)); }
    StepsCons(s, e, es, s.flight.srb);
    RunsCons(s, e, es);
    InternalCons(e, es);
    es := [e] + es;
  }

  // -------------------------------------------------- Every SRB is completed

  lemma ReleaseOne(s: System, l: nat)
    requires Inv(s) && l in s.leases
    ensures KnownSrb(s) && Enabled(s, Release(l)) && Inv(Next(s, Release(l)))
    ensures var t := Next(s, Release(l));
            t.leases == s.leases - {l} && t.flight == s.flight && t.controls == s.controls
  {
    hide ManagementInv, Good;
    assert LeaseOk(s.x.luns, s.leases[l]);
    StepKeepsInvariant(s, Release(l));
  }

  /** The I/O in progress ends: each lease is released once. */
  lemma {:induction false} ReleaseAll(s: System) returns (es: seq<Event>)
    requires Inv(s)
    ensures Runs(s, es) && After(s, es).leases == map[]
    ensures After(s, es).flight == s.flight && After(s, es).controls == s.controls
    ensures |es| == |s.leases| && AllInternal(es)
    decreases |s.leases|
  {
    hide Inv, Enabled, Next;
    es := [];
    if s.leases != map[] {
      var l :| l in s.leases;
      ReleaseOne(s, l);
      assert |s.leases.Keys - {l}| == |s.leases| - 1 && (s.leases - {l}).Keys == s.leases.Keys - {l};
      var rest := ReleaseAll(Next(s, Release(l)));
      RunsCons(s, Release(l), rest);
      InternalCons(Release(l), rest);
      es := [Release(l)] + rest;
    }
  }

  lemma CompletionListed(s: System, srb: nat)
    requires srb in s.controls && s.controls[srb].stage.Replied?
    ensures srb in OnComplete(s, srb).completions
  {
    assert OnComplete(s, srb).completions[|s.completions|] == srb;
  }

  /** An answered SRB can be completed at any time. */
  lemma AnsweredCompletes(s: System, srb: nat) returns (es: seq<Event>)
    requires Inv(s) && srb in s.controls && !s.controls[srb].stage.Open?
    ensures Runs(s, es) && srb in After(s, es).completions && |es| <= 1
    ensures AllInternal(es)
  {
    hide Enabled, StorageInv, OnComplete;
    es := [];
    if s.controls[srb].stage.Replied? {
      es := [CompleteSrb(srb)] + [];
      StepKeepsInvariant(s, CompleteSrb(srb));
      CompletionListed(s, srb);
      RunsCons(s, CompleteSrb(srb), []);
    }
  }

  lemma DrainedCompletes(s: System, srb: nat) returns (es: seq<Event>)
    requires Inv(s) && s.leases == map[] && srb in s.controls
    ensures Runs(s, es) && srb in After(s, es).completions && |es| <= 13
    ensures AllInternal(es)
  {
    hide Enabled, Next, StorageInv;
    es := [];
    if s.controls[srb].stage.Open? {
      OpenIsInFlight(s, srb);
      es := CommandFinishes(s);
      RunKeepsInvariant(s, es);
      History.ControlKept(s, es, srb);
    }
    var t := After(s, es);
    OpenIsInFlight(t, srb);
    var last := AnsweredCompletes(t, srb);
    RunsConcat(s, es, last);
    es := es + last;
  }

  /** Every management SRB the driver has taken is completed: from every reachable state,
      once the I/O in progress has ended, at most thirteen of the driver's own steps do it. */
  lemma EverySrbCompletes(s: System, srb: nat) returns (es: seq<Event>)
    requires Reachable(s) && srb in s.controls
    ensures Runs(s, es) && srb in After(s, es).completions
    ensures |es| <= |s.leases| + 13 && AllInternal(es)
  {
    hide Inv, Enabled, Next;
    ReachableInvariant(s);
    var release := ReleaseAll(s);
    RunKeepsInvariant(s, release);
    var own := DrainedCompletes(After(s, release), srb);
    RunsConcat(s, release, own);
    es := release + own;
  }
}
