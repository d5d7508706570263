/** What whole runs do to a handle and to a device: observations only move forward, a
    settled outcome and a removed device stay so, and a handle nobody submits is never
    executed. */
module History {
  import opened Protocol
  import opened Driver
  import opened System
  import opened Storage
  import opened Invariant
  import opened TableSteps
  import opened ManagementSteps
  import opened Frames
  import opened Steps

  // --------------------------------------------------------- Handles over runs

  predicate Terminal(state: OperationState) {
    state == Succeeded || state == Failed || state == Deleted
  }

  /** The transitive order of observations: Reserved, then Pending, then one outcome that
      never changes except that a created disk may be Deleted; an evicted handle is not
      found, and not found is absorbing. */
  predicate Follows(a: Option<Record>, b: Option<Record>) {
    match (a, b)
    case (None, _) => b.None?
    case (Some(_), None) => true
    case (Some(r), Some(q)) =>
      || q == r
      || (q.id == r.id && q.mutation == r.mutation && r.state == Reserved && (q.state == Pending || Terminal(q.state)))
      || (q.id == r.id && q.mutation == r.mutation && q.create == r.create && q.remove == r.remove
          && r.state == Pending && Terminal(q.state))
      || (r.state == Succeeded && r.mutation == CREATE_DISK && q == r.(state := Deleted))
  }

  lemma FollowsStep(a: Option<Record>, b: Option<Record>, c: Option<Record>)
    requires Later(a, b) && Follows(b, c)
    ensures Follows(a, c)
  {
  }

  /** Whatever a client has observed of a handle, every later observation follows it. */
  lemma {:induction false} ObservationsFollow(s: System, es: seq<Event>, id: nat)
    requires Inv(s) && Runs(s, es) && Issued(id, s.x.nextOperation, U64_LIMIT)
    ensures Follows(Observe(s.x.operations, id), Observe(After(s, es).x.operations, id))
    ensures Issued(id, After(s, es).x.nextOperation, U64_LIMIT)
    ensures After(s, es).x.instance == s.x.instance
    decreases |es|
  {
    hide Inv, Enabled, Next;
    if es != [] {
      var t := Next(s, es[0]);
      StepKeepsInvariant(s, es[0]);
      ObservationsFollow(t, es[1..], id);
      FollowsStep(Observe(s.x.operations, id), Observe(t.x.operations, id), Observe(After(s, es).x.operations, id));
    }
  }

  /** A fixed outcome stays fixed, and its mutation is not executed again. */
  lemma {:induction false} SettledForever(s: System, es: seq<Event>, id: nat)
    requires Inv(s) && Runs(s, es) && Settled(s.x.operations, s.x.nextOperation, id)
    ensures Settled(After(s, es).x.operations, After(s, es).x.nextOperation, id)
    ensures Count(After(s, es).effects, id) == Count(s.effects, id)
    decreases |es|
  {
    hide Inv, Enabled, Next;
    if es != [] {
      StepKeepsInvariant(s, es[0]);
      SettledStays(s, Next(s, es[0]), id);
      SettledForever(Next(s, es[0]), es[1..], id);
    }
  }

  /** A device that is gone stays gone: ids are not reused. */
  lemma {:induction false} GoneForever(s: System, es: seq<Event>, device: nat)
    requires Inv(s) && Runs(s, es) && Gone(s.x.luns, s.x.nextDevice, device)
    ensures Gone(After(s, es).x.luns, After(s, es).x.nextDevice, device)
    decreases |es|
  {
    hide Inv, Enabled, Next;
    if es != [] {
      StepKeepsInvariant(s, es[0]);
      GoneStays(s, Next(s, es[0]), device);
      GoneForever(Next(s, es[0]), es[1..], device);
    }
  }

  // ------------------------------------------------------- Handles left alone

  /** The event submits a command under the handle. */
  predicate Targets(e: Event, handle: Handle) {
    e.Submit? && e.cmd.IsReserved() && e.cmd.identity == handle
  }

  predicate Leaves(es: seq<Event>, handle: Handle) {
    forall i :: 0 <= i < |es| ==> !Targets(es[i], handle)
  }

  /** An issued handle whose mutation has not been executed and is not under way. */
  ghost predicate Untried(s: System, handle: Handle) {
    && handle.instance == s.x.instance && Issued(handle.id, s.x.nextOperation, U64_LIMIT)
    && Count(s.effects, handle.id) == 0 && !Waiting(s.x.operations, handle.id)
  }

  lemma StaysUntried(s: System, e: Event, handle: Handle)
    requires Inv(s) && KnownSrb(s) && Enabled(s, e) && Inv(Next(s, e)) && Evolves(s, Next(s, e))
    requires Untried(s, handle) && !Targets(e, handle)
    ensures Untried(Next(s, e), handle)
  {
    hide StorageInv, Enabled, Next;
    var t := Next(s, e);
    if Waiting(t.x.operations, handle.id) {
      assert t.flight.cmd.identity.id == handle.id;
      FlightComesFrom(s, e);
      UntriedIsIdle(s, t, handle);
    }
  }

  lemma UntriedIsIdle(s: System, t: System, handle: Handle)
    requires FlightOk(s.x.operations, s.x.luns, s.x.instance, s.x.nextDevice, s.flight)
    requires FlightOk(t.x.operations, t.x.luns, t.x.instance, t.x.nextDevice, t.flight)
    requires Waiting(t.x.operations, handle.id) && !Waiting(s.x.operations, handle.id)
    requires t.x.instance == handle.instance
    ensures t.flight.Flight? && t.flight.cmd.IsReserved() && t.flight.cmd.identity == handle
    ensures !(Unpublished(s.flight) && t.flight.cmd == s.flight.cmd)
  {
  }

  /** A handle that nobody submits is not executed, whatever else happens. */
  lemma {:induction false} UntriedWhileLeft(s: System, es: seq<Event>, handle: Handle)
    requires Inv(s) && Runs(s, es) && Untried(s, handle) && Leaves(es, handle)
    ensures Untried(After(s, es), handle)
    decreases |es|
  {
    hide Inv, Enabled, Next;
    if es != [] {
      assert !Targets(es[0], handle) && Leaves(es[1..], handle);
      StepKeepsInvariant(s, es[0]);
      StaysUntried(s, es[0], handle);
      UntriedWhileLeft(Next(s, es[0]), es[1..], handle);
    }
  }

  // ----------------------------------------------------------------- Deletion

  lemma {:induction false} ListedIffPresent(luns: seq<Lun>, n: nat, device: nat)
    requires n <= |luns|
    ensures (exists k :: 0 <= k < |Inventory(luns, n)| && Inventory(luns, n)[k].device == device)
       <==> (exists i :: 0 <= i < n && luns[i].state != Empty && luns[i].device == device)
  {
    if n > 0 {
      ListedIffPresent(luns, n - 1, device);
      var before := Inventory(luns, n - 1);
      var now := Inventory(luns, n);
      if luns[n - 1].state == Empty {
        assert now == before;
      } else {
        assert now[..|before|] == before && now[|before|] == DiskStateOf(luns[n - 1]);
        assert forall k :: 0 <= k < |before| ==> now[k] == before[k];
      }
    }
  }

  predicate Listed(state: StateResponse, device: nat) {
    exists k :: 0 <= k < |state.disks| && state.disks[k].device == device
  }

  /** The buffer is the device's backing, or was and is being freed. */
  ghost predicate BelongsTo(s: System, b: nat, device: nat) {
    || (exists i :: 0 <= i < |s.x.luns| && s.x.luns[i].backing == Some(b) && s.x.luns[i].device == device)
    || (ActiveWork(s).Detached? && ActiveWork(s).backing == Some(b) && ActiveWork(s).device == device)
  }

  lemma GoneIsFreed(s: System, device: nat)
    requires Inv(s) && Gone(s.x.luns, s.x.nextDevice, device)
    ensures !Listed(Snapshot(s.x), device)
    ensures forall b: nat :: !BelongsTo(s, b, device)
  {
    hide ManagementInv;
    ListedIffPresent(s.x.luns, |s.x.luns|, device);
    assert Snapshot(s.x).disks == Inventory(s.x.luns, |s.x.luns|);
    forall b: nat ensures !BelongsTo(s, b, device) { GoneOwnsNothing(s, b, device); }
  }

  lemma GoneOwnsNothing(s: System, b: nat, device: nat)
    requires StorageInv(s) && Gone(s.x.luns, s.x.nextDevice, device)
    ensures !BelongsTo(s, b, device)
  {
    forall i | 0 <= i < |s.x.luns| && s.x.luns[i].backing.Some? ensures s.x.luns[i].device != device {
      assert SlotOk(s.x.luns[i], i, s.x.nextDevice, ActiveWork(s), s.sweep.Sweeping?);
    }
  }

  /** Delete confirmation: once a reserved delete has been answered Succeeded, in every
      later state of the adapter no buffer belongs to the device and no ListState reply
      lists it. */
  lemma DeleteConfirmed(s: System, srb: nat, es: seq<Event>)
    requires Reachable(s) && Runs(s, es) && srb in s.controls && !s.controls[srb].stage.Open?
    requires s.controls[srb].stage.reply.Outcome?
    requires var r := s.controls[srb].stage.reply.response;
             r.mutation == DELETE_DISK && r.state == StateCode(Succeeded)
    ensures var device, t := s.controls[srb].stage.reply.response.device, After(s, es);
            && t.x.instance == s.x.instance && !Listed(Snapshot(t.x), device)
            && forall b: nat :: !BelongsTo(t, b, device)
  {
    ReachableInvariant(s);
    var r := s.controls[srb].stage.reply.response;
    assert ReplyOk(s, s.controls[srb], s.controls[srb].stage.reply);
    GoneForever(s, es, r.device);
    RunKeepsInvariant(s, es);
    ObservationsFollow(s, es, r.id);
    GoneIsFreed(After(s, es), r.device);
  }

  // ------------------------------------------------------------- SRBs over runs

  predicate Untouched(s: System, t: System, srb: nat) {
    srb in s.controls && srb in t.controls && t.controls[srb] == s.controls[srb]
  }

  /** Who submitted an SRB and whether it took the token never changes. */
  predicate SameOrigin(s: System, t: System, srb: nat) {
    && srb in s.controls && srb in t.controls
    && t.controls[srb].cmd == s.controls[srb].cmd && t.controls[srb].accepted == s.controls[srb].accepted
  }

  lemma {:induction false} ControlKept(s: System, es: seq<Event>, srb: nat)
    requires Runs(s, es) && srb in s.controls
    ensures SameOrigin(s, After(s, es), srb)
    decreases |es|
  {
    if es != [] {
      ControlsComeFrom(s, es[0]);
      ControlKept(Next(s, es[0]), es[1..], srb);
    }
  }

  /** The SRB in flight is not a completed one while the driver may still write to it. */
  lemma InFlightNotDone(s: System)
    requires Inv(s) && (InPhase(s, Admitted) || InPhase(s, Queued) || InPhase(s, Decided))
    ensures s.flight.srb in s.controls && !s.controls[s.flight.srb].stage.Done?
  {
  }

  /** A completed SRB belongs to StorPort: the driver never touches it again. */
  lemma {:induction false} CompletedIsFinal(s: System, es: seq<Event>, srb: nat)
    requires Inv(s) && Runs(s, es) && srb in s.controls && s.controls[srb].stage.Done?
    ensures Untouched(s, After(s, es), srb)
    decreases |es|
  {
    hide StorageInv, Next;
    if es != [] {
      var e := es[0];
      StepKeepsInvariant(s, e);
      ControlsComeFrom(s, e);
      if Answers(s.flight, e, srb) { InFlightNotDone(s); }
      CompletedIsFinal(Next(s, e), es[1..], srb);
    }
  }

  // ------------------------------------------------------ A client's own handle

  /** Every submission under the handle carries this one command. */
  predicate Respects(es: seq<Event>, handle: Handle, cmd: Command) {
    forall i :: 0 <= i < |es| ==> (Targets(es[i], handle) ==> es[i].cmd == cmd)
  }

  /** The handle was reserved for the command's mutation, and no other command has been
      bound to it. */
  ghost predicate Ours(s: System, handle: Handle, cmd: Command) {
    && handle.instance == s.x.instance && Issued(handle.id, s.x.nextOperation, U64_LIMIT)
    && cmd.IsReserved() && cmd.identity == handle
    && var r := Observe(s.x.operations, handle.id);
       r.Some? ==>
         && r.value.id == handle.id && r.value.mutation == cmd.Mutation()
         && (r.value.state == Reserved || SameParameters(r.value, cmd))
  }

  lemma OursKept(s: System, t: System, handle: Handle, cmd: Command)
    requires FlightOk(s.x.operations, s.x.luns, s.x.instance, s.x.nextDevice, s.flight)
    requires FlightOk(t.x.operations, t.x.luns, t.x.instance, t.x.nextDevice, t.flight)
    requires Ours(s, handle, cmd) && t.x.instance == s.x.instance && Issued(handle.id, t.x.nextOperation, U64_LIMIT)
    requires Later(Observe(s.x.operations, handle.id), Observe(t.x.operations, handle.id))
    requires Unpublished(t.flight) ==>
               || (Unpublished(s.flight) && t.flight.cmd == s.flight.cmd)
               || (t.flight.cmd.IsReserved() && t.flight.cmd.identity == handle ==> t.flight.cmd == cmd)
    ensures Ours(t, handle, cmd)
  {
    if Waiting(t.x.operations, handle.id) && !Waiting(s.x.operations, handle.id) {
      UntriedIsIdle(s, t, handle);
    }
  }

  lemma StaysOurs(s: System, e: Event, handle: Handle, cmd: Command)
    requires Inv(s) && KnownSrb(s) && Enabled(s, e) && Inv(Next(s, e)) && Evolves(s, Next(s, e))
    requires Ours(s, handle, cmd) && (Targets(e, handle) ==> e.cmd == cmd)
    ensures Ours(Next(s, e), handle, cmd)
  {
    FlightComesFrom(s, e);
    OursKept(s, Next(s, e), handle, cmd);
  }

  lemma {:induction false} OursOverRuns(s: System, es: seq<Event>, handle: Handle, cmd: Command)
    requires Inv(s) && Runs(s, es) && Ours(s, handle, cmd) && Respects(es, handle, cmd)
    ensures Ours(After(s, es), handle, cmd)
    decreases |es|
  {
    hide Inv, Enabled, Next;
    if es != [] {
      assert Respects(es[1..], handle, cmd) && (Targets(es[0], handle) ==> es[0].cmd == cmd);
      StepKeepsInvariant(s, es[0]);
      StaysOurs(s, es[0], handle, cmd);
      OursOverRuns(Next(s, es[0]), es[1..], handle, cmd);
    }
  }
}
