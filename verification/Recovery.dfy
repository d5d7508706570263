/** The client's recovery loop over a transport that may lose requests and replies
    (cli/src/driver/windows/recovery.rs), composed with the driver of System.dfy. */
module Recovery {
  import opened Protocol
  import opened Driver
  import opened System
  import opened Storage
  import opened Invariant
  import opened TableSteps
  import opened ManagementSteps
  import opened ManagementEvents
  import opened Steps
  import opened History

  // ------------------------------------------------------------ Client answers

  datatype ClientError = DriverRejection(status: Status) | Transport | InvalidReply

  datatype Answer = Received(response: OperationResponse) | Failure(error: ClientError)

  /** A rejection ends the attempt, except that a busy driver may still be asked again. */
  predicate IsTerminal(error: ClientError) {
    error.DriverRejection? && error.status != STATUS_DEVICE_BUSY
  }

  predicate Ambiguous(answer: Answer) {
    answer.Failure? && !IsTerminal(answer.error)
  }

  /** RecoveryProgress, with the two ways `interpret` fails. */
  datatype Progress = Complete | StillReserved | StillPending | Invalid | RejectedWith(status: Status) | AlreadyDeleted

  function Interpret(handle: Handle, mutation: nat, reply: OperationResponse): Progress {
    if !reply.Matches(handle, mutation) then Invalid
    else if reply.state == StateCode(Succeeded) && reply.result == 0 then Complete
    else if reply.state == StateCode(Failed) && reply.result < 0 then RejectedWith(reply.result)
    else if reply.state == StateCode(Deleted) then AlreadyDeleted
    else if reply.state == StateCode(Reserved) then StillReserved
    else if reply.state == StateCode(Pending) then StillPending
    else Invalid
  }

  datatype Outcome =
    | Resolved(response: OperationResponse)
    | Rejected(status: Status)
    | Removed(device: nat)
    | Unresolved(submission: Option<ClientError>, query: Option<ClientError>)

  // ----------------------------------------------- What a truthful answer means

  /** The mutation was executed exactly once and never will be again. */
  ghost predicate ExactlyOnce(s: System, id: nat) {
    Settled(s.x.operations, s.x.nextOperation, id) && Count(s.effects, id) == 1
  }

  /** The mutation was not executed and will not be unless its handle is submitted. */
  ghost predicate NotExecuted(s: System, handle: Handle) {
    || Untried(s, handle)
    || (Settled(s.x.operations, s.x.nextOperation, handle.id) && Count(s.effects, handle.id) == 0)
  }

  /** The disk a create response describes: it is there as it was asked for, at the number
      and under the device id the response gives, or it has been removed since. */
  ghost predicate Stands(s: System, r: OperationResponse, p: CreateParams) {
    Placed(s.x.luns, r, p) || Gone(s.x.luns, s.x.nextDevice, r.device)
  }

  /** What the client may conclude from a completed operation. */
  ghost predicate Succeeds(s: System, handle: Handle, cmd: Command, r: OperationResponse) {
    && ExactlyOnce(s, handle.id) && r.Matches(handle, cmd.Mutation())
    && (cmd.Mutation() == CREATE_DISK ==> r.IsValidCreatedDisk() && Stands(s, r, cmd.create))
    && (cmd.Mutation() == DELETE_DISK ==> r.device == cmd.remove && Gone(s.x.luns, s.x.nextDevice, cmd.remove))
  }

  ghost predicate Truthful(s: System, handle: Handle, cmd: Command, r: OperationResponse) {
    match Interpret(handle, cmd.Mutation(), r)
    case Complete => Succeeds(s, handle, cmd, r)
    case StillReserved => Untried(s, handle)
    case StillPending => true
    case Invalid => false
    case RejectedWith(_) => NotExecuted(s, handle)
    case AlreadyDeleted =>
      ExactlyOnce(s, handle.id) && cmd.Mutation() == CREATE_DISK && Gone(s.x.luns, s.x.nextDevice, r.device)
  }

  /** A query of the client's own handle is answered truthfully, and never with a reply
      the client would call invalid. */
  lemma QueryTruthful(s: System, handle: Handle, cmd: Command)
    requires Reachable(s) && Ours(s, handle, cmd) && Query(s.x, handle).Some?
    ensures Truthful(s, handle, cmd, Respond(s.x.instance, Query(s.x, handle).value))
  {
    hide StorageInv, OwnershipOk, RepliesOk, FlightOk;
    ReachableInvariant(s);
    var ops, k := s.x.operations, Find(s.x.operations, handle.id);
    assert RecordOk(ops[k], s.x.nextOperation);
    assert Count(s.effects, ops[k].id) == Expected(ops[k], s.flight);
  }

  /** No record of any reachable driver looks invalid to a client that asks for it. */
  lemma NeverInvalid(s: System, handle: Handle)
    requires Reachable(s) && Query(s.x, handle).Some?
    ensures !Interpret(handle, Query(s.x, handle).value.mutation,
              Respond(s.x.instance, Query(s.x, handle).value)).Invalid?
  {
    ReachableInvariant(s);
    assert RecordOk(Query(s.x, handle).value, s.x.nextOperation);
  }

  // ---------------------------------------------------------------- Transport

  /** What becomes of one request: lost on the way; answered by another adapter instance;
      or delivered, after which the driver runs on and the reply arrives or is lost. */
  datatype Delivery = Lost | Elsewhere(other: Extension) | Delivered(srb: nat, answered: bool, after: seq<Event>)

  /** `before` is what the driver does for everybody else until the request goes out. */
  datatype Choice = Choice(before: seq<Event>, delivery: Delivery)

  predicate Replies(s: System, srb: nat) {
    srb in s.controls && s.controls[srb].stage.Done?
  }

  /** What the driver does during one submit call. */
  function Events(cmd: Command, choice: Choice): seq<Event> {
    match choice.delivery
    case Delivered(srb, _, after) => choice.before + ([Submit(srb, cmd)] + after)
    case _ => choice.before
  }

  /** The driver can do what the choice says, and nobody else submits the handle. */
  predicate SubmitFits(s: System, cmd: Command, choice: Choice) {
    && Runs(s, Events(cmd, choice)) && Leaves(choice.before, cmd.identity)
    && match choice.delivery
       case Lost => true
       case Elsewhere(other) => other.instance != cmd.identity.instance
       case Delivered(srb, answered, after) =>
         Leaves(after, cmd.identity) && (answered ==> Replies(After(s, Events(cmd, choice)), srb))
  }

  function AnswerOf(reply: Driver.Reply): Answer {
    match reply
    case Error(status) => Failure(if status < 0 then DriverRejection(status) else InvalidReply)
    case Outcome(response) => Received(response)
    case Legacy(_, _, _) => Failure(InvalidReply)
  }

  /** What another adapter instance does with the request. */
  function ForeignAnswer(other: Extension, cmd: Command): Answer {
    match Prepare(other, cmd).0
    case Refused(status) => AnswerOf(Error(status))
    case Replayed(record) => Received(Respond(other.instance, record))
    case Accepted => Failure(Transport)
  }

  /** One submit call: the driver afterwards and what the client sees. A choice the
      driver cannot follow counts as a lost request. */
  function SubmitCall(s: System, cmd: Command, choice: Choice): (System, Answer) {
    if !SubmitFits(s, cmd, choice) then (s, Failure(Transport))
    else
      var t := After(s, Events(cmd, choice));
      match choice.delivery
      case Lost => (t, Failure(Transport))
      case Elsewhere(other) => (t, ForeignAnswer(other, cmd))
      case Delivered(srb, answered, _) =>
        (t, if answered then AnswerOf(t.controls[srb].stage.reply) else Failure(Transport))
  }

  predicate QueryFits(s: System, handle: Handle, choice: Choice) {
    && Runs(s, choice.before) && Leaves(choice.before, handle)
    && (choice.delivery.Elsewhere? ==> choice.delivery.other.instance != handle.instance)
  }

  function QueryAnswer(x: Extension, handle: Handle): Answer {
    match Query(x, handle)
    case None => Failure(DriverRejection(STATUS_NOT_FOUND))
    case Some(record) => Received(Respond(x.instance, record))
  }

  function QueryCall(s: System, handle: Handle, choice: Choice): (System, Answer) {
    if !QueryFits(s, handle, choice) then (s, Failure(Transport))
    else
      var t := After(s, choice.before);
      match choice.delivery
      case Lost => (t, Failure(Transport))
      case Elsewhere(other) => (t, QueryAnswer(other, handle))
      case Delivered(_, answered, _) => (t, if answered then QueryAnswer(t.x, handle) else Failure(Transport))
  }

  function CallOf(submitting: bool, s: System, cmd: Command, choice: Choice): (System, Answer) {
    if submitting then SubmitCall(s, cmd, choice) else QueryCall(s, cmd.identity, choice)
  }

  /** What holds between the client's calls. */
  ghost predicate InHand(s: System, handle: Handle, cmd: Command) {
    Reachable(s) && Ours(s, handle, cmd) && cmd.Validated()
  }

  /** The states a run of everybody else leads to. */
  lemma WhileLeft(s: System, es: seq<Event>, handle: Handle, cmd: Command)
    requires InHand(s, handle, cmd) && Runs(s, es) && Leaves(es, handle)
    ensures InHand(After(s, es), handle, cmd)
    ensures Untried(s, handle) ==> Untried(After(s, es), handle)
  {
    ReachableInvariant(s);
    StaysReachable(s, es);
    assert Respects(es, handle, cmd);
    OursOverRuns(s, es, handle, cmd);
    if Untried(s, handle) { UntriedWhileLeft(s, es, handle); }
  }

  /** Another adapter instance refuses the handle without executing anything. */
  lemma ForeignRefuses(other: Extension, cmd: Command)
    requires cmd.IsReserved() && other.instance != cmd.identity.instance
    ensures ForeignAnswer(other, cmd).Failure? && ForeignAnswer(other, cmd).error.DriverRejection?
  {
  }

  lemma StepsReachable(t: System, e: Event)
    requires Reachable(t) && KnownSrb(t) && Enabled(t, e)
    ensures Reachable(Next(t, e))
  {
    assert Runs(Next(t, e), [e][1..]) && After(Next(t, e), [e][1..]) == Next(t, e);
    StaysReachable(t, [e]);
  }

  lemma SubmissionOurs(t: System, srb: nat, cmd: Command)
    requires InHand(t, cmd.identity, cmd) && srb !in t.controls && KnownSrb(t)
    ensures InHand(Next(t, Submit(srb, cmd)), cmd.identity, cmd)
  {
    hide Inv, Enabled;
    ReachableInvariant(t);
    StepKeepsInvariant(t, Submit(srb, cmd));
    StepsReachable(t, Submit(srb, cmd));
    StaysOurs(t, Submit(srb, cmd), cmd.identity, cmd);
  }

  /** A submission that is not accepted changes nothing for the handle. */
  lemma RefusedUntried(t: System, srb: nat, cmd: Command)
    requires ManagementInv(t) && srb !in t.controls && cmd.Validated() && Untried(t, cmd.identity)
    ensures var u := OnSubmit(t, srb, cmd);
            srb in u.controls && u.controls[srb].cmd == cmd
            && (!u.controls[srb].accepted ==> Untried(u, cmd.identity))
  {
    var u := OnSubmit(t, srb, cmd);
    if !Prepare(t.x, cmd).0.Accepted? {
      NotAccepted(t, cmd);
      assert u.x == t.x && u.effects == t.effects;
    }
  }

  /** What the reply of a delivered submission says is true of the driver. */
  lemma DeliveredTruthful(u: System, v: System, srb: nat, cmd: Command, after: seq<Event>)
    requires InHand(u, cmd.identity, cmd) && Runs(u, after) && v == After(u, after) && Leaves(after, cmd.identity)
    requires srb in u.controls && u.controls[srb].cmd == cmd && Replies(v, srb)
    requires !u.controls[srb].accepted ==> Untried(u, cmd.identity)
    ensures InHand(v, cmd.identity, cmd)
    ensures var answer := AnswerOf(v.controls[srb].stage.reply);
            match answer
            case Received(r) => Truthful(v, cmd.identity, cmd, r)
            case Failure(error) => error.DriverRejection? && Untried(v, cmd.identity)
  {
    WhileLeft(u, after, cmd.identity, cmd);
    ControlKept(u, after, srb);
    AnsweredTruthful(v, srb, cmd);
  }

  lemma AnsweredTruthful(v: System, srb: nat, cmd: Command)
    requires InHand(v, cmd.identity, cmd) && Replies(v, srb) && v.controls[srb].cmd == cmd
    requires !v.controls[srb].accepted ==> Untried(v, cmd.identity)
    ensures match AnswerOf(v.controls[srb].stage.reply)
            case Received(r) => Truthful(v, cmd.identity, cmd, r)
            case Failure(error) => error.DriverRejection? && Untried(v, cmd.identity)
  {
    hide StorageInv, FlightOk, EffectsOk;
    ReachableInvariant(v);
    assert ReplyOk(v, v.controls[srb], v.controls[srb].stage.reply);
  }

  /** What the client may conclude from the answer to a submission. */
  ghost predicate SubmissionSays(s: System, cmd: Command, answer: Answer) {
    match answer
    case Received(r) => Truthful(s, cmd.identity, cmd, r)
    case Failure(error) => error.Transport? || (error.DriverRejection? && Untried(s, cmd.identity))
  }

  /** And from the answer to a query. */
  ghost predicate QuerySays(s: System, cmd: Command, answer: Answer) {
    match answer
    case Received(r) => Truthful(s, cmd.identity, cmd, r)
    case Failure(error) => error.Transport? || error == DriverRejection(STATUS_NOT_FOUND)
  }

  /** One submit call, whatever the transport does with it: the driver's promises hold
      afterwards, a reply tells the truth, and a rejection means that nothing was executed. */
  lemma SubmitCallTruthful(s: System, cmd: Command, choice: Choice)
    requires InHand(s, cmd.identity, cmd) && Untried(s, cmd.identity)
    ensures var (t, answer) := SubmitCall(s, cmd, choice);
            && InHand(t, cmd.identity, cmd)
            && SubmissionSays(t, cmd, answer)
  {
    if SubmitFits(s, cmd, choice) {
      match choice.delivery
      case Lost => WhileLeft(s, choice.before, cmd.identity, cmd);
      case Elsewhere(other) =>
        WhileLeft(s, choice.before, cmd.identity, cmd);
        ForeignRefuses(other, cmd);
      case Delivered(srb, answered, after) => DeliveredSays(s, cmd, choice.before, srb, after);
    }
  }

  lemma DeliveredSays(s: System, cmd: Command, before: seq<Event>, srb: nat, after: seq<Event>)
    requires InHand(s, cmd.identity, cmd) && Untried(s, cmd.identity)
    requires Runs(s, before + ([Submit(srb, cmd)] + after)) && Leaves(before, cmd.identity)
    requires Leaves(after, cmd.identity)
    ensures var v := After(s, before + ([Submit(srb, cmd)] + after));
            && InHand(v, cmd.identity, cmd)
            && (Replies(v, srb) ==> SubmissionSays(v, cmd, AnswerOf(v.controls[srb].stage.reply)))
  {
    RunsSplit(s, before, [Submit(srb, cmd)] + after);
    WhileLeft(s, before, cmd.identity, cmd);
    assert ([Submit(srb, cmd)] + after)[1..] == after;
    DeliveredCall(After(s, before), cmd, srb, after);
  }

  lemma DeliveredCall(t: System, cmd: Command, srb: nat, after: seq<Event>)
    requires InHand(t, cmd.identity, cmd) && Untried(t, cmd.identity) && srb !in t.controls && KnownSrb(t)
    requires Runs(Next(t, Submit(srb, cmd)), after) && Leaves(after, cmd.identity)
    ensures var v := After(Next(t, Submit(srb, cmd)), after);
            && InHand(v, cmd.identity, cmd)
            && (Replies(v, srb) ==>
                  match AnswerOf(v.controls[srb].stage.reply)
                  case Received(r) => Truthful(v, cmd.identity, cmd, r)
                  case Failure(error) => error.DriverRejection? && Untried(v, cmd.identity))
  {
    var u := Next(t, Submit(srb, cmd));
    SubmissionOurs(t, srb, cmd);
    ReachableInvariant(t);
    RefusedUntried(t, srb, cmd);
    WhileLeft(u, after, cmd.identity, cmd);
    if Replies(After(u, after), srb) { DeliveredTruthful(u, After(u, after), srb, cmd, after); }
  }

  lemma QueryCallTruthful(s: System, cmd: Command, choice: Choice)
    requires InHand(s, cmd.identity, cmd)
    ensures var (t, answer) := QueryCall(s, cmd.identity, choice);
            && InHand(t, cmd.identity, cmd)
            && QuerySays(t, cmd, answer)
  {
    if QueryFits(s, cmd.identity, choice) {
      WhileLeft(s, choice.before, cmd.identity, cmd);
      var t := After(s, choice.before);
      if Query(t.x, cmd.identity).Some? { QueryTruthful(t, cmd.identity, cmd); }
    }
  }

  // ------------------------------------------------------------------- Trace

  /** What a reply or failed query makes of the loop: an outcome, or another attempt. */
  datatype Verdict = Finish(outcome: Outcome) | Again(submitting: bool, query: Option<ClientError>)

  function Digest(handle: Handle, mutation: nat, current: Answer, query: Option<ClientError>): Verdict {
    match current
    case Received(reply) =>
      (match Interpret(handle, mutation, reply)
       case Complete => Finish(Resolved(reply))
       case RejectedWith(status) => Finish(Rejected(status))
       case AlreadyDeleted => Finish(Removed(reply.device))
       // Any other reply may stem from a submission that is still under way.
       case StillReserved => Again(true, query)
       case StillPending => Again(false, query)
       case Invalid => Again(false, Some(InvalidReply)))
    case Failure(error) => Again(false, Some(error))
  }

  /** What one recovery attempt did, in order. */
  datatype Call = Submitted(answer: Answer) | Queried(answer: Answer) | Paused(again: bool)

  predicate SaysReserved(call: Call, handle: Handle, mutation: nat) {
    !call.Paused? && call.answer.Received? && Interpret(handle, mutation, call.answer.response).StillReserved?
  }

  /** The reply decides the outcome. */
  predicate Decides(call: Call, handle: Handle, mutation: nat) {
    !call.Paused? && Digest(handle, mutation, call.answer, None).Finish?
  }

  function Front(trace: seq<Call>): seq<Call>
    requires trace != []
  {
    trace[..|trace| - 1]
  }

  function Last(trace: seq<Call>): Call
    requires trace != []
  {
    trace[|trace| - 1]
  }

  /** Every submission after the first directly follows a matching Reserved reply and a
      successful wait. */
  predicate MaySubmit(trace: seq<Call>, handle: Handle, mutation: nat) {
    || trace == []
    || (|trace| >= 2 && Last(trace) == Paused(true) && SaysReserved(Last(Front(trace)), handle, mutation))
  }

  predicate EndsAmbiguous(trace: seq<Call>) {
    trace != [] && Last(trace).Submitted? && Ambiguous(Last(trace).answer)
  }

  /** The first query after an unanswered submission needs no wait; any other query follows
      a wait and a reply that did not say Reserved. */
  predicate MayQuery(trace: seq<Call>, handle: Handle, mutation: nat) {
    || EndsAmbiguous(trace)
    || (|trace| >= 2 && Last(trace) == Paused(true) && !SaysReserved(Last(Front(trace)), handle, mutation))
  }

  /** The attempt waits only after a reply or a failed query that decides nothing. */
  predicate MayPause(trace: seq<Call>, handle: Handle, mutation: nat) {
    && trace != [] && !Decides(Last(trace), handle, mutation)
    && (Last(trace).Queried? || (Last(trace).Submitted? && Last(trace).answer.Received?))
  }

  predicate Disciplined(trace: seq<Call>, handle: Handle, mutation: nat) {
    trace == [] ||
    (Disciplined(Front(trace), handle, mutation) &&
     match Last(trace)
     case Submitted(_) => MaySubmit(Front(trace), handle, mutation)
     case Queried(_) => MayQuery(Front(trace), handle, mutation)
     case Paused(_) => MayPause(Front(trace), handle, mutation))
  }

  function Submissions(trace: seq<Call>): nat {
    if trace == [] then 0 else Submissions(Front(trace)) + if Last(trace).Submitted? then 1 else 0
  }

  function Queries(trace: seq<Call>): nat {
    if trace == [] then 0 else Queries(Front(trace)) + if Last(trace).Queried? then 1 else 0
  }

  function Pauses(trace: seq<Call>): nat {
    if trace == [] then 0 else Pauses(Front(trace)) + if Last(trace) == Paused(true) then 1 else 0
  }

  /** With w successful waits there are at most w + 1 submissions and w + 1 queries. */
  lemma {:induction false} TraceBounds(trace: seq<Call>, handle: Handle, mutation: nat)
    requires Disciplined(trace, handle, mutation)
    ensures Submissions(trace) <= Pauses(trace) + 1 && Queries(trace) <= Pauses(trace) + 1
    ensures (trace == [] || Last(trace) == Paused(true)) ==>
              Submissions(trace) <= Pauses(trace) && Queries(trace) <= Pauses(trace)
    ensures trace != [] && Last(trace).Submitted? ==> Queries(trace) <= Pauses(trace)
  {
    if trace != [] { TraceBounds(Front(trace), handle, mutation); }
  }

  /** The last ambiguous submission, and the last query that failed or made no sense. */
  function SubmissionError(trace: seq<Call>): Option<ClientError> {
    if trace == [] then None
    else if EndsAmbiguous(trace) then Some(Last(trace).answer.error)
    else SubmissionError(Front(trace))
  }

  function QueryError(trace: seq<Call>, handle: Handle, mutation: nat): Option<ClientError> {
    if trace == [] then None
    else if Last(trace).Paused? || (Last(trace).Submitted? && Last(trace).answer.Failure?)
    then QueryError(Front(trace), handle, mutation)
    else
      match Digest(handle, mutation, Last(trace).answer, QueryError(Front(trace), handle, mutation))
      case Again(_, query) => query
      case Finish(_) => None
  }

  lemma NoErrorsYet(handle: Handle, mutation: nat)
    ensures SubmissionError([]) == None && QueryError([], handle, mutation) == None
    ensures Disciplined([], handle, mutation) && Pauses([]) == 0
  {
  }

  lemma ErrorsAfterPause(trace: seq<Call>, again: bool, trace': seq<Call>, handle: Handle, mutation: nat)
    requires Made(trace, Paused(again), trace')
    ensures SubmissionError(trace') == SubmissionError(trace)
    ensures QueryError(trace', handle, mutation) == QueryError(trace, handle, mutation)
  {
  }

  lemma ErrorsAfterLoss(trace: seq<Call>, error: ClientError, trace': seq<Call>, handle: Handle, mutation: nat)
    requires Made(trace, Submitted(Failure(error)), trace') && !IsTerminal(error)
    ensures SubmissionError(trace') == Some(error) && EndsAmbiguous(trace')
    ensures QueryError(trace', handle, mutation) == QueryError(trace, handle, mutation)
  {
  }

  lemma ErrorsAfterAnswer(trace: seq<Call>, call: Call, trace': seq<Call>, handle: Handle, mutation: nat)
    requires Made(trace, call, trace') && !call.Paused? && (call.Submitted? ==> call.answer.Received?)
    ensures SubmissionError(trace') == SubmissionError(trace)
    ensures var verdict := Digest(handle, mutation, call.answer, QueryError(trace, handle, mutation));
            if verdict.Finish? then Ends(trace', handle, mutation, verdict.outcome)
            else QueryError(trace', handle, mutation) == verdict.query && MayPause(trace', handle, mutation)
  {
  }

  /** What the history of a finished attempt makes of its outcome. */
  predicate Ends(trace: seq<Call>, handle: Handle, mutation: nat, outcome: Outcome) {
    trace != [] &&
    match Last(trace)
    case Paused(again) =>
      !again && outcome == Unresolved(SubmissionError(trace), QueryError(trace, handle, mutation))
    case Queried(answer) => Digest(handle, mutation, answer, None) == Finish(outcome)
    case Submitted(Received(response)) => Digest(handle, mutation, Received(response), None) == Finish(outcome)
    case Submitted(Failure(error)) => IsTerminal(error) && outcome == Rejected(error.status)
  }

  /** The history has grown by one call. */
  ghost predicate Made(trace: seq<Call>, call: Call, trace': seq<Call>) {
    && trace' != [] && Front(trace') == trace && Last(trace') == call
    && Pauses(trace') == Pauses(trace) + if call == Paused(true) then 1 else 0
  }

  lemma Extended(trace: seq<Call>, call: Call, handle: Handle, mutation: nat)
    requires Disciplined(trace, handle, mutation)
    requires match call
             case Submitted(_) => MaySubmit(trace, handle, mutation)
             case Queried(_) => MayQuery(trace, handle, mutation)
             case Paused(_) => MayPause(trace, handle, mutation)
    ensures Disciplined(trace + [call], handle, mutation) && Made(trace, call, trace + [call])
  {
  }

  // ----------------------------------------------------------------- The loop

  /** One attempt of the client to get a reserved mutation decided: `script` is what the
      environment will do at each call, `waits` how many waits fit before the deadline,
      `trace` the history of calls. */
  class Attempt {
    const command: Command
    const script: nat -> Choice
    var system: System
    var calls: nat
    var waits: nat
    ghost var trace: seq<Call>

    constructor (command: Command, script: nat -> Choice, system: System, calls: nat, waits: nat)
      ensures this.command == command && this.script == script
      ensures this.system == system && this.calls == calls && this.waits == waits && trace == []
    {
      this.command, this.script := command, script;
      this.system, this.calls, this.waits, trace := system, calls, waits, [];
    }

    /** Every call so far was allowed when it was made. */
    ghost predicate InOrder()
      reads this
    {
      Disciplined(trace, command.identity, command.Mutation())
    }

    /** The next call is allowed and safe. */
    ghost predicate Ready(submitting: bool)
      reads this
    {
      && InHand(system, command.identity, command) && InOrder()
      && (if submitting
          then Untried(system, command.identity) && MaySubmit(trace, command.identity, command.Mutation())
          else MayQuery(trace, command.identity, command.Mutation()))
    }

    method Submit() returns (answer: Answer)
      requires Ready(true)
      modifies this`system, this`calls, this`trace
      ensures (system, answer) == SubmitCall(old(system), command, script(old(calls))) && calls == old(calls) + 1
      ensures InHand(system, command.identity, command) && SubmissionSays(system, command, answer)
      ensures InOrder() && Made(old(trace), Submitted(answer), trace)
    {
      SubmitCallTruthful(system, command, script(calls));
      var (after, reply) := SubmitCall(system, command, script(calls));
      Extended(trace, Submitted(reply), command.identity, command.Mutation());
      system, calls, answer, trace := after, calls + 1, reply, trace + [Submitted(reply)];
    }

    method QueryOnce() returns (answer: Answer)
      requires Ready(false)
      modifies this`system, this`calls, this`trace
      ensures (system, answer) == QueryCall(old(system), command.identity, script(old(calls)))
      ensures calls == old(calls) + 1
      ensures InHand(system, command.identity, command) && QuerySays(system, command, answer)
      ensures InOrder() && Made(old(trace), Queried(answer), trace)
    {
      QueryCallTruthful(system, command, script(calls));
      var (after, reply) := QueryCall(system, command.identity, script(calls));
      Extended(trace, Queried(reply), command.identity, command.Mutation());
      system, calls, answer, trace := after, calls + 1, reply, trace + [Queried(reply)];
    }

    /** One call of the loop, by its current action. */
    method Perform(submitting: bool) returns (current: Answer)
      requires Ready(submitting)
      modifies this`system, this`calls, this`trace
      ensures (system, current) == CallOf(submitting, old(system), command, script(old(calls)))
      ensures calls == old(calls) + 1
      ensures InHand(system, command.identity, command) && InOrder()
      ensures if submitting then SubmissionSays(system, command, current) else QuerySays(system, command, current)
      ensures Made(old(trace), if submitting then Submitted(current) else Queried(current), trace)
    {
      if submitting { current := Submit(); } else { current := QueryOnce(); }
    }

    method WaitForRetry() returns (again: bool)
      requires InOrder() && MayPause(trace, command.identity, command.Mutation())
      modifies this`waits, this`trace
      ensures again <==> old(waits) > 0
      ensures waits == if again then old(waits) - 1 else 0
      ensures InOrder() && Made(old(trace), Paused(again), trace)
    {
      again := waits > 0;
      Extended(trace, Paused(again), command.identity, command.Mutation());
      trace := trace + [Paused(again)];
      if again { waits := waits - 1; }
    }
  }

  /** What each outcome of a recovery attempt proves about the driver. */
  ghost predicate Concluded(s: System, cmd: Command, outcome: Outcome) {
    match outcome
    case Resolved(r) => Succeeds(s, cmd.identity, cmd, r)
    case Rejected(_) => NotExecuted(s, cmd.identity)
    case Removed(device) =>
      ExactlyOnce(s, cmd.identity.id) && cmd.Mutation() == CREATE_DISK && Gone(s.x.luns, s.x.nextDevice, device)
    case Unresolved(submission, query) =>
      Count(s.effects, cmd.identity.id) <= 1 && ErrorsOk(submission, query)
  }

  /** The errors an unresolved attempt can report: the driver's replies are never invalid. */
  predicate ErrorsOk(submission: Option<ClientError>, query: Option<ClientError>) {
    && (submission.Some? ==> submission.value.Transport? || submission.value == DriverRejection(STATUS_DEVICE_BUSY))
    && (query.Some? ==> query.value.Transport? || query.value == DriverRejection(STATUS_NOT_FOUND))
  }

  lemma StandsStays(s: System, t: System, r: OperationResponse, p: CreateParams)
    requires Evolves(s, t) && BindingOk(s.x.operations, s.x.luns) && BindingOk(t.x.operations, t.x.luns)
    requires DeletesOk(t.x.operations, t.x.luns, t.x.nextDevice) && Issued(r.id, s.x.nextOperation, U64_LIMIT)
    requires Stands(s, r, p)
    ensures Stands(t, r, p)
  {
    if Placed(s.x.luns, r, p) {
      assert Later(Observe(s.x.operations, r.id), Observe(t.x.operations, r.id));
    } else {
      GoneStays(s, t, r.device);
    }
  }

  /** A created disk stays where its response says until it is removed for good. */
  lemma {:induction false} StandsForever(s: System, es: seq<Event>, r: OperationResponse, p: CreateParams)
    requires Inv(s) && Runs(s, es) && Issued(r.id, s.x.nextOperation, U64_LIMIT) && Stands(s, r, p)
    ensures Stands(After(s, es), r, p)
    decreases |es|
  {
    hide StorageInv, Enabled, Next;
    if es != [] {
      StepKeepsInvariant(s, es[0]);
      StandsStays(s, Next(s, es[0]), r, p);
      StandsForever(Next(s, es[0]), es[1..], r, p);
    }
  }

  /** What a completed operation proved stays proved, whatever the driver does next. */
  lemma SucceedsForever(s: System, es: seq<Event>, handle: Handle, cmd: Command, r: OperationResponse)
    requires Reachable(s) && Runs(s, es) && Succeeds(s, handle, cmd, r)
    ensures Succeeds(After(s, es), handle, cmd, r)
  {
    ReachableInvariant(s);
    SettledForever(s, es, handle.id);
    if cmd.Mutation() == DELETE_DISK { GoneForever(s, es, cmd.remove); }
    else { StandsForever(s, es, r, cmd.create); }
  }

  /** And so does what any other finished attempt proved, as long as nobody submits the
      handle again. */
  lemma ConcludedForever(s: System, es: seq<Event>, cmd: Command, outcome: Outcome)
    requires InHand(s, cmd.identity, cmd) && Runs(s, es) && Leaves(es, cmd.identity) && Concluded(s, cmd, outcome)
    ensures Concluded(After(s, es), cmd, outcome)
  {
    WhileLeft(s, es, cmd.identity, cmd);
    match outcome
    case Resolved(r) => SucceedsForever(s, es, cmd.identity, cmd, r);
    case Rejected(_) => NotExecutedForever(s, es, cmd.identity);
    case Removed(device) => RemovedForever(s, es, cmd.identity.id, device);
    case Unresolved(submission, query) => UnresolvedConcludes(After(s, es), cmd, submission, query);
  }

  lemma RemovedForever(s: System, es: seq<Event>, id: nat, device: nat)
    requires Reachable(s) && Runs(s, es) && ExactlyOnce(s, id) && Gone(s.x.luns, s.x.nextDevice, device)
    ensures ExactlyOnce(After(s, es), id) && Gone(After(s, es).x.luns, After(s, es).x.nextDevice, device)
  {
    ReachableInvariant(s);
    SettledForever(s, es, id);
    GoneForever(s, es, device);
  }

  lemma NotExecutedForever(s: System, es: seq<Event>, handle: Handle)
    requires Reachable(s) && Runs(s, es) && Leaves(es, handle) && NotExecuted(s, handle)
    ensures NotExecuted(After(s, es), handle)
  {
    ReachableInvariant(s);
    if Untried(s, handle) { UntriedWhileLeft(s, es, handle); } else { SettledForever(s, es, handle.id); }
  }

  lemma UnresolvedConcludes(s: System, cmd: Command, submission: Option<ClientError>, query: Option<ClientError>)
    requires InHand(s, cmd.identity, cmd) && ErrorsOk(submission, query)
    ensures Concluded(s, cmd, Unresolved(submission, query))
  {
    ReachableInvariant(s);
  }

  lemma DigestSound(s: System, cmd: Command, current: Answer, submission: Option<ClientError>,
                    query: Option<ClientError>)
    requires QuerySays(s, cmd, current) && ErrorsOk(submission, query)
    ensures match Digest(cmd.identity, cmd.Mutation(), current, query)
            case Finish(outcome) => Concluded(s, cmd, outcome)
            case Again(submitting, query') =>
              && ErrorsOk(submission, query')
              && (submitting ==>
                    Untried(s, cmd.identity) && SaysReserved(Queried(current), cmd.identity, cmd.Mutation()))
  {
  }

  /** resolve_operation: no loss of requests or replies makes it execute a mutation twice
      or misreport what happened. */
  method ResolveOperation(attempt: Attempt) returns (outcome: Outcome)
    requires InHand(attempt.system, attempt.command.identity, attempt.command)
    requires Untried(attempt.system, attempt.command.identity) && attempt.trace == []
    modifies attempt
    ensures InHand(attempt.system, attempt.command.identity, attempt.command)
    ensures Concluded(attempt.system, attempt.command, outcome)
    ensures attempt.InOrder() && Ends(attempt.trace, attempt.command.identity, attempt.command.Mutation(), outcome)
    ensures Pauses(attempt.trace) + attempt.waits == old(attempt.waits) && (outcome.Unresolved? ==> attempt.waits == 0)
  {
    hide SubmissionError, QueryError, Disciplined, Pauses, Truthful, InHand, Interpret;
    NoErrorsYet(attempt.command.identity, attempt.command.Mutation());
    var submitting := true;
    var submission: Option<ClientError>, query: Option<ClientError> := None, None;
    while true
      invariant attempt.Ready(submitting) && ErrorsOk(submission, query)
      invariant submission == SubmissionError(attempt.trace)
      invariant query == QueryError(attempt.trace, attempt.command.identity, attempt.command.Mutation())
      invariant Pauses(attempt.trace) + attempt.waits == old(attempt.waits)
      decreases attempt.waits, submitting
    {
      ghost var handle, mutation, before := attempt.command.identity, attempt.command.Mutation(), attempt.trace;
      var current := attempt.Perform(submitting);
      if submitting && current.Failure? {
        if IsTerminal(current.error) { return Rejected(current.error.status); }
        // No wait comes between an unanswered submission and the query about it.
        ErrorsAfterLoss(before, current.error, attempt.trace, handle, mutation);
        submission, submitting := Some(current.error), false;
        continue;
      }
      ErrorsAfterAnswer(before, Last(attempt.trace), attempt.trace, handle, mutation);
      DigestSound(attempt.system, attempt.command, current, submission, query);
      var verdict := Digest(attempt.command.identity, attempt.command.Mutation(), current, query);
      if verdict.Finish? { return verdict.outcome; }
      submitting, query := verdict.submitting, verdict.query;
      before := attempt.trace;
      var again := attempt.WaitForRetry();
      ErrorsAfterPause(before, again, attempt.trace, handle, mutation);
      if !again {
        UnresolvedConcludes(attempt.system, attempt.command, submission, query);
        return Unresolved(submission, query);
      }
    }
  }
}
