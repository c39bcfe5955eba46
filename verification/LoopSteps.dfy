/** What the run loop (src/molly/core/agent_loop.py:175-281, 518-579, 641-950, 972-1114) asks of its
    `Environment`, what it may end with and why, and that each event it builds is a legal write
    where it builds it. */
module LoopSteps {
  import opened RunEvents
  import opened Projection
  import opened RunHistory
  import opened Inspection
  import opened RunTheorems
  import opened RunSafety
  import opened RunTraces
  import opened Lineage

  /** The process may die just before or just after a write reaches the file. */
  datatype Crash = Survives | DiesBefore | DiesAfter

  datatype ProviderOutcome = ProviderRaises | NothingFurther | Acts(action: Action)

  datatype ToolOutcome = ToolRaises(name: string) | ToolReturns(data: string, outputs: seq<ArtifactId>)

  /** All choices that are not the loop's own, by the time they are asked for. */
  datatype Environment = Environment(
    crash: nat -> Crash,
    accepts: nat -> bool,
    provider: nat -> ProviderOutcome,
    resolve: nat -> (string, nat),
    tool: nat -> ToolOutcome,
    others: nat -> seq<Event>,
    now: nat -> nat)

  datatype RunError =
    | BindingError | StoreError | ContractError | ApprovalError | ActionError | ReconciliationError | DuplicateOutputs

  datatype Outcome =
    | Returned(status: Status, pending: Option<Call>, visible: seq<ArtifactId>)
    | Raised(error: RunError)
    | Died

  datatype Step = Continue | Halt(outcome: Outcome)

  function How(outcome: Outcome): Leaving {
    match outcome
    case Returned(_, _, _) => ByReturn
    case Raised(_) => ByError
    case Died => ByDeath
  }

  // ---- Causes: what the environment did between two readings of the clock

  ghost predicate Crashes(env: Environment, from: nat, to: nat) {
    exists n: nat :: from < n <= to && env.crash(n) != Survives
  }

  ghost predicate Refuses(env: Environment, from: nat, to: nat) { exists n: nat :: from < n <= to && !env.accepts(n) }

  predicate UnseenInput(answer: ProviderOutcome, visible: seq<ArtifactId>) {
    answer.Acts? && answer.action.Propose? && exists a :: a in answer.action.inputs && a !in visible
  }

  predicate InvalidAnswer(answer: ProviderOutcome) {
    answer.ProviderRaises? || (answer.Acts? && answer.action.Propose? && !Distinct(answer.action.inputs))
  }

  /** Data of a legal size, and two equal outputs. */
  predicate RepeatsOutputs(outcome: ToolOutcome) {
    outcome.ToolReturns? && |outcome.data| <= MAX_TOOL_RESULT_DATA_BYTES && !Distinct(outcome.outputs)
  }

  /** Every error has the refused check, the invalid action or the repeated output it stands for. */
  ghost predicate Explained(env: Environment, from: nat, to: nat, request: Request, h: seq<Event>, error: RunError) {
    match error
    case StoreError => Refuses(env, from, to)
    case ReconciliationError => Refuses(env, from, to)
    case ContractError =>
      || Refuses(env, from, to)
      || (h != [] && Last(h).kind == DecisionRecorded
          && exists n: nat :: from < n <= to && UnseenInput(env.provider(n), Visible(request, h)))
    case ActionError => exists n: nat :: from < n <= to && InvalidAnswer(env.provider(n))
    case DuplicateOutputs => exists n: nat :: from < n <= to && RepeatsOutputs(env.tool(n))
    case ApprovalError => true
    case BindingError => true
  }

  /** Where a driver may hand back control: the run is over, waiting or interrupted, an approved call
      was just executed, or the provider has no further action. */
  ghost predicate AtRest(env: Environment, from: nat, to: nat, h: seq<Event>) {
    h != [] && (Last(h).kind in RUN_ENDS + {ReviewRequested, ExecutionStarted, ApprovalRequired} || ApprovedEnd(h)
                || (AtLoopTop(Last(h)) && exists n: nat :: from < n <= to && env.provider(n).NothingFurther?))
  }

  /** No outcome without its cause, and a return says what the history says. */
  ghost predicate Caused(env: Environment, from: nat, to: nat, request: Request, h: seq<Event>, outcome: Outcome) {
    match outcome
    case Returned(_, _, _) => AtRest(env, from, to, h) && Reports(outcome, request, h)
    case Raised(error) => Explained(env, from, to, request, h, error)
    case Died => Crashes(env, from, to)
  }

  lemma ReturnReports(env: Environment, from: nat, to: nat, request: Request, h: seq<Event>, outcome: Outcome)
    requires Caused(env, from, to, request, h, outcome)
    ensures outcome.Returned? ==> ReportsLast(outcome, h)
  {
    hide AtRest, Explained, Crashes, Visible, Project, ReportsLast;
  }

  lemma CausedSooner(env: Environment, from: nat, later: nat, to: nat, request: Request, h: seq<Event>,
                     outcome: Outcome)
    requires from <= later && Caused(env, later, to, request, h, outcome)
    ensures Caused(env, from, to, request, h, outcome)
  {
    hide Visible, Reports, ApprovedEnd, InvalidAnswer, UnseenInput, RepeatsOutputs;
  }

  /** The two errors that blame the caller rather than the environment. */
  predicate BlamesCaller(outcome: Outcome) { outcome in {Raised(ApprovalError), Raised(BindingError)} }

  /** May this approval be handed in at this point? */
  predicate ApprovalFits(approval: Approval, h: seq<Event>) {
    h != [] && CurrentCall(h).Some?
    && ((Last(h).kind == ApprovalRequired && approval.BindsTo(CurrentCall(h).value))
        || (ApprovedBy(Last(h)) && Last(h).meta.approval == Some(approval)))
  }

  /** One invocation of a tool executor. */
  datatype Invocation = Invocation(runId: Id, callId: Id)

  function ResultFrom(s: RunState, visible: seq<ArtifactId>): Outcome
    requires s.end.Some? ==> s.end.value.kind in RUN_ENDS
  {
    Returned(StatusOf(s), if s.pendingApproval.Some? then Some(s.pendingApproval.value.call) else None, visible)
  }

  /** What `_result` reports about a history. */
  ghost predicate Reports(outcome: Outcome, request: Request, h: seq<Event>) {
    outcome.Returned? ==>
      && Project(h).Ok? && (Project(h).value.end.Some? ==> Project(h).value.end.value.kind in RUN_ENDS)
      && outcome == ResultFrom(Project(h).value, Visible(request, h)) && ReportsLast(outcome, h)
  }

  /** The status names the last event, and the pending call is the one last put up for approval. */
  predicate ReportsLast(outcome: Outcome, h: seq<Event>)
    requires outcome.Returned?
  {
    && h != [] && StatusTells(outcome.status, Last(h).kind)
    && outcome.pending == if Last(h).kind == ApprovalRequired then CurrentCall(h) else None
  }

  /** Nothing may be appended any more: ended, waiting for review, or started and not finished. */
  predicate Quiescent(h: seq<Event>) {
    h != [] && Last(h).kind in RUN_ENDS + {ReviewRequested, ExecutionStarted}
  }

  function EventBound(request: Request): nat {
    var limits := EffectiveLimits(request);
    2 + limits.decisions + 5 * Min(limits.toolCalls, limits.steps)
  }

  function Ids(log: seq<Event>): set<Id> { set e | e in log :: e.eventId }

  function StepIds(log: seq<Event>): set<Id> { set e | e in log && e.stepId.Some? :: e.stepId.value }

  function CallIdsUsed(log: seq<Event>): set<Id> { set e | e in log && e.meta.callId.Some? :: e.meta.callId.value }

  /** Every identity the relations of `e` refer to. */
  function RefsOf(e: Event): set<Ref>
    requires e.stepId.Some?
  {
    {StepRef(e.stepId.value)} + (set a | a in e.inputs :: ArtifactRef(a)) + (set a | a in e.outputs :: ArtifactRef(a))
  }

  /** Relations only mention events that are in the ledger. */
  ghost predicate Grounded(log: seq<Event>, relations: seq<Relation>) {
    forall r :: r in relations && r.id.ExecutionId? ==> r.id.success in Ids(log)
  }

  /** Every executor call was preceded by a start event in the ledger. */
  ghost predicate Started(executed: seq<Invocation>, run: Id, h: seq<Event>) {
    forall x :: x in executed && x.runId == run ==>
      exists s :: s in h && s.kind == ExecutionStarted && s.meta.callId == Some(x.callId)
  }

  /** Some identifier is beyond every one in the ledger, so a fresh one always exists. */
  lemma {:induction false} FreeId(log: seq<Event>) returns (free: Id)
    ensures forall e :: e in log ==> e.eventId < free
    ensures forall e :: e in log && e.stepId.Some? ==> e.stepId.value < free
    ensures forall e :: e in log && e.meta.callId.Some? ==> e.meta.callId.value < free
  {
    if log == [] { return 0; }
    var (f, e) := (Front(log), Last(log));
    assert log == f + [e];
    free := FreeId(f);
    var (step, call) := (if e.stepId.Some? then e.stepId.value else 0, if e.meta.callId.Some? then e.meta.callId.value
        else 0);
    free := free + e.eventId + step + call + 1;
  }

  lemma {:induction false} ForRunFresh(log: seq<Event>, run: Id)
    requires FreshEventIds(log)
    ensures FreshEventIds(ForRun(log, run))
  {
    if log == [] { return; }
    ForRunFresh(Front(log), run);
    ForRunMembers(Front(log), run);
    var (f, e) := (ForRun(Front(log), run), Last(log));
    assert log == Front(log) + [e];
    forall i | 0 <= i < |f| ensures f[i].eventId != e.eventId {
      assert f[i] in f;
      var j :| 0 <= j < |Front(log)| && Front(log)[j] == f[i];
      assert log[j] == f[i];
    }
  }

  lemma SuccessProjectable(policy: Policy, h: seq<Event>, e: Event)
    requires History(policy, h) && e in h && e.kind == ExecutionSucceeded
    ensures Projectable(e)
  {
    hide History, Appendable;
    var k := EventHasGroup(policy, h, e);
    HistoryKept(policy, h);
    var g: seq<Event> := Groups(h)[k];
    assert CallShape(g) && g[0] in g;
    assert PayloadOk(g[0].meta.call.value, g[0]) && PayloadOk(g[0].meta.call.value, e)
        && Bound(g[0].meta.call.value, e);
  }

  lemma HistoryProjectable(policy: Policy, h: seq<Event>)
    requires History(policy, h)
    ensures AllProjectable(h)
  {
    hide History, Projectable;
    forall e | e in h && e.kind == ExecutionSucceeded ensures Projectable(e) { SuccessProjectable(policy, h, e); }
  }

  // ---- Each event the loop builds is a legal write where the loop builds it

  /** A driver may start the current call: from the top, or behind a materialization that needs no approval. */
  predicate MayStart(policy: Policy, t: seq<Entry>) {
    var h := Events(t);
    h != [] && ReadyToExecute(Last(h))
        && (AtTop(t) || (Last(h).kind == Materialized && !WantsApproval(policy, Last(h))))
  }

  /** A run under way, and an identifier none of its events has. */
  ghost predicate UnderWay(policy: Policy, t: seq<Entry>, request: Request, id: Id) {
    var h := Events(t);
    && History(policy, h) && h != [] && h[0].meta.start.Some? && RequestOf(h) == request
    && forall x :: x in h ==> x.eventId != id
  }

  lemma CurrentCallBelongs(policy: Policy, h: seq<Event>)
    requires History(policy, h) && h != []
    ensures h[0].meta.start.Some? && h[0].runId == RequestOf(h).runId
    ensures CurrentCall(h).Some? ==>
              exists m :: m in h && m.meta.call == CurrentCall(h) && m.runId == CurrentCall(h).value.body.runId
    ensures Last(h).kind in CALL_KINDS ==> CurrentCall(h).Some?
  {
    hide History, Appendable, OfKinds;
    HistoryKept(policy, h);
    var gs := Groups(h);
    GroupMembers(h);
    hide Groups;
    if gs != [] {
      var g: seq<Event> := gs[|gs| - 1];
      assert CallShape(g) && g[0] in g && g[0] == Materializations(h)[|gs| - 1];
      assert PayloadOk(g[0].meta.call.value, g[0]);
    }
  }

  lemma CanStartCall(policy: Policy, t: seq<Entry>, request: Request, id: Id, ts: nat, call: Call)
    requires UnderWay(policy, t, request, id) && CurrentCall(Events(t)) == Some(call)
               && call.body.runId == request.runId
    requires MayStart(policy, t)
    ensures MayWrite(policy, t, CallEvent(ExecutionStarted, id, ts, call, [], NO_METADATA))
    ensures Appendable(policy, Events(t), CallEvent(ExecutionStarted, id, ts, call, [], NO_METADATA))
  {
    hide History, OfKinds, Events, AtTop;
  }

  lemma CanAsk(policy: Policy, t: seq<Entry>, request: Request, id: Id, ts: nat, call: Call)
    requires UnderWay(policy, t, request, id) && CurrentCall(Events(t)) == Some(call)
               && call.body.runId == request.runId
    requires !Idle(t) && Last(Events(t)).kind == Materialized && policy.requiresApproval(call.body.specDigest)
    ensures MayWrite(policy, t, CallEvent(ApprovalRequired, id, ts, call, [], NO_METADATA))
  {
    hide History, OfKinds, Events;
  }

  lemma CanReject(policy: Policy, t: seq<Entry>, request: Request, id: Id, ts: nat, call: Call)
    requires UnderWay(policy, t, request, id) && CurrentCall(Events(t)) == Some(call)
               && call.body.runId == request.runId
    requires !Idle(t)
    ensures RejectedBy(Last(Events(t))) ==> MayWrite(policy, t, CallEvent(CallRejected, id, ts, call, [], NO_METADATA))
    ensures Last(Events(t)).kind == CallRejected ==> MayWrite(policy, t, RejectedRunEvent(id, ts, call))
  {
    hide History, OfKinds, Events;
  }

  lemma CanRecord(policy: Policy, t: seq<Entry>, request: Request, id: Id, ts: nat, call: Call, approval: Approval)
    requires UnderWay(policy, t, request, id) && CurrentCall(Events(t)) == Some(call)
               && call.body.runId == request.runId
    requires AtTop(t) && Last(Events(t)).kind == ApprovalRequired && approval.BindsTo(call)
    ensures MayWrite(policy, t, CallEvent(ApprovalRecorded, id, ts, call, [], NO_METADATA.(approval := Some(approval))))
  {
    hide History, OfKinds, Events, AtTop;
  }

  lemma CanFail(policy: Policy, t: seq<Entry>, request: Request, id: Id, ts: nat, call: Call, name: string)
    requires UnderWay(policy, t, request, id) && CurrentCall(Events(t)) == Some(call)
               && call.body.runId == request.runId
    requires !Idle(t) && Last(Events(t)).kind == ExecutionStarted
    ensures MayWrite(policy, t, CallEvent(ExecutionFailed, id, ts, call, [],
              NO_METADATA.(errorType := Some(SafeErrorType(name)))))
  {
    hide History, OfKinds, Events;
  }

  lemma CanSucceed(policy: Policy, t: seq<Entry>, request: Request, id: Id, ts: nat, call: Call, data: string,
                   outputs: seq<ArtifactId>)
    requires UnderWay(policy, t, request, id) && CurrentCall(Events(t)) == Some(call)
               && call.body.runId == request.runId
    requires !Idle(t) && Last(Events(t)).kind == ExecutionStarted
    requires |data| <= MAX_TOOL_RESULT_DATA_BYTES && Distinct(outputs)
    ensures MayWrite(policy, t, CallEvent(ExecutionSucceeded, id, ts, call, outputs,
                                          NO_METADATA.(result := Some(Observation(data, data)))))
  {
    hide History, OfKinds, Events;
  }

  lemma CanExhaust(policy: Policy, t: seq<Entry>, request: Request, id: Id, ts: nat)
    requires UnderWay(policy, t, request, id) && AtTop(t) && AtLoopTop(Last(Events(t)))
               && LimitHit(request, Events(t), false)
    ensures MayWrite(policy, t, PlainEvent(BudgetExhausted, id, ts, request.runId, None))
  {
    hide History, OfKinds, LimitHit, Events, AtTop;
  }

  lemma CanClose(policy: Policy, t: seq<Entry>, request: Request, id: Id, ts: nat)
    requires UnderWay(policy, t, request, id) && !Idle(t)
    requires Last(Events(t)).kind == DecisionRecorded && Last(Events(t)).meta.action.Some?
    ensures Last(Events(t)).meta.action.value.Stop? ==>
              MayWrite(policy, t, PlainEvent(RunStopped, id, ts, request.runId, Last(Events(t)).meta.action))
    ensures Last(Events(t)).meta.action.value.RequestReview? ==>
              MayWrite(policy, t, PlainEvent(ReviewRequested, id, ts, request.runId, Last(Events(t)).meta.action))
  {
    hide History, OfKinds, LimitHit, Events;
  }

  lemma CanDecide(policy: Policy, t: seq<Entry>, request: Request, id: Id, ts: nat, a: Action)
    requires UnderWay(policy, t, request, id) && AtTop(t)
    requires AtLoopTop(Last(Events(t))) && !LimitHit(request, Events(t), false)
    ensures MayWrite(policy, t, PlainEvent(DecisionRecorded, id, ts, request.runId, Some(a)))
  {
    hide History, OfKinds, LimitHit, Events, AtTop;
  }

  lemma CanMaterialize(policy: Policy, t: seq<Entry>, request: Request, id: Id, ts: nat, call: Call)
    requires UnderWay(policy, t, request, id) && !Idle(t)
    requires Last(Events(t)).kind == DecisionRecorded && Last(Events(t)).meta.action.Some?
    requires Carries(call, Last(Events(t)).meta.action.value, request) && FreshCall(Events(t), call.body)
    requires forall a :: a in call.body.inputs ==> a in Visible(request, Events(t))
    ensures MayWrite(policy, t, CallEvent(Materialized, id, ts, call, [], NO_METADATA.(call := Some(call))))
  {
    hide History, OfKinds, Visible, FreshCall, Carries, Events;
    assert call.body.runId == request.runId by { CarriesBody(call, Last(Events(t)).meta.action.value, request); }
  }

  lemma CarriesBody(call: Call, a: Action, r: Request)
    requires Carries(call, a, r)
    ensures call.body.runId == r.runId && call.body.inputs == a.inputs && a.Propose?
  {}

  lemma CanStart(policy: Policy, t: seq<Entry>, request: Request, id: Id, ts: nat)
    requires Idle(t) && Events(t) == [] && request.policyDigest == policy.digest && Distinct(request.inputs)
    ensures MayWrite(policy, t, StartEvent(id, ts, request))
  {}

  /** When nothing is pending, ended, waiting or running, the loop stands at its top. */
  lemma NothingPendingIsLoopTop(policy: Policy, h: seq<Event>)
    requires History(policy, h) && h != []
    requires !Quiescent(h) && Last(h).kind != ApprovalRequired && !ReadyToExecute(Last(h))
    ensures AtLoopTop(Last(h))
  {
    HistoryTail(policy, h);
    hide History, OfKinds, LimitHit;
  }

  /** Where `run` returns without looking at the provider. */
  lemma MayReturnHere(t: seq<Entry>)
    requires Events(t) != []
    requires Last(Events(t)).kind in RUN_ENDS + {ReviewRequested, ApprovalRequired}
             || (AtTop(t) && Last(Events(t)).kind == ExecutionStarted) || (!Idle(t) && ApprovedEnd(Events(t)))
    ensures MayReturn(t)
  {}

  /** A class name is recorded as it is if it has 1 to 80 letters, digits, dots, underscores and hyphens and nothing
      else; any other is recorded as a plain tool error. */
  predicate NamesFailure(name: string, recorded: string) {
    if 1 <= |name| <= 80
       && (forall i :: 0 <= i < |name| ==>
             'a' <= name[i] <= 'z' || 'A' <= name[i] <= 'Z' || '0' <= name[i] <= '9' || name[i] in {'.', '_', '-'})
    then recorded == name else recorded == "ToolError"
  }

  lemma RecordedName(name: string)
    ensures NamesFailure(name, SafeErrorType(name))
  {}

  /** What the end event of a call records of the executor's outcome. */
  predicate Finishes(outcome: ToolOutcome, e: Event) {
    if outcome.ToolRaises? || |outcome.data| > MAX_TOOL_RESULT_DATA_BYTES then
      e.kind == ExecutionFailed && e.meta.errorType.Some?
      && NamesFailure(if outcome.ToolRaises? then outcome.name else "ToolContractError", e.meta.errorType.value)
    else
      e.kind == ExecutionSucceeded && e.outputs == outcome.outputs
      && e.meta.result == Some(Observation(outcome.data, outcome.data))
  }

  /** From this time on the executor is reached, and repeats an output. */
  predicate StartsThenRepeats(env: Environment, c: nat) {
    env.accepts(c + 1) && env.crash(c + 2) == Survives && RepeatsOutputs(env.tool(c + 3))
  }

  /** The proposal passes the checks made before its call exists. */
  predicate Admitted(env: Environment, c: nat, a: Action, visible: seq<ArtifactId>)
    requires a.Propose?
  {
    env.accepts(c + 1) && forall x :: x in a.inputs ==> x in visible
  }

  /** An admitted proposal runs without approval, and its executor repeats an output. */
  predicate ProposalRepeats(policy: Policy, env: Environment, c: nat, a: Action, visible: seq<ArtifactId>)
    requires a.Propose?
  {
    Admitted(env, c, a, visible) && env.crash(c + 2) == Survives && !policy.requiresApproval(env.resolve(c + 1).1)
    && StartsThenRepeats(env, c + 2)
  }

  // ---- What one action leads to, as the ledger before and after shows it

  predicate Materializes(e: Event, a: Action, r: Request) {
    e.kind == Materialized && e.meta.call.Some? && Carries(e.meta.call.value, a, r)
  }

  /** Proposal `a` behind its recorded decision: refused, or materialized as proposed; a call that wants approval
      is put up for it, the driver returns and no executor was called (`idle`); any other call is never returned. */
  predicate Handled(policy: Policy, r: Request, a: Action, h: seq<Event>, now: seq<Event>, idle: bool, step: Step) {
    h <= now &&
    if now == h then step in {Halt(Died), Halt(Raised(ContractError))}
    else
      && Materializes(now[|h|], a, r)
      && if policy.requiresApproval(now[|h|].meta.call.value.body.specDigest) then
           idle && step.Halt? && !step.outcome.Raised? && |now| <= |h| + 2
               && (|now| == |h| + 2 ==> Last(now).kind == ApprovalRequired)
           && (step.outcome.Returned? ==> |now| == |h| + 2)
         else
           (step.Halt? ==> !step.outcome.Returned?) && (|now| > |h| + 1 ==> now[|h| + 1].kind == ExecutionStarted)
           && |now| <= |h| + 3 && (|now| == |h| + 3 ==> Last(now).kind in EXECUTION_ENDS)
  }

  /** The run is closed behind `h` by an event of this kind, unless the process died before. */
  predicate Closed(h: seq<Event>, now: seq<Event>, kind: Kind, action: Option<Action>, idle: bool, step: Step) {
    h <= now && idle && step.Halt? && !step.outcome.Raised? && (step.outcome.Returned? ==> now != h)
    && (now != h ==> |now| == |h| + 1 && Last(now).kind == kind && Last(now).meta.action == action)
  }

  /** A turn with nothing pending: the limits first, then the provider's answer, recorded and carried out. */
  predicate Acted(policy: Policy, r: Request, answer: ProviderOutcome, h: seq<Event>, now: seq<Event>, idle: bool,
                  step: Step) {
    if LimitHit(r, h, false) then Closed(h, now, BudgetExhausted, None, idle, step)
    else if answer.NothingFurther? then idle && now == h && step.Halt? && step.outcome.Returned?
    else if InvalidAnswer(answer) then idle && now == h && step == Halt(Raised(ActionError))
    else if now == h then idle && step == Halt(Died)
    else
      && h <= now && now[|h|].kind == DecisionRecorded && now[|h|].meta.action == Some(answer.action)
      && match answer.action
         case Stop(_) => Closed(now[..|h| + 1], now, RunStopped, Some(answer.action), idle, step)
         case RequestReview(_) => Closed(now[..|h| + 1], now, ReviewRequested, Some(answer.action), idle, step)
         case Propose(_, _, _, _) => Handled(policy, r, answer.action, now[..|h| + 1], now, idle, step)
  }

  /** The budget ends only where a limit was reached before, and a decision is recorded only where there was room. */
  predicate RespectsLimits(r: Request, h: seq<Event>, now: seq<Event>) {
    forall k :: |h| <= k < |now| ==>
      && (now[k].kind == BudgetExhausted ==> !HasRoom(r, h)) && (now[k].kind == DecisionRecorded ==> HasRoom(r, h))
  }

  lemma ActedWithinLimits(policy: Policy, r: Request, answer: ProviderOutcome, h: seq<Event>, now: seq<Event>,
                          idle: bool, step: Step)
    requires Acted(policy, r, answer, h, now, idle, step)
    ensures RespectsLimits(r, h, now)
  {
    StrictLimit(r, h);
    hide LimitHit, HasRoom, Carries, InvalidAnswer;
  }

  lemma HandledAtOnce(policy: Policy, r: Request, a: Action, h: seq<Event>, step: Step)
    requires step in {Halt(Died), Halt(Raised(ContractError))}
    ensures Handled(policy, r, a, h, h, true, step)
  {}

  /** The ledger has grown by the call made for `a`. */
  predicate CallFor(r: Request, a: Action, call: Call, h: seq<Event>, now: seq<Event>) {
    now != [] && now == h + [Last(now)] && Materializes(Last(now), a, r) && Last(now).meta.call == Some(call)
  }

  lemma DiedBehindMaterialization(policy: Policy, r: Request, a: Action, call: Call, h: seq<Event>, now: seq<Event>)
    requires now == h || CallFor(r, a, call, h, now)
    ensures Handled(policy, r, a, h, now, true, Halt(Died))
  {
    hide Carries;
  }

  /** Behind the materialization `e`, a call was asked about or executed. */
  lemma HandledAfter(policy: Policy, r: Request, a: Action, h: seq<Event>, now: seq<Event>, e: Event, idle: bool,
                     step: Step)
    requires Materializes(e, a, r) && h + [e] <= now
    requires if policy.requiresApproval(e.meta.call.value.body.specDigest) then
               && idle && step.Halt? && !step.outcome.Raised? && |now| <= |h| + 2
               && (|now| == |h| + 2 ==> Last(now).kind == ApprovalRequired)
               && (step.outcome.Returned? ==> |now| == |h| + 2)
             else
               && (step.Halt? ==> !step.outcome.Returned?)
               && (|now| > |h| + 1 ==> now[|h| + 1].kind == ExecutionStarted)
               && |now| <= |h| + 3 && (|now| == |h| + 3 ==> Last(now).kind in EXECUTION_ENDS)
    ensures Handled(policy, r, a, h, now, idle, step)
  {
    assert (h + [e])[|h|] == e;
  }

  lemma ActedByProposal(policy: Policy, r: Request, a: Action, h: seq<Event>, now: seq<Event>, d: Event, idle: bool,
                        step: Step)
    requires Handled(policy, r, a, h + [d], now, idle, step)
    requires a.Propose? && Distinct(a.inputs) && d.kind == DecisionRecorded && d.meta.action == Some(a)
               && !LimitHit(r, h, false)
    ensures Acted(policy, r, Acts(a), h, now, idle, step)
  {
    hide LimitHit, Materializes;
    assert now[..|h| + 1] == h + [d] && now[|h|] == (h + [d])[|h|];
  }

  lemma ActedByClosing(policy: Policy, r: Request, a: Action, h: seq<Event>, now: seq<Event>, d: Event, step: Step)
    requires Closed(h + [d], now, if a.Stop? then RunStopped else ReviewRequested, Some(a), true, step)
    requires !a.Propose? && d.kind == DecisionRecorded && d.meta.action == Some(a) && !LimitHit(r, h, false)
    ensures Acted(policy, r, Acts(a), h, now, true, step)
  {
    hide LimitHit;
    assert now[..|h| + 1] == h + [d] && now[|h|] == (h + [d])[|h|];
  }

  predicate AnsweredBy(env: Environment, from: nat, to: nat, e: Event) {
    e.meta.action.Some? && exists n: nat :: from < n <= to && env.provider(n) == Acts(e.meta.action.value)
  }

  predicate FinishedBy(env: Environment, from: nat, to: nat, e: Event) {
    exists n: nat :: from < n <= to && Finishes(env.tool(n), e)
  }

  /** The call has the tool version and the tool specification that the registry resolved. */
  predicate ResolvedBy(env: Environment, from: nat, to: nat, e: Event) {
    e.meta.call.Some? && exists n: nat ::
      from <= n <= to && env.resolve(n) == (e.meta.call.value.body.tool.version, e.meta.call.value.body.specDigest)
  }

  /** An event that carries somebody else's choice has it from there: a decision from the provider, the version of a
      tool from the registry, an approval from the one handed in, and the end of an execution from an executor. */
  predicate Vouched(env: Environment, from: nat, to: nat, approval: Option<Approval>, e: Event) {
    match e.kind
    case DecisionRecorded => AnsweredBy(env, from, to, e)
    case Materialized => ResolvedBy(env, from, to, e)
    case ApprovalRecorded => approval.Some? && e.meta.approval == approval
    case ExecutionSucceeded => FinishedBy(env, from, to, e)
    case ExecutionFailed => FinishedBy(env, from, to, e)
    case _ => true
  }

  /** All events behind `h` are vouched for, and only the first of them can record the approval. */
  predicate AllVouched(env: Environment, from: nat, to: nat, approval: Option<Approval>, h: seq<Event>,
                       now: seq<Event>) {
    && h <= now && (forall k :: |h| <= k < |now| ==> Vouched(env, from, to, approval, now[k]))
    && (forall k :: |h| < k < |now| ==> now[k].kind != ApprovalRecorded)
  }

  lemma VouchedNothing(env: Environment, from: nat, to: nat, approval: Option<Approval>, h: seq<Event>)
    ensures AllVouched(env, from, to, approval, h, h)
  {}

  /** A new run has only its start event when the approval is handed on, and no approval fits then. */
  lemma VouchedFromStart(env: Environment, from: nat, begun: nat, to: nat, approval: Option<Approval>,
                         h: seq<Event>, mid: seq<Event>, now: seq<Event>)
    requires from <= begun <= to && AllVouched(env, begun, begun, approval, h, mid)
               && AllVouched(env, begun, to, approval, mid, now)
    requires mid == h || approval.None? || now == mid
    ensures AllVouched(env, from, to, approval, h, now)
  {
    hide AllVouched;
    if mid == h {
      VouchedLater(env, from, begun, to, approval, h, now);
    } else {
      VouchedLater(env, from, begun, begun, approval, h, mid);
      if approval.None? {
        VouchedTwice(env, from, begun, to, approval, h, mid, now);
      } else {
        VouchedNothing(env, begun, to, None, mid);
        VouchedTwice(env, from, begun, to, approval, h, mid, mid);
      }
    }
  }

  lemma VouchedPlain(env: Environment, from: nat, to: nat, h: seq<Event>, now: seq<Event>)
    requires h <= now
    requires forall k :: |h| <= k < |now| ==>
               now[k].kind !in {DecisionRecorded, Materialized, ApprovalRecorded} + EXECUTION_ENDS
    ensures AllVouched(env, from, to, None, h, now)
  {}

  lemma VouchedCall(env: Environment, n: nat, to: nat, r: Request, a: Action, call: Call, h: seq<Event>,
                    now: seq<Event>)
    requires n <= to && (now == h || CallFor(r, a, call, h, now))
    requires env.resolve(n) == (call.body.tool.version, call.body.specDigest)
    ensures AllVouched(env, n, to, None, h, now)
  {
    hide Carries;
    if now != h { assert ResolvedBy(env, n, to, Last(now)); }
  }

  lemma VouchedDecision(env: Environment, n: nat, to: nat, a: Action, h: seq<Event>, now: seq<Event>)
    requires 0 < n <= to && env.provider(n) == Acts(a) && (now == h || DecisionFor(a, h, now))
    ensures AllVouched(env, n - 1, to, None, h, now)
  {
    if now != h { assert AnsweredBy(env, n - 1, to, Last(now)); }
  }

  lemma VouchedExecution(env: Environment, from: nat, n: nat, to: nat, h: seq<Event>, now: seq<Event>)
    requires h <= now && |now| <= |h| + 2 && (|now| > |h| ==> now[|h|].kind == ExecutionStarted)
    requires |now| == |h| + 2 ==> from < n <= to && Finishes(env.tool(n), now[|h| + 1])
    ensures AllVouched(env, from, to, None, h, now)
  {
    hide Finishes;
    if |now| == |h| + 2 {
      FinishKind(env.tool(n), now[|h| + 1]);
      assert FinishedBy(env, from, to, now[|h| + 1]);
    }
  }

  lemma FinishKind(outcome: ToolOutcome, e: Event)
    requires Finishes(outcome, e)
    ensures e.kind in EXECUTION_ENDS
  {}

  lemma VouchedSooner(env: Environment, from: nat, later: nat, to: nat, end: nat, approval: Option<Approval>, e: Event)
    requires from <= later && to <= end && Vouched(env, later, to, approval, e)
    ensures Vouched(env, from, end, approval, e)
  {
    hide Finishes;
  }

  /** Two stretches of work, the second without an approval handed in. */
  lemma VouchedTwice(env: Environment, from: nat, mid: nat, to: nat, approval: Option<Approval>,
                     h: seq<Event>, between: seq<Event>, now: seq<Event>)
    requires from <= mid <= to && AllVouched(env, from, mid, approval, h, between)
               && AllVouched(env, mid, to, None, between, now)
    ensures AllVouched(env, from, to, approval, h, now)
  {
    hide AnsweredBy, FinishedBy, ResolvedBy;
    forall k | |h| <= k < |now| ensures Vouched(env, from, to, approval, now[k]) {
      if k < |between| {
        assert now[k] == between[k];
        VouchedSooner(env, from, from, mid, to, approval, now[k]);
      } else {
        VouchedSooner(env, from, mid, to, to, None, now[k]);
      }
    }
    forall k | |h| < k < |now| ensures now[k].kind != ApprovalRecorded {
      if k < |between| { assert now[k] == between[k]; } else { assert Vouched(env, mid, to, None, now[k]); }
    }
  }

  lemma VouchedClosing(env: Environment, from: nat, to: nat, kind: Kind, a: Action, h: seq<Event>, now: seq<Event>,
                       step: Step)
    requires Closed(h, now, kind, Some(a), true, step) && kind in {RunStopped, ReviewRequested}
    ensures AllVouched(env, from, to, None, h, now)
  {}

  lemma ReviewedAs(approval: Approval, c: Id, h: seq<Event>, now: seq<Event>, step: Step)
    requires h <= now && |now| <= |h| + 3
    requires if now == h then step == Halt(Died) else Records(approval, c, now[|h|])
    requires now != h && approval.decision == Approved ==> |now| == |h| + 1 && step in {Continue, Halt(Died)}
    requires now != h && approval.decision == Rejected ==>
               && step.Halt? && !step.outcome.Raised? && (step.outcome.Returned? ==> |now| == |h| + 3)
               && (|now| > |h| + 1 ==> now[|h| + 1].kind == CallRejected)
               && (|now| > |h| + 2 ==> now[|h| + 2].kind == RunRejected)
    ensures Reviewed(approval, c, h, now, step)
  {}

  lemma VouchedReview(env: Environment, from: nat, to: nat, approval: Approval, c: Id, h: seq<Event>, now: seq<Event>)
    requires h <= now && |now| <= |h| + 3 && (now != h ==> Records(approval, c, now[|h|]))
    requires |now| > |h| + 1 ==> now[|h| + 1].kind == CallRejected
    requires |now| > |h| + 2 ==> now[|h| + 2].kind == RunRejected
    ensures AllVouched(env, from, to, Some(approval), h, now)
  {}

  /** Nothing was written before the approval was handed on. */
  lemma VouchedLater(env: Environment, from: nat, mid: nat, to: nat, approval: Option<Approval>, h: seq<Event>,
                     now: seq<Event>)
    requires from <= mid <= to && AllVouched(env, mid, to, approval, h, now)
    ensures AllVouched(env, from, to, approval, h, now)
  {
    hide AnsweredBy, FinishedBy, ResolvedBy;
    forall k | |h| <= k < |now| ensures Vouched(env, from, to, approval, now[k]) {
      VouchedSooner(env, from, mid, to, to, approval, now[k]);
    }
  }

  // ---- What a handed-in approval leads to

  predicate Records(approval: Approval, c: Id, e: Event) {
    e.kind == ApprovalRecorded && e.meta.approval == Some(approval) && e.meta.callId == Some(c)
  }

  /** The run waits for an approval, and this one binds to its call. */
  predicate Awaits(approval: Approval, h: seq<Event>) {
    h != [] && Last(h).kind == ApprovalRequired && CurrentCall(h).Some? && approval.BindsTo(CurrentCall(h).value)
  }

  /** A recorded rejection is followed by the two events that close the run. */
  predicate TurnedDown(h: seq<Event>, now: seq<Event>, outcome: Outcome) {
    && |h| < |now| <= |h| + 3 && !outcome.Raised? && (outcome.Returned? ==> |now| == |h| + 3)
    && (|now| > |h| + 1 ==> now[|h| + 1].kind == CallRejected) && (|now| > |h| + 2 ==> now[|h| + 2].kind == RunRejected)
  }

  /** One turn with an awaited approval: refused by a check, or recorded as it is and acted upon. */
  predicate Reviewed(approval: Approval, c: Id, h: seq<Event>, now: seq<Event>, step: Step) {
    h <= now &&
    if now == h then step in {Halt(Died), Halt(Raised(ContractError))}
    else
      && Records(approval, c, now[|h|])
      && if approval.decision == Approved then |now| == |h| + 1 && step in {Continue, Halt(Died)}
         else step.Halt? && TurnedDown(h, now, step.outcome)
  }

  /** Behind a recorded approval its call is started and then the driver returns, unless a check refuses or it dies. */
  predicate Executes(x: Invocation, h: seq<Event>, now: seq<Event>, before: seq<Invocation>, after: seq<Invocation>,
                     outcome: Outcome) {
    && h <= now && |now| <= |h| + 2 && after in {before, before + [x]} && !BlamesCaller(outcome)
    && (|now| > |h| ==> now[|h|].kind == ExecutionStarted && now[|h|].meta.callId == Some(x.callId))
    && (outcome.Returned? ==> |now| == |h| + 2 && after == before + [x] && Last(now).kind in EXECUTION_ENDS)
  }

  /** The errors a refused check leads to. */
  predicate StoppedByCheck(outcome: Outcome) {
    outcome in {Raised(StoreError), Raised(ReconciliationError), Raised(ContractError)}
  }

  /** A whole invocation with an awaited approval: either nothing is written and it does not return, or the very
      record is written first; then a rejection closes the run without an executor call, and an approval is
      followed by the start of that call, and by its end when it returns. */
  predicate Settles(approval: Approval, x: Invocation, h: seq<Event>, now: seq<Event>,
                    before: seq<Invocation>, after: seq<Invocation>, outcome: Outcome) {
    h <= now &&
    if now == h then after == before && (outcome == Died || StoppedByCheck(outcome))
    else
      && Records(approval, x.callId, now[|h|])
      && if approval.decision == Approved then Executes(x, now[..|h| + 1], now, before, after, outcome)
         else after == before && TurnedDown(h, now, outcome)
  }

  /** The pending call was approved and has not started, and nothing else is handed in. */
  predicate Resumable(approval: Option<Approval>, h: seq<Event>) {
    h != [] && ApprovedBy(Last(h)) && CurrentCall(h).Some? && (approval.None? || ApprovalFits(approval.value, h))
  }

  function CurrentId(h: seq<Event>): Id
    requires CurrentCall(h).Some?
  { CurrentCall(h).value.body.callId }

  /** One turn heeds the approval handed in and the one already recorded. */
  predicate Heeded(run: Id, approval: Option<Approval>, h: seq<Event>, now: seq<Event>,
                   before: seq<Invocation>, after: seq<Invocation>, step: Step) {
    && (approval.Some? && Awaits(approval.value, h) ==>
          after == before && Reviewed(approval.value, CurrentId(h), h, now, step))
    && (Resumable(approval, h) ==>
          step.Halt? && Executes(Invocation(run, CurrentId(h)), h, now, before, after, step.outcome))
  }

  /** So does a whole invocation. */
  predicate Obeys(run: Id, approval: Option<Approval>, h: seq<Event>, now: seq<Event>,
                  before: seq<Invocation>, after: seq<Invocation>, outcome: Outcome) {
    && (approval.Some? && Awaits(approval.value, h) ==>
          Settles(approval.value, Invocation(run, CurrentId(h)), h, now, before, after, outcome))
    && (Resumable(approval, h) ==> Executes(Invocation(run, CurrentId(h)), h, now, before, after, outcome))
  }

  /** Between two turns: an awaited approval was recorded, and nothing else was done. */
  predicate InReview(approval: Option<Approval>, h: seq<Event>, now: seq<Event>,
                     before: seq<Invocation>, after: seq<Invocation>) {
    && (approval.Some? && Awaits(approval.value, h) ==>
          after == before && Reviewed(approval.value, CurrentId(h), h, now, Continue))
    && !Resumable(approval, h)
  }

  lemma FirstTurnObeys(run: Id, approval: Option<Approval>, h: seq<Event>, now: seq<Event>,
                       before: seq<Invocation>, after: seq<Invocation>, step: Step)
    requires Heeded(run, approval, h, now, before, after, step)
    ensures if step.Halt? then Obeys(run, approval, h, now, before, after, step.outcome)
            else InReview(approval, h, now, before, after)
  {
    hide Reviewed, Settles, Resumable, Executes, CurrentCall;
    if step.Halt? && approval.Some? && Awaits(approval.value, h) {
      SettledAtOnce(approval.value, Invocation(run, CurrentId(h)), h, now, before, step);
    }
  }

  lemma NextTurnObeys(run: Id, approval: Option<Approval>, h: seq<Event>, mid: seq<Event>, now: seq<Event>,
                      before: seq<Invocation>, between: seq<Invocation>, after: seq<Invocation>, step: Step)
    requires InReview(approval, h, mid, before, between) && Heeded(run, None, mid, now, between, after, step)
    ensures if step.Halt? then Obeys(run, approval, h, now, before, after, step.outcome)
            else InReview(approval, h, now, before, after)
  {
    hide Reviewed, Settles, Executes, CurrentCall, ApprovedBy, ApprovalFits;
    if approval.Some? && Awaits(approval.value, h) {
      StillCurrent(approval.value, CurrentId(h), h, mid);
      SettledByExecution(approval.value, Invocation(run, CurrentId(h)), h, mid, now, before, after, step.outcome);
    }
  }

  lemma NothingDone(run: Id, approval: Option<Approval>, h: seq<Event>, executed: seq<Invocation>, outcome: Outcome)
    requires outcome == Died || StoppedByCheck(outcome)
    ensures Obeys(run, approval, h, h, executed, executed, outcome)
  {}

  /** The run is over or the approval does not fit: there is nothing to heed. */
  lemma NothingToHeed(run: Id, approval: Option<Approval>, h: seq<Event>, s: RunState, executed: seq<Invocation>,
                      step: Step)
    requires h != [] && ProjectedByLast(h, s) && s.pendingApproval.None?
    requires s.end.Some? || s.interrupted || (approval.Some? && !Supplied(approval.value, s))
    ensures Heeded(run, approval, h, h, executed, executed, step)
  {
    hide CurrentCall;
    LastDecides(h, s, approval);
  }

  lemma HeededWhilePending(run: Id, approval: Option<Approval>, h: seq<Event>, s: RunState, now: seq<Event>,
                           executed: seq<Invocation>, step: Step)
    requires h != [] && ProjectedByLast(h, s) && s.pendingApproval.Some?
    requires approval.Some? && approval.value.BindsTo(s.pendingApproval.value.call) ==>
               Reviewed(approval.value, s.pendingApproval.value.call.body.callId, h, now, step)
    ensures Heeded(run, approval, h, now, executed, executed, step)
  {
    hide CurrentCall, Reviewed;
  }

  lemma HeededByProceeding(run: Id, approval: Option<Approval>, h: seq<Event>, s: RunState, now: seq<Event>,
                           before: seq<Invocation>, after: seq<Invocation>, step: Step)
    requires h != [] && ProjectedByLast(h, s) && s.pendingApproval.None?
               && Heeded(run, None, h, now, before, after, step)
    ensures Heeded(run, approval, h, now, before, after, step)
  {
    hide CurrentCall, Executes, ApprovalFits;
  }

  /** An awaited approval is recorded unless the process dies or a check refuses. */
  lemma AwaitedApprovalIsRecorded(env: Environment, from: nat, to: nat, request: Request, approval: Approval,
                                  h: seq<Event>, now: seq<Event>, before: seq<Invocation>, after: seq<Invocation>,
                                  outcome: Outcome)
    requires Awaits(approval, h) && Caused(env, from, to, request, now, outcome)
    requires Obeys(request.runId, Some(approval), h, now, before, after, outcome)
    ensures after != before ==> approval.decision == Approved
    ensures !Crashes(env, from, to) && !Refuses(env, from, to) ==>
              |h| < |now| && Records(approval, CurrentId(h), now[|h|])
  {
    hide Crashes, Refuses, Visible, Reports, CurrentCall, Executes, TurnedDown, UnseenInput;
  }

  lemma SettledAtOnce(approval: Approval, x: Invocation, h: seq<Event>, now: seq<Event>, before: seq<Invocation>,
                      step: Step)
    requires Reviewed(approval, x.callId, h, now, step) && step.Halt?
    ensures Settles(approval, x, h, now, before, before, step.outcome)
  {}

  lemma SettledByExecution(approval: Approval, x: Invocation, h: seq<Event>, between: seq<Event>, now: seq<Event>,
                           before: seq<Invocation>, after: seq<Invocation>, outcome: Outcome)
    requires Reviewed(approval, x.callId, h, between, Continue) && Executes(x, between, now, before, after, outcome)
    ensures Settles(approval, x, h, now, before, after, outcome)
  {
    assert between != h && now[..|h| + 1] == between && now[|h|] == between[|h|];
  }

  lemma StillCurrent(approval: Approval, c: Id, h: seq<Event>, now: seq<Event>)
    requires Reviewed(approval, c, h, now, Continue)
    ensures CurrentCall(now) == CurrentCall(h) && now != [] && ApprovedBy(Last(now))
  {
    assert now == h + [Last(now)];
    OfKindsSnoc(h, Last(now), {Materialized});
  }

  /** Every recorded approval is one of those handed in. */
  predicate Signed(handed: set<Approval>, h: seq<Event>) {
    forall e :: e in h && e.kind == ApprovalRecorded ==> e.meta.approval.Some? && e.meta.approval.value in handed
  }

  function With(handed: set<Approval>, approval: Option<Approval>): set<Approval> {
    if approval.Some? then handed + {approval.value} else handed
  }

  lemma SignedOn(env: Environment, from: nat, to: nat, handed: set<Approval>, approval: Option<Approval>,
                 h: seq<Event>, now: seq<Event>)
    requires Signed(handed, h) && AllVouched(env, from, to, approval, h, now)
    ensures Signed(With(handed, approval), now)
  {
    hide AnsweredBy, FinishedBy, ResolvedBy;
    forall e | e in now && e.kind == ApprovalRecorded
      ensures e.meta.approval.Some? && e.meta.approval.value in With(handed, approval)
    {
      var k :| 0 <= k < |now| && now[k] == e;
      if k < |h| { assert h[k] == e && e in h; } else { assert Vouched(env, from, to, approval, now[k]); }
    }
  }

  lemma VisibleBehindDecision(r: Request, h: seq<Event>, d: Event)
    requires d.kind == DecisionRecorded
    ensures Visible(r, h + [d]) == Visible(r, h)
  { Snoc(h, d); }

  /** The provider's answer, asked next, is such a proposal, and it is recorded. */
  predicate AnswerRepeats(policy: Policy, env: Environment, c: nat, visible: seq<ArtifactId>) {
    var answer := env.provider(c + 1);
    && answer.Acts? && answer.action.Propose? && Distinct(answer.action.inputs) && env.crash(c + 2) == Survives
    && ProposalRepeats(policy, env, c + 2, answer.action, visible)
  }

  /** The ledger has grown by the decision for `a`. */
  predicate DecisionFor(a: Action, h: seq<Event>, now: seq<Event>) {
    now != [] && now == h + [Last(now)] && Last(now).kind == DecisionRecorded && Last(now).meta.action == Some(a)
  }

  lemma DiedBehindDecision(policy: Policy, r: Request, a: Action, h: seq<Event>, now: seq<Event>)
    requires now == h || DecisionFor(a, h, now)
    requires !LimitHit(r, h, false) && !InvalidAnswer(Acts(a))
    ensures Acted(policy, r, Acts(a), h, now, true, Halt(Died))
  {
    if now != h { assert now[..|h| + 1] == now; }
  }

  /** The pending call was already approved by exactly this record. */
  predicate Supplied(approval: Approval, s: RunState) {
    s.pendingExecution.Some? && s.pendingExecution.value.approval == Some(approval) && approval.decision == Approved
  }

  /** The last event decides where a turn goes, and whether an approval fits there. */
  lemma LastDecides(h: seq<Event>, s: RunState, approval: Option<Approval>)
    requires h != [] && ProjectedByLast(h, s)
    ensures s.end.Some? || s.interrupted <==> Last(h).kind in RUN_ENDS + {ExecutionStarted}
    ensures s.pendingApproval.Some? <==> Last(h).kind == ApprovalRequired
    ensures AtLoopTop(Last(h)) ==> s.end.None? && !s.interrupted && s.pendingApproval.None?
    ensures Quiescent(h) <==> Last(h).kind in RUN_ENDS + {ExecutionStarted, ReviewRequested}
    ensures s.pendingApproval.Some? ==> CurrentCall(h) == Some(s.pendingApproval.value.call)
    ensures approval.Some? && s.pendingApproval.Some? ==>
              (ApprovalFits(approval.value, h) <==> approval.value.BindsTo(s.pendingApproval.value.call))
    ensures approval.Some? && s.pendingApproval.None? && s.end.None? && !s.interrupted ==>
              (ApprovalFits(approval.value, h) <==> Supplied(approval.value, s))
    ensures approval.Some? && Quiescent(h) ==> !ApprovalFits(approval.value, h)
  {
    hide CurrentCall;
  }

  lemma {:induction false} WritesAlone(before: seq<Entry>, t: seq<Entry>)
    requires before <= t && |t| - |Events(t)| == |before| - |Events(before)|
    ensures forall k :: |before| <= k < |t| ==> t[k].Wrote?
  {
    if |before| < |t| {
      assert before <= Front(t);
      FewerEvents(before, Front(t));
      WritesAlone(before, Front(t));
    } else {
      assert before == t;
    }
  }

  lemma {:induction false} FewerEvents(before: seq<Entry>, t: seq<Entry>)
    requires before <= t
    ensures |t| - |Events(t)| >= |before| - |Events(before)|
  {
    if |before| < |t| {
      assert before <= Front(t);
      FewerEvents(before, Front(t));
    } else {
      assert before == t;
    }
  }
}
