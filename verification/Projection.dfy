/** `AgentLoop._project`: the state the run loop derives from a run's events
    (src/molly/core/agent_loop.py:290-421), its counts and its limits (423-500). */
module Projection {
  import opened RunEvents

  datatype ProjectionError =
    | BadResultData | MissingCall | InvalidCall | MissingCallId | WrongIdentity | WrongTool | WrongInputs
    | WrongDigest | WrongStep | ManyApprovals | MissingApproval | UnboundApproval | ManyRejections
    | ManyStarts | ManyTerminals | RejectionWithoutApproval | EventsAfterEnd | ManyUnresolved

  datatype CallState = CallState(
    call: Call, required: bool, approval: Option<Approval>, approvalEvent: Option<Event>,
    rejected: Option<Event>, started: Option<Event>, terminal: Option<Event>)
  {
    predicate Interrupted() { started.Some? && terminal.None? }

    predicate PendingApproval() { terminal.None? && started.None? && required && approval.None? }

    predicate PendingExecution() {
      terminal.None? && started.None? && (!required || (approval.Some? && approval.value.decision == Approved))
    }
  }

  datatype RunState = RunState(
    calls: seq<CallState>, pendingApproval: Option<CallState>, pendingExecution: Option<CallState>,
    interrupted: bool, waitingReview: bool, end: Option<Event>)

  // ---- Specification

  /** What is wrong with one event on its own. */
  function EventError(e: Event): Option<ProjectionError> {
    if e.kind == ExecutionSucceeded && !(e.meta.result.Some? && e.meta.result.value.Valid()) then Some(BadResultData)
    else if e.kind != Materialized then None
    else if e.meta.call.None? then Some(MissingCall)
    else if !e.meta.call.value.Valid() then Some(InvalidCall)
    else if e.meta.callId.None? then Some(MissingCallId)
    else
      var body := e.meta.call.value.body;
      if body.callId != e.meta.callId.value || e.stepId != Some(body.stepId) then Some(WrongIdentity)
      else if e.tool != Some(body.tool) then Some(WrongTool)
      else if e.inputs != body.inputs then Some(WrongInputs)
      else None
  }

  function FirstEventError(h: seq<Event>): Option<ProjectionError> {
    if h == [] then None
    else if FirstEventError(Front(h)).Some? then FirstEventError(Front(h))
    else EventError(Last(h))
  }

  /** How one event related to a call may contradict it. */
  function BindingError(call: Call, e: Event): Option<ProjectionError> {
    if e.kind == Materialized then None
    else if e.meta.digest.Some? && e.meta.digest.value != call.Digest() then Some(WrongDigest)
    else if e.stepId != Some(call.body.stepId) then Some(WrongStep)
    else None
  }

  function FirstBindingError(call: Call, related: seq<Event>): Option<ProjectionError> {
    if related == [] then None
    else if FirstBindingError(call, Front(related)).Some? then FirstBindingError(call, Front(related))
    else BindingError(call, Last(related))
  }

  function Head<T>(s: seq<T>): Option<T> { if s == [] then None else Some(s[0]) }

  /** One call's lifecycle events, filtered by kind. */
  datatype Lifecycle = Lifecycle(
    required: bool, approvals: seq<Event>, rejections: seq<Event>, starts: seq<Event>, terminals: seq<Event>)
  {
    function Recorded(): Option<Approval> { if approvals == [] then None else approvals[0].meta.approval }
  }

  function LifecycleOf(related: seq<Event>): Lifecycle {
    Lifecycle(OfKinds(related, {ApprovalRequired}) != [], OfKinds(related, {ApprovalRecorded}),
              OfKinds(related, {CallRejected}), OfKinds(related, {ExecutionStarted}), OfKinds(related, EXECUTION_ENDS))
  }

  function StateFrom(call: Call, l: Lifecycle): Result<CallState, ProjectionError> {
    var approval := l.Recorded();
    if |l.approvals| > 1 then Err(ManyApprovals)
    else if l.approvals != [] && approval.None? then Err(MissingApproval)
    else if approval.Some? && !approval.value.BindsTo(call) then Err(UnboundApproval)
    else if |l.rejections| > 1 then Err(ManyRejections)
    else if |l.starts| > 1 then Err(ManyStarts)
    else if |l.terminals| > 1 then Err(ManyTerminals)
    else if l.required && approval.None? && l.rejections != [] then Err(RejectionWithoutApproval)
    else
      var turnedDown := approval.Some? && approval.value.decision == Rejected;
      Ok(CallState(call, l.required, approval, Head(l.approvals), Head(l.rejections), Head(l.starts),
                   if turnedDown then Head(l.rejections) else Head(l.terminals)))
  }

  function StateOf(call: Call, related: seq<Event>): Result<CallState, ProjectionError> {
    if FirstBindingError(call, related).Some? then Err(FirstBindingError(call, related).value)
    else StateFrom(call, LifecycleOf(related))
  }

  /** The states of the calls materialized by `mats`, in order. */
  function StatesOf(mats: seq<Event>, h: seq<Event>): Result<seq<CallState>, ProjectionError> {
    if mats == [] then Ok([])
    else
      var (front, m) := (StatesOf(Front(mats), h), Last(mats));
      if front.Err? then front
      else if m.meta.call.None? then Err(MissingCall)
      else
        match StateOf(m.meta.call.value, Related(h, m.meta.call.value.body.callId))
        case Err(error) => Err(error)
        case Ok(state) => Ok(front.value + [state])
  }

  function PendingApprovals(states: seq<CallState>): seq<CallState> {
    if states == [] then []
    else if Last(states).PendingApproval() then PendingApprovals(Front(states)) + [Last(states)]
    else PendingApprovals(Front(states))
  }

  function PendingExecutions(states: seq<CallState>): seq<CallState> {
    if states == [] then []
    else if Last(states).PendingExecution() then PendingExecutions(Front(states)) + [Last(states)]
    else PendingExecutions(Front(states))
  }

  lemma {:induction false} NoErrorAnywhere(h: seq<Event>)
    requires FirstEventError(h).None?
    ensures forall e :: e in h ==> EventError(e).None?
  {
    if h != [] {
      NoErrorAnywhere(Front(h));
      assert h == Front(h) + [Last(h)];
    }
  }

  lemma NoErrorMeansCalls(h: seq<Event>)
    requires FirstEventError(h).None?
    ensures forall k :: 0 <= k < |Materializations(h)| ==> Materializations(h)[k].meta.call.Some?
  {
    NoErrorAnywhere(h);
    OfKindsMembers(h, {Materialized});
    forall k | 0 <= k < |Materializations(h)| ensures Materializations(h)[k].meta.call.Some? {
      assert Materializations(h)[k] in Materializations(h);
    }
  }

  function Assemble(h: seq<Event>, states: seq<CallState>): Result<RunState, ProjectionError> {
    var ends := OfKinds(h, RUN_ENDS);
    var reviews := OfKinds(h, {ReviewRequested});
    var approvals := PendingApprovals(states);
    var executions := PendingExecutions(states);
    if ends != [] && h != [] && Last(h).eventId != Last(ends).eventId then Err(EventsAfterEnd)
    else if |approvals| + |executions| > 1 then Err(ManyUnresolved)
    else
      Ok(RunState(
           states, Head(approvals), Head(executions),
           exists s :: s in states && s.Interrupted(),
           reviews != [] && (Materializations(h) == [] || (h != [] && Last(h).eventId == Last(reviews).eventId)),
           if ends == [] then None else Some(Last(ends))))
  }

  /** The whole projection. */
  function Project(h: seq<Event>): Result<RunState, ProjectionError> {
    if FirstEventError(h).Some? then Err(FirstEventError(h).value)
    else
      match StatesOf(Materializations(h), h)
      case Err(error) => Err(error)
      case Ok(states) => Assemble(h, states)
  }

  // ---- The loops of the source, proved to compute the specification

  /** The first loop: events are checked one by one and grouped by call id. */
  method GroupEvents(events: seq<Event>)
    returns (error: Option<ProjectionError>, materialized: seq<Event>, byCall: map<Id, seq<Event>>)
    ensures error == FirstEventError(events)
    ensures error.None? ==> materialized == Materializations(events)
    ensures error.None? ==> forall c :: Grouped(byCall, c) == Related(events, c)
  {
    error, materialized, byCall := None, [], map[];
    var i := 0;
    while i < |events|
      invariant 0 <= i <= |events|
      invariant FirstEventError(events[..i]).None?
      invariant materialized == Materializations(events[..i])
      invariant forall c :: Grouped(byCall, c) == Related(events[..i], c)
    {
      var e := events[i];
      assert events[..i + 1] == events[..i] + [e];
      Snoc(events[..i], e);
      if EventError(e).Some? {
        PrefixError(events, i + 1);
        return EventError(e), materialized, byCall;
      }
      if e.kind == Materialized {
        materialized := materialized + [e];
      }
      ghost var before := byCall;
      if e.meta.callId.Some? {
        var c := e.meta.callId.value;
        byCall := byCall[c := Grouped(byCall, c) + [e]];
      }
      forall c ensures Grouped(byCall, c) == Related(events[..i + 1], c) {
        RelatedSnoc(events[..i], e, c);
        assert Grouped(before, c) == Related(events[..i], c);
      }
      i := i + 1;
    }
    assert events[..i] == events;
  }

  function Grouped(byCall: map<Id, seq<Event>>, c: Id): seq<Event> { if c in byCall then byCall[c] else [] }

  lemma StatesNext(mats: seq<Event>, h: seq<Event>, i: nat, states: seq<CallState>)
    requires i < |mats| && StatesOf(mats[..i], h) == Ok(states) && mats[i].meta.call.Some?
    ensures StatesOf(mats[..i + 1], h) ==
              match StateOf(mats[i].meta.call.value, Related(h, mats[i].meta.call.value.body.callId))
              case Err(error) => Err(error)
              case Ok(state) => Ok(states + [state])
  {
    hide StateOf, Related;
    TakeNext(mats, i);
  }

  /** The whole of `_project`. */
  method ProjectEvents(events: seq<Event>) returns (r: Result<RunState, ProjectionError>)
    ensures r == Project(events)
  {
    hide FirstEventError, StatesOf, StateOf, Related, OfKinds, Assemble;
    var error, materialized, byCall := GroupEvents(events);
    if error.Some? { return Err(error.value); }
    NoErrorMeansCalls(events);
    var states: seq<CallState> := [];
    var i := 0;
    NoStates(events);
    while i < |materialized|
      invariant 0 <= i <= |materialized|
      invariant StatesOf(materialized[..i], events) == Ok(states)
    {
      var call := materialized[i].meta.call.value;
      var state := ProjectCall(call, Grouped(byCall, call.body.callId));
      StatesNext(materialized, events, i, states);
      if state.Err? {
        PrefixStateError(materialized, events, i + 1);
        return Err(state.error);
      }
      states := states + [state.value];
      i := i + 1;
    }
    assert materialized[..i] == materialized;
    r := Assemble(events, states);
  }

  lemma NoStates(h: seq<Event>) ensures StatesOf([], h) == Ok([]) {}

  method ProjectCall(call: Call, related: seq<Event>) returns (r: Result<CallState, ProjectionError>)
    ensures r == StateOf(call, related)
  {
    var i := 0;
    while i < |related|
      invariant 0 <= i <= |related|
      invariant FirstBindingError(call, related[..i]).None?
    {
      TakeNext(related, i);
      if BindingError(call, related[i]).Some? {
        PrefixBindingError(call, related, i + 1);
        return Err(BindingError(call, related[i]).value);
      }
      i := i + 1;
    }
    assert related[..i] == related;
    r := StateFrom(call, LifecycleOf(related));
  }

  lemma {:induction false} PrefixError(h: seq<Event>, n: nat)
    requires n <= |h| && FirstEventError(h[..n]).Some?
    ensures FirstEventError(h) == FirstEventError(h[..n])
  {
    if n < |h| { assert Front(h)[..n] == h[..n]; PrefixError(Front(h), n); } else { assert h[..n] == h; }
  }

  lemma {:induction false} PrefixBindingError(call: Call, related: seq<Event>, n: nat)
    requires n <= |related| && FirstBindingError(call, related[..n]).Some?
    ensures FirstBindingError(call, related) == FirstBindingError(call, related[..n])
  {
    if n < |related| {
      assert Front(related)[..n] == related[..n];
      PrefixBindingError(call, Front(related), n);
    } else {
      assert related[..n] == related;
    }
  }

  lemma {:induction false} PrefixStateError(mats: seq<Event>, h: seq<Event>, n: nat)
    requires n <= |mats| && StatesOf(mats[..n], h).Err?
    ensures StatesOf(mats, h) == StatesOf(mats[..n], h)
  {
    if n < |mats| {
      assert Front(mats)[..n] == mats[..n];
      PrefixStateError(Front(mats), h, n);
    } else {
      assert mats[..n] == mats;
    }
  }

  // ---- Status, counts and limits

  datatype Status =
    | New | Active | WaitingApproval | WaitingReview | Interrupted | Stopped | RejectedRun | Failed | Exhausted

  function EndStatus(k: Kind): Status
    requires k in RUN_ENDS
  {
    match k
    case RunStopped => Stopped
    case RunRejected => RejectedRun
    case RunFailed => Failed
    case BudgetExhausted => Exhausted
  }

  function StatusOf(s: RunState): Status
    requires s.end.Some? ==> s.end.value.kind in RUN_ENDS
  {
    if s.end.Some? then EndStatus(s.end.value.kind)
    else if s.interrupted then Interrupted
    else if s.pendingApproval.Some? then WaitingApproval
    else if s.waitingReview then WaitingReview
    else Active
  }

  /** The distinct step ids of the materialized calls. */
  function Steps(h: seq<Event>): set<Id> {
    set m | m in Materializations(h) && m.stepId.Some? :: m.stepId.value
  }

  function Counts(h: seq<Event>): Limits {
    Limits(|OfKinds(h, {DecisionRecorded})|, |Materializations(h)|, |Steps(h)|)
  }

  /** The check before the provider is asked, and the relaxed one before a pending execution. */
  predicate LimitHit(request: Request, h: seq<Event>, pendingExecution: bool) {
    var (counts, limits) := (Counts(h), EffectiveLimits(request));
    if pendingExecution then
      counts.decisions > limits.decisions || counts.toolCalls > limits.toolCalls || counts.steps > limits.steps
    else
      counts.decisions >= limits.decisions || counts.toolCalls >= limits.toolCalls || counts.steps >= limits.steps
  }

  function AddNew(visible: seq<ArtifactId>, ids: seq<ArtifactId>): seq<ArtifactId> {
    if ids == [] then visible
    else
      var before := AddNew(visible, Front(ids));
      if Last(ids) in before then before else before + [Last(ids)]
  }

  /** The artifacts a run may refer to, in the order the loop discovers them. */
  function Visible(request: Request, h: seq<Event>): seq<ArtifactId> {
    if h == [] then request.inputs
    else if Last(h).kind == ExecutionSucceeded then AddNew(Visible(request, Front(h)), Last(h).outputs)
    else Visible(request, Front(h))
  }

  lemma AddNewSnoc(visible: seq<ArtifactId>, ids: seq<ArtifactId>, id: ArtifactId)
    ensures AddNew(visible, ids + [id]) ==
              (var before := AddNew(visible, ids); if id in before then before else before + [id])
  { Snoc(ids, id); }

  /** `_visible_artifacts`. */
  method VisibleArtifacts(request: Request, events: seq<Event>) returns (visible: seq<ArtifactId>)
    ensures visible == Visible(request, events)
  {
    visible := request.inputs;
    var i := 0;
    while i < |events|
      invariant 0 <= i <= |events| && visible == Visible(request, events[..i])
    {
      TakeNext(events, i);
      if events[i].kind == ExecutionSucceeded {
        ghost var before := visible;
        var ids := events[i].outputs;
        var k := 0;
        while k < |ids|
          invariant 0 <= k <= |ids| && visible == AddNew(before, ids[..k])
        {
          assert ids[..k + 1] == ids[..k] + [ids[k]];
          AddNewSnoc(before, ids[..k], ids[k]);
          if ids[k] !in visible { visible := visible + [ids[k]]; }
          k := k + 1;
        }
        assert ids[..k] == ids;
      }
      i := i + 1;
    }
    assert events[..i] == events;
  }

  /** Visible artifacts are the inputs and the outputs of successes, each once. */
  lemma {:induction false} VisibleExactly(request: Request, h: seq<Event>, a: ArtifactId)
    requires Distinct(request.inputs)
    ensures Distinct(Visible(request, h)) && request.inputs <= Visible(request, h)
    ensures a in Visible(request, h) <==>
              a in request.inputs || exists e :: e in h && e.kind == ExecutionSucceeded && a in e.outputs
  {
    if h == [] { return; }
    VisibleExactly(request, Front(h), a);
    assert h == Front(h) + [Last(h)];
    if Last(h).kind == ExecutionSucceeded { AddNewExactly(Visible(request, Front(h)), Last(h).outputs, a); }
  }

  lemma {:induction false} AddNewExactly(visible: seq<ArtifactId>, ids: seq<ArtifactId>, a: ArtifactId)
    requires Distinct(visible)
    ensures Distinct(AddNew(visible, ids)) && visible <= AddNew(visible, ids)
    ensures a in AddNew(visible, ids) <==> a in visible || a in ids
  {
    if ids == [] { return; }
    AddNewExactly(visible, Front(ids), a);
    assert ids == Front(ids) + [Last(ids)];
  }
}
