/** The events of src/molly/core/agent_loop.py, and the values they carry.
    Identifiers, artifact ids and timestamps are opaque numbers.  A digest is
    represented by the canonical body it is taken over, which makes it injective. */
module RunEvents {

  datatype Option<+T> = None | Some(value: T)

  datatype Result<+T, +E> = Ok(value: T) | Err(error: E)

  type Id = nat
  type ArtifactId = nat

  datatype Tool = Tool(name: string, version: string)

  /** The part of a materialized call that its digest covers. */
  datatype CallBody = CallBody(
    runId: Id, stepId: Id, callId: Id, tool: Tool, specDigest: nat, policyDigest: nat,
    arguments: nat, inputs: seq<ArtifactId>, createdAt: nat)

  datatype CallDigest = CallDigest(body: CallBody)

  /** A persisted call: the recorded digest may disagree with the body, and the
      reason summary is deliberately outside the digest. */
  datatype Call = Call(body: CallBody, recorded: CallDigest, reason: string) {
    function Digest(): CallDigest { CallDigest(body) }
    predicate Valid() { recorded == Digest() }
  }

  datatype Decision = Approved | Rejected

  datatype Approval = Approval(approvalId: Id, callDigest: CallDigest, decision: Decision, reviewer: nat,
      createdAt: nat) {
    predicate BindsTo(call: Call) { callDigest == call.Digest() }
  }

  const MAX_TOOL_RESULT_DATA_BYTES: nat := 64 * 1024

  /** Durable result data: its canonical bytes and the bytes its recorded digest was taken over. */
  datatype Observation = Observation(data: string, recorded: string) {
    predicate Valid() { |data| <= MAX_TOOL_RESULT_DATA_BYTES && recorded == data }
  }

  datatype Limits = Limits(decisions: nat, toolCalls: nat, steps: nat)

  const SERVER_LIMITS := Limits(12, 8, 8)

  /** `legacy` is the budget that only old persisted requests carry. */
  datatype Request = Request(runId: Id, goal: string, inputs: seq<ArtifactId>, policyDigest: nat,
      legacy: Option<Limits>)

  /** What RUN_STARTED records; the request digest is the request it was taken over. */
  datatype StartBinding = StartBinding(request: Request, requestDigest: Request, policyDigest: nat,
      initialInputs: seq<ArtifactId>) {
    predicate Consistent(runId: Id) {
      requestDigest == request && request.runId == runId && initialInputs == request.inputs
      && policyDigest == request.policyDigest
    }
  }

  function Min(a: nat, b: nat): nat { if a <= b then a else b }

  function EffectiveLimits(request: Request): (limits: Limits)
    ensures limits.decisions <= SERVER_LIMITS.decisions && limits.toolCalls <= SERVER_LIMITS.toolCalls
            && limits.steps <= SERVER_LIMITS.steps
    ensures request.legacy.Some? ==>
              limits.decisions <= request.legacy.value.decisions && limits.toolCalls <= request.legacy.value.toolCalls
              && limits.steps <= request.legacy.value.steps
    ensures request.legacy.None? ==> limits == Limits(12, 8, 8)
    ensures limits.decisions == SERVER_LIMITS.decisions
            || (request.legacy.Some? && limits.decisions == request.legacy.value.decisions)
    ensures limits.toolCalls == SERVER_LIMITS.toolCalls
            || (request.legacy.Some? && limits.toolCalls == request.legacy.value.toolCalls)
    ensures limits.steps == SERVER_LIMITS.steps || (request.legacy.Some? && limits.steps == request.legacy.value.steps)
  {
    match request.legacy
    case None => SERVER_LIMITS
    case Some(l) => Limits(Min(SERVER_LIMITS.decisions, l.decisions), Min(SERVER_LIMITS.toolCalls, l.toolCalls),
                           Min(SERVER_LIMITS.steps, l.steps))
  }

  datatype Action =
    | Stop(why: string)
    | RequestReview(note: string)
    | Propose(toolName: string, arguments: nat, inputs: seq<ArtifactId>, reason: string)

  datatype Kind =
    | RunStarted | DecisionRecorded | Materialized | ApprovalRequired | ApprovalRecorded | CallRejected
    | ExecutionStarted | ExecutionSucceeded | ExecutionFailed | ReviewRequested
    | RunStopped | RunRejected | RunFailed | BudgetExhausted | IntentFrozen

  datatype Metadata = Metadata(
    callId: Option<Id>, digest: Option<CallDigest>, call: Option<Call>, approval: Option<Approval>,
    result: Option<Observation>, errorType: Option<string>, start: Option<StartBinding>, action: Option<Action>)

  const NO_METADATA := Metadata(None, None, None, None, None, None, None, None)

  datatype Event = Event(
    eventId: Id, runId: Id, kind: Kind, stepId: Option<Id>, tool: Option<Tool>,
    inputs: seq<ArtifactId>, outputs: seq<ArtifactId>, timestamp: nat, meta: Metadata)

  const RUN_ENDS: set<Kind> := {RunStopped, RunRejected, RunFailed, BudgetExhausted}

  const EXECUTION_ENDS: set<Kind> := {ExecutionSucceeded, ExecutionFailed}

  /** The kinds that refer to an already materialized call. */
  const CALL_FOLLOWUPS: set<Kind> :=
    {ApprovalRequired, ApprovalRecorded, CallRejected, ExecutionStarted, ExecutionSucceeded, ExecutionFailed}

  predicate Distinct<T(==)>(s: seq<T>) { forall i, j :: 0 <= i < j < |s| ==> s[i] != s[j] }

  // ---- Views of a run's events, all defined by the last event.

  function Last<T>(s: seq<T>): T requires s != [] { s[|s| - 1] }

  function Front<T>(s: seq<T>): seq<T> requires s != [] { s[..|s| - 1] }

  /** The events of some kinds, in order. */
  function OfKinds(h: seq<Event>, ks: set<Kind>): seq<Event> {
    if h == [] then [] else if Last(h).kind in ks then OfKinds(Front(h), ks) + [Last(h)] else OfKinds(Front(h), ks)
  }

  /** The events that carry one call id, in order. */
  function Related(h: seq<Event>, c: Id): seq<Event> {
    if h == [] then []
    else if Last(h).meta.callId == Some(c) then Related(Front(h), c) + [Last(h)] else Related(Front(h), c)
  }

  /** The materialization events, in order. */
  function Materializations(h: seq<Event>): seq<Event> { OfKinds(h, {Materialized}) }

  /** The events of one run inside the shared ledger. */
  function ForRun(log: seq<Event>, run: Id): seq<Event> {
    if log == [] then []
    else if Last(log).runId == run then ForRun(Front(log), run) + [Last(log)] else ForRun(Front(log), run)
  }

  lemma Snoc<T>(s: seq<T>, x: T)
    ensures Front(s + [x]) == s && Last(s + [x]) == x
  {
    assert (s + [x])[..|s|] == s;
  }

  /** A prefix one longer, as the views defined by the last element see it. */
  lemma TakeNext<T>(s: seq<T>, n: nat)
    requires n < |s|
    ensures s[..n + 1] != [] && Front(s[..n + 1]) == s[..n] && Last(s[..n + 1]) == s[n]
  {
    assert s[..n + 1][..n] == s[..n];
  }

  lemma OfKindsSnoc(h: seq<Event>, e: Event, ks: set<Kind>)
    ensures OfKinds(h + [e], ks) == (if e.kind in ks then OfKinds(h, ks) + [e] else OfKinds(h, ks))
  { Snoc(h, e); }

  lemma RelatedSnoc(h: seq<Event>, e: Event, c: Id)
    ensures Related(h + [e], c) == (if e.meta.callId == Some(c) then Related(h, c) + [e] else Related(h, c))
  { Snoc(h, e); }

  lemma ForRunSnoc(log: seq<Event>, e: Event, run: Id)
    ensures ForRun(log + [e], run) == (if e.runId == run then ForRun(log, run) + [e] else ForRun(log, run))
  { Snoc(log, e); }

  lemma {:induction false} OfKindsMembers(h: seq<Event>, ks: set<Kind>)
    ensures forall e :: e in OfKinds(h, ks) <==> e in h && e.kind in ks
  {
    if h != [] { OfKindsMembers(Front(h), ks); assert h == Front(h) + [Last(h)]; }
  }

  lemma {:induction false} RelatedMembers(h: seq<Event>, c: Id)
    ensures forall e :: e in Related(h, c) <==> e in h && e.meta.callId == Some(c)
  {
    if h != [] { RelatedMembers(Front(h), c); assert h == Front(h) + [Last(h)]; }
  }

  lemma {:induction false} ForRunMembers(log: seq<Event>, run: Id)
    ensures forall e :: e in ForRun(log, run) <==> e in log && e.runId == run
  {
    if log != [] { ForRunMembers(Front(log), run); assert log == Front(log) + [Last(log)]; }
  }
}
