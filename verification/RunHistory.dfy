/** Which events the run loop may append to which histories
    (src/molly/core/agent_loop.py:253-281, 882-950, 972-1114), over every mix of
    crashes, exceptions and resumes, and what every such history satisfies.

    An append happens either at the next line of the running driver or, after a
    crash, at the line a resumed driver reaches; both depend on the last event. */
module RunHistory {
  import opened RunEvents
  import opened Projection

  /** The active policy: its digest, and whether it wants approval for a tool
      spec (`ToolPolicy.requires_approval`, a function of the exact spec). */
  datatype Policy = Policy(digest: nat, requiresApproval: nat -> bool)

  // ---- The events as the source builds them

  function StartEvent(id: Id, ts: nat, r: Request): Event {
    Event(id, r.runId, RunStarted, None, None, [], [], ts,
          NO_METADATA.(start := Some(StartBinding(r, r, r.policyDigest, r.inputs))))
  }

  function PlainEvent(kind: Kind, id: Id, ts: nat, run: Id, action: Option<Action>): Event {
    Event(id, run, kind, None, None, [], [], ts, NO_METADATA.(action := action))
  }

  function CallEvent(kind: Kind, id: Id, ts: nat, call: Call, outputs: seq<ArtifactId>, extra: Metadata): Event {
    Event(id, call.body.runId, kind, Some(call.body.stepId), Some(call.body.tool), call.body.inputs, outputs, ts,
          extra.(callId := Some(call.body.callId), digest := Some(call.Digest())))
  }

  function RejectedRunEvent(id: Id, ts: nat, call: Call): Event {
    CallEvent(RunRejected, id, ts, call, [], NO_METADATA).(meta := NO_METADATA.(digest := Some(call.Digest())))
  }

  predicate SafeErrorChar(c: char) {
    'A' <= c <= 'Z' || 'a' <= c <= 'z' || '0' <= c <= '9' || c in {'_', '.', '-'}
  }

  predicate SafeErrorShape(s: string) { 1 <= |s| <= 80 && forall i :: 0 <= i < |s| ==> SafeErrorChar(s[i]) }

  /** `_safe_error_type`. */
  function SafeErrorType(name: string): (s: string)
    ensures SafeErrorShape(s)
    ensures SafeErrorShape(name) ==> s == name
  { if SafeErrorShape(name) then name else "ToolError" }

  // ---- Legal appends

  function RequestOf(h: seq<Event>): Request
    requires h != [] && h[0].meta.start.Some?
  { h[0].meta.start.value.request }

  function CurrentCall(h: seq<Event>): Option<Call> {
    var mats := Materializations(h);
    if mats == [] then None else Last(mats).meta.call
  }

  predicate ApprovedBy(e: Event) {
    e.kind == ApprovalRecorded && e.meta.approval.Some? && e.meta.approval.value.decision == Approved
  }

  predicate RejectedBy(e: Event) {
    e.kind == ApprovalRecorded && e.meta.approval.Some? && e.meta.approval.value.decision == Rejected
  }

  /** After these events a driver stands at the top of the loop with nothing pending. */
  predicate AtLoopTop(last: Event) {
    last.kind in {RunStarted, DecisionRecorded, CallRejected} + EXECUTION_ENDS || RejectedBy(last)
  }

  predicate ReadyToExecute(last: Event) { last.kind == Materialized || ApprovedBy(last) }

  predicate FreshEvent(h: seq<Event>, e: Event) { forall x :: x in h ==> x.eventId != e.eventId }

  predicate FreshCall(h: seq<Event>, body: CallBody) {
    forall x :: x in h ==> x.meta.callId != Some(body.callId) && x.stepId != Some(body.stepId)
  }

  predicate Carries(call: Call, a: Action, r: Request) {
    && a.Propose? && call.Valid() && call.body.runId == r.runId && call.body.tool.name == a.toolName
    && call.body.arguments == a.arguments && call.body.inputs == a.inputs && call.reason == a.reason
    && call.body.policyDigest == r.policyDigest && Distinct(a.inputs)
  }

  /** May the loop append `e` when the run's events are `h`? */
  ghost predicate Appendable(policy: Policy, h: seq<Event>, e: Event) {
    if h == [] then
      e.meta.start.Some? && e == StartEvent(e.eventId, e.timestamp, e.meta.start.value.request)
      && e.meta.start.value.request.policyDigest == policy.digest
      && Distinct(e.meta.start.value.request.inputs)
    else
      h[0].meta.start.Some? && FreshEvent(h, e) && e.runId == RequestOf(h).runId &&
      var (last, r, current) := (Last(h), RequestOf(h), CurrentCall(h));
      match e.kind
      case DecisionRecorded =>
        AtLoopTop(last) && !LimitHit(r, h, false) && e.meta.action.Some?
        && e == PlainEvent(DecisionRecorded, e.eventId, e.timestamp, r.runId, e.meta.action)
      case BudgetExhausted =>
        AtLoopTop(last) && LimitHit(r, h, false)
            && e == PlainEvent(BudgetExhausted, e.eventId, e.timestamp, r.runId, None)
      case RunStopped =>
        last.kind == DecisionRecorded && last.meta.action.Some? && last.meta.action.value.Stop?
        && e == PlainEvent(RunStopped, e.eventId, e.timestamp, r.runId, last.meta.action)
      case ReviewRequested =>
        last.kind == DecisionRecorded && last.meta.action.Some? && last.meta.action.value.RequestReview?
        && e == PlainEvent(ReviewRequested, e.eventId, e.timestamp, r.runId, last.meta.action)
      case Materialized =>
        last.kind == DecisionRecorded && last.meta.action.Some? && e.meta.call.Some?
        && Carries(e.meta.call.value, last.meta.action.value, r) && FreshCall(h, e.meta.call.value.body)
        && (forall a :: a in e.inputs ==> a in Visible(r, h))
        && e == CallEvent(Materialized, e.eventId, e.timestamp, e.meta.call.value, [],
           NO_METADATA.(call := e.meta.call))
      case ApprovalRequired =>
        last.kind == Materialized && current.Some? && policy.requiresApproval(current.value.body.specDigest)
        && e == CallEvent(ApprovalRequired, e.eventId, e.timestamp, current.value, [], NO_METADATA)
      case ApprovalRecorded =>
        last.kind == ApprovalRequired && current.Some? && e.meta.approval.Some?
            && e.meta.approval.value.BindsTo(current.value)
        && e == CallEvent(ApprovalRecorded, e.eventId, e.timestamp, current.value, [],
           NO_METADATA.(approval := e.meta.approval))
      case CallRejected =>
        RejectedBy(last) && current.Some?
        && e == CallEvent(CallRejected, e.eventId, e.timestamp, current.value, [], NO_METADATA)
      case RunRejected =>
        last.kind == CallRejected && current.Some? && e == RejectedRunEvent(e.eventId, e.timestamp, current.value)
      case ExecutionStarted =>
        ReadyToExecute(last) && current.Some?
        && e == CallEvent(ExecutionStarted, e.eventId, e.timestamp, current.value, [], NO_METADATA)
      case ExecutionSucceeded =>
        last.kind == ExecutionStarted && current.Some? && e.meta.result.Some? && e.meta.result.value.Valid()
        && Distinct(e.outputs)
        && e == CallEvent(ExecutionSucceeded, e.eventId, e.timestamp, current.value, e.outputs,
           NO_METADATA.(result := e.meta.result))
      case ExecutionFailed =>
        last.kind == ExecutionStarted && current.Some? && e.meta.errorType.Some?
            && SafeErrorShape(e.meta.errorType.value)
        && e == CallEvent(ExecutionFailed, e.eventId, e.timestamp, current.value, [],
           NO_METADATA.(errorType := e.meta.errorType))
      case _ => false
  }

  /** Everything the loop can have written for one run, crashes included. */
  ghost predicate History(policy: Policy, h: seq<Event>) {
    h == [] || (History(policy, Front(h)) && Appendable(policy, Front(h), Last(h)))
  }

  lemma {:induction false} HistoryTail(policy: Policy, h: seq<Event>)
    requires History(policy, h) && h != []
    ensures History(policy, Front(h)) && Appendable(policy, Front(h), Last(h)) && h == Front(h) + [Last(h)]
  {
    hide Appendable;
  }

  // ---- The shape of one call's events

  predicate Bound(call: Call, e: Event) {
    && e.stepId == Some(call.body.stepId) && e.tool == Some(call.body.tool) && e.inputs == call.body.inputs
    && e.meta.callId == Some(call.body.callId) && e.meta.digest == Some(call.Digest())
  }

  predicate PayloadOk(call: Call, e: Event) {
    match e.kind
    case Materialized => e.meta.call == Some(call) && call.Valid() && Distinct(call.body.inputs)
        && e.runId == call.body.runId
    case ApprovalRecorded => e.meta.approval.Some? && e.meta.approval.value.BindsTo(call)
    case ExecutionSucceeded => e.meta.result.Some? && e.meta.result.value.Valid() && Distinct(e.outputs)
    case ExecutionFailed => e.meta.errorType.Some? && SafeErrorShape(e.meta.errorType.value)
    case _ => true
  }

  /** Which event may follow which inside one call. */
  predicate Follows(a: Event, b: Event) {
    match b.kind
    case ApprovalRequired => a.kind == Materialized
    case ApprovalRecorded => a.kind == ApprovalRequired
    case CallRejected => RejectedBy(a)
    case ExecutionStarted => ReadyToExecute(a)
    case ExecutionSucceeded => a.kind == ExecutionStarted
    case ExecutionFailed => a.kind == ExecutionStarted
    case _ => false
  }

  predicate CallShape(rel: seq<Event>) {
    && rel != [] && rel[0].kind == Materialized && rel[0].meta.call.Some?
    && (forall e :: e in rel ==> Bound(rel[0].meta.call.value, e) && PayloadOk(rel[0].meta.call.value, e))
    && (forall i :: 0 < i < |rel| ==> Follows(rel[i - 1], rel[i]))
  }

  /** Nothing of the call is pending or running. */
  predicate Settled(last: Event) { last.kind in EXECUTION_ENDS || last.kind == CallRejected || RejectedBy(last) }

  /** At most five events, each kind at its place. */
  predicate Positions(rel: seq<Event>) {
    && 1 <= |rel| <= 5 && rel[0].kind == Materialized
    && (|rel| > 1 ==> rel[1].kind == ApprovalRequired || rel[1].kind == ExecutionStarted)
    && (|rel| > 2 ==> if rel[1].kind == ApprovalRequired then rel[2].kind == ApprovalRecorded
       && rel[2].meta.approval.Some?
                      else rel[2].kind in EXECUTION_ENDS)
    && (|rel| > 3 ==> rel[1].kind == ApprovalRequired
                      && if RejectedBy(rel[2]) then rel[3].kind == CallRejected
                         else rel[3].kind == ExecutionStarted && ApprovedBy(rel[2]))
    && (|rel| > 4 ==> rel[3].kind == ExecutionStarted && rel[4].kind in EXECUTION_ENDS)
  }

  lemma ShapePositions(rel: seq<Event>)
    requires CallShape(rel)
    ensures Positions(rel)
  {
    if |rel| > 1 { assert Follows(rel[0], rel[1]); }
    if |rel| > 2 { assert Follows(rel[1], rel[2]); assert PayloadOk(rel[0].meta.call.value, rel[2]); }
    if |rel| > 3 { assert Follows(rel[2], rel[3]); }
    if |rel| > 4 { assert Follows(rel[3], rel[4]); }
    if |rel| > 5 && Follows(rel[4], rel[5]) { assert false; }
  }

  const CALL_KINDS: set<Kind> := CALL_FOLLOWUPS + {Materialized}

  /** The history cut into calls: a materialization opens a group, a follow-up extends the last one. */
  function Groups(h: seq<Event>): seq<seq<Event>> {
    if h == [] then []
    else
      var (gs, e) := (Groups(Front(h)), Last(h));
      if e.kind == Materialized then gs + [[e]]
      else if e.kind in CALL_FOLLOWUPS && gs != [] then Front(gs) + [Last(gs) + [e]]
      else gs
  }

  // ---- The invariant of every history

  predicate GroupsKept(gs: seq<seq<Event>>) {
    && (forall k :: 0 <= k < |gs| ==> CallShape(gs[k]))
    && (forall k :: 0 <= k < |gs| - 1 ==> Settled(Last(gs[k])))
  }

  /** Only the last call can be open, and then its last event is the run's last event. */
  predicate LastFits(h: seq<Event>, gs: seq<seq<Event>>) {
    h != [] ==>
      if Last(h).kind in CALL_KINDS then gs != [] && Last(gs) != [] && Last(Last(gs)) == Last(h)
      else gs == [] || (Last(gs) != [] && Settled(Last(Last(gs))))
  }

  ghost predicate RunKept(policy: Policy, h: seq<Event>) {
    h != [] ==>
      && h[0].meta.start.Some? && h[0] == StartEvent(h[0].eventId, h[0].timestamp, RequestOf(h))
      && RequestOf(h).policyDigest == policy.digest && Distinct(RequestOf(h).inputs)
      && OfKinds(h, {RunStarted}) == [h[0]]
      && OfKinds(Front(h), RUN_ENDS + {ReviewRequested}) == []
  }

  // ---- What an append looks like, kind by kind

  /** A follow-up belongs to the current call and comes at its place. */
  lemma {:induction false} FollowupForm(policy: Policy, h: seq<Event>, e: Event)
    requires Appendable(policy, h, e) && e.kind in CALL_FOLLOWUPS
    ensures h != [] && CurrentCall(h).Some? && Bound(CurrentCall(h).value, e) && PayloadOk(CurrentCall(h).value, e)
    ensures Follows(Last(h), e) && Last(h).kind in CALL_KINDS
  {}

  lemma {:induction false} NewCallForm(policy: Policy, h: seq<Event>, e: Event)
    requires Appendable(policy, h, e) && e.kind == Materialized
    ensures h != [] && Last(h).kind == DecisionRecorded && e.meta.call.Some?
    ensures Bound(e.meta.call.value, e) && PayloadOk(e.meta.call.value, e) && FreshCall(h, e.meta.call.value.body)
  {}

  lemma {:induction false} OtherForm(policy: Policy, h: seq<Event>, e: Event)
    requires Appendable(policy, h, e) && e.kind !in CALL_KINDS
    ensures e.meta.callId.None? && EventError(e).None?
    ensures h != [] ==> Last(h).kind !in CALL_KINDS || Settled(Last(h))
    ensures h != [] ==> e.kind != RunStarted
  {}

  lemma {:induction false} AnyForm(policy: Policy, h: seq<Event>, e: Event)
    requires Appendable(policy, h, e)
    ensures h != [] ==> h[0].meta.start.Some? && FreshEvent(h, e) && e.runId == RequestOf(h).runId
    ensures h != [] ==> Last(h).kind !in RUN_ENDS + {ReviewRequested}
    ensures EventError(e).None?
  {}

  // ---- Every append keeps the invariant

  predicate HeadsKept(h: seq<Event>, gs: seq<seq<Event>>) {
    var mats := Materializations(h);
    |mats| == |gs| && forall k :: 0 <= k < |gs| ==> gs[k] != [] && gs[k][0] == mats[k]
  }

  ghost predicate Kept(policy: Policy, h: seq<Event>) {
    GroupsKept(Groups(h)) && HeadsKept(h, Groups(h)) && LastFits(h, Groups(h)) && RunKept(policy, h)
  }

  lemma GroupsSnoc(h: seq<Event>, e: Event)
    ensures var gs := Groups(h);
            Groups(h + [e]) == if e.kind == Materialized then gs + [[e]]
                               else if e.kind in CALL_FOLLOWUPS && gs != [] then Front(gs) + [Last(gs) + [e]] else gs
  { Snoc(h, e); }

  lemma GroupAdded(gs: seq<seq<Event>>, g: seq<Event>)
    requires GroupsKept(gs) && CallShape(g) && (gs != [] ==> Last(gs) != [] && Settled(Last(Last(gs))))
    ensures GroupsKept(gs + [g])
  {
    hide CallShape, Settled;
  }

  lemma HeadAdded(h: seq<Event>, e: Event, gs: seq<seq<Event>>)
    requires HeadsKept(h, gs) && e.kind == Materialized
    ensures HeadsKept(h + [e], gs + [[e]])
  {
    OfKindsSnoc(h, e, {Materialized});
    hide OfKinds;
  }

  lemma LastGroupFits(h: seq<Event>, e: Event, gs: seq<seq<Event>>)
    requires e.kind in CALL_KINDS && gs != [] && Last(gs) != [] && Last(Last(gs)) == e
    ensures LastFits(h + [e], gs)
  {
    Snoc(h, e);
  }

  lemma {:induction false} NewCallStep(h: seq<Event>, e: Event, gs: seq<seq<Event>>)
    requires GroupsKept(gs) && HeadsKept(h, gs) && LastFits(h, gs)
    requires e.kind == Materialized && e.meta.call.Some? && Bound(e.meta.call.value, e)
               && PayloadOk(e.meta.call.value, e)
    requires h != [] && Last(h).kind !in CALL_KINDS
    ensures GroupsKept(gs + [[e]]) && HeadsKept(h + [e], gs + [[e]]) && LastFits(h + [e], gs + [[e]])
  {
    hide GroupsKept, HeadsKept, Bound, Settled;
    assert [e][0] == e && CallShape([e]);
    hide CallShape, PayloadOk;
    GroupAdded(gs, [e]);
    HeadAdded(h, e, gs);
    hide LastFits;
    Snoc(gs, [e]);
    LastGroupFits(h, e, gs + [[e]]);
  }

  lemma ShapeSnoc(rel: seq<Event>, e: Event)
    requires CallShape(rel) && Bound(rel[0].meta.call.value, e) && PayloadOk(rel[0].meta.call.value, e)
               && Follows(Last(rel), e)
    ensures CallShape(rel + [e])
  {
    forall i | 0 < i < |rel + [e]| ensures Follows((rel + [e])[i - 1], (rel + [e])[i]) {
      if i < |rel| { assert Follows(rel[i - 1], rel[i]); }
    }
  }

  /** The last event of a history inside a call ends the group of the current call. */
  lemma OpenGroup(h: seq<Event>, gs: seq<seq<Event>>)
    requires GroupsKept(gs) && HeadsKept(h, gs) && LastFits(h, gs) && h != [] && Last(h).kind in CALL_KINDS
    ensures gs != [] && CallShape(Last(gs)) && Last(Last(gs)) == Last(h)
    ensures Last(gs)[0].meta.call == CurrentCall(h)
  {
    hide OfKinds, Bound, PayloadOk, Follows;
  }

  lemma LastGroupGrown(gs: seq<seq<Event>>, g: seq<Event>)
    requires GroupsKept(gs) && gs != [] && CallShape(g)
    ensures GroupsKept(Front(gs) + [g])
  {
    hide CallShape, Settled;
  }

  lemma SameHeadsKept(h: seq<Event>, e: Event, gs: seq<seq<Event>>, g: seq<Event>)
    requires HeadsKept(h, gs) && e.kind != Materialized && gs != [] && g != [] && g[0] == Last(gs)[0]
    ensures HeadsKept(h + [e], Front(gs) + [g])
  {
    OfKindsSnoc(h, e, {Materialized});
    hide OfKinds;
  }

  lemma {:induction false} FollowupStep(h: seq<Event>, e: Event, gs: seq<seq<Event>>)
    requires GroupsKept(gs) && HeadsKept(h, gs) && LastFits(h, gs)
    requires h != [] && e.kind in CALL_FOLLOWUPS && CurrentCall(h).Some? && Bound(CurrentCall(h).value, e)
    requires PayloadOk(CurrentCall(h).value, e) && Follows(Last(h), e) && Last(h).kind in CALL_KINDS
    ensures gs != []
    ensures var after := Front(gs) + [Last(gs) + [e]];
            GroupsKept(after) && HeadsKept(h + [e], after) && LastFits(h + [e], after)
  {
    hide GroupsKept, HeadsKept, LastFits, PayloadOk, Bound, Follows, CurrentCall;
    OpenGroup(h, gs);
    var g := Last(gs) + [e];
    ShapeSnoc(Last(gs), e);
    hide CallShape;
    LastGroupGrown(gs, g);
    SameHeadsKept(h, e, gs, g);
    Snoc(Last(gs), e);
    Snoc(Front(gs), g);
    LastGroupFits(h, e, Front(gs) + [g]);
  }

  lemma {:induction false} OtherStep(h: seq<Event>, e: Event, gs: seq<seq<Event>>)
    requires GroupsKept(gs) && HeadsKept(h, gs) && LastFits(h, gs)
    requires e.kind !in CALL_KINDS && (h != [] ==> Last(h).kind !in CALL_KINDS || Settled(Last(h)))
    requires h == [] ==> gs == []
    ensures HeadsKept(h + [e], gs) && LastFits(h + [e], gs)
  {
    Snoc(h, e);
    OfKindsSnoc(h, e, {Materialized});
  }

  lemma {:induction false} RunStep(policy: Policy, h: seq<Event>, e: Event)
    requires RunKept(policy, h) && Appendable(policy, h, e)
    ensures RunKept(policy, h + [e])
  {
    Snoc(h, e);
    AnyForm(policy, h, e);
    OfKindsSnoc(h, e, {RunStarted});
    if h == [] {
      assert h + [e] == [e];
    } else {
      assert e.kind != RunStarted by { if e.kind !in CALL_KINDS { OtherForm(policy, h, e); } }
      assert (h + [e])[0] == h[0];
      assert h == Front(h) + [Last(h)];
      OfKindsSnoc(Front(h), Last(h), RUN_ENDS + {ReviewRequested});
    }
  }

  /** The invariant holds after every legal append ... */
  lemma {:induction false} KeptStep(policy: Policy, h: seq<Event>, e: Event)
    requires Kept(policy, h) && Appendable(policy, h, e)
    ensures Kept(policy, h + [e])
  {
    hide Appendable, GroupsKept, HeadsKept, LastFits, RunKept;
    GroupsSnoc(h, e);
    RunStep(policy, h, e);
    if e.kind == Materialized {
      NewCallForm(policy, h, e);
      NewCallStep(h, e, Groups(h));
    } else if e.kind in CALL_FOLLOWUPS {
      FollowupForm(policy, h, e);
      FollowupStep(h, e, Groups(h));
    } else {
      OtherForm(policy, h, e);
      OtherStep(h, e, Groups(h));
    }
  }

  /** ... hence of every history. */
  lemma {:induction false} HistoryKept(policy: Policy, h: seq<Event>)
    requires History(policy, h)
    ensures Kept(policy, h)
  {
    hide History, Appendable;
    if h == [] { return; }
    hide Kept, Groups;
    HistoryTail(policy, h);
    HistoryKept(policy, Front(h));
    KeptStep(policy, Front(h), Last(h));
  }

  /** Prefixes of histories are histories. */
  lemma {:induction false} PrefixHistory(policy: Policy, h: seq<Event>, n: nat)
    requires History(policy, h) && n <= |h|
    ensures History(policy, h[..n])
  {
    if n < |h| {
      assert Front(h)[..n] == h[..n];
      PrefixHistory(policy, Front(h), n);
    } else {
      assert h[..n] == h;
    }
  }

  // ---- Calls have distinct ids, and a group is exactly the events carrying its id

  function CallOf(g: seq<Event>): Option<Id> { if g == [] then None else g[0].meta.callId }

  lemma {:induction false} GroupMembers(h: seq<Event>)
    ensures forall k, e :: 0 <= k < |Groups(h)| && e in Groups(h)[k] ==> e in h
  {
    if h != [] {
      GroupMembers(Front(h));
      assert h == Front(h) + [Last(h)];
      GroupsSnoc(Front(h), Last(h));
    }
  }

  predicate IdsDistinct(gs: seq<seq<Event>>) {
    forall i, k :: 0 <= i < k < |gs| ==>
      gs[i] != [] && gs[k] != [] && gs[i][0].meta.callId != gs[k][0].meta.callId && gs[i][0].stepId != gs[k][0].stepId
  }

  lemma FreshHeads(h: seq<Event>, body: CallBody)
    requires FreshCall(h, body) && HeadsKept(h, Groups(h))
    ensures forall i :: 0 <= i < |Groups(h)| ==>
              Groups(h)[i] != [] && Groups(h)[i][0].meta.callId != Some(body.callId)
                  && Groups(h)[i][0].stepId != Some(body.stepId)
  {
    GroupMembers(h);
    forall i | 0 <= i < |Groups(h)|
      ensures Groups(h)[i] != [] && Groups(h)[i][0].meta.callId != Some(body.callId)
                && Groups(h)[i][0].stepId != Some(body.stepId)
    {
      assert Groups(h)[i][0] in Groups(h)[i];
    }
  }

  lemma DistinctHeads(gs: seq<seq<Event>>, e: Event)
    requires IdsDistinct(gs)
    requires forall i :: 0 <= i < |gs| ==>
               gs[i] != [] && gs[i][0].meta.callId != e.meta.callId && gs[i][0].stepId != e.stepId
    ensures IdsDistinct(gs + [[e]])
  {}

  lemma SameHeads(gs: seq<seq<Event>>, e: Event)
    requires IdsDistinct(gs)
    ensures gs != [] && Last(gs) != [] ==> IdsDistinct(Front(gs) + [Last(gs) + [e]])
  {}

  lemma {:induction false} DistinctStep(policy: Policy, h: seq<Event>, e: Event)
    requires IdsDistinct(Groups(h)) && Kept(policy, h) && Appendable(policy, h, e)
    ensures IdsDistinct(Groups(h + [e]))
  {
    hide Appendable, GroupsKept, LastFits, RunKept, FreshCall, HeadsKept, OfKinds;
    GroupsSnoc(h, e);
    if e.kind == Materialized {
      NewCallForm(policy, h, e);
      FreshHeads(h, e.meta.call.value.body);
      hide Kept, PayloadOk, Groups;
      DistinctHeads(Groups(h), e);
    } else {
      SameHeads(Groups(h), e);
    }
  }

  lemma {:induction false} CallIdsDistinct(policy: Policy, h: seq<Event>)
    requires History(policy, h)
    ensures IdsDistinct(Groups(h))
  {
    hide History, Appendable;
    if h == [] { return; }
    hide Kept, IdsDistinct, Groups;
    HistoryTail(policy, h);
    CallIdsDistinct(policy, Front(h));
    HistoryKept(policy, Front(h));
    DistinctStep(policy, Front(h), Last(h));
  }

  lemma NotRelated(h: seq<Event>, c: Id)
    requires forall x :: x in h ==> x.meta.callId != Some(c)
    ensures Related(h, c) == []
  {
    RelatedMembers(h, c);
    if Related(h, c) != [] { assert Related(h, c)[0] in Related(h, c); }
  }

  /** Each group is what its call id selects from the history. */
  predicate Selects(h: seq<Event>, gs: seq<seq<Event>>) {
    forall k :: 0 <= k < |gs| ==> CallOf(gs[k]).Some? && Related(h, CallOf(gs[k]).value) == gs[k]
  }

  lemma HeadsBound(gs: seq<seq<Event>>, k: nat)
    requires GroupsKept(gs) && k < |gs|
    ensures gs[k] != [] && gs[k][0].meta.call.Some? && CallOf(gs[k]) == Some(gs[k][0].meta.call.value.body.callId)
    ensures forall e :: e in gs[k] ==> e.meta.callId == CallOf(gs[k])
  {
    hide PayloadOk, Follows;
    assert CallShape(gs[k]) && gs[k][0] in gs[k];
  }

  lemma KeptGroups(policy: Policy, h: seq<Event>)
    requires Kept(policy, h)
    ensures GroupsKept(Groups(h))
  {}

  lemma UnseenId(h: seq<Event>, body: CallBody)
    requires FreshCall(h, body)
    ensures Related(h, body.callId) == []
  {
    NotRelated(h, body.callId);
  }

  lemma OtherSelects(h: seq<Event>, gs: seq<seq<Event>>, e: Event)
    requires Selects(h, gs) && e.meta.callId.None?
    ensures Selects(h + [e], gs)
  {
    hide Related, CallOf;
    forall k | 0 <= k < |gs| ensures Related(h + [e], CallOf(gs[k]).value) == gs[k] {
      RelatedSnoc(h, e, CallOf(gs[k]).value);
    }
  }

  lemma NewCallSelects(h: seq<Event>, gs: seq<seq<Event>>, e: Event, c: Id)
    requires Selects(h, gs) && e.meta.callId == Some(c) && Related(h, c) == []
    ensures Selects(h + [e], gs + [[e]])
  {
    hide Related;
    forall k | 0 <= k < |gs| ensures Related(h + [e], CallOf(gs[k]).value) == gs[k] {
      RelatedSnoc(h, e, CallOf(gs[k]).value);
    }
    RelatedSnoc(h, e, c);
  }

  lemma FollowupSelects(h: seq<Event>, gs: seq<seq<Event>>, e: Event)
    requires Selects(h, gs) && gs != [] && Last(gs) != [] && IdsDistinct(gs) && e.meta.callId == CallOf(Last(gs))
    ensures Selects(h + [e], Front(gs) + [Last(gs) + [e]])
  {
    hide Related;
    forall k | 0 <= k < |gs|
      ensures Related(h + [e], CallOf(gs[k]).value) == if k == |gs| - 1 then gs[k] + [e] else gs[k]
    {
      RelatedSnoc(h, e, CallOf(gs[k]).value);
    }
  }

  /** A follow-up carries the id of the last call. */
  lemma FollowsLastCall(policy: Policy, h: seq<Event>, e: Event)
    requires Kept(policy, h) && Kept(policy, h + [e]) && Appendable(policy, h, e) && e.kind in CALL_FOLLOWUPS
    ensures var gs := Groups(h); gs != [] && Last(gs) != [] && e.meta.callId == CallOf(Last(gs))
  {
    FollowupForm(policy, h, e);
    KeptGroups(policy, h);
    KeptGroups(policy, h + [e]);
    GroupsSnoc(h, e);
    hide Appendable, Groups, GroupsKept, HeadsKept, RunKept, PayloadOk, Follows;
    var (gs, after) := (Groups(h), Groups(h + [e]));
    HeadsBound(gs, |gs| - 1);
    HeadsBound(after, |after| - 1);
    assert Last(after) == Last(gs) + [e] && e in Last(after);
  }

  lemma {:induction false} SelectsStep(policy: Policy, h: seq<Event>, e: Event)
    requires Kept(policy, h) && Kept(policy, h + [e]) && Appendable(policy, h, e)
    requires Selects(h, Groups(h)) && IdsDistinct(Groups(h))
    ensures Selects(h + [e], Groups(h + [e]))
  {
    hide Kept, Appendable, Selects, IdsDistinct, Groups, PayloadOk, Follows, FreshCall, CallOf;
    GroupsSnoc(h, e);
    if e.kind == Materialized {
      NewCallForm(policy, h, e);
      UnseenId(h, e.meta.call.value.body);
      NewCallSelects(h, Groups(h), e, e.meta.call.value.body.callId);
    } else if e.kind in CALL_FOLLOWUPS {
      FollowsLastCall(policy, h, e);
      FollowupSelects(h, Groups(h), e);
    } else {
      OtherForm(policy, h, e);
      OtherSelects(h, Groups(h), e);
    }
  }

  lemma {:induction false} GroupsSelected(policy: Policy, h: seq<Event>)
    requires History(policy, h)
    ensures Selects(h, Groups(h))
  {
    hide History, Appendable;
    if h == [] { return; }
    hide Kept, Selects, IdsDistinct, Groups;
    HistoryTail(policy, h);
    GroupsSelected(policy, Front(h));
    HistoryKept(policy, Front(h));
    HistoryKept(policy, h);
    CallIdsDistinct(policy, Front(h));
    SelectsStep(policy, Front(h), Last(h));
  }

  lemma GroupsGrow(h: seq<Event>, e: Event)
    requires e.kind in CALL_FOLLOWUPS ==> Groups(h) != []
    ensures e.kind in CALL_KINDS ==> Groups(h + [e]) != [] && e in Last(Groups(h + [e]))
    ensures forall k, x :: 0 <= k < |Groups(h)| && x in Groups(h)[k] ==>
              k < |Groups(h + [e])| && x in Groups(h + [e])[k]
  {
    GroupsSnoc(h, e);
  }

  /** Every call event belongs to the group of its call. */
  lemma {:induction false} EventHasGroup(policy: Policy, h: seq<Event>, e: Event) returns (k: nat)
    requires History(policy, h) && e in h && e.kind in CALL_KINDS
    ensures k < |Groups(h)| && e in Groups(h)[k]
  {
    hide History, Appendable, RunKept, GroupsKept, HeadsKept, Groups;
    HistoryTail(policy, h);
    var (f, x) := (Front(h), Last(h));
    HistoryKept(policy, f);
    if x.kind in CALL_FOLLOWUPS { FollowupForm(policy, f, x); }
    GroupsGrow(f, x);
    if e == x {
      k := |Groups(h)| - 1;
    } else {
      k := EventHasGroup(policy, f, e);
    }
  }

  lemma {:induction false} CallIdsMarkCallEvents(policy: Policy, h: seq<Event>, e: Event)
    requires History(policy, h) && e in h
    ensures e.meta.callId.Some? <==> e.kind in CALL_KINDS
  {
    hide History, Appendable;
    HistoryTail(policy, h);
    if e == Last(h) {
      var f := Front(h);
      if e.kind == Materialized { NewCallForm(policy, f, e); }
      else if e.kind in CALL_FOLLOWUPS { FollowupForm(policy, f, e); }
      else { OtherForm(policy, f, e); }
    } else {
      CallIdsMarkCallEvents(policy, Front(h), e);
    }
  }
}
