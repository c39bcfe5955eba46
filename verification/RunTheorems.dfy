/** What holds of every history the run loop can write: the projection never
    fails, the inspector derives the same state, calls run at most once and only
    when approved, and the budget bounds everything. */
module RunTheorems {
  import opened RunEvents
  import opened Projection
  import opened Inspection
  import opened RunHistory

  // ---- One call

  lemma {:induction false} NoneOfKinds(rel: seq<Event>, ks: set<Kind>)
    requires forall i :: 0 <= i < |rel| ==> rel[i].kind !in ks
    ensures OfKinds(rel, ks) == []
  {
    if rel != [] { NoneOfKinds(Front(rel), ks); }
  }

  lemma {:induction false} OneOfKinds(rel: seq<Event>, ks: set<Kind>, j: nat)
    requires j < |rel| && rel[j].kind in ks
    requires forall i :: 0 <= i < |rel| && i != j ==> rel[i].kind !in ks
    ensures OfKinds(rel, ks) == [rel[j]]
  {
    if j == |rel| - 1 { NoneOfKinds(Front(rel), ks); } else { OneOfKinds(Front(rel), ks, j); }
  }

  /** The lists of lifecycle events a projection filters out of one call, read off the positions. */
  function Expected(rel: seq<Event>): Lifecycle {
    var asked := |rel| > 1 && rel[1].kind == ApprovalRequired;
    var decided := |rel| > 2 && asked;
    var refused := |rel| > 3 && rel[3].kind == CallRejected;
    Lifecycle(
      asked,
      if decided then [rel[2]] else [],
      if refused then [rel[3]] else [],
      if asked then (if |rel| > 3 && !refused then [rel[3]] else []) else if |rel| > 1 then [rel[1]] else [],
      if asked then (if |rel| > 4 then [rel[4]] else []) else if |rel| > 2 then [rel[2]] else [])
  }

  /** The events of one call from `from` on: from 0 as the loop reads them, from 1 as the inspector does. */
  lemma KindAt(rel: seq<Event>, ks: set<Kind>, at: int, present: bool)
    requires present ==> 0 <= at < |rel| && rel[at].kind in ks
    requires forall i :: 0 <= i < |rel| && (present ==> i != at) ==> rel[i].kind !in ks
    ensures OfKinds(rel, ks) == if present then [rel[at]] else []
  {
    if present { OneOfKinds(rel, ks, at); } else { NoneOfKinds(rel, ks); }
  }

  lemma {:induction false} LifecycleOfShape(rel: seq<Event>)
    requires Positions(rel)
    ensures LifecycleOf(rel) == Expected(rel)
  {
    hide OfKinds;
    var asked := |rel| > 1 && rel[1].kind == ApprovalRequired;
    var refused := |rel| > 3 && rel[3].kind == CallRejected;
    KindAt(rel, {ApprovalRequired}, 1, asked);
    KindAt(rel, {ApprovalRecorded}, 2, |rel| > 2 && asked);
    KindAt(rel, {CallRejected}, 3, refused);
    KindAt(rel, {ExecutionStarted}, if asked then 3 else 1, if asked then |rel| > 3 && !refused else |rel| > 1);
    KindAt(rel, EXECUTION_ENDS, if asked then 4 else 2, if asked then |rel| > 4 else |rel| > 2);
  }

  lemma {:induction false} NoBindingError(call: Call, rel: seq<Event>)
    requires forall e :: e in rel ==> Bound(call, e)
    ensures FirstBindingError(call, rel).None?
  {
    if rel != [] {
      assert Last(rel) in rel;
      NoBindingError(call, Front(rel));
    }
  }

  /** The approval under which a call that is ready may run. */
  function RecordedIn(last: Event): Option<Approval> { if ApprovedBy(last) then last.meta.approval else None }

  /** The loop's view of a call depends on its last event alone. */
  lemma {:induction false} StateOfShape(rel: seq<Event>)
    requires CallShape(rel)
    ensures StateOf(rel[0].meta.call.value, rel).Ok?
    ensures var s := StateOf(rel[0].meta.call.value, rel).value;
            && s.call == rel[0].meta.call.value
            && (s.Interrupted() <==> Last(rel).kind == ExecutionStarted)
            && (s.PendingApproval() <==> Last(rel).kind == ApprovalRequired)
            && (s.PendingExecution() <==> ReadyToExecute(Last(rel)))
            && s.approval == Expected(rel).Recorded()
            && (ReadyToExecute(Last(rel)) ==> s.approval == RecordedIn(Last(rel)))
  {
    var call := rel[0].meta.call.value;
    NoBindingError(call, rel);
    ShapePositions(rel);
    LifecycleOfShape(rel);
    StateFromShape(rel);
  }

  lemma {:induction false} StateFromShape(rel: seq<Event>)
    requires CallShape(rel)
    ensures StateFrom(rel[0].meta.call.value, Expected(rel)).Ok?
    ensures var s := StateFrom(rel[0].meta.call.value, Expected(rel)).value;
            && s.call == rel[0].meta.call.value
            && (s.Interrupted() <==> Last(rel).kind == ExecutionStarted)
            && (s.PendingApproval() <==> Last(rel).kind == ApprovalRequired)
            && (s.PendingExecution() <==> ReadyToExecute(Last(rel)))
            && s.approval == Expected(rel).Recorded()
            && (ReadyToExecute(Last(rel)) ==> s.approval == RecordedIn(Last(rel)))
  {
    ShapePositions(rel);
    if |rel| > 2 { assert PayloadOk(rel[0].meta.call.value, rel[2]); }
    hide CallShape, Bound, Follows;
  }

  lemma {:induction false} OfKindsNested(rel: seq<Event>, outer: set<Kind>, inner: set<Kind>)
    requires inner <= outer
    ensures OfKinds(OfKinds(rel, outer), inner) == OfKinds(rel, inner)
  {
    if rel != [] {
      OfKindsNested(Front(rel), outer, inner);
      if Last(rel).kind in outer { OfKindsSnoc(OfKinds(Front(rel), outer), Last(rel), inner); }
    }
  }

  /** The inspector drops the materialization before it filters; the lifecycle is the same. */
  lemma FollowupLifecycle(rel: seq<Event>)
    ensures LifecycleOf(OfKinds(rel, CALL_FOLLOWUPS)) == LifecycleOf(rel)
  {
    OfKindsNested(rel, CALL_FOLLOWUPS, {ApprovalRequired});
    OfKindsNested(rel, CALL_FOLLOWUPS, {ApprovalRecorded});
    OfKindsNested(rel, CALL_FOLLOWUPS, {CallRejected});
    OfKindsNested(rel, CALL_FOLLOWUPS, {ExecutionStarted});
    OfKindsNested(rel, CALL_FOLLOWUPS, EXECUTION_ENDS);
  }

  /** A recorded error type the inspector accepts. */
  predicate NamedFailure(e: Event) {
    e.kind == ExecutionFailed ==>
      e.meta.errorType.Some? && e.meta.errorType.value != [] && AlphaNumeric(e.meta.errorType.value[0])
  }

  lemma SafeErrorIsIdentifier(s: string)
    requires SafeErrorShape(s)
    ensures ValidIdentifier(s) <==> AlphaNumeric(s[0])
  {}

  /** A decision about the call is among its events. */
  predicate DecidedAs(rel: seq<Event>, decision: Decision) {
    exists e :: e in rel && e.kind == ApprovalRecorded && e.meta.approval.Some?
                && e.meta.approval.value.decision == decision
  }

  predicate WasAsked(rel: seq<Event>) { exists e :: e in rel && e.kind == ApprovalRequired }

  /** What the inspector's view of a call says in terms of the call's events, kind by kind. */
  predicate ViewMatches(v: CallView, rel: seq<Event>)
    requires rel != []
  {
    var last := Last(rel);
    && rel[0].meta.call == Some(v.call) && v.eventIds == EventIds(rel)
    && (v.execution == CallSucceeded <==> last.kind == ExecutionSucceeded)
    && (v.execution == CallFailed <==> last.kind == ExecutionFailed)
    && (v.execution == CallInterrupted <==> last.kind == ExecutionStarted)
    && (v.execution == CallRejectedStatus <==> DecidedAs(rel, Rejected))
    && (v.execution == Pending <==> last.kind == ApprovalRequired || ReadyToExecute(last))
    && (v.required <==> WasAsked(rel))
    && (v.approval == NotNeeded <==> !WasAsked(rel)) && (v.approval == Required <==> last.kind == ApprovalRequired)
    && (v.approval == Decided(Approved) <==> DecidedAs(rel, Approved))
    && (v.approval == Decided(Rejected) <==> DecidedAs(rel, Rejected))
    && (v.AwaitsApproval() <==> last.kind == ApprovalRequired)
    && v.outputs == (if last.kind == ExecutionSucceeded then last.outputs else [])
    && v.result == (if last.kind == ExecutionSucceeded then last.meta.result else None)
    && v.failure == (if last.kind == ExecutionFailed then last.meta.errorType else None)
  }

  /** Request and decision stand at fixed places. */
  lemma WhereDecided(rel: seq<Event>)
    requires Positions(rel)
    ensures WasAsked(rel) <==> |rel| > 1 && rel[1].kind == ApprovalRequired
    ensures forall d :: DecidedAs(rel, d) <==>
              |rel| > 2 && WasAsked(rel) && rel[2].meta.approval.value.decision == d
  {
    if |rel| > 1 { assert rel[1] in rel; }
    if |rel| > 2 { assert rel[2] in rel; }
  }

  lemma {:induction false} ViewFromShape(rel: seq<Event>, ids: seq<Id>)
    requires CallShape(rel) && ids == EventIds(rel)
    ensures var v := ViewFrom(rel[0].meta.call.value, Expected(rel), ids);
            && (v.Ok? <==> NamedFailure(Last(rel)))
            && (v.Ok? ==> ViewMatches(v.value, rel))
  {
    hide EventIds, ViewMatches, CallShape, ViewFrom, NamedFailure, Expected;
    ShapePositions(rel);
    WhereDecided(rel);
    hide WasAsked, DecidedAs;
    if |rel| <= 2 { ViewFromShort(rel, ids); }
    else if WasAsked(rel) { ViewFromAsked(rel, ids); }
    else { ViewFromUnasked(rel, ids); }
  }

  lemma {:induction false} ViewFromShort(rel: seq<Event>, ids: seq<Id>)
    requires CallShape(rel) && Positions(rel) && |rel| <= 2 && ids == EventIds(rel)
    requires WasAsked(rel) <==> |rel| > 1 && rel[1].kind == ApprovalRequired
    requires forall d :: !DecidedAs(rel, d)
    ensures var v := ViewFrom(rel[0].meta.call.value, Expected(rel), ids); v.Ok? && ViewMatches(v.value, rel)
    ensures NamedFailure(Last(rel))
  {
    hide EventIds, Bound, WasAsked, DecidedAs, PayloadOk;
  }

  lemma {:induction false} ViewFromUnasked(rel: seq<Event>, ids: seq<Id>)
    requires CallShape(rel) && Positions(rel) && |rel| > 2 && ids == EventIds(rel)
    requires !WasAsked(rel) && rel[1].kind != ApprovalRequired && forall d :: !DecidedAs(rel, d)
    ensures var v := ViewFrom(rel[0].meta.call.value, Expected(rel), ids);
            && (v.Ok? <==> NamedFailure(Last(rel)))
            && (v.Ok? ==> ViewMatches(v.value, rel))
  {
    assert PayloadOk(rel[0].meta.call.value, Last(rel));
    hide CallShape, Bound, Follows, SafeErrorShape, ValidIdentifier, AlphaNumeric, EventIds, WasAsked, DecidedAs;
    if Last(rel).kind == ExecutionFailed { SafeErrorIsIdentifier(Last(rel).meta.errorType.value); }
  }

  lemma {:induction false} ViewFromAsked(rel: seq<Event>, ids: seq<Id>)
    requires CallShape(rel) && Positions(rel) && |rel| > 2 && ids == EventIds(rel)
    requires WasAsked(rel) && rel[1].kind == ApprovalRequired
    requires forall d :: DecidedAs(rel, d) <==> rel[2].meta.approval.value.decision == d
    ensures var v := ViewFrom(rel[0].meta.call.value, Expected(rel), ids);
            && (v.Ok? <==> NamedFailure(Last(rel)))
            && (v.Ok? ==> ViewMatches(v.value, rel))
  {
    assert PayloadOk(rel[0].meta.call.value, rel[2]) && PayloadOk(rel[0].meta.call.value, Last(rel));
    hide CallShape, Bound, Follows, SafeErrorShape, ValidIdentifier, AlphaNumeric, EventIds, WasAsked, DecidedAs;
    if Last(rel).kind == ExecutionFailed { SafeErrorIsIdentifier(Last(rel).meta.errorType.value); }
  }

  /** All events of a call but the first follow the first. */
  lemma {:induction false} FollowupsAreRest(rel: seq<Event>)
    requires rel != [] && rel[0].kind == Materialized
    requires forall i :: 0 < i < |rel| ==> rel[i].kind in CALL_FOLLOWUPS
    ensures OfKinds(rel, CALL_FOLLOWUPS) == rel[1..]
  {
    if |rel| > 1 {
      FollowupsAreRest(Front(rel));
      assert rel[1..] == Front(rel)[1..] + [Last(rel)];
    } else {
      assert OfKinds(Front(rel), CALL_FOLLOWUPS) == [];
    }
  }

  lemma FollowupIds(rel: seq<Event>)
    requires CallShape(rel)
    ensures [rel[0].eventId] + EventIds(OfKinds(rel, CALL_FOLLOWUPS)) == EventIds(rel)
  {
    hide OfKinds, PayloadOk, Bound;
    FollowupsAreRest(rel) by {
      forall i | 0 < i < |rel| ensures rel[i].kind in CALL_FOLLOWUPS { assert Follows(rel[i - 1], rel[i]); }
    }
  }

  lemma {:induction false} ViewOfShape(rel: seq<Event>)
    requires CallShape(rel)
    ensures var v := ViewOf(rel[0], rel[0].meta.call.value, OfKinds(rel, CALL_FOLLOWUPS));
            && (v.Ok? <==> NamedFailure(Last(rel)))
            && (v.Ok? ==> ViewMatches(v.value, rel))
  {
    var followups := OfKinds(rel, CALL_FOLLOWUPS);
    OfKindsMembers(rel, CALL_FOLLOWUPS);
    assert !FollowupError(rel[0].meta.call.value, followups);
    hide ViewMatches, EventIds, OfKinds, FollowupError, NamedFailure, ViewFrom, LifecycleOf, Expected;
    FollowupIds(rel);
    ShapePositions(rel);
    hide CallShape, Positions;
    LifecycleOfShape(rel);
    FollowupLifecycle(rel);
    ViewFromShape(rel, EventIds(rel));
  }

  // ---- All calls of a run

  predicate StateMatches(s: CallState, rel: seq<Event>)
    requires rel != []
  {
    && rel[0].meta.call == Some(s.call)
    && (s.Interrupted() <==> Last(rel).kind == ExecutionStarted)
    && (s.PendingApproval() <==> Last(rel).kind == ApprovalRequired)
    && (s.PendingExecution() <==> ReadyToExecute(Last(rel)))
    && (ReadyToExecute(Last(rel)) ==> s.approval == RecordedIn(Last(rel)))
  }

  lemma {:induction false} NoEventError(policy: Policy, h: seq<Event>)
    requires History(policy, h)
    ensures FirstEventError(h).None?
  {
    if h != [] {
      NoEventError(policy, Front(h));
      AnyForm(policy, Front(h), Last(h));
    }
  }

  lemma GroupAt(policy: Policy, h: seq<Event>, k: nat)
    requires History(policy, h) && k < |Groups(h)|
    ensures |Materializations(h)| == |Groups(h)| && CallShape(Groups(h)[k]) && Materializations(h)[k] == Groups(h)[k][0]
    ensures Groups(h)[k][0].meta.callId == Some(Groups(h)[k][0].meta.call.value.body.callId)
    ensures Related(h, Groups(h)[k][0].meta.call.value.body.callId) == Groups(h)[k]
  {
    HistoryKept(policy, h);
    GroupsSelected(policy, h);
    assert CallShape(Groups(h)[k]);
    HeadsBound(Groups(h), k);
  }

  /** The call materialized by `mat` has a state, and it says where the group `g` stands. */
  predicate HasState(h: seq<Event>, mat: Event, g: seq<Event>) {
    && mat.meta.call.Some? && g != []
    && StateOf(mat.meta.call.value, Related(h, mat.meta.call.value.body.callId)).Ok?
    && StateMatches(StateOf(mat.meta.call.value, Related(h, mat.meta.call.value.body.callId)).value, g)
  }

  lemma HistoryHasState(policy: Policy, h: seq<Event>, k: nat)
    requires History(policy, h) && k < |Groups(h)|
    ensures |Materializations(h)| == |Groups(h)| && HasState(h, Materializations(h)[k], Groups(h)[k])
  {
    GroupAt(policy, h, k);
    StateOfShape(Groups(h)[k]);
  }

  /** The call states of the first `n` calls. */
  lemma {:induction false} StatesMatch(h: seq<Event>, mats: seq<Event>, gs: seq<seq<Event>>, n: nat)
    returns (states: seq<CallState>)
    requires n <= |mats| == |gs| && forall k :: 0 <= k < |gs| ==> HasState(h, mats[k], gs[k])
    ensures StatesOf(mats[..n], h) == Ok(states) && |states| == n
    ensures forall k :: 0 <= k < n ==> gs[k] != [] && StateMatches(states[k], gs[k])
  {
    hide StateOf, StateMatches;
    if n == 0 { return []; }
    states := StatesMatch(h, mats, gs, n - 1);
    var m := mats[n - 1];
    assert HasState(h, m, gs[n - 1]);
    TakeNext(mats, n - 1);
    states := states + [StateOf(m.meta.call.value, Related(h, m.meta.call.value.body.callId)).value];
  }

  lemma {:induction false} OnlyLastPending(states: seq<CallState>)
    requires forall k :: 0 <= k < |states| - 1 ==> !states[k].PendingApproval() && !states[k].PendingExecution()
    ensures PendingApprovals(states) == if states != [] && Last(states).PendingApproval() then [Last(states)] else []
    ensures PendingExecutions(states) == if states != [] && Last(states).PendingExecution() then [Last(states)] else []
  {
    if |states| > 1 {
      OnlyLastPending(Front(states));
      assert !Last(Front(states)).PendingApproval() && !Last(Front(states)).PendingExecution();
    }
  }

  /** The projection of a history is decided by its last event. */
  predicate ProjectedByLast(h: seq<Event>, s: RunState)
    requires h != []
  {
    var last := Last(h);
    && s.end == (if last.kind in RUN_ENDS then Some(last) else None)
    && (s.interrupted <==> last.kind == ExecutionStarted)
    && (s.pendingApproval.Some? <==> last.kind == ApprovalRequired)
    && (s.pendingExecution.Some? <==> ReadyToExecute(last))
    && (s.waitingReview <==> last.kind == ReviewRequested)
    && (s.pendingApproval.Some? ==>
       CurrentCall(h) == Some(s.pendingApproval.value.call) && s.pendingApproval.value.approval.None?)
    && (s.pendingExecution.Some? ==>
          CurrentCall(h) == Some(s.pendingExecution.value.call)
              && s.pendingExecution.value.approval == RecordedIn(last))
  }

  lemma EndsAndReviewsLast(h: seq<Event>)
    requires h != [] && OfKinds(Front(h), RUN_ENDS + {ReviewRequested}) == []
    ensures OfKinds(h, RUN_ENDS) == if Last(h).kind in RUN_ENDS then [Last(h)] else []
    ensures OfKinds(h, {ReviewRequested}) == if Last(h).kind == ReviewRequested then [Last(h)] else []
  {
    var all := RUN_ENDS + {ReviewRequested};
    OfKindsNested(Front(h), all, RUN_ENDS);
    OfKindsNested(Front(h), all, {ReviewRequested});
  }

  /** `_project` never fails on a history of the loop, and says exactly where the run stands. */
  lemma {:induction false} ProjectionTotal(policy: Policy, h: seq<Event>)
    requires History(policy, h) && h != []
    ensures Project(h).Ok? && ProjectedByLast(h, Project(h).value)
  {
    HistoryKept(policy, h);
    NoEventError(policy, h);
    forall k | 0 <= k < |Groups(h)| ensures HasState(h, Materializations(h)[k], Groups(h)[k]) {
      HistoryHasState(policy, h, k);
    }
    EndsAndReviewsLast(h);
    var n := |Groups(h)|;
    var states := StatesMatch(h, Materializations(h), Groups(h), n);
    assert Materializations(h)[..n] == Materializations(h);
    AssembleByLast(h, Groups(h), states);
  }

  lemma {:induction false} PendingByLast(gs: seq<seq<Event>>, states: seq<CallState>)
    requires |states| == |gs| && forall k :: 0 <= k < |gs| ==> gs[k] != [] && StateMatches(states[k], gs[k])
    requires forall k :: 0 <= k < |gs| - 1 ==> Settled(Last(gs[k]))
    ensures PendingApprovals(states) == if gs != [] && Last(Last(gs)).kind == ApprovalRequired then [Last(states)]
              else []
    ensures PendingExecutions(states) == if gs != [] && ReadyToExecute(Last(Last(gs))) then [Last(states)] else []
    ensures (exists s :: s in states && s.Interrupted()) <==> gs != [] && Last(Last(gs)).kind == ExecutionStarted
    ensures gs != [] && ReadyToExecute(Last(Last(gs))) ==> Last(states).approval == RecordedIn(Last(Last(gs)))
  {
    forall k | 0 <= k < |states| - 1
      ensures !states[k].PendingApproval() && !states[k].PendingExecution() && !states[k].Interrupted()
    {
      assert StateMatches(states[k], gs[k]) && Settled(Last(gs[k]));
    }
    OnlyLastPending(states);
    if gs != [] { assert StateMatches(Last(states), Last(gs)) && Last(states) in states; }
  }

  lemma {:induction false} AssembleByLast(h: seq<Event>, gs: seq<seq<Event>>, states: seq<CallState>)
    requires h != [] && LastFits(h, gs) && HeadsKept(h, gs)
    requires |states| == |gs| && forall k :: 0 <= k < |gs| ==> gs[k] != [] && StateMatches(states[k], gs[k])
    requires forall k :: 0 <= k < |gs| - 1 ==> Settled(Last(gs[k]))
    requires OfKinds(h, RUN_ENDS) == if Last(h).kind in RUN_ENDS then [Last(h)] else []
    requires OfKinds(h, {ReviewRequested}) == if Last(h).kind == ReviewRequested then [Last(h)] else []
    ensures Assemble(h, states).Ok? && ProjectedByLast(h, Assemble(h, states).value)
  {
    PendingByLast(gs, states);
    hide OfKinds, Assemble, ProjectedByLast, PendingApprovals, PendingExecutions;
    if gs == [] {
      AssembleNoCall(h, states);
    } else {
      assert StateMatches(Last(states), Last(gs));
      AssembleWithCall(h, states, Last(Last(gs)));
    }
  }

  lemma AssembleNoCall(h: seq<Event>, states: seq<CallState>)
    requires h != [] && Last(h).kind !in CALL_KINDS
    requires OfKinds(h, RUN_ENDS) == if Last(h).kind in RUN_ENDS then [Last(h)] else []
    requires OfKinds(h, {ReviewRequested}) == if Last(h).kind == ReviewRequested then [Last(h)] else []
    requires PendingApprovals(states) == [] && PendingExecutions(states) == []
    requires !exists s :: s in states && s.Interrupted()
    ensures Assemble(h, states).Ok? && ProjectedByLast(h, Assemble(h, states).value)
  {}

  lemma {:induction false} AssembleWithCall(h: seq<Event>, states: seq<CallState>, last: Event)
    requires h != [] && states != [] && CurrentCall(h) == Some(Last(states).call)
    requires if Last(h).kind in CALL_KINDS then last == Last(h) else Settled(last)
    requires OfKinds(h, RUN_ENDS) == if Last(h).kind in RUN_ENDS then [Last(h)] else []
    requires OfKinds(h, {ReviewRequested}) == if Last(h).kind == ReviewRequested then [Last(h)] else []
    requires Last(states).PendingApproval() <==> last.kind == ApprovalRequired
    requires PendingApprovals(states) == if last.kind == ApprovalRequired then [Last(states)] else []
    requires PendingExecutions(states) == if ReadyToExecute(last) then [Last(states)] else []
    requires (exists s :: s in states && s.Interrupted()) <==> last.kind == ExecutionStarted
    requires ReadyToExecute(last) ==> Last(states).approval == RecordedIn(last)
    ensures Assemble(h, states).Ok? && ProjectedByLast(h, Assemble(h, states).value)
  {
    hide OfKinds, PendingApprovals, PendingExecutions;
  }

  // ---- The inspector on the same histories

  lemma FreshCallUnseen(h: seq<Event>, body: CallBody)
    requires FreshCall(h, body)
    ensures body.callId !in CallIds(Materializations(h))
  {
    CallIdsMembers(Materializations(h));
    OfKindsMembers(h, {Materialized});
  }

  lemma CurrentCallSeen(policy: Policy, h: seq<Event>)
    requires Kept(policy, h) && CurrentCall(h).Some?
    ensures CurrentCall(h).value.body.callId in CallIds(Materializations(h))
  {
    var (mats, gs) := (Materializations(h), Groups(h));
    HeadsBound(gs, |gs| - 1);
    assert gs[|gs| - 1][0] == Last(mats);
    CallIdsMembers(mats);
    assert Last(mats) in mats;
  }

  lemma CollectStep(policy: Policy, h: seq<Event>, e: Event)
    requires Kept(policy, h) && Appendable(policy, h, e)
    ensures CollectError(h, e).None?
  {
    hide GroupsKept, HeadsKept, LastFits;
    if e.kind == Materialized {
      NewCallForm(policy, h, e);
      FreshCallUnseen(h, e.meta.call.value.body);
    } else if e.kind in CALL_FOLLOWUPS {
      FollowupForm(policy, h, e);
      CurrentCallSeen(policy, h);
    } else {
      OtherForm(policy, h, e);
    }
  }

  lemma {:induction false} NoCollectError(policy: Policy, h: seq<Event>)
    requires History(policy, h)
    ensures FirstCollectError(h).None?
  {
    hide History, Appendable, Kept, CollectError;
    if h == [] { return; }
    HistoryTail(policy, h);
    HistoryKept(policy, Front(h));
    NoCollectError(policy, Front(h));
    CollectStep(policy, Front(h), Last(h));
  }

  /** The view of the call materialized by `mat`: it exists unless the call failed with an unnameable error. */
  predicate HasView(h: seq<Event>, mat: Event, g: seq<Event>) {
    && mat.meta.call.Some? && g != []
    && var v := ViewOf(mat, mat.meta.call.value, Followups(h, mat.meta.call.value.body.callId));
       (v.Ok? <==> NamedFailure(Last(g))) && (v.Ok? ==> ViewMatches(v.value, g))
  }

  lemma HistoryHasView(policy: Policy, h: seq<Event>, k: nat)
    requires History(policy, h) && k < |Groups(h)|
    ensures |Materializations(h)| == |Groups(h)| && HasView(h, Materializations(h)[k], Groups(h)[k])
  {
    GroupAt(policy, h, k);
    ViewOfShape(Groups(h)[k]);
  }

  predicate AllNamed(gs: seq<seq<Event>>) { forall k :: 0 <= k < |gs| ==> gs[k] != [] && NamedFailure(Last(gs[k])) }

  predicate Unresolved(last: Event) { last.kind == ApprovalRequired || ReadyToExecute(last) }

  predicate AccMatches(acc: CallsView, gs: seq<seq<Event>>) {
    && |acc.views| == |gs| && (forall k :: 0 <= k < |gs| ==> gs[k] != [] && ViewMatches(acc.views[k], gs[k]))
    && acc.unresolved == (if gs != [] && Unresolved(Last(Last(gs))) then 1 else 0)
    && acc.pending == (if gs != [] && Last(Last(gs)).kind == ApprovalRequired then Last(gs)[0].meta.call else None)
  }

  lemma AddViewStep(acc: CallsView, v: CallView, gs: seq<seq<Event>>, g: seq<Event>)
    requires AccMatches(acc, gs) && g != [] && ViewMatches(v, g)
    requires gs != [] ==> Settled(Last(Last(gs)))
    ensures AccMatches(AddView(acc, v), gs + [g])
  {
    Snoc(gs, g);
  }

  lemma AllNamedSnoc(gs: seq<seq<Event>>, g: seq<Event>)
    requires g != []
    ensures AllNamed(gs + [g]) <==> AllNamed(gs) && NamedFailure(Last(g))
  {
    assert (gs + [g])[|gs|] == g;
    if AllNamed(gs + [g]) {
      forall k | 0 <= k < |gs| ensures gs[k] != [] && NamedFailure(Last(gs[k])) { assert (gs + [g])[k] == gs[k]; }
    }
  }

  predicate ViewsAre(r: Result<CallsView, InspectionError>, gs: seq<seq<Event>>) {
    (r.Ok? <==> AllNamed(gs)) && (r.Ok? ==> AccMatches(r.value, gs))
  }

  lemma ViewsStep(before: Result<CallsView, InspectionError>, v: Result<CallView, InspectionError>,
                  gs: seq<seq<Event>>, g: seq<Event>)
    requires ViewsAre(before, gs) && g != [] && (gs != [] ==> Last(gs) != [] && Settled(Last(Last(gs))))
    requires (v.Ok? <==> NamedFailure(Last(g))) && (v.Ok? ==> ViewMatches(v.value, g))
    ensures ViewsAre(if before.Err? then before else if v.Err? then Err(v.error)
              else Ok(AddView(before.value, v.value)), gs + [g])
  {
    hide AddView, ViewMatches, NamedFailure, AccMatches;
    AllNamedSnoc(gs, g);
    hide AllNamed;
    if before.Ok? && v.Ok? { AddViewStep(before.value, v.value, gs, g); }
  }

  predicate EarlierSettled(gs: seq<seq<Event>>) {
    forall k :: 0 <= k < |gs| - 1 ==> gs[k] != [] && Settled(Last(gs[k]))
  }

  predicate AllHaveViews(h: seq<Event>, mats: seq<Event>, gs: seq<seq<Event>>) {
    |mats| == |gs| && forall k :: 0 <= k < |gs| ==> HasView(h, mats[k], gs[k])
  }

  /** All views together, when earlier calls are settled. */
  lemma {:induction false} ViewsMatch(h: seq<Event>, mats: seq<Event>, gs: seq<seq<Event>>, n: nat)
    requires n <= |mats| == |gs| && AllHaveViews(h, mats, gs) && EarlierSettled(gs)
    ensures ViewsAre(ViewsOf(mats[..n], h), gs[..n])
  {
    if n == 0 { return; }
    hide AllHaveViews, EarlierSettled, ViewsAre, ViewsOf;
    ViewsMatch(h, mats, gs, n - 1);
    ViewsMatchNext(h, mats, gs, n - 1);
  }

  lemma ViewsMatchNext(h: seq<Event>, mats: seq<Event>, gs: seq<seq<Event>>, n: nat)
    requires n < |mats| == |gs| && AllHaveViews(h, mats, gs) && EarlierSettled(gs)
    requires ViewsAre(ViewsOf(mats[..n], h), gs[..n])
    ensures ViewsAre(ViewsOf(mats[..n + 1], h), gs[..n + 1])
  {
    hide HasView, ViewsAre, ViewsOf, ViewOf, AddView, Followups, Settled;
    var (mat, g) := (mats[n], gs[n]);
    HasViewFacts(h, mat, g);
    assert n > 0 ==> Last(gs[..n]) == gs[n - 1];
    hide AllHaveViews, EarlierSettled;
    ViewsNext(mats, h, n);
    assert gs[..n + 1] == gs[..n] + [g];
    var call := mat.meta.call.value;
    ViewsStep(ViewsOf(mats[..n], h), ViewOf(mat, call, Followups(h, call.body.callId)), gs[..n], g);
  }

  lemma HasViewFacts(h: seq<Event>, mat: Event, g: seq<Event>)
    requires HasView(h, mat, g)
    ensures mat.meta.call.Some? && g != []
    ensures var v := ViewOf(mat, mat.meta.call.value, Followups(h, mat.meta.call.value.body.callId));
            (v.Ok? <==> NamedFailure(Last(g))) && (v.Ok? ==> ViewMatches(v.value, g))
  {
    hide ViewOf, ViewMatches, NamedFailure;
  }

  lemma {:induction false} StartedIsOpen(policy: Policy, h: seq<Event>)
    requires History(policy, h) && h != [] && Last(h).kind == ExecutionStarted
    ensures StartWithoutEnd(h)
  {
    hide History, Appendable;
    HistoryKept(policy, h);
    GroupsSelected(policy, h);
    CallIdsMarkCallEvents(policy, h, Last(h));
    var gs := Groups(h);
    var (g, s) := (Last(gs), Last(h));
    HeadsBound(gs, |gs| - 1);
    assert CallShape(g) && s in g;
    assert Last(g) == s && Related(h, s.meta.callId.value) == g;
    hide RunKept, GroupsKept, HeadsKept, CallShape, Groups, LastFits, Kept, Selects;
    ShapePositions(g);
    StartLastMeansNoEnd(g);
    RelatedMembers(h, s.meta.callId.value);
    assert s in h;
  }

  lemma StartLastMeansNoEnd(g: seq<Event>)
    requires Positions(g) && Last(g).kind == ExecutionStarted
    ensures forall t :: t in g ==> t.kind !in EXECUTION_ENDS
  {}

  lemma {:induction false} OpenIsStarted(policy: Policy, h: seq<Event>, s: Event)
    requires History(policy, h) && s in h && s.kind == ExecutionStarted
    requires !exists t :: t in h && t.kind in EXECUTION_ENDS && t.meta.callId == s.meta.callId
    ensures Last(h).kind == ExecutionStarted
  {
    hide History, Appendable, RunKept, HeadsKept, Groups;
    var k := EventHasGroup(policy, h, s);
    HistoryKept(policy, h);
    var gs: seq<seq<Event>> := Groups(h);
    var g := gs[k];
    HeadsBound(gs, k);
    assert CallShape(g);
    ShapePositions(g);
    hide CallShape;
    GroupMembers(h);
    assert forall t :: t in g ==> t in h && t.meta.callId == s.meta.callId;
    var i :| 0 <= i < |g| && g[i] == s;
    StartWithoutEndIsLast(g, i);
    hide Positions;
    assert Last(g) == s && !Settled(s);
    assert k == |gs| - 1;
  }

  lemma StartWithoutEndIsLast(g: seq<Event>, i: nat)
    requires Positions(g) && i < |g| && g[i].kind == ExecutionStarted && forall t :: t in g ==>
               t.kind !in EXECUTION_ENDS
    ensures i == |g| - 1
  {
    assert forall k :: 0 <= k < |g| ==> g[k].kind !in EXECUTION_ENDS;
  }

  /** Each status stands for one kind of last event, and ACTIVE for all others. */
  predicate StatusTells(status: Status, last: Kind) {
    && status != New
    && (status == Stopped <==> last == RunStopped) && (status == Exhausted <==> last == BudgetExhausted)
    && (status == RejectedRun <==> last == RunRejected) && (status == Failed <==> last == RunFailed)
    && (status == Interrupted <==> last == ExecutionStarted)
    && (status == WaitingApproval <==> last == ApprovalRequired)
    && (status == WaitingReview <==> last == ReviewRequested)
  }

  /** The loop's status says by which kind of event the history ends. */
  lemma LoopStatusByLast(h: seq<Event>, s: RunState)
    requires h != [] && ProjectedByLast(h, s)
    ensures StatusTells(StatusOf(s), Last(h).kind)
  {}

  lemma InspectStatusByLast(policy: Policy, h: seq<Event>, pending: Option<Call>)
    requires History(policy, h) && h != []
    requires pending.Some? <==> Last(h).kind == ApprovalRequired
    ensures InspectStatus(h, pending).Ok? && StatusTells(InspectStatus(h, pending).value, Last(h).kind)
  {
    hide History, InspectStatus;
    StatusFromLast(policy, h, pending);
  }

  /** The rules of `_status`, read at the last event. */
  lemma StatusFromLast(policy: Policy, h: seq<Event>, pending: Option<Call>)
    requires History(policy, h) && h != []
    requires pending.Some? <==> Last(h).kind == ApprovalRequired
    ensures var (r, last) := (InspectStatus(h, pending), Last(h).kind);
            r.Ok? && r.value == (if last in RUN_ENDS then EndStatus(last)
                                 else if last == ExecutionStarted then Interrupted
                                 else if last == ApprovalRequired then WaitingApproval
                                 else if last == ReviewRequested then WaitingReview
                                 else Active)
  {
    InterruptedByLast(policy, h);
    HistoryKept(policy, h);
    hide StartWithoutEnd, OfKinds, History, Appendable, Groups, GroupsKept, HeadsKept, LastFits;
    EndsAndReviewsLast(h);
  }

  lemma InterruptedByLast(policy: Policy, h: seq<Event>)
    requires History(policy, h) && h != []
    ensures StartWithoutEnd(h) <==> Last(h).kind == ExecutionStarted
  {
    hide History, Appendable, Groups;
    if Last(h).kind == ExecutionStarted { StartedIsOpen(policy, h); }
    if StartWithoutEnd(h) {
      var s :| s in h && s.kind == ExecutionStarted &&
               !exists t :: t in h && t.kind in EXECUTION_ENDS && t.meta.callId == s.meta.callId;
      OpenIsStarted(policy, h, s);
    }
  }

  // ---- Visible artifacts: by success event in the loop, by call in the inspector

  function GroupOutputs(g: seq<Event>): seq<ArtifactId> {
    if g != [] && Last(g).kind == ExecutionSucceeded then Last(g).outputs else []
  }

  function GroupsVisible(initial: seq<ArtifactId>, gs: seq<seq<Event>>): seq<ArtifactId> {
    if gs == [] then initial else AddNew(GroupsVisible(initial, Front(gs)), GroupOutputs(Last(gs)))
  }

  lemma GroupsVisibleSnoc(initial: seq<ArtifactId>, gs: seq<seq<Event>>, g: seq<Event>)
    ensures GroupsVisible(initial, gs + [g]) == AddNew(GroupsVisible(initial, gs), GroupOutputs(g))
  { Snoc(gs, g); }

  lemma {:induction false} VisibleStep(policy: Policy, r: Request, h: seq<Event>, e: Event)
    requires Kept(policy, h) && Appendable(policy, h, e) && Visible(r, h) == GroupsVisible(r.inputs, Groups(h))
    ensures Visible(r, h + [e]) == GroupsVisible(r.inputs, Groups(h + [e]))
  {
    Snoc(h, e);
    GroupsSnoc(h, e);
    var gs := Groups(h);
    if e.kind == Materialized {
      GroupsVisibleSnoc(r.inputs, gs, [e]);
    } else if e.kind in CALL_FOLLOWUPS {
      FollowupForm(policy, h, e);
      hide Appendable, RunKept, GroupsKept, HeadsKept;
      GroupsVisibleSnoc(r.inputs, Front(gs), Last(gs) + [e]);
      assert GroupOutputs(Last(gs)) == [];
      Snoc(Last(gs), e);
    } else {
      OtherForm(policy, h, e);
    }
  }

  lemma {:induction false} VisibleByGroups(policy: Policy, r: Request, h: seq<Event>)
    requires History(policy, h)
    ensures Visible(r, h) == GroupsVisible(r.inputs, Groups(h))
  {
    hide History, Appendable, Kept;
    if h == [] { return; }
    hide Groups, GroupsVisible, Visible;
    HistoryTail(policy, h);
    HistoryKept(policy, Front(h));
    VisibleByGroups(policy, r, Front(h));
    VisibleStep(policy, r, Front(h), Last(h));
  }

  lemma ViewOutputs(v: CallView, g: seq<Event>)
    requires g != [] && ViewMatches(v, g)
    ensures v.outputs == GroupOutputs(g)
  {}

  lemma LastViewMatches(views: seq<CallView>, gs: seq<seq<Event>>)
    requires ViewsMatchGroups(views, gs) && views != []
    ensures ViewsMatchGroups(Front(views), Front(gs)) && Last(views).outputs == GroupOutputs(Last(gs))
  {
    ViewOutputs(Last(views), Last(gs));
    hide ViewMatches;
  }

  lemma {:induction false} FinalIdsByGroups(initial: seq<ArtifactId>, views: seq<CallView>, gs: seq<seq<Event>>)
    requires ViewsMatchGroups(views, gs)
    ensures FinalIds(initial, views) == GroupsVisible(initial, gs)
  {
    if views == [] { return; }
    hide ViewMatches, AddNew, GroupOutputs, FinalIds, GroupsVisible;
    LastViewMatches(views, gs);
    FinalIdsByGroups(initial, Front(views), Front(gs));
    LastOutputs(initial, views, gs);
  }

  lemma LastOutputs(initial: seq<ArtifactId>, views: seq<CallView>, gs: seq<seq<Event>>)
    requires views != [] && gs != []
    ensures FinalIds(initial, views) == AddNew(FinalIds(initial, Front(views)), Last(views).outputs)
    ensures GroupsVisible(initial, gs) == AddNew(GroupsVisible(initial, Front(gs)), GroupOutputs(Last(gs)))
  {}

  // ---- The two projections agree

  /** Every recorded failure carries an error type that starts with a letter or digit. */
  predicate FailuresNamed(h: seq<Event>) { forall e :: e in h ==> NamedFailure(e) }

  lemma {:induction false} NamedByGroups(policy: Policy, h: seq<Event>)
    requires History(policy, h)
    ensures FailuresNamed(h) <==> AllNamed(Groups(h))
  {
    hide History, Appendable, RunKept, HeadsKept, Groups, LastFits;
    HistoryKept(policy, h);
    var gs: seq<seq<Event>> := Groups(h);
    GroupMembers(h);
    if FailuresNamed(h) {
      forall k | 0 <= k < |gs| ensures gs[k] != [] && NamedFailure(Last(gs[k])) {
        assert CallShape(gs[k]) && Last(gs[k]) in gs[k];
      }
    }
    if AllNamed(gs) {
      forall e | e in h && e.kind == ExecutionFailed ensures NamedFailure(e) {
        var k := EventHasGroup(policy, h, e);
        assert CallShape(gs[k]);
        ShapePositions(gs[k]);
        FailureIsLast(gs[k], e);
      }
    }
  }

  lemma FailureIsLast(g: seq<Event>, e: Event)
    requires Positions(g) && e in g && e.kind in EXECUTION_ENDS
    ensures e == Last(g)
  {
    var i :| 0 <= i < |g| && g[i] == e;
  }

  /** `_project_calls` succeeds exactly when every recorded failure has a nameable error type. */
  lemma {:induction false} InspectCallsByLast(policy: Policy, h: seq<Event>)
    requires History(policy, h) && h != []
    ensures InspectCalls(h).Ok? <==> FailuresNamed(h)
    ensures InspectCalls(h).Ok? ==> AccMatches(InspectCalls(h).value, Groups(h))
  {
    hide History, Appendable, Groups, OfKinds, FailuresNamed, AllNamed, HasView, AllHaveViews, EarlierSettled, ViewsOf,
        FirstCollectError;
    NoCollectError(policy, h);
    NamedByGroups(policy, h);
    GroupsReady(policy, h);
    var (mats, gs) := (Materializations(h), Groups(h));
    ViewsMatch(h, mats, gs, |mats|);
    assert mats[..|mats|] == mats && gs[..|gs|] == gs;
    AtMostOneUnresolved(ViewsOf(mats, h), gs);
    hide AccMatches;
  }

  lemma AtMostOneUnresolved(r: Result<CallsView, InspectionError>, gs: seq<seq<Event>>)
    requires ViewsAre(r, gs)
    ensures r.Ok? ==> r.value.unresolved <= 1
  {}

  lemma GroupsReady(policy: Policy, h: seq<Event>)
    requires History(policy, h)
    ensures |Materializations(h)| == |Groups(h)| && AllHaveViews(h, Materializations(h), Groups(h))
              && EarlierSettled(Groups(h))
  {
    hide History, Appendable, RunKept, HasView, OfKinds, Groups;
    HistoryKept(policy, h);
    var (mats, gs) := (Materializations(h), Groups(h));
    forall k | 0 <= k < |gs| ensures HasView(h, mats[k], gs[k]) { HistoryHasView(policy, h, k); }
    hide LastFits, CallShape;
    forall k | 0 <= k < |gs| - 1 ensures gs[k] != [] && Settled(Last(gs[k])) {}
  }

  /** On every history the loop can write, at every crash point, the inspector
      accepts exactly when all failures are nameable, and then reports the same
      status, pending call, counts and artifacts as the loop. */
  lemma ProjectionsAgree(policy: Policy, h: seq<Event>)
    requires History(policy, h) && h != []
    ensures Project(h).Ok? && (Project(h).value.end.Some? ==> Project(h).value.end.value.kind in RUN_ENDS)
    ensures Inspect(h).Ok? <==> FailuresNamed(h)
    ensures Inspect(h).Ok? ==>
              var (s, v) := (Project(h).value, Inspect(h).value);
              && v.request == RequestOf(h)
              && v.status == StatusOf(s)
              && v.pending == (if s.pendingApproval.Some? then Some(s.pendingApproval.value.call) else None)
              && v.finalIds == Visible(RequestOf(h), h)
              && v.counts == Counts(h)
              && StatusTells(v.status, Last(h).kind)
              && ViewsMatchGroups(v.calls, Groups(h))
  {
    hide History, Project, Inspect, InspectCalls, InspectStatus, AccMatches, Groups, Counts, FailuresNamed, Visible,
        FinalIds, OfKinds;
    ProjectionTotal(policy, h);
    LoopStatusByLast(h, Project(h).value);
    StartOk(policy, h);
    InspectCallsByLast(policy, h);
    InspectFails(h);
    if InspectCalls(h).Ok? {
      var acc: CallsView := InspectCalls(h).value;
      AccByLast(policy, h, acc);
      InspectStatusByLast(policy, h, acc.pending);
      InspectFromParts(h, acc, InspectStatus(h, acc.pending).value);
      MatchingViews(acc, Groups(h));
    }
  }

  /** One view per call, in order, each as its events say. */
  predicate ViewsMatchGroups(views: seq<CallView>, gs: seq<seq<Event>>) {
    |views| == |gs| && forall k :: 0 <= k < |gs| ==> gs[k] != [] && ViewMatches(views[k], gs[k])
  }

  lemma MatchingViews(acc: CallsView, gs: seq<seq<Event>>)
    requires AccMatches(acc, gs)
    ensures ViewsMatchGroups(acc.views, gs)
  {
    hide ViewMatches;
  }

  predicate StartsRight(h: seq<Event>) {
    h != [] && |OfKinds(h, {RunStarted})| == 1 && h[0].kind == RunStarted
    && h[0].meta.start.Some? && h[0].meta.start.value.Consistent(h[0].runId)
  }

  lemma InspectFromParts(h: seq<Event>, calls: CallsView, status: Status)
    requires StartsRight(h) && InspectCalls(h) == Ok(calls) && InspectStatus(h, calls.pending) == Ok(status)
    ensures var request := h[0].meta.start.value.request;
            Inspect(h) == Ok(RunView(request, status, Counts(h), calls.views, calls.pending,
                FinalIds(request.inputs, calls.views)))
  {
    hide InspectCalls, InspectStatus, Counts, FinalIds, OfKinds;
  }

  lemma InspectFails(h: seq<Event>)
    requires StartsRight(h)
    ensures InspectCalls(h).Err? ==> Inspect(h).Err?
  {
    hide InspectCalls, InspectStatus, Counts, FinalIds, OfKinds;
  }

  lemma PendingCall(h: seq<Event>, acc: CallsView, gs: seq<seq<Event>>)
    requires h != [] && AccMatches(acc, gs) && GroupsKept(gs) && HeadsKept(h, gs) && LastFits(h, gs)
    ensures acc.pending == if Last(h).kind == ApprovalRequired then CurrentCall(h) else None
    ensures acc.pending.Some? <==> Last(h).kind == ApprovalRequired
  {
    hide ViewMatches, OfKinds, Bound, PayloadOk, Follows;
    if gs != [] {
      assert CallShape(Last(gs));
      hide GroupsKept, CallShape;
    }
  }

  lemma {:induction false} AccByLast(policy: Policy, h: seq<Event>, acc: CallsView)
    requires History(policy, h) && h != [] && h[0].meta.start.Some? && AccMatches(acc, Groups(h))
    ensures acc.pending == if Last(h).kind == ApprovalRequired then CurrentCall(h) else None
    ensures acc.pending.Some? <==> Last(h).kind == ApprovalRequired
    ensures FinalIds(RequestOf(h).inputs, acc.views) == Visible(RequestOf(h), h)
  {
    hide History, Visible, FinalIds, GroupsVisible, Groups, RunKept, AccMatches, GroupsKept, HeadsKept, LastFits,
        ViewsMatchGroups, CurrentCall;
    HistoryKept(policy, h);
    VisibleByGroups(policy, RequestOf(h), h);
    MatchingViews(acc, Groups(h));
    FinalIdsByGroups(RequestOf(h).inputs, acc.views, Groups(h));
    PendingCall(h, acc, Groups(h));
  }

  lemma StartOk(policy: Policy, h: seq<Event>)
    requires History(policy, h) && h != []
    ensures StartsRight(h)
  {
    HistoryKept(policy, h);
  }
}
