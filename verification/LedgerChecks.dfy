/** Which ledgers the two projections accept at all, exactly, for any list of events whatsoever
    (src/molly/core/agent_loop.py:290-421, src/molly/core/inspection.py:440-673).
    All refusals of the loop are one error class and all of the inspector another. */
module LedgerChecks {
  import opened RunEvents
  import opened Projection
  import opened Inspection

  // ---- Single events

  /** A success carries durable data of a legal size whose recorded digest is its own. */
  predicate GoodResult(e: Event) {
    e.meta.result.Some? && |e.meta.result.value.data| <= 65536
        && e.meta.result.value.recorded == e.meta.result.value.data
  }

  /** A materialization carries a call whose digest is its own, and names its identity, tool and inputs. */
  predicate NamesCall(e: Event) {
    && e.meta.call.Some?
    && var call := e.meta.call.value;
       && call.recorded == CallDigest(call.body) && e.meta.callId == Some(call.body.callId)
       && e.stepId == Some(call.body.stepId) && e.tool == Some(call.body.tool) && e.inputs == call.body.inputs
  }

  predicate GoodEvent(e: Event) {
    (e.kind == ExecutionSucceeded ==> GoodResult(e)) && (e.kind == Materialized ==> NamesCall(e))
  }

  lemma EventErrorMeans(e: Event)
    ensures EventError(e).None? <==> GoodEvent(e)
  {}

  lemma {:induction false} EventErrorsMean(h: seq<Event>)
    ensures FirstEventError(h).None? <==> forall e :: e in h ==> GoodEvent(e)
  {
    if h == [] { return; }
    EventErrorsMean(Front(h));
    EventErrorMeans(Last(h));
    assert h == Front(h) + [Last(h)];
    hide EventError, GoodEvent;
    if forall e :: e in h ==> GoodEvent(e) { assert Last(h) in h; }
  }

  // ---- The events of one call

  predicate OfCall(e: Event, c: Id) { e.meta.callId == Some(c) }

  /** No two events of the call have one of these kinds. */
  predicate AtMostOne(h: seq<Event>, c: Id, ks: set<Kind>) {
    forall i, j :: 0 <= i < j < |h| && OfCall(h[i], c) && OfCall(h[j], c) ==> h[i].kind !in ks || h[j].kind !in ks
  }

  predicate SomeOf(h: seq<Event>, c: Id, ks: set<Kind>) { exists e :: e in h && OfCall(e, c) && e.kind in ks }

  lemma RelatedKinds(h: seq<Event>, c: Id, ks: set<Kind>)
    ensures forall e :: e in OfKinds(Related(h, c), ks) <==> e in h && OfCall(e, c) && e.kind in ks
  {
    RelatedMembers(h, c);
    OfKindsMembers(Related(h, c), ks);
  }

  lemma NoneOf(h: seq<Event>, c: Id, ks: set<Kind>)
    ensures OfKinds(Related(h, c), ks) == [] <==> !SomeOf(h, c, ks)
  {
    RelatedKinds(h, c, ks);
    hide OfKinds, Related, OfCall;
    var s := OfKinds(Related(h, c), ks);
    if s != [] { assert s[0] in s; }
  }

  lemma AtMostOneSnoc(h: seq<Event>, e: Event, c: Id, ks: set<Kind>)
    ensures AtMostOne(h + [e], c, ks) <==>
              AtMostOne(h, c, ks) && (OfCall(e, c) && e.kind in ks ==> !SomeOf(h, c, ks))
  {
    var all := h + [e];
    hide OfCall;
    if AtMostOne(all, c, ks) {
      forall i, j | 0 <= i < j < |h| && OfCall(h[i], c) && OfCall(h[j], c)
        ensures h[i].kind !in ks || h[j].kind !in ks
      {
        assert all[i] == h[i] && all[j] == h[j];
      }
      if x :| x in h && OfCall(x, c) && x.kind in ks {
        var i :| 0 <= i < |h| && h[i] == x;
        assert all[i] == x && all[|h|] == e;
      }
    }
  }

  lemma {:induction false} AtMostOneMeans(h: seq<Event>, c: Id, ks: set<Kind>)
    ensures |OfKinds(Related(h, c), ks)| <= 1 <==> AtMostOne(h, c, ks)
  {
    if h == [] { return; }
    var (f, e) := (Front(h), Last(h));
    assert h == f + [e];
    AtMostOneMeans(f, c, ks);
    AtMostOneSnoc(f, e, c, ks);
    NoneOf(f, c, ks);
    RelatedSnoc(f, e, c);
    OfKindsSnoc(Related(f, c), e, ks);
    hide OfKinds, Related, AtMostOne, SomeOf;
  }

  // ---- What the loop demands of one call

  /** Every event of the call agrees with its digest and step. */
  predicate Agrees(h: seq<Event>, call: Call) {
    forall e :: e in h && OfCall(e, call.body.callId) && e.kind != Materialized ==>
      (e.meta.digest.None? || e.meta.digest == Some(CallDigest(call.body))) && e.stepId == Some(call.body.stepId)
  }

  /** Every recorded approval is there and carries the digest of the call. */
  predicate ApprovalsBind(h: seq<Event>, call: Call) {
    forall e :: e in h && OfCall(e, call.body.callId) && e.kind == ApprovalRecorded ==>
      e.meta.approval.Some? && e.meta.approval.value.callDigest == CallDigest(call.body)
  }

  predicate Once(h: seq<Event>, c: Id) {
    && AtMostOne(h, c, {ApprovalRecorded}) && AtMostOne(h, c, {CallRejected}) && AtMostOne(h, c, {ExecutionStarted})
    && AtMostOne(h, c, EXECUTION_ENDS)
  }

  predicate LoopTakes(h: seq<Event>, call: Call) {
    var c := call.body.callId;
    && Agrees(h, call) && ApprovalsBind(h, call) && Once(h, c)
    && (SomeOf(h, c, {ApprovalRequired}) && SomeOf(h, c, {CallRejected}) ==> SomeOf(h, c, {ApprovalRecorded}))
  }

  lemma {:induction false} BindingErrorsMean(call: Call, related: seq<Event>)
    ensures FirstBindingError(call, related).None? <==> forall e :: e in related ==> BindingError(call, e).None?
  {
    if related == [] { return; }
    BindingErrorsMean(call, Front(related));
    assert related == Front(related) + [Last(related)];
    hide BindingError;
    if forall e :: e in related ==> BindingError(call, e).None? { assert Last(related) in related; }
  }

  lemma BindingMeans(h: seq<Event>, call: Call)
    ensures FirstBindingError(call, Related(h, call.body.callId)).None? <==> Agrees(h, call)
  {
    BindingErrorsMean(call, Related(h, call.body.callId));
    RelatedMembers(h, call.body.callId);
    hide FirstBindingError, Related;
  }

  /** One call's lifecycle, read off the events. */
  lemma LifecycleMeans(h: seq<Event>, call: Call)
    ensures var (c, l) := (call.body.callId, LifecycleOf(Related(h, call.body.callId)));
            && (Once(h, c) <==>
                  |l.approvals| <= 1 && |l.rejections| <= 1 && |l.starts| <= 1 && |l.terminals| <= 1)
            && (l.required <==> SomeOf(h, c, {ApprovalRequired}))
            && (l.approvals != [] <==> SomeOf(h, c, {ApprovalRecorded}))
            && (l.rejections != [] <==> SomeOf(h, c, {CallRejected}))
            && (l.starts != [] <==> SomeOf(h, c, {ExecutionStarted}))
            && (l.terminals != [] <==> SomeOf(h, c, EXECUTION_ENDS))
            && (forall e :: e in l.approvals <==> e in h && OfCall(e, c) && e.kind == ApprovalRecorded)
            && (forall e :: e in l.terminals <==> e in h && OfCall(e, c) && e.kind in EXECUTION_ENDS)
  {
    var c := call.body.callId;
    AtMostOneMeans(h, c, {ApprovalRecorded});
    AtMostOneMeans(h, c, {CallRejected});
    AtMostOneMeans(h, c, {ExecutionStarted});
    AtMostOneMeans(h, c, EXECUTION_ENDS);
    NoneOf(h, c, {ApprovalRequired});
    NoneOf(h, c, {ApprovalRecorded});
    NoneOf(h, c, {CallRejected});
    NoneOf(h, c, {ExecutionStarted});
    NoneOf(h, c, EXECUTION_ENDS);
    RelatedKinds(h, c, {ApprovalRecorded});
    RelatedKinds(h, c, EXECUTION_ENDS);
    hide OfKinds, Related, SomeOf, AtMostOne, OfCall;
  }

  lemma OnlyApproval(l: Lifecycle, call: Call)
    requires |l.approvals| <= 1
    ensures (l.approvals != [] ==> l.Recorded().Some?) && (l.Recorded().Some? ==> l.Recorded().value.BindsTo(call)) <==>
              forall e :: e in l.approvals ==> e.meta.approval.Some? && e.meta.approval.value.BindsTo(call)
  {
    if l.approvals != [] { assert l.approvals[0] in l.approvals; }
  }

  /** The loop makes a state of a call exactly when its events pass. */
  lemma LoopTakesMeans(h: seq<Event>, call: Call)
    ensures StateOf(call, Related(h, call.body.callId)).Ok? <==> LoopTakes(h, call)
  {
    var l := LifecycleOf(Related(h, call.body.callId));
    LifecycleMeans(h, call);
    BindingMeans(h, call);
    hide LifecycleOf, Related, SomeOf, Once, Agrees, FirstBindingError;
    if |l.approvals| <= 1 { OnlyApproval(l, call); }
  }

  predicate DecidedBy(h: seq<Event>, c: Id, decision: Decision) {
    exists e :: e in h && OfCall(e, c) && e.kind == ApprovalRecorded && e.meta.approval.Some?
                && e.meta.approval.value.decision == decision
  }

  /** Nothing of the call has started or ended, and it waits for an approval or could run. */
  predicate OpenCall(h: seq<Event>, c: Id) {
    && !SomeOf(h, c, {ExecutionStarted})
    && (if DecidedBy(h, c, Rejected) then !SomeOf(h, c, {CallRejected}) else !SomeOf(h, c, EXECUTION_ENDS))
    && (SomeOf(h, c, {ApprovalRequired}) && SomeOf(h, c, {ApprovalRecorded}) ==> DecidedBy(h, c, Approved))
  }

  /** The one approval decides. */
  lemma DecisionMeans(h: seq<Event>, call: Call, decision: Decision)
    requires Once(h, call.body.callId) && ApprovalsBind(h, call)
    ensures var l := LifecycleOf(Related(h, call.body.callId));
            DecidedBy(h, call.body.callId, decision) <==>
              l.Recorded().Some? && l.Recorded().value.decision == decision
  {
    var (c, l) := (call.body.callId, LifecycleOf(Related(h, call.body.callId)));
    LifecycleMeans(h, call);
    hide LifecycleOf, Related, SomeOf, Once, OfCall;
    if l.approvals != [] { assert l.approvals[0] in l.approvals; }
    if e :| e in h && OfCall(e, c) && e.kind == ApprovalRecorded && e.meta.approval.Some?
            && e.meta.approval.value.decision == decision {
      assert e in l.approvals;
      assert e == l.approvals[0];
    }
  }

  predicate Unresolved(s: CallState) { s.PendingApproval() || s.PendingExecution() }

  predicate Running(h: seq<Event>, c: Id) {
    SomeOf(h, c, {ExecutionStarted})
    && if DecidedBy(h, c, Rejected) then !SomeOf(h, c, {CallRejected}) else !SomeOf(h, c, EXECUTION_ENDS)
  }

  predicate Awaiting(h: seq<Event>, c: Id) {
    OpenCall(h, c) && SomeOf(h, c, {ApprovalRequired}) && !SomeOf(h, c, {ApprovalRecorded})
  }

  /** The state of call `c` says where the call stands. */
  predicate StandsAs(h: seq<Event>, s: CallState, c: Id) {
    && (s.Interrupted() <==> Running(h, c)) && (s.PendingApproval() <==> Awaiting(h, c))
    && (s.PendingExecution() <==> OpenCall(h, c) && !Awaiting(h, c))
  }

  lemma StandsMeans(h: seq<Event>, call: Call)
    requires LoopTakes(h, call)
    ensures StateOf(call, Related(h, call.body.callId)).Ok?
    ensures StandsAs(h, StateOf(call, Related(h, call.body.callId)).value, call.body.callId)
  {
    LoopTakesMeans(h, call);
    LifecycleMeans(h, call);
    DecisionMeans(h, call, Approved);
    DecisionMeans(h, call, Rejected);
    hide LifecycleOf, Related, SomeOf, DecidedBy, FirstBindingError, LoopTakes, Once;
  }

  // ---- All calls of a ledger

  lemma {:induction false} PendingNone(states: seq<CallState>)
    ensures PendingApprovals(states) == [] && PendingExecutions(states) == [] <==>
              forall i :: 0 <= i < |states| ==> !Unresolved(states[i])
  {
    if states == [] { return; }
    PendingNone(Front(states));
    assert forall i :: 0 <= i < |states| - 1 ==> Front(states)[i] == states[i];
  }

  lemma {:induction false} PendingAtMostOne(states: seq<CallState>)
    ensures |PendingApprovals(states)| + |PendingExecutions(states)| <= 1 <==>
              forall i, j :: 0 <= i < j < |states| ==> !Unresolved(states[i]) || !Unresolved(states[j])
  {
    if states == [] { return; }
    PendingAtMostOne(Front(states));
    PendingNone(Front(states));
    assert forall i :: 0 <= i < |states| - 1 ==> Front(states)[i] == states[i];
  }

  lemma CallMeans(h: seq<Event>, call: Call)
    ensures var r := StateOf(call, Related(h, call.body.callId));
            && (r.Ok? <==> LoopTakes(h, call))
            && (r.Ok? ==> StandsAs(h, r.value, call.body.callId))
  {
    LoopTakesMeans(h, call);
    if LoopTakes(h, call) { StandsMeans(h, call); }
  }

  predicate MatTaken(h: seq<Event>, m: Event) { m.meta.call.Some? && LoopTakes(h, m.meta.call.value) }

  /** The states of all calls exist exactly when every call passes, and then say where the calls stand. */
  predicate StatesAre(h: seq<Event>, mats: seq<Event>, r: Result<seq<CallState>, ProjectionError>) {
    && (r.Ok? <==> forall i :: 0 <= i < |mats| ==> MatTaken(h, mats[i]))
    && (r.Ok? ==>
          && |r.value| == |mats|
          && forall i :: 0 <= i < |mats| && mats[i].meta.call.Some? ==>
               StandsAs(h, r.value[i], mats[i].meta.call.value.body.callId))
  }

  lemma StatesStep(h: seq<Event>, mats: seq<Event>, m: Event, before: Result<seq<CallState>, ProjectionError>,
                   one: Result<CallState, ProjectionError>)
    requires StatesAre(h, mats, before) && (one.Ok? <==> MatTaken(h, m))
    requires one.Ok? && m.meta.call.Some? ==> StandsAs(h, one.value, m.meta.call.value.body.callId)
    ensures StatesAre(h, mats + [m], if before.Err? then before else if one.Err? then Err(one.error)
              else Ok(before.value + [one.value]))
  {
    hide MatTaken, StandsAs;
    var all := mats + [m];
    assert all[|mats|] == m;
    assert forall i :: 0 <= i < |mats| ==> all[i] == mats[i];
  }

  lemma {:induction false} StatesMean(h: seq<Event>, mats: seq<Event>)
    ensures StatesAre(h, mats, StatesOf(mats, h))
  {
    if mats == [] { return; }
    var (f, m) := (Front(mats), Last(mats));
    StatesMean(h, f);
    assert mats == f + [m];
    var one := if m.meta.call.None? then Err(MissingCall)
               else StateOf(m.meta.call.value, Related(h, m.meta.call.value.body.callId));
    if m.meta.call.Some? { CallMeans(h, m.meta.call.value); }
    hide StateOf, Related, StandsAs, LoopTakes, StatesAre;
    StatesStep(h, f, m, StatesOf(f, h), one);
  }

  /** No event with another id stands behind the last end of the run. */
  predicate EndIsLast(h: seq<Event>) {
    forall i :: 0 <= i < |h| && h[i].kind in RUN_ENDS && (forall j :: i < j < |h| ==> h[j].kind !in RUN_ENDS) ==>
      h[i].eventId == Last(h).eventId
  }

  /** The last event of these kinds. */
  lemma {:induction false} LastOfKinds(h: seq<Event>, ks: set<Kind>) returns (i: nat)
    requires OfKinds(h, ks) != []
    ensures i < |h| && h[i] == Last(OfKinds(h, ks)) && h[i].kind in ks
    ensures forall j :: i < j < |h| ==> h[j].kind !in ks
  {
    if Last(h).kind in ks {
      i := |h| - 1;
    } else {
      i := LastOfKinds(Front(h), ks);
      assert forall j :: i < j < |h| - 1 ==> h[j] == Front(h)[j];
    }
  }

  lemma EndMeans(h: seq<Event>)
    ensures EndIsLast(h) <==> OfKinds(h, RUN_ENDS) == [] || Last(h).eventId == Last(OfKinds(h, RUN_ENDS)).eventId
  {
    OfKindsMembers(h, RUN_ENDS);
    if OfKinds(h, RUN_ENDS) == [] {
      forall i | 0 <= i < |h| ensures h[i].kind !in RUN_ENDS { assert h[i] in h; }
    } else {
      var i := LastOfKinds(h, RUN_ENDS);
      hide OfKinds;
      if k :| 0 <= k < |h| && h[k].kind in RUN_ENDS && forall j :: k < j < |h| ==> h[j].kind !in RUN_ENDS {
        assert k == i;
      }
    }
  }

  /** What the loop's projection demands of a ledger. */
  predicate LoopDemands(h: seq<Event>) {
    var mats := Materializations(h);
    && (forall e :: e in h ==> GoodEvent(e))
    && (forall i :: 0 <= i < |mats| ==> MatTaken(h, mats[i]))
    && AtMostOneOpen(h, mats) && EndIsLast(h)
  }

  lemma AssembleMeans(h: seq<Event>, states: seq<CallState>)
    ensures Assemble(h, states).Ok? <==>
              EndIsLast(h) && |PendingApprovals(states)| + |PendingExecutions(states)| <= 1
  {
    EndMeans(h);
    assert h == [] ==> OfKinds(h, RUN_ENDS) == [];
    hide OfKinds, EndIsLast, PendingApprovals, PendingExecutions;
  }

  predicate AtMostOneOpen(h: seq<Event>, mats: seq<Event>) {
    forall i, j :: 0 <= i < j < |mats| && mats[i].meta.call.Some? && mats[j].meta.call.Some? ==>
      !OpenCall(h, mats[i].meta.call.value.body.callId) || !OpenCall(h, mats[j].meta.call.value.body.callId)
  }

  lemma PendingMeans(h: seq<Event>, mats: seq<Event>)
    requires StatesOf(mats, h).Ok? && forall i :: 0 <= i < |mats| ==> mats[i].meta.call.Some?
    ensures var states := StatesOf(mats, h).value;
            |PendingApprovals(states)| + |PendingExecutions(states)| <= 1 <==> AtMostOneOpen(h, mats)
  {
    var states := StatesOf(mats, h).value;
    StatesMean(h, mats);
    PendingAtMostOne(states);
    hide StatesOf, PendingApprovals, PendingExecutions, OpenCall, MatTaken, Running;
    assert forall i :: 0 <= i < |mats| ==>
        (Unresolved(states[i]) <==> OpenCall(h, mats[i].meta.call.value.body.callId));
    hide Unresolved, StandsAs;
    if AtMostOneOpen(h, mats) {
      forall i, j | 0 <= i < j < |states| ensures !Unresolved(states[i]) || !Unresolved(states[j]) {
        assert mats[i].meta.call.Some? && mats[j].meta.call.Some?;
      }
    }
    if forall i, j :: 0 <= i < j < |states| ==> !Unresolved(states[i]) || !Unresolved(states[j]) {
      forall i, j | 0 <= i < j < |mats| ensures !OpenCall(h, mats[i].meta.call.value.body.callId)
          || !OpenCall(h, mats[j].meta.call.value.body.callId) {
        assert !Unresolved(states[i]) || !Unresolved(states[j]);
      }
    }
  }

  /** The loop's projection of a ledger succeeds exactly when its events, its calls and its end are as demanded. */
  lemma LoopAcceptsIff(h: seq<Event>)
    ensures Project(h).Ok? <==> LoopDemands(h)
  {
    var mats := Materializations(h);
    EventErrorsMean(h);
    StatesMean(h, mats);
    hide FirstEventError, StatesOf, OfKinds, GoodEvent, MatTaken, OpenCall, EndIsLast, Unresolved, Assemble,
        AtMostOneOpen;
    if FirstEventError(h).None? && StatesOf(mats, h).Ok? {
      NoErrorMeansCalls(h);
      AssembleMeans(h, StatesOf(mats, h).value);
      PendingMeans(h, mats);
    }
  }

  /** The last event of this kind has the id of the last event of the ledger. */
  predicate LastIs(h: seq<Event>, k: Kind) {
    exists i :: 0 <= i < |h| && h[i].kind == k && (forall j :: i < j < |h| ==> h[j].kind != k)
                && h[i].eventId == Last(h).eventId
  }

  lemma LastIsMeans(h: seq<Event>, k: Kind)
    ensures LastIs(h, k) <==> OfKinds(h, {k}) != [] && Last(h).eventId == Last(OfKinds(h, {k})).eventId
  {
    OfKindsMembers(h, {k});
    if OfKinds(h, {k}) != [] {
      var i := LastOfKinds(h, {k});
      hide OfKinds;
      if n :| 0 <= n < |h| && h[n].kind == k && (forall j :: n < j < |h| ==> h[j].kind != k)
              && h[n].eventId == Last(h).eventId {
        assert n == i;
      }
    } else {
      forall i | 0 <= i < |h| ensures h[i].kind != k { assert h[i] in h; }
    }
  }

  predicate SomeStands(h: seq<Event>, mats: seq<Event>, where: Id -> bool) {
    exists i :: 0 <= i < |mats| && mats[i].meta.call.Some? && where(mats[i].meta.call.value.body.callId)
  }

  lemma {:induction false} FirstPending(states: seq<CallState>)
    ensures PendingApprovals(states) != [] <==> exists i :: 0 <= i < |states| && states[i].PendingApproval()
    ensures PendingExecutions(states) != [] <==> exists i :: 0 <= i < |states| && states[i].PendingExecution()
  {
    if states == [] { return; }
    FirstPending(Front(states));
    assert forall i :: 0 <= i < |states| - 1 ==> Front(states)[i] == states[i];
    assert Last(states) == states[|states| - 1];
  }

  /** What the projection of an accepted ledger says: the end, the calls that are running, waiting for approval or
      ready, and the review. */
  lemma LoopStateMeans(h: seq<Event>)
    requires Project(h).Ok?
    ensures var (s, mats) := (Project(h).value, Materializations(h));
            && (s.end.Some? <==> exists e :: e in h && e.kind in RUN_ENDS)
            && (s.end.Some? ==> s.end.value in h && s.end.value.kind in RUN_ENDS
                                && s.end.value.eventId == Last(h).eventId)
            && (s.interrupted <==> SomeStands(h, mats, (c: Id) => Running(h, c)))
            && (s.pendingApproval.Some? <==> SomeStands(h, mats, (c: Id) => Awaiting(h, c)))
            && (s.pendingExecution.Some? <==> SomeStands(h, mats, (c: Id) => OpenCall(h, c) && !Awaiting(h, c)))
            && (s.waitingReview <==> (exists e :: e in h && e.kind == ReviewRequested)
                                     && (mats == [] || LastIs(h, ReviewRequested)))
  {
    hide OfKinds, StatesOf, FirstEventError, PendingApprovals, PendingExecutions, SomeStands, LastIs, Running, Awaiting,
        OpenCall, MatTaken, StandsAs;
    var (mats, states) := (Materializations(h), StatesOf(Materializations(h), h).value);
    StatesMean(h, mats);
    NoErrorMeansCalls(h);
    FirstPending(states);
    StatesStand(h, mats, states);
    LastIsMeans(h, ReviewRequested);
    SomeKind(h, {ReviewRequested});
    SomeKind(h, RUN_ENDS);
  }

  lemma SomeKind(h: seq<Event>, ks: set<Kind>)
    ensures OfKinds(h, ks) != [] <==> exists e :: e in h && e.kind in ks
    ensures OfKinds(h, ks) != [] ==> Last(OfKinds(h, ks)) in h && Last(OfKinds(h, ks)).kind in ks
  {
    OfKindsMembers(h, ks);
    hide OfKinds;
    if OfKinds(h, ks) != [] { assert Last(OfKinds(h, ks)) in OfKinds(h, ks); }
  }

  lemma StatesStand(h: seq<Event>, mats: seq<Event>, states: seq<CallState>)
    requires |states| == |mats| && forall i :: 0 <= i < |mats| ==>
               mats[i].meta.call.Some? && StandsAs(h, states[i], mats[i].meta.call.value.body.callId)
    ensures (exists s :: s in states && s.Interrupted()) <==> SomeStands(h, mats, (c: Id) => Running(h, c))
    ensures (exists i :: 0 <= i < |states| && states[i].PendingApproval()) <==>
              SomeStands(h, mats, (c: Id) => Awaiting(h, c))
    ensures (exists i :: 0 <= i < |states| && states[i].PendingExecution()) <==>
              SomeStands(h, mats, (c: Id) => OpenCall(h, c) && !Awaiting(h, c))
  {
    hide Running, Awaiting, OpenCall;
    if i :| 0 <= i < |mats| && Running(h, mats[i].meta.call.value.body.callId) { assert states[i] in states; }
    if s :| s in states && s.Interrupted() { var i :| 0 <= i < |states| && states[i] == s; }
  }

  // ---- The inspector

  predicate WasMaterialized(h: seq<Event>, c: Id) { exists m :: m in h && m.kind == Materialized && OfCall(m, c) }

  /** After the events `f` the inspector's first loop takes `e`. */
  predicate Collectable(f: seq<Event>, e: Event) {
    if e.kind == Materialized then
      && NamesCall(e) && e.meta.digest == Some(CallDigest(e.meta.call.value.body))
      && !WasMaterialized(f, e.meta.call.value.body.callId)
    else e.meta.callId.Some? ==> e.kind in CALL_FOLLOWUPS && WasMaterialized(f, e.meta.callId.value)
  }

  lemma CollectErrorMeans(f: seq<Event>, e: Event)
    ensures CollectError(f, e).None? <==> Collectable(f, e)
  {
    CallIdsMembers(Materializations(f));
    OfKindsMembers(f, {Materialized});
    hide OfKinds, CallIds;
    forall c ensures WasMaterialized(f, c) <==> c in CallIds(Materializations(f)) {
      if WasMaterialized(f, c) {
        var m :| m in f && m.kind == Materialized && OfCall(m, c);
        assert m in Materializations(f) && m.meta.callId == Some(c);
      }
      if c in CallIds(Materializations(f)) {
        var m :| m in Materializations(f) && m.meta.callId == Some(c);
        assert m in f && m.kind == Materialized && OfCall(m, c);
      }
    }
    hide WasMaterialized;
  }

  lemma {:induction false} CollectErrorsMean(h: seq<Event>)
    ensures FirstCollectError(h).None? <==> forall i :: 0 <= i < |h| ==> Collectable(h[..i], h[i])
  {
    if h == [] { return; }
    var f := Front(h);
    CollectErrorsMean(f);
    CollectErrorMeans(f, Last(h));
    hide CollectError, Collectable;
    assert forall i :: 0 <= i < |f| ==> f[..i] == h[..i] && f[i] == h[i];
    assert h[..|f|] == f && h[|f|] == Last(h);
  }

  predicate LetterOrDigit(c: char) { 'a' <= c <= 'z' || 'A' <= c <= 'Z' || '0' <= c <= '9' }

  /** A recorded error type is an identifier: 1 to 128 letters, digits, dots, underscores, colons and hyphens, of which
      the first is a letter or digit. */
  predicate NamedOrNone(e: Event) {
    e.meta.errorType.None?
    || (1 <= |e.meta.errorType.value| <= 128 && LetterOrDigit(e.meta.errorType.value[0])
        && forall i :: 0 <= i < |e.meta.errorType.value| ==>
             LetterOrDigit(e.meta.errorType.value[i]) || e.meta.errorType.value[i] in {'.', '_', ':', '-'})
  }

  /** Every follow-up agrees with the step, the tool, the inputs and the digest of the call. */
  predicate FollowupsAgree(h: seq<Event>, call: Call) {
    forall e :: e in h && OfCall(e, call.body.callId) && e.kind in CALL_FOLLOWUPS ==>
      && e.stepId == Some(call.body.stepId) && e.tool == Some(call.body.tool) && e.inputs == call.body.inputs
      && (e.meta.digest.None? || e.meta.digest == Some(CallDigest(call.body)))
  }

  predicate EndsGood(h: seq<Event>, c: Id) {
    forall e :: e in h && OfCall(e, c) && e.kind in EXECUTION_ENDS ==>
      if e.kind == ExecutionSucceeded then GoodResult(e) else NamedOrNone(e)
  }

  predicate InspectorTakes(h: seq<Event>, call: Call) {
    var c := call.body.callId;
    && FollowupsAgree(h, call) && ApprovalsBind(h, call) && Once(h, c) && EndsGood(h, c)
    && (SomeOf(h, c, {CallRejected}) ==> DecidedBy(h, c, Rejected))
  }

  lemma FollowupErrorMeans(h: seq<Event>, call: Call)
    ensures !FollowupError(call, Followups(h, call.body.callId)) <==> FollowupsAgree(h, call)
  {
    RelatedKinds(h, call.body.callId, CALL_FOLLOWUPS);
    hide OfKinds, Related;
  }

  lemma {:induction false} FollowupKinds(rel: seq<Event>, ks: set<Kind>)
    requires ks <= CALL_FOLLOWUPS
    ensures OfKinds(OfKinds(rel, CALL_FOLLOWUPS), ks) == OfKinds(rel, ks)
  {
    if rel == [] { return; }
    FollowupKinds(Front(rel), ks);
    if Last(rel).kind in CALL_FOLLOWUPS { OfKindsSnoc(OfKinds(Front(rel), CALL_FOLLOWUPS), Last(rel), ks); }
  }

  lemma SameLifecycle(rel: seq<Event>)
    ensures LifecycleOf(OfKinds(rel, CALL_FOLLOWUPS)) == LifecycleOf(rel)
  {
    FollowupKinds(rel, {ApprovalRequired});
    FollowupKinds(rel, {ApprovalRecorded});
    FollowupKinds(rel, {CallRejected});
    FollowupKinds(rel, {ExecutionStarted});
    FollowupKinds(rel, EXECUTION_ENDS);
  }

  lemma IdentifierMeans(e: Event)
    ensures e.meta.errorType.Some? ==> (ValidIdentifier(e.meta.errorType.value) <==> NamedOrNone(e))
  {}

  lemma OnlyEnd(l: Lifecycle)
    requires |l.terminals| <= 1 && forall e :: e in l.terminals ==> e.kind in EXECUTION_ENDS
    ensures (forall e :: e in l.terminals ==> if e.kind == ExecutionSucceeded then GoodResult(e)
              else NamedOrNone(e)) <==>
              && (l.terminals != [] && l.terminals[0].kind == ExecutionSucceeded ==>
                    l.terminals[0].meta.result.Some? && l.terminals[0].meta.result.value.Valid())
              && (l.terminals != [] && l.terminals[0].kind == ExecutionFailed ==>
                    l.terminals[0].meta.errorType.Some? ==> ValidIdentifier(l.terminals[0].meta.errorType.value))
  {
    if l.terminals != [] {
      assert l.terminals[0] in l.terminals;
      IdentifierMeans(l.terminals[0]);
    }
    hide ValidIdentifier;
  }

  /** The inspector makes a view of a call exactly when its events pass. */
  lemma InspectorTakesMeans(h: seq<Event>, mat: Event, call: Call)
    ensures ViewOf(mat, call, Followups(h, call.body.callId)).Ok? <==> InspectorTakes(h, call)
  {
    var l := LifecycleOf(Related(h, call.body.callId));
    LifecycleMeans(h, call);
    FollowupErrorMeans(h, call);
    SameLifecycle(Related(h, call.body.callId));
    hide LifecycleOf, Related, SomeOf, OfKinds, FollowupError, FollowupsAgree, EventIds, ValidIdentifier, GoodResult,
        NamedOrNone, ExecutionOf;
    if Once(h, call.body.callId) {
      OnlyApproval(l, call);
      OnlyEnd(l);
      if ApprovalsBind(h, call) { DecisionMeans(h, call, Rejected); }
    }
    hide Once, DecidedBy;
  }

  /** Nothing of the call was rejected, started or ended. */
  predicate PendingCall(h: seq<Event>, c: Id) {
    !DecidedBy(h, c, Rejected) && !SomeOf(h, c, {ExecutionStarted}) && !SomeOf(h, c, EXECUTION_ENDS)
  }

  lemma PendingViewMeans(h: seq<Event>, mat: Event, call: Call)
    requires InspectorTakes(h, call)
    ensures ViewOf(mat, call, Followups(h, call.body.callId)).Ok?
    ensures ViewOf(mat, call, Followups(h, call.body.callId)).value.execution == Pending <==>
              PendingCall(h, call.body.callId)
  {
    InspectorTakesMeans(h, mat, call);
    LifecycleMeans(h, call);
    DecisionMeans(h, call, Rejected);
    SameLifecycle(Related(h, call.body.callId));
    hide LifecycleOf, Related, SomeOf, OfKinds, FollowupError, EventIds, ValidIdentifier, DecidedBy, InspectorTakes,
        Once;
  }

  predicate ViewTaken(h: seq<Event>, m: Event) { m.meta.call.Some? && InspectorTakes(h, m.meta.call.value) }

  predicate PendingMat(h: seq<Event>, m: Event) {
    m.meta.call.Some? && PendingCall(h, m.meta.call.value.body.callId)
  }

  function CountPending(h: seq<Event>, mats: seq<Event>): nat {
    if mats == [] then 0 else CountPending(h, Front(mats)) + (if PendingMat(h, Last(mats)) then 1 else 0)
  }

  /** All views exist exactly when every call passes, and the pending ones are counted. */
  predicate ViewsAre(h: seq<Event>, mats: seq<Event>, r: Result<CallsView, InspectionError>) {
    && (r.Ok? <==> forall i :: 0 <= i < |mats| ==> ViewTaken(h, mats[i]))
    && (r.Ok? ==> r.value.unresolved == CountPending(h, mats))
  }

  lemma ViewsStep(h: seq<Event>, mats: seq<Event>, m: Event, before: Result<CallsView, InspectionError>,
                  v: Result<CallView, InspectionError>)
    requires ViewsAre(h, mats, before) && (v.Ok? <==> ViewTaken(h, m))
    requires v.Ok? ==> (v.value.execution == Pending <==> PendingMat(h, m))
    ensures ViewsAre(h, mats + [m], if before.Err? then before else if v.Err? then Err(v.error)
              else Ok(AddView(before.value, v.value)))
  {
    hide ViewTaken, PendingMat;
    var all := mats + [m];
    Snoc(mats, m);
    assert all[|mats|] == m;
    assert forall i :: 0 <= i < |mats| ==> all[i] == mats[i];
  }

  lemma {:induction false} ViewsMean(h: seq<Event>, mats: seq<Event>)
    ensures ViewsAre(h, mats, ViewsOf(mats, h))
  {
    if mats == [] { return; }
    var (f, m) := (Front(mats), Last(mats));
    ViewsMean(h, f);
    assert mats == f + [m];
    var v := if m.meta.call.None? then Err(BadCall)
             else ViewOf(m, m.meta.call.value, Followups(h, m.meta.call.value.body.callId));
    if m.meta.call.Some? {
      InspectorTakesMeans(h, m, m.meta.call.value);
      if InspectorTakes(h, m.meta.call.value) { PendingViewMeans(h, m, m.meta.call.value); }
    }
    hide ViewOf, Followups, InspectorTakes, PendingCall, ViewsAre, AddView;
    ViewsStep(h, f, m, ViewsOf(f, h), v);
  }

  lemma {:induction false} NoPending(h: seq<Event>, mats: seq<Event>)
    ensures CountPending(h, mats) == 0 <==> forall i :: 0 <= i < |mats| ==> !PendingMat(h, mats[i])
  {
    if mats == [] { return; }
    NoPending(h, Front(mats));
    hide PendingMat;
    assert forall i :: 0 <= i < |mats| - 1 ==> Front(mats)[i] == mats[i];
  }

  lemma {:induction false} OnePending(h: seq<Event>, mats: seq<Event>)
    ensures CountPending(h, mats) <= 1 <==>
              forall i, j :: 0 <= i < j < |mats| ==> !PendingMat(h, mats[i]) || !PendingMat(h, mats[j])
  {
    if mats == [] { return; }
    OnePending(h, Front(mats));
    NoPending(h, Front(mats));
    hide PendingMat;
    assert forall i :: 0 <= i < |mats| - 1 ==> Front(mats)[i] == mats[i];
  }

  /** The start event binds the request it names. */
  predicate StartsBound(h: seq<Event>) {
    && h != [] && h[0].kind == RunStarted && (forall i :: 0 < i < |h| ==> h[i].kind != RunStarted)
    && h[0].meta.start.Some?
    && var b := h[0].meta.start.value;
       && b.requestDigest == b.request && b.request.runId == h[0].runId && b.initialInputs == b.request.inputs
       && b.policyDigest == b.request.policyDigest
  }

  lemma {:induction false} OneStart(h: seq<Event>)
    requires h != [] && h[0].kind == RunStarted
    ensures |OfKinds(h, {RunStarted})| >= 1
    ensures |OfKinds(h, {RunStarted})| == 1 <==> forall i :: 0 < i < |h| ==> h[i].kind != RunStarted
  {
    if |h| == 1 {
      assert OfKinds(Front(h), {RunStarted}) == [];
    } else {
      OneStart(Front(h));
      assert forall i :: 0 <= i < |h| - 1 ==> Front(h)[i] == h[i];
    }
  }

  /** What the inspector demands of a ledger. */
  predicate InspectorDemands(h: seq<Event>) {
    var mats := Materializations(h);
    && StartsBound(h)
    && (forall i :: 0 <= i < |h| ==> Collectable(h[..i], h[i]))
    && (forall i :: 0 <= i < |mats| ==> ViewTaken(h, mats[i]))
    && (forall i, j :: 0 <= i < j < |mats| ==> !PendingMat(h, mats[i]) || !PendingMat(h, mats[j]))
    && EndIsLast(h)
  }

  lemma InspectCallsMeans(h: seq<Event>)
    ensures InspectCalls(h).Ok? <==>
              && (forall i :: 0 <= i < |h| ==> Collectable(h[..i], h[i]))
              && (forall i :: 0 <= i < |Materializations(h)| ==> ViewTaken(h, Materializations(h)[i]))
              && (forall i, j :: 0 <= i < j < |Materializations(h)| ==>
                    !PendingMat(h, Materializations(h)[i]) || !PendingMat(h, Materializations(h)[j]))
  {
    CollectErrorsMean(h);
    ViewsMean(h, Materializations(h));
    OnePending(h, Materializations(h));
    hide FirstCollectError, ViewsOf, OfKinds, Collectable, ViewTaken, PendingMat, CountPending;
  }

  lemma InspectStatusMeans(h: seq<Event>, pending: Option<Call>)
    ensures InspectStatus(h, pending).Ok? <==> EndIsLast(h)
  {
    EndMeans(h);
    assert h == [] ==> OfKinds(h, RUN_ENDS) == [];
    hide OfKinds, EndIsLast, StartWithoutEnd;
  }

  /** The inspection of a ledger succeeds exactly when its start, its events, its calls and its end are as demanded. */
  lemma InspectorAcceptsIff(h: seq<Event>)
    ensures Inspect(h).Ok? <==> InspectorDemands(h)
  {
    if h == [] { return; }
    if h[0].kind == RunStarted { OneStart(h); }
    InspectCallsMeans(h);
    if InspectCalls(h).Ok? { InspectStatusMeans(h, InspectCalls(h).value.pending); }
    hide InspectCalls, InspectStatus, OfKinds, Collectable, ViewTaken, PendingMat, EndIsLast, Counts, FinalIds;
  }
}
