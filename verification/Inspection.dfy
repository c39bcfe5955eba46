/** `RunInspector`: the second, independently written projection of the same
    events (src/molly/core/inspection.py:440-673, 704-738). */
module Inspection {
  import opened RunEvents
  import opened Projection

  datatype InspectionError =
    | NoRun | BadStart | BadCall | BadCallIdentity | DuplicateCall | StrayCallId | UnknownCall
    | BadFollowup | BadApproval | DuplicateLifecycle | BadRejection | BadResult | BadFailureType
    | ManyUnresolvedCalls | EventsAfterRunEnd

  datatype ExecutionStatus = Pending | CallRejectedStatus | CallInterrupted | CallSucceeded | CallFailed

  datatype ApprovalStatus = NotNeeded | Required | Decided(decision: Decision)

  datatype CallView = CallView(
    call: Call, required: bool, approval: ApprovalStatus, execution: ExecutionStatus,
    result: Option<Observation>, failure: Option<string>, outputs: seq<ArtifactId>, eventIds: seq<Id>)
  {
    predicate AwaitsApproval() { execution == Pending && required && approval == Required }
  }

  datatype CallsView = CallsView(views: seq<CallView>, pending: Option<Call>, unresolved: nat)

  datatype RunView = RunView(request: Request, status: Status, counts: Limits, calls: seq<CallView>,
      pending: Option<Call>, finalIds: seq<ArtifactId>)

  predicate AlphaNumeric(c: char) { 'A' <= c <= 'Z' || 'a' <= c <= 'z' || '0' <= c <= '9' }

  predicate IdentifierChar(c: char) { AlphaNumeric(c) || c in {'.', '_', ':', '-'} }

  /** `validate_identifier`: at most 128 characters, the first a letter or digit. */
  predicate ValidIdentifier(s: string) {
    1 <= |s| <= 128 && AlphaNumeric(s[0]) && forall i :: 1 <= i < |s| ==> IdentifierChar(s[i])
  }

  // ---- First loop: collect the calls and the events that follow each

  function CallIdOf(e: Event): set<Id> { if e.meta.callId.Some? then {e.meta.callId.value} else {} }

  function CallIds(mats: seq<Event>): set<Id> {
    if mats == [] then {} else CallIds(Front(mats)) + CallIdOf(Last(mats))
  }

  lemma {:induction false} CallIdsMembers(mats: seq<Event>)
    ensures forall c :: c in CallIds(mats) <==> exists m :: m in mats && m.meta.callId == Some(c)
  {
    if mats != [] {
      CallIdsMembers(Front(mats));
      assert mats == Front(mats) + [Last(mats)];
      forall c: Id | c in CallIds(mats) ensures exists m :: m in mats && m.meta.callId == Some(c) {
        if c in CallIds(Front(mats)) {
          var m :| m in Front(mats) && m.meta.callId == Some(c);
          assert m in mats;
        } else {
          assert Last(mats) in mats;
        }
      }
    }
  }

  /** What is wrong with `e` after the calls `seen` were materialized. */
  function ErrorAfter(seen: set<Id>, e: Event): Option<InspectionError> {
    if e.kind == Materialized then
      if e.meta.call.None? || !e.meta.call.value.Valid() then Some(BadCall)
      else
        var call := e.meta.call.value;
        if e.meta.callId != Some(call.body.callId) || e.stepId != Some(call.body.stepId) then Some(BadCallIdentity)
        else if e.tool != Some(call.body.tool) || e.inputs != call.body.inputs then Some(BadCallIdentity)
        else if e.meta.digest != Some(call.Digest()) then Some(BadCallIdentity)
        else if call.body.callId in seen then Some(DuplicateCall)
        else None
    else if e.meta.callId.None? then None
    else if e.kind !in CALL_FOLLOWUPS then Some(StrayCallId)
    else if e.meta.callId.value !in seen then Some(UnknownCall)
    else None
  }

  function CollectError(h: seq<Event>, e: Event): Option<InspectionError> {
    ErrorAfter(CallIds(Materializations(h)), e)
  }

  function FirstCollectError(h: seq<Event>): Option<InspectionError> {
    if h == [] then None
    else if FirstCollectError(Front(h)).Some? then FirstCollectError(Front(h))
    else CollectError(Front(h), Last(h))
  }

  function Followups(h: seq<Event>, c: Id): seq<Event> { OfKinds(Related(h, c), CALL_FOLLOWUPS) }

  // ---- Second loop: one view per call

  function FollowupError(call: Call, related: seq<Event>): bool {
    exists e :: e in related &&
      (e.stepId != Some(call.body.stepId) || e.tool != Some(call.body.tool) || e.inputs != call.body.inputs
       || (e.meta.digest.Some? && e.meta.digest.value != call.Digest()))
  }

  function ExecutionOf(approval: Option<Approval>, starts: seq<Event>, terminals: seq<Event>): ExecutionStatus {
    if approval.Some? && approval.value.decision == Rejected then CallRejectedStatus
    else if starts != [] && terminals == [] then CallInterrupted
    else if terminals != [] && terminals[0].kind == ExecutionSucceeded then CallSucceeded
    else if terminals != [] then CallFailed
    else Pending
  }

  function EventIds(h: seq<Event>): seq<Id> { seq(|h|, i requires 0 <= i < |h| => h[i].eventId) }

  function ViewFrom(call: Call, l: Lifecycle, ids: seq<Id>): Result<CallView, InspectionError> {
    var approval := l.Recorded();
    var succeeded := l.terminals != [] && l.terminals[0].kind == ExecutionSucceeded;
    var failed := l.terminals != [] && l.terminals[0].kind == ExecutionFailed;
    if |l.approvals| > 1 || (l.approvals != [] && approval.None?) then Err(BadApproval)
    else if approval.Some? && !approval.value.BindsTo(call) then Err(BadApproval)
    else if |l.rejections| > 1 || |l.starts| > 1 || |l.terminals| > 1 then Err(DuplicateLifecycle)
    else if l.rejections != [] && (approval.None? || approval.value.decision != Rejected) then Err(BadRejection)
    else if succeeded && !(l.terminals[0].meta.result.Some?
        && l.terminals[0].meta.result.value.Valid()) then Err(BadResult)
    else if failed && l.terminals[0].meta.errorType.Some? && !ValidIdentifier(l.terminals[0].meta.errorType.value) then
      Err(BadFailureType)
    else
      Ok(CallView(
           call, l.required,
           if approval.Some? then Decided(approval.value.decision) else if l.required then Required else NotNeeded,
           ExecutionOf(approval, l.starts, l.terminals),
           if succeeded then l.terminals[0].meta.result else None,
           if failed then l.terminals[0].meta.errorType else None,
           if succeeded then l.terminals[0].outputs else [],
           ids))
  }

  function ViewOf(mat: Event, call: Call, related: seq<Event>): Result<CallView, InspectionError> {
    if FollowupError(call, related) then Err(BadFollowup)
    else ViewFrom(call, LifecycleOf(related), [mat.eventId] + EventIds(related))
  }

  function AddView(acc: CallsView, v: CallView): CallsView {
    CallsView(acc.views + [v],
              if v.AwaitsApproval() then Some(v.call) else acc.pending,
              acc.unresolved + if v.execution == Pending then 1 else 0)
  }

  function ViewsOf(mats: seq<Event>, h: seq<Event>): Result<CallsView, InspectionError> {
    if mats == [] then Ok(CallsView([], None, 0))
    else
      var (front, m) := (ViewsOf(Front(mats), h), Last(mats));
      if front.Err? then front
      else if m.meta.call.None? then Err(BadCall)
      else
        match ViewOf(m, m.meta.call.value, Followups(h, m.meta.call.value.body.callId))
        case Err(error) => Err(error)
        case Ok(v) => Ok(AddView(front.value, v))
  }

  lemma ViewsNext(mats: seq<Event>, h: seq<Event>, n: nat)
    requires n < |mats| && mats[n].meta.call.Some?
    ensures var (front, call) := (ViewsOf(mats[..n], h), mats[n].meta.call.value);
            var v := ViewOf(mats[n], call, Followups(h, call.body.callId));
            ViewsOf(mats[..n + 1], h) ==
              if front.Err? then front else if v.Err? then Err(v.error) else Ok(AddView(front.value, v.value))
  {
    hide ViewOf, AddView, Followups;
    TakeNext(mats, n);
  }

  lemma {:induction false} NoCollectErrorMeansCalls(h: seq<Event>)
    requires FirstCollectError(h).None?
    ensures forall k :: 0 <= k < |Materializations(h)| ==>
              Materializations(h)[k].meta.call.Some?
              && Materializations(h)[k].meta.callId == Some(Materializations(h)[k].meta.call.value.body.callId)
  {
    if h != [] { NoCollectErrorMeansCalls(Front(h)); }
  }

  /** `_project_calls`. */
  function InspectCalls(h: seq<Event>): Result<CallsView, InspectionError> {
    if FirstCollectError(h).Some? then Err(FirstCollectError(h).value)
    else
      match ViewsOf(Materializations(h), h)
      case Err(error) => Err(error)
      case Ok(acc) => if acc.unresolved > 1 then Err(ManyUnresolvedCalls) else Ok(acc)
  }

  /** Some execution has started and has no end among the events. */
  predicate StartWithoutEnd(h: seq<Event>) {
    exists s :: s in h && s.kind == ExecutionStarted &&
                !exists t :: t in h && t.kind in EXECUTION_ENDS && t.meta.callId == s.meta.callId
  }

  /** `_status`: note that it never looks at the per-call views except for the pending call. */
  function InspectStatus(h: seq<Event>, pending: Option<Call>): Result<Status, InspectionError> {
    var ends := OfKinds(h, RUN_ENDS);
    OfKindsMembers(h, RUN_ENDS);
    if ends != [] then
      if h != [] && Last(h).eventId != Last(ends).eventId then Err(EventsAfterRunEnd)
      else assert Last(ends) in ends; Ok(EndStatus(Last(ends).kind))
    else if StartWithoutEnd(h) then Ok(Interrupted)
    else if pending.Some? then Ok(WaitingApproval)
    else if h != [] && Last(h).kind == ReviewRequested then Ok(WaitingReview)
    else Ok(Active)
  }

  function FinalIds(initial: seq<ArtifactId>, views: seq<CallView>): seq<ArtifactId> {
    if views == [] then initial else AddNew(FinalIds(initial, Front(views)), Last(views).outputs)
  }

  /** `inspect_run` over the events of one run. */
  function Inspect(h: seq<Event>): Result<RunView, InspectionError> {
    if h == [] then Err(NoRun)
    else if |OfKinds(h, {RunStarted})| != 1 || h[0].kind != RunStarted then Err(BadStart)
    else if h[0].meta.start.None? || !h[0].meta.start.value.Consistent(h[0].runId) then Err(BadStart)
    else
      var request := h[0].meta.start.value.request;
      match InspectCalls(h)
      case Err(error) => Err(error)
      case Ok(calls) =>
        match InspectStatus(h, calls.pending)
        case Err(error) => Err(error)
        case Ok(status) =>
          Ok(RunView(request, status, Counts(h), calls.views, calls.pending, FinalIds(request.inputs, calls.views)))
  }

  // ---- The loops of the source, proved to compute the specification

  /** What the first loop knows after `h`: the materializations, and the follow-ups of each call. */
  ghost predicate Tracks(h: seq<Event>, mats: seq<Event>, related: map<Id, seq<Event>>) {
    && mats == Materializations(h) && related.Keys == CallIds(mats)
    && (forall c :: c in related ==> related[c] == Followups(h, c))
    && (forall c :: c !in related ==> Related(h, c) == [])
  }

  lemma CallIdsSnoc(mats: seq<Event>, e: Event)
    ensures CallIds(mats + [e]) == CallIds(mats) + CallIdOf(e)
  { Snoc(mats, e); }

  lemma FollowupsSnoc(h: seq<Event>, e: Event, c: Id)
    ensures Followups(h + [e], c) ==
              if e.meta.callId == Some(c) && e.kind in CALL_FOLLOWUPS then Followups(h, c) + [e] else Followups(h, c)
    ensures Related(h + [e], c) == [] <==> Related(h, c) == [] && e.meta.callId != Some(c)
  {
    RelatedSnoc(h, e, c);
    OfKindsSnoc(Related(h, c), e, CALL_FOLLOWUPS);
  }

  /** The dictionaries after one more event, as the first loop updates them. */
  function TrackedRelated(related: map<Id, seq<Event>>, e: Event): map<Id, seq<Event>> {
    if e.meta.callId.None? then related
    else
      var c := e.meta.callId.value;
      related[c := if e.kind == Materialized || c !in related then [] else related[c] + [e]]
  }

  /** The loop has rejected every event that would not fit here. */
  predicate Fits(e: Event, related: map<Id, seq<Event>>) {
    e.meta.callId.Some? ==> if e.kind == Materialized then e.meta.callId.value !in related
                            else e.kind in CALL_FOLLOWUPS && e.meta.callId.value in related
  }

  lemma NoFollowups(h: seq<Event>, c: Id)
    ensures Related(h, c) == [] ==> Followups(h, c) == []
  {}

  lemma TrackOne(h: seq<Event>, e: Event, related: map<Id, seq<Event>>, c: Id)
    requires if c in related then related[c] == Followups(h, c) else Related(h, c) == []
    requires Fits(e, related)
    ensures var after := TrackedRelated(related, e);
            if c in after then after[c] == Followups(h + [e], c) else Related(h + [e], c) == []
  {
    hide Related, Followups;
    FollowupsSnoc(h, e, c);
    NoFollowups(h, c);
  }

  lemma TrackKeys(e: Event, mats: seq<Event>, related: map<Id, seq<Event>>)
    requires related.Keys == CallIds(mats) && Fits(e, related) && (e.kind == Materialized ==> e.meta.callId.Some?)
    ensures TrackedRelated(related, e).Keys == CallIds(if e.kind == Materialized then mats + [e] else mats)
  {
    hide CallIds;
    CallIdsSnoc(mats, e);
  }

  lemma {:induction false} TrackStep(h: seq<Event>, e: Event, mats: seq<Event>, related: map<Id, seq<Event>>)
    requires Tracks(h, mats, related) && Fits(e, related) && (e.kind == Materialized ==> e.meta.callId.Some?)
    ensures Tracks(h + [e], if e.kind == Materialized then mats + [e] else mats, TrackedRelated(related, e))
  {
    OfKindsSnoc(h, e, {Materialized});
    TrackKeys(e, mats, related);
    hide Related, Followups, TrackedRelated, OfKinds, CallIds, Fits;
    var after := TrackedRelated(related, e);
    forall c: Id ensures if c in after then after[c] == Followups(h + [e], c) else Related(h + [e], c) == [] {
      TrackOne(h, e, related, c);
    }
  }

  lemma CollectNext(events: seq<Event>, i: nat, seen: set<Id>)
    requires i < |events| && FirstCollectError(events[..i]).None? && seen == CallIds(Materializations(events[..i]))
    ensures FirstCollectError(events[..i + 1]) == ErrorAfter(seen, events[i])
    ensures events[..i + 1] == events[..i] + [events[i]]
  {
    hide ErrorAfter, CallIds;
    TakeNext(events, i);
  }

  lemma NoErrorFits(related: map<Id, seq<Event>>, e: Event)
    requires ErrorAfter(related.Keys, e).None?
    ensures Fits(e, related) && (e.kind == Materialized ==> e.meta.callId.Some?)
  {}

  method CollectCalls(events: seq<Event>)
    returns (error: Option<InspectionError>, materialized: seq<Event>, related: map<Id, seq<Event>>)
    ensures error == FirstCollectError(events)
    ensures error.None? ==> Tracks(events, materialized, related)
  {
    hide ErrorAfter, FirstCollectError, Tracks, Fits;
    error, materialized, related := None, [], map[];
    NothingCollected();
    var i := 0;
    while i < |events|
      invariant 0 <= i <= |events|
      invariant FirstCollectError(events[..i]).None?
      invariant Tracks(events[..i], materialized, related)
    {
      var e := events[i];
      TrackedKeys(events[..i], materialized, related);
      CollectNext(events, i, related.Keys);
      var problem := ErrorAfter(related.Keys, e);
      if problem.Some? {
        PrefixCollectError(events, i + 1);
        return problem, materialized, related;
      }
      NoErrorFits(related, e);
      TrackStep(events[..i], e, materialized, related);
      CallKnown(related, e);
      if e.kind == Materialized {
        materialized := materialized + [e];
        related := related[e.meta.callId.value := []];
      } else if e.meta.callId.Some? {
        related := related[e.meta.callId.value := related[e.meta.callId.value] + [e]];
      }
      i := i + 1;
    }
    assert events[..i] == events;
  }

  lemma NothingCollected() ensures FirstCollectError([]).None? && Tracks([], [], map[]) {}

  lemma TrackedKeys(h: seq<Event>, mats: seq<Event>, related: map<Id, seq<Event>>)
    requires Tracks(h, mats, related)
    ensures related.Keys == CallIds(Materializations(h))
  {}

  lemma CallKnown(related: map<Id, seq<Event>>, e: Event)
    requires Fits(e, related)
    ensures e.kind != Materialized && e.meta.callId.Some? ==> e.meta.callId.value in related
    ensures e.kind == Materialized && e.meta.callId.Some? ==> e.meta.callId.value !in related
  {}

  lemma TrackedAt(h: seq<Event>, mats: seq<Event>, related: map<Id, seq<Event>>, k: nat)
    requires Tracks(h, mats, related) && FirstCollectError(h).None? && k < |mats|
    ensures mats[k].meta.call.Some? && mats[k].meta.call.value.body.callId in related
    ensures related[mats[k].meta.call.value.body.callId] == Followups(h, mats[k].meta.call.value.body.callId)
  {
    NoCollectErrorMeansCalls(h);
    CallIdsMembers(mats);
    assert mats[k] in mats;
  }

  /** `_project_calls` as the source runs it. */
  method ProjectCalls(events: seq<Event>) returns (r: Result<CallsView, InspectionError>)
    ensures r == InspectCalls(events)
  {
    var error, materialized, related := CollectCalls(events);
    if error.Some? { return Err(error.value); }
    hide Tracks, ViewOf, AddView, Followups, FirstCollectError, Materializations, ViewsOf;
    assert ViewsOf([], events) == Ok(CallsView([], None, 0)) by { NoViews(events); }
    var acc := CallsView([], None, 0);
    var i := 0;
    while i < |materialized|
      invariant 0 <= i <= |materialized|
      invariant ViewsOf(materialized[..i], events) == Ok(acc)
    {
      var m := materialized[i];
      TrackedAt(events, materialized, related, i);
      var call := m.meta.call.value;
      var v := ViewOf(m, call, related[call.body.callId]);
      ViewsNext(materialized, events, i);
      if v.Err? {
        PrefixViewError(materialized, events, i + 1);
        assert materialized == Materializations(events) by { TracksMats(events, materialized, related); }
        return Err(v.error);
      }
      acc := AddView(acc, v.value);
      i := i + 1;
    }
    assert materialized[..i] == materialized;
    assert materialized == Materializations(events) by { TracksMats(events, materialized, related); }
    if acc.unresolved > 1 { return Err(ManyUnresolvedCalls); }
    r := Ok(acc);
  }

  lemma NoViews(h: seq<Event>)
    ensures ViewsOf([], h) == Ok(CallsView([], None, 0))
  {}

  lemma TracksMats(h: seq<Event>, mats: seq<Event>, related: map<Id, seq<Event>>)
    requires Tracks(h, mats, related)
    ensures mats == Materializations(h)
  {}

  lemma {:induction false} PrefixCollectError(h: seq<Event>, n: nat)
    requires n <= |h| && FirstCollectError(h[..n]).Some?
    ensures FirstCollectError(h) == FirstCollectError(h[..n])
  {
    if n < |h| { assert Front(h)[..n] == h[..n]; PrefixCollectError(Front(h), n); } else { assert h[..n] == h; }
  }

  lemma {:induction false} PrefixViewError(mats: seq<Event>, h: seq<Event>, n: nat)
    requires n <= |mats| && ViewsOf(mats[..n], h).Err?
    ensures ViewsOf(mats, h) == ViewsOf(mats[..n], h)
  {
    if n < |mats| {
      assert Front(mats)[..n] == mats[..n];
      PrefixViewError(Front(mats), h, n);
    } else {
      assert mats[..n] == mats;
    }
  }
}
