/** Safety and bounds over whole runs: budgets, at-most-once lifecycles, and
    approval before execution (src/molly/core/agent_loop.py:423-516, 882-950, 988-1058). */
module RunSafety {
  import opened RunEvents
  import opened Projection
  import opened RunHistory
  import opened Inspection
  import opened RunTheorems

  // ---- Budget

  lemma StepsSnoc(h: seq<Event>, e: Event)
    ensures Steps(h + [e]) == Steps(h) + (if e.kind == Materialized && e.stepId.Some? then {e.stepId.value} else {})
  {
    OfKindsSnoc(h, e, {Materialized});
    var (mats, after) := (Materializations(h), Materializations(h + [e]));
    if e.kind == Materialized {
      assert after == mats + [e] && e in after;
      assert forall m :: m in mats ==> m in after;
    }
  }

  lemma CountsSnoc(h: seq<Event>, e: Event)
    requires e.kind == Materialized ==> e.stepId.Some? && e.stepId.value !in Steps(h)
    ensures Counts(h + [e]) == match e.kind
                               case DecisionRecorded => Counts(h).(decisions := Counts(h).decisions + 1)
                               case Materialized => Counts(h).(toolCalls := Counts(h).toolCalls + 1,
                                   steps := Counts(h).steps + 1)
                               case _ => Counts(h)
  {
    OfKindsSnoc(h, e, {DecisionRecorded});
    OfKindsSnoc(h, e, {Materialized});
    StepsSnoc(h, e);
  }

  lemma FreshStep(h: seq<Event>, body: CallBody)
    requires FreshCall(h, body)
    ensures body.stepId !in Steps(h)
  {
    OfKindsMembers(h, {Materialized});
  }

  predicate WithinBudget(c: Limits, limits: Limits) {
    && c.decisions <= limits.decisions && c.toolCalls <= limits.toolCalls && c.steps <= limits.steps
    && c.steps == c.toolCalls
  }

  /** After a decision a call still fits: the limits were strictly below when it was taken. */
  predicate RoomAfterDecision(h: seq<Event>, limits: Limits) {
    h != [] && Last(h).kind == DecisionRecorded ==>
      Counts(h).toolCalls < limits.toolCalls && Counts(h).steps < limits.steps
          && Counts(h).toolCalls < Counts(h).decisions
  }

  ghost predicate Budget(h: seq<Event>) {
    h != [] ==>
      && h[0].meta.start.Some?
      && WithinBudget(Counts(h), EffectiveLimits(RequestOf(h)))
      && Counts(h).toolCalls <= Counts(h).decisions
      && RoomAfterDecision(h, EffectiveLimits(RequestOf(h)))
  }

  lemma FirstCounts(e: Event)
    requires e.kind == RunStarted
    ensures Counts([e]) == Limits(0, 0, 0)
  {
    Snoc([], e);
    assert [] + [e] == [e];
    OfKindsSnoc([], e, {DecisionRecorded});
    OfKindsSnoc([], e, {Materialized});
    StepsSnoc([], e);
  }

  lemma {:induction false} BudgetStep(policy: Policy, h: seq<Event>, e: Event)
    requires Budget(h) && Appendable(policy, h, e)
    ensures Budget(h + [e])
  {
    Snoc(h, e);
    hide Counts;
    if h == [] {
      assert h + [e] == [e];
      FirstCounts(e);
    } else {
      assert (h + [e])[0] == h[0];
      if e.kind == Materialized {
        NewCallForm(policy, h, e);
        FreshStep(h, e.meta.call.value.body);
      }
      CountsSnoc(h, e);
    }
  }

  lemma {:induction false} BudgetKept(policy: Policy, h: seq<Event>)
    requires History(policy, h)
    ensures Budget(h)
  {
    hide History, Appendable;
    if h == [] { return; }
    hide Budget;
    HistoryTail(policy, h);
    BudgetKept(policy, Front(h));
    BudgetStep(policy, Front(h), Last(h));
  }

  /** Decisions, calls and distinct steps so far all lie below their limits. */
  predicate HasRoom(r: Request, h: seq<Event>) {
    && |OfKinds(h, {DecisionRecorded})| < EffectiveLimits(r).decisions
    && |OfKinds(h, {Materialized})| < EffectiveLimits(r).toolCalls && |Steps(h)| < EffectiveLimits(r).steps
  }

  /** Decisions, calls or distinct steps have reached their limit, exactly. */
  predicate Spent(r: Request, h: seq<Event>) {
    || |OfKinds(h, {DecisionRecorded})| == EffectiveLimits(r).decisions
    || |OfKinds(h, {Materialized})| == EffectiveLimits(r).toolCalls || |Steps(h)| == EffectiveLimits(r).steps
  }

  lemma StrictLimit(r: Request, h: seq<Event>)
    ensures LimitHit(r, h, false) <==> !HasRoom(r, h)
  {}

  /** Where a decision is recorded there was room, and where the budget ends a limit is reached exactly: no run gives
      up early and none goes on too long. */
  lemma LimitsDecide(policy: Policy, h: seq<Event>, k: nat)
    requires History(policy, h) && 0 < k < |h|
    ensures h[0].meta.start.Some?
    ensures h[k].kind == DecisionRecorded ==> HasRoom(RequestOf(h), h[..k])
    ensures h[k].kind == BudgetExhausted ==> Spent(RequestOf(h), h[..k]) && Spent(RequestOf(h), h) && k == |h| - 1
  {
    hide History, Appendable;
    PrefixHistory(policy, h, k);
    PrefixHistory(policy, h, k + 1);
    TakeNext(h, k);
    HistoryTail(policy, h[..k + 1]);
    AnyForm(policy, h[..k], h[k]);
    LimitForm(policy, h[..k], h[k]);
    BudgetKept(policy, h[..k]);
    StrictLimit(RequestOf(h[..k]), h[..k]);
    if h[k].kind == BudgetExhausted {
      NothingBehindEnd(policy, h, k);
      assert h == h[..k] + [h[k]];
      CountsSnoc(h[..k], h[k]);
    }
  }

  lemma LimitForm(policy: Policy, h: seq<Event>, e: Event)
    requires Appendable(policy, h, e) && h != []
    ensures h[0].meta.start.Some?
    ensures e.kind == DecisionRecorded ==> !LimitHit(RequestOf(h), h, false)
    ensures e.kind == BudgetExhausted ==> LimitHit(RequestOf(h), h, false)
  {
    hide LimitHit, Carries, Visible;
  }

  lemma NothingBehindEnd(policy: Policy, h: seq<Event>, k: nat)
    requires History(policy, h) && k < |h| && h[k].kind in RUN_ENDS
    ensures k == |h| - 1
  {
    hide History, Appendable;
    if k + 1 < |h| {
      PrefixHistory(policy, h, k + 2);
      TakeNext(h, k + 1);
      HistoryTail(policy, h[..k + 2]);
      AnyForm(policy, h[..k + 1], h[k + 1]);
    }
  }

  function Total(gs: seq<seq<Event>>): nat {
    if gs == [] then 0 else Total(Front(gs)) + |Last(gs)|
  }

  lemma {:induction false} TotalBound(gs: seq<seq<Event>>)
    requires forall k :: 0 <= k < |gs| ==> |gs[k]| <= 5
    ensures Total(gs) <= 5 * |gs|
  {
    if gs != [] { TotalBound(Front(gs)); }
  }

  function Closing(h: seq<Event>): nat { if h != [] && Last(h).kind in RUN_ENDS + {ReviewRequested} then 1 else 0 }

  /** Every event is the start, a decision, an event of one call, or the closing event. */
  ghost predicate Accounted(h: seq<Event>) {
    h != [] ==> |h| == 1 + |OfKinds(h, {DecisionRecorded})| + Total(Groups(h)) + Closing(h)
  }

  lemma TotalSnoc(gs: seq<seq<Event>>, g: seq<Event>)
    ensures Total(gs + [g]) == Total(gs) + |g|
  { Snoc(gs, g); }

  lemma {:induction false} CallAccounted(h: seq<Event>, e: Event)
    requires Accounted(h) && h != [] && Last(h).kind !in RUN_ENDS + {ReviewRequested} && e.kind in CALL_KINDS
    requires e.kind != Materialized ==> Groups(h) != []
    ensures Accounted(h + [e])
  {
    Snoc(h, e);
    OfKindsSnoc(h, e, {DecisionRecorded});
    GroupsSnoc(h, e);
    var gs := Groups(h);
    hide OfKinds, Groups, Total;
    if e.kind == Materialized {
      TotalSnoc(gs, [e]);
    } else {
      TotalSnoc(Front(gs), Last(gs));
      assert Front(gs) + [Last(gs)] == gs;
      TotalSnoc(Front(gs), Last(gs) + [e]);
    }
  }

  lemma {:induction false} OtherAccounted(h: seq<Event>, e: Event)
    requires Accounted(h) && (h != [] ==> Last(h).kind !in RUN_ENDS + {ReviewRequested})
    requires if h == [] then e.kind == RunStarted else e.kind in RUN_ENDS + {DecisionRecorded, ReviewRequested}
    ensures Accounted(h + [e])
  {
    Snoc(h, e);
    OfKindsSnoc(h, e, {DecisionRecorded});
    GroupsSnoc(h, e);
    EmptyTotals();
    hide OfKinds, Groups, Total;
  }

  lemma OtherKinds(policy: Policy, h: seq<Event>, e: Event)
    requires Appendable(policy, h, e) && e.kind !in CALL_KINDS
    ensures if h == [] then e.kind == RunStarted else e.kind in RUN_ENDS + {DecisionRecorded, ReviewRequested}
  {}

  lemma {:induction false} AccountedStep(policy: Policy, h: seq<Event>, e: Event)
    requires Accounted(h) && Kept(policy, h) && Appendable(policy, h, e)
    ensures Accounted(h + [e])
  {
    hide Accounted, RunKept, GroupsKept, HeadsKept;
    AnyForm(policy, h, e);
    if e.kind == Materialized {
      NewCallForm(policy, h, e);
      CallAccounted(h, e);
    } else if e.kind in CALL_FOLLOWUPS {
      FollowupForm(policy, h, e);
      CallAccounted(h, e);
    } else {
      OtherKinds(policy, h, e);
      OtherAccounted(h, e);
    }
  }

  lemma EmptyTotals()
    ensures Groups([]) == [] && Total([]) == 0 && OfKinds([], {DecisionRecorded}) == []
  {}

  lemma {:induction false} EventsAccounted(policy: Policy, h: seq<Event>)
    requires History(policy, h)
    ensures Accounted(h)
  {
    hide History, Kept, Appendable, Groups, OfKinds;
    if h == [] { return; }
    hide Accounted;
    HistoryTail(policy, h);
    HistoryKept(policy, Front(h));
    EventsAccounted(policy, Front(h));
    AccountedStep(policy, Front(h), Last(h));
  }

  /** No run, over all its crashes and resumes, passes its effective limits: decisions, calls
      and steps stay within them, the relaxed check before a pending execution never fires,
      and the loop's own events are bounded. */
  lemma RunIsBounded(policy: Policy, h: seq<Event>)
    requires History(policy, h) && h != []
    ensures h[0].meta.start.Some?
    ensures var limits := EffectiveLimits(RequestOf(h));
            && WithinBudget(Counts(h), limits) && Counts(h).toolCalls <= Counts(h).decisions
            && !LimitHit(RequestOf(h), h, true)
            && |h| <= 2 + limits.decisions + 5 * Min(limits.toolCalls, limits.steps)
  {
    BudgetKept(policy, h);
    EventsAccounted(policy, h);
    HistoryKept(policy, h);
    var gs := Groups(h);
    hide Groups, OfKinds, History, RunKept, LastFits;
    forall k | 0 <= k < |gs| ensures |gs[k]| <= 5 {
      assert CallShape(gs[k]);
      ShapePositions(gs[k]);
    }
    TotalBound(gs);
  }

  /** A run without a legacy budget has at most 54 events, whatever happens and however often it is resumed. */
  lemma AtMostFiftyFour(policy: Policy, h: seq<Event>)
    requires History(policy, h) && h != []
    ensures h[0].meta.start.Some? && (RequestOf(h).legacy.None? ==> |h| <= 54)
  {
    hide History, Counts;
    RunIsBounded(policy, h);
  }

  // ---- Inputs

  lemma InputsSeen(policy: Policy, h: seq<Event>, e: Event)
    requires Appendable(policy, h, e) && e.kind == Materialized
    ensures h != [] && h[0].meta.start.Some? && forall a :: a in e.inputs ==> a in Visible(RequestOf(h), h)
  {
    hide Visible, Carries, FreshCall;
  }

  lemma DistinctInputs(policy: Policy, h: seq<Event>)
    requires History(policy, h) && h != []
    ensures h[0].meta.start.Some? && Distinct(RequestOf(h).inputs)
  {
    hide History, GroupsKept, HeadsKept, LastFits;
    HistoryKept(policy, h);
  }

  /** A call only ever uses what its run was given or what an earlier call of the run has produced. */
  lemma InputsAreKnown(policy: Policy, h: seq<Event>, k: nat, a: ArtifactId)
    requires History(policy, h) && k < |h| && h[k].kind == Materialized && a in h[k].inputs
    ensures h[0].meta.start.Some?
    ensures a in RequestOf(h).inputs
            || exists j :: 0 <= j < k && h[j].kind == ExecutionSucceeded && a in h[j].outputs
  {
    PrefixHistory(policy, h, k);
    PrefixHistory(policy, h, k + 1);
    TakeNext(h, k);
    HistoryTail(policy, h[..k + 1]);
    hide History, Appendable, Visible, Distinct;
    InputSource(policy, h[..k], h[k], a);
    if e :| e in h[..k] && e.kind == ExecutionSucceeded && a in e.outputs {
      var j :| 0 <= j < k && h[..k][j] == e;
      assert h[j] == e;
    }
  }

  lemma InputSource(policy: Policy, h: seq<Event>, e: Event, a: ArtifactId)
    requires History(policy, h) && Appendable(policy, h, e) && e.kind == Materialized && a in e.inputs
    ensures h != [] && h[0].meta.start.Some?
    ensures a in RequestOf(h).inputs || exists x :: x in h && x.kind == ExecutionSucceeded && a in x.outputs
  {
    InputsSeen(policy, h, e);
    hide History, Appendable, Visible;
    DistinctInputs(policy, h);
    VisibleExactly(RequestOf(h), h, a);
  }

  // ---- Lifecycle

  const LIFECYCLE: set<set<Kind>> :=
    {{ApprovalRequired}, {ApprovalRecorded}, {CallRejected}, {ExecutionStarted}, EXECUTION_ENDS}

  /** Whatever the call id: at most one approval request, approval, rejection, start and end. */
  lemma LifecycleAtMostOnce(policy: Policy, h: seq<Event>, c: Id, ks: set<Kind>)
    requires History(policy, h) && ks in LIFECYCLE
    ensures |OfKinds(Related(h, c), ks)| <= 1
  {
    hide History, CallShape, Related;
    var rel := Related(h, c);
    if rel == [] { return; }
    RelatedIsSomeGroup(policy, h, c);
    ShapePositions(rel);
    hide Positions, OfKinds;
    LifecycleOnce(rel, ks);
  }

  lemma LifecycleOnce(rel: seq<Event>, ks: set<Kind>)
    requires Positions(rel) && ks in LIFECYCLE
    ensures |OfKinds(rel, ks)| <= 1
  {
    hide OfKinds;
    var asked := |rel| > 1 && rel[1].kind == ApprovalRequired;
    var refused := |rel| > 3 && rel[3].kind == CallRejected;
    if ks == {ApprovalRequired} { KindAt(rel, ks, 1, asked); }
    else if ks == {ApprovalRecorded} { KindAt(rel, ks, 2, |rel| > 2 && asked); }
    else if ks == {CallRejected} { KindAt(rel, ks, 3, refused); }
    else if ks == {ExecutionStarted} {
      KindAt(rel, ks, if asked then 3 else 1, if asked then |rel| > 3 && !refused else |rel| > 1);
    } else {
      KindAt(rel, EXECUTION_ENDS, if asked then 4 else 2, if asked then |rel| > 4 else |rel| > 2);
    }
  }

  lemma RelatedIsSomeGroup(policy: Policy, h: seq<Event>, c: Id)
    requires History(policy, h) && Related(h, c) != []
    ensures CallShape(Related(h, c))
  {
    var e := Related(h, c)[0];
    RelatedMembers(h, c);
    assert e in Related(h, c);
    CallIdsMarkCallEvents(policy, h, e);
    var k := EventHasGroup(policy, h, e);
    HistoryKept(policy, h);
    HeadsBound(Groups(h), k);
    GroupsSelected(policy, h);
    assert CallShape(Groups(h)[k]);
  }

  // ---- Approval

  predicate ApprovedFor(a: Event, s: Event) {
    ApprovedBy(a) && a.meta.callId == s.meta.callId && Some(a.meta.approval.value.callDigest) == s.meta.digest
  }

  predicate RequestedFor(q: Event, s: Event) { q.kind == ApprovalRequired && q.meta.callId == s.meta.callId }

  /** The event before a start decides: an approval of this very call, or its bare materialization. */
  lemma {:induction false} StartForm(policy: Policy, h: seq<Event>, i: nat)
    requires History(policy, h) && i < |h| && h[i].kind == ExecutionStarted
    ensures i > 0 && h[i].meta.callId.Some? && h[i].meta.digest.Some?
    ensures ApprovedFor(h[i - 1], h[i]) || (h[i - 1].kind == Materialized && h[i - 1].meta.callId == h[i].meta.callId)
  {
    hide Appendable, History, OfKinds, Groups;
    PrefixHistory(policy, h, i + 1);
    TakeNext(h, i);
    HistoryTail(policy, h[..i + 1]);
    StartFollows(policy, h[..i], h[i]);
  }

  lemma {:induction false} StartFollows(policy: Policy, f: seq<Event>, e: Event)
    requires History(policy, f) && Appendable(policy, f, e) && e.kind == ExecutionStarted
    ensures f != [] && e.meta.callId.Some? && e.meta.digest.Some?
    ensures ApprovedFor(Last(f), e) || (Last(f).kind == Materialized && Last(f).meta.callId == e.meta.callId)
  {
    hide Appendable, History, RunKept, HeadsKept, OfKinds, Groups;
    FollowupForm(policy, f, e);
    HistoryKept(policy, f);
    CurrentHead(policy, f);
    var gs: seq<seq<Event>> := Groups(f);
    var g: seq<Event> := gs[|gs| - 1];
    HeadsBound(gs, |gs| - 1);
    assert CallShape(g) && Last(g) in g && Last(g) == Last(f);
  }

  lemma CurrentHead(policy: Policy, h: seq<Event>)
    requires Kept(policy, h) && Groups(h) != []
    ensures Last(Groups(h)) != [] && CurrentCall(h) == Last(Groups(h))[0].meta.call
  {}

  lemma {:induction false} RequestRulesOutBareStart(rel: seq<Event>, q: Event, s: Event)
    requires Positions(rel) && q in rel && q.kind == ApprovalRequired && s in rel && s.kind == ExecutionStarted
    ensures |rel| > 3 && rel[1] == q && rel[3] == s && ApprovedBy(rel[2])
  {
    var i :| 0 <= i < |rel| && rel[i] == q;
    var j :| 0 <= j < |rel| && rel[j] == s;
  }

  /** A started call was approved beforehand exactly when its approval request is in the ledger. */
  lemma {:induction false} StartApprovedIffRequested(policy: Policy, h: seq<Event>, i: nat)
    requires History(policy, h) && i < |h| && h[i].kind == ExecutionStarted
    ensures (exists a :: 0 <= a < i && ApprovedFor(h[a], h[i])) <==> (exists q :: q in h && RequestedFor(q, h[i]))
  {
    hide History, Related, CallShape, Appendable;
    StartForm(policy, h, i);
    var s := h[i];
    var c := s.meta.callId.value;
    var rel := Related(h, c);
    RelatedMembers(h, c);
    assert s in h && s in rel;
    RelatedIsSomeGroup(policy, h, c);
    ShapePositions(rel);
    if exists q :: q in h && RequestedFor(q, s) {
      var q :| q in h && RequestedFor(q, s);
      RequestRulesOutBareStart(rel, q, s);
      if h[i - 1].kind == Materialized { BareStartAlone(policy, h, i); }
      assert ApprovedFor(h[i - 1], h[i]);
    }
    if exists a :: 0 <= a < i && ApprovedFor(h[a], s) {
      var a :| 0 <= a < i && ApprovedFor(h[a], s);
      assert h[a] in h && h[a] in rel;
      var j :| 0 <= j < |rel| && rel[j] == h[a];
      assert rel[1] in rel && RequestedFor(rel[1], s);
    }
  }

  /** A call about to be executed has no start yet. */
  lemma NotYetStarted(policy: Policy, h: seq<Event>, e: Event)
    requires History(policy, h) && Appendable(policy, h, e) && e.kind == ExecutionStarted && e.meta.callId.Some?
    ensures forall s :: s in h && s.kind == ExecutionStarted ==> s.meta.callId != e.meta.callId
  {
    var c := e.meta.callId.value;
    Snoc(h, e);
    assert History(policy, h + [e]);
    hide Appendable, History;
    LifecycleAtMostOnce(policy, h + [e], c, {ExecutionStarted});
    RelatedSnoc(h, e, c);
    OfKindsSnoc(Related(h, c), e, {ExecutionStarted});
    RelatedMembers(h, c);
    OfKindsMembers(Related(h, c), {ExecutionStarted});
    forall s | s in h && s.kind == ExecutionStarted ensures s.meta.callId != e.meta.callId {
      assert s !in OfKinds(Related(h, c), {ExecutionStarted});
    }
  }

  /** A call whose start directly follows its materialization never has an approval request. */
  lemma {:induction false} BareStartAlone(policy: Policy, h: seq<Event>, i: nat)
    requires History(policy, h) && 0 < i < |h| && h[i].kind == ExecutionStarted && h[i].meta.callId.Some?
    requires h[i - 1].kind == Materialized && h[i - 1].meta.callId == h[i].meta.callId
    ensures |Related(h, h[i].meta.callId.value)| < 4
  {
    hide History, Related, CallShape;
    var c := h[i].meta.callId.value;
    PrefixHistory(policy, h, i + 1);
    RelatedPrefix(h, c, i + 1);
    var early := Related(h[..i + 1], c);
    RelatedTwoLast(h, c, i);
    RelatedIsSomeGroup(policy, h[..i + 1], c);
    ShapePositions(early);
    RelatedIsSomeGroup(policy, h, c);
    ShapePositions(Related(h, c));
    BareStartIsSecond(early, Related(h, c));
  }

  lemma RelatedTwoLast(h: seq<Event>, c: Id, i: nat)
    requires 0 < i < |h| && h[i].meta.callId == Some(c) && h[i - 1].meta.callId == Some(c)
    ensures var early := Related(h[..i + 1], c);
            |early| >= 2 && early[|early| - 1] == h[i] && early[|early| - 2] == h[i - 1]
  {
    TakeNext(h, i);
    TakeNext(h, i - 1);
  }

  lemma BareStartIsSecond(early: seq<Event>, rel: seq<Event>)
    requires Positions(early) && Positions(rel) && early <= rel && |early| >= 2
    requires early[|early| - 1].kind == ExecutionStarted && early[|early| - 2].kind == Materialized
    ensures |rel| < 4
  {}

  lemma {:induction false} RelatedPrefix(h: seq<Event>, c: Id, n: nat)
    requires n <= |h|
    ensures |Related(h[..n], c)| <= |Related(h, c)|
    ensures Related(h[..n], c) == Related(h, c)[..|Related(h[..n], c)|]
  {
    if n < |h| {
      RelatedPrefix(Front(h), c, n);
      assert Front(h)[..n] == h[..n];
    } else {
      assert h[..n] == h;
    }
  }

  /** A rejected call never starts, whatever happens afterwards. */
  lemma {:induction false} RejectedNeverStarts(policy: Policy, h: seq<Event>, r: Event, s: Event)
    requires History(policy, h) && r in h && RejectedBy(r) && s in h && s.meta.callId == r.meta.callId
    ensures s.kind != ExecutionStarted && s.kind !in EXECUTION_ENDS
  {
    hide Related, History, CallShape, Appendable;
    CallIdsMarkCallEvents(policy, h, r);
    var c := r.meta.callId.value;
    RelatedMembers(h, c);
    assert r in Related(h, c) && s in Related(h, c);
    RelatedIsSomeGroup(policy, h, c);
    var rel := Related(h, c);
    ShapePositions(rel);
    var i :| 0 <= i < |rel| && rel[i] == r;
    var j :| 0 <= j < |rel| && rel[j] == s;
  }

  /** A crash between materialization and approval request leaves a call that starts although
      the policy wants approval and nobody gave it: the documented guarantee fails here. */
  lemma {:induction false} UnapprovedStart() returns (policy: Policy, h: seq<Event>)
    ensures History(policy, h) && h != []
    ensures Last(h).kind == ExecutionStarted && CurrentCall(h).Some?
    ensures policy.requiresApproval(CurrentCall(h).value.body.specDigest)
    ensures !exists a :: a in h && a.kind == ApprovalRecorded
  {
    var body := CallBody(1, 20, 30, Tool("tool", "1"), 3, 7, 0, [], 0);
    var call := Call(body, CallDigest(body), "why");
    var start := CallEvent(ExecutionStarted, 3, 0, call, [], NO_METADATA);
    policy, h := Policy(7, spec => spec == 3), UntilMaterialized(call) + [start];
    hide History, UntilMaterialized, OfKinds;
    StartedHistory(policy, call, start);
  }

  /** An exception class whose name starts with an underscore is recorded as it is, and then the
      inspector refuses the run although the loop goes on. */
  lemma {:induction false} UnnamedFailure() returns (policy: Policy, h: seq<Event>)
    ensures History(policy, h) && h != [] && Project(h).Ok? && Inspect(h).Err?
  {
    hide Appendable, Project, Inspect, History, UntilMaterialized, OfKinds, SafeErrorType;
    var body := CallBody(1, 20, 30, Tool("tool", "1"), 3, 7, 0, [], 0);
    var call := Call(body, CallDigest(body), "why");
    var (start, fail) := (CallEvent(ExecutionStarted, 3, 0, call, [], NO_METADATA),
                          CallEvent(ExecutionFailed, 4, 0, call, [],
                              NO_METADATA.(errorType := Some(SafeErrorType("_Private")))));
    var f := UntilMaterialized(call);
    policy, h := Policy(7, spec => false), f + [start] + [fail];
    StartedHistory(policy, call, start);
    FailedHistory(policy, f + [start], call, fail);
    ProjectionsAgree(policy, h);
    PrivateName();
    assert fail in h && !NamedFailure(fail);
  }

  lemma PrivateName()
    ensures SafeErrorType("_Private") == "_Private"
  {}

  lemma {:induction false} StartedHistory(policy: Policy, call: Call, start: Event)
    requires policy.digest == 7 && call.Valid() && call.reason == "why"
    requires call.body == CallBody(1, 20, 30, Tool("tool", "1"), call.body.specDigest, 7, 0, [], call.body.createdAt)
    requires start == CallEvent(ExecutionStarted, 3, 0, call, [], NO_METADATA)
    ensures var h := UntilMaterialized(call) + [start];
            && History(policy, h) && Last(h) == start && CurrentCall(h) == Some(call)
            && !exists a :: a in h && a.kind == ApprovalRecorded
    ensures (UntilMaterialized(call) + [start])[0] == StartEvent(0, 0, Request(1, "goal", [], 7, None))
    ensures forall e :: e in UntilMaterialized(call) + [start] ==> e.eventId < 4
  {
    var f := UntilMaterialized(call);
    MaterializedHistory(policy, call);
    OfKindsSnoc(f, start, {Materialized});
    StartLegal(policy, f, call, start);
    hide OfKinds, History;
    HistoryGrows(policy, f, start);
  }

  lemma StartLegal(policy: Policy, h: seq<Event>, call: Call, start: Event)
    requires h != [] && Last(h).kind == Materialized && CurrentCall(h) == Some(call) && call.body.runId == 1
    requires h[0].meta.start.Some? && RequestOf(h).runId == 1 && forall e :: e in h ==> e.eventId < 3
    requires start == CallEvent(ExecutionStarted, 3, 0, call, [], NO_METADATA)
    ensures Appendable(policy, h, start)
  {
    hide OfKinds;
  }

  lemma {:induction false} FailedHistory(policy: Policy, h: seq<Event>, call: Call, fail: Event)
    requires History(policy, h) && h != [] && Last(h).kind == ExecutionStarted && CurrentCall(h) == Some(call)
               && call.body.runId == 1
    requires h[0].meta.start.Some? && RequestOf(h).runId == 1 && forall e :: e in h ==> e.eventId < 4
    requires fail == CallEvent(ExecutionFailed, 4, 0, call, [],
               NO_METADATA.(errorType := Some(SafeErrorType("_Private"))))
    ensures History(policy, h + [fail])
  {
    hide History, OfKinds;
    Snoc(h, fail);
    assert Appendable(policy, h, fail);
    HistoryGrows(policy, h, fail);
  }

  lemma HistoryGrows(policy: Policy, h: seq<Event>, e: Event)
    requires History(policy, h) && Appendable(policy, h, e)
    ensures History(policy, h + [e])
  {
    hide Appendable;
    Snoc(h, e);
  }

  /** A crash right after a rejection was recorded leaves the run ACTIVE, with nothing pending:
      the loop will ask the provider again, but the rejected call is settled. */
  lemma RecordedRejectionResumesActive(policy: Policy, h: seq<Event>)
    requires History(policy, h) && h != [] && RejectedBy(Last(h))
    ensures Project(h).Ok? && Project(h).value.end.None? && StatusOf(Project(h).value) == Active
    ensures Project(h).value.pendingApproval.None? && Project(h).value.pendingExecution.None?
    ensures forall e :: Appendable(policy, h, e) ==> e.kind in {CallRejected, DecisionRecorded, BudgetExhausted}
  {
    hide History, Project;
    ProjectionTotal(policy, h);
  }

  function UntilMaterialized(call: Call): seq<Event> {
    [StartEvent(0, 0, Request(1, "goal", [], 7, None)),
     PlainEvent(DecisionRecorded, 1, 0, 1, Some(Propose("tool", 0, [], "why"))),
     CallEvent(Materialized, 2, 0, call, [], NO_METADATA.(call := Some(call)))]
  }

  lemma DecidedHistory(policy: Policy, start: Event, decided: Event)
    requires policy.digest == 7 && start == StartEvent(0, 0, Request(1, "goal", [], 7, None))
    requires decided == PlainEvent(DecisionRecorded, 1, 0, 1, Some(Propose("tool", 0, [], "why")))
    ensures History(policy, [start] + [decided])
  {
    FirstCounts(start);
    assert Appendable(policy, [], start) && Appendable(policy, [start], decided);
    hide Appendable, Counts;
    assert [] + [start] == [start];
    HistoryGrows(policy, [], start);
    HistoryGrows(policy, [start], decided);
  }

  lemma {:induction false} MaterializedHistory(policy: Policy, call: Call)
    requires policy.digest == 7 && call.Valid() && call.reason == "why"
    requires call.body == CallBody(1, 20, 30, Tool("tool", "1"), call.body.specDigest, 7, 0, [], call.body.createdAt)
    ensures History(policy, UntilMaterialized(call)) && CurrentCall(UntilMaterialized(call)) == Some(call)
  {
    var h := UntilMaterialized(call);
    var f := [h[0]] + [h[1]];
    DecidedHistory(policy, h[0], h[1]);
    assert h == f + [h[2]];
    OfKindsSnoc(f, h[2], {Materialized});
    hide OfKinds, History, Visible;
    assert Appendable(policy, f, h[2]);
    HistoryGrows(policy, f, h[2]);
  }

  // ---- Several runs in one ledger

  /** A ledger several runs append to, each event legal for its own run. */
  ghost predicate SharedLedger(policy: Policy, log: seq<Event>) {
    log == [] || (SharedLedger(policy, Front(log))
        && Appendable(policy, ForRun(Front(log), Last(log).runId), Last(log)))
  }

  /** Interleaving does not matter: every run's own events form a history. */
  lemma {:induction false} SharedLedgerHistories(policy: Policy, log: seq<Event>, run: Id)
    requires SharedLedger(policy, log)
    ensures History(policy, ForRun(log, run))
  {
    if log == [] { return; }
    var (f, e) := (Front(log), Last(log));
    hide Appendable;
    SharedLedgerHistories(policy, f, run);
    if e.runId == run { Snoc(ForRun(f, run), e); }
  }
}
