/** One run as its drivers live it: the events they append, and where each of them lets go
    of the run, by returning, by an error or because its process dies
    (src/molly/core/agent_loop.py:972-1114).

    A history cannot tell a driver that runs on from one that resumes.  A trace can: a running
    driver stands at its next line, a resumed one always at the top of the loop. */
module RunTraces {
  import opened RunEvents
  import opened Projection
  import opened RunHistory
  import opened RunTheorems
  import opened RunSafety

  datatype Leaving = ByReturn | ByError | ByDeath

  datatype Entry = Wrote(event: Event) | Left(how: Leaving)

  function Events(t: seq<Entry>): seq<Event> {
    if t == [] then [] else if Last(t).Wrote? then Events(Front(t)) + [Last(t).event] else Events(Front(t))
  }

  // ---- Where a driver stands

  /** No driver is at work. */
  predicate Idle(t: seq<Entry>) { t == [] || Last(t).Left? }

  /** The last event ends an execution that was approved. */
  predicate ApprovedEnd(h: seq<Event>) { |h| >= 3 && Last(h).kind in EXECUTION_ENDS && ApprovedBy(h[|h| - 3]) }

  /** After these writes a running driver goes back to the top of the loop. */
  predicate LoopsBack(h: seq<Event>) {
    h != [] && (Last(h).kind == RunStarted || ApprovedBy(Last(h))
        || (Last(h).kind in EXECUTION_ENDS && !ApprovedEnd(h)))
  }

  predicate AtTop(t: seq<Entry>) { Idle(t) || LoopsBack(Events(t)) }

  /** Does the policy want approval for the call this event belongs to? */
  predicate WantsApproval(policy: Policy, e: Event) {
    e.meta.digest.Some? && policy.requiresApproval(e.meta.digest.value.body.specDigest)
  }

  const TOP_WRITES: set<Kind> := {RunStarted, ApprovalRecorded, ExecutionStarted, DecisionRecorded, BudgetExhausted}

  const LINE_WRITES: set<Kind> :=
    {RunStopped, ReviewRequested, Materialized, ApprovalRequired, CallRejected, RunRejected, ExecutionSucceeded,
        ExecutionFailed}

  /** What a driver at the top of the loop may append. */
  ghost predicate TopWrite(policy: Policy, h: seq<Event>, e: Event) { Appendable(policy, h, e) && e.kind in TOP_WRITES }

  /** What a driver may append at the line behind its last write. */
  ghost predicate LineWrite(policy: Policy, h: seq<Event>, e: Event) {
    && Appendable(policy, h, e)
    && (e.kind in LINE_WRITES
        || (e.kind == ExecutionStarted && h != [] && Last(h).kind == Materialized && !WantsApproval(policy, Last(h))))
  }

  ghost predicate MayWrite(policy: Policy, t: seq<Entry>, e: Event) {
    if AtTop(t) then TopWrite(policy, Events(t), e) else LineWrite(policy, Events(t), e)
  }

  /** At the top `run` returns when the run is over, waiting or interrupted, and when the provider,
      asked within the limits, has no further action; elsewhere only behind these writes. */
  ghost predicate MayReturn(t: seq<Entry>) {
    var h := Events(t);
    h != [] && if AtTop(t) then
                 Last(h).kind in RUN_ENDS + {ReviewRequested, ExecutionStarted, ApprovalRequired}
                 || (AtLoopTop(Last(h)) && h[0].meta.start.Some? && !LimitHit(RequestOf(h), h, false))
               else Last(h).kind in RUN_ENDS + {ReviewRequested, ApprovalRequired} || ApprovedEnd(h)
  }

  predicate Proposes(e: Event) { e.kind == DecisionRecorded && e.meta.action.Some? && e.meta.action.value.Propose? }

  /** Where an error can leave the loop: at its top, and behind a proposal, before and after an executor
      call, and while a success is mirrored. */
  predicate MayFail(policy: Policy, t: seq<Entry>) {
    var h := Events(t);
    AtTop(t) || (h != [] && (Proposes(Last(h)) || (Last(h).kind == Materialized && !WantsApproval(policy, Last(h)))
                             || Last(h).kind in {ExecutionStarted, ExecutionSucceeded}))
  }

  ghost predicate MayLeave(policy: Policy, t: seq<Entry>, how: Leaving) {
    match how
    case ByReturn => MayReturn(t)
    case ByError => MayFail(policy, t)
    case ByDeath => true
  }

  ghost predicate Next(policy: Policy, t: seq<Entry>, x: Entry) {
    match x
    case Wrote(e) => MayWrite(policy, t, e)
    case Left(how) => MayLeave(policy, t, how)
  }

  /** Everything one run can live through, one driver after the other. */
  ghost predicate Legal(policy: Policy, t: seq<Entry>) {
    t == [] || (Legal(policy, Front(t)) && Next(policy, Front(t), Last(t)))
  }

  // ---- Traces and histories

  lemma EventsSnoc(t: seq<Entry>, x: Entry)
    ensures Events(t + [x]) == if x.Wrote? then Events(t) + [x.event] else Events(t)
  { Snoc(t, x); }

  lemma LegalSnoc(policy: Policy, t: seq<Entry>, x: Entry)
    requires Legal(policy, t) && Next(policy, t, x)
    ensures Legal(policy, t + [x])
  {
    hide Next;
    Snoc(t, x);
  }

  lemma {:induction false} LegalPrefix(policy: Policy, t: seq<Entry>, n: nat)
    requires Legal(policy, t) && n <= |t|
    ensures Legal(policy, t[..n])
  {
    hide Next;
    if n < |t| {
      assert Front(t)[..n] == t[..n];
      LegalPrefix(policy, Front(t), n);
    } else {
      assert t[..n] == t;
    }
  }

  /** The entry at `i` is possible after those before it. */
  lemma {:induction false} LegalAt(policy: Policy, t: seq<Entry>, i: nat)
    requires Legal(policy, t) && i < |t|
    ensures Legal(policy, t[..i]) && Next(policy, t[..i], t[i])
    ensures Events(t[..i + 1]) == if t[i].Wrote? then Events(t[..i]) + [t[i].event] else Events(t[..i])
  {
    hide Next;
    LegalPrefix(policy, t, i + 1);
    TakeNext(t, i);
  }

  lemma WriteIsAppendable(policy: Policy, t: seq<Entry>, e: Event)
    requires MayWrite(policy, t, e)
    ensures Appendable(policy, Events(t), e)
  {}

  lemma {:induction false} TraceIsHistory(policy: Policy, t: seq<Entry>)
    requires Legal(policy, t)
    ensures History(policy, Events(t))
  {
    hide MayWrite, MayLeave, Appendable;
    if t == [] { return; }
    TraceIsHistory(policy, Front(t));
    if Last(t).Wrote? {
      WriteIsAppendable(policy, Front(t), Last(t).event);
      HistoryGrows(policy, Events(Front(t)), Last(t).event);
    }
  }

  lemma EveryKindHasItsPlace(policy: Policy, h: seq<Event>, e: Event)
    requires Appendable(policy, h, e)
    ensures e.kind in TOP_WRITES + LINE_WRITES
    ensures e.kind in LINE_WRITES ==> h != [] && !LoopsBack(h)
  {
    hide OfKinds, LimitHit, Visible, FreshEvent, FreshCall, Carries, SafeErrorShape, CurrentCall;
  }

  /** A legal trace that writes `h` and ends by writing. */
  ghost predicate Tells(policy: Policy, t: seq<Entry>, h: seq<Event>) {
    Legal(policy, t) && Events(t) == h && (h != [] ==> t != [] && Last(t).Wrote?) && (h == [] ==> t == [])
  }

  lemma TellsOneMore(policy: Policy, t: seq<Entry>, h: seq<Event>, e: Event)
    requires Legal(policy, t) && Events(t) == h && MayWrite(policy, t, e)
    ensures Tells(policy, t + [Wrote(e)], h + [e])
  {
    hide MayWrite, Legal, Events;
    LegalSnoc(policy, t, Wrote(e));
    EventsSnoc(t, Wrote(e));
  }

  /** If the event is one of the top, the driver dies first and the next one writes it. */
  lemma TellsNext(policy: Policy, t: seq<Entry>, h: seq<Event>, e: Event) returns (after: seq<Entry>)
    requires Tells(policy, t, h) && Appendable(policy, h, e)
    ensures Tells(policy, after, h + [e])
  {
    EveryKindHasItsPlace(policy, h, e);
    hide Appendable, Legal, LoopsBack, Events;
    if e.kind in TOP_WRITES && t != [] {
      LegalSnoc(policy, t, Left(ByDeath));
      EventsSnoc(t, Left(ByDeath));
      TellsOneMore(policy, t + [Left(ByDeath)], h, e);
      after := t + [Left(ByDeath)] + [Wrote(e)];
    } else {
      TellsOneMore(policy, t, h, e);
      after := t + [Wrote(e)];
    }
  }

  /** Whatever can be appended at all, a driver can append, if need be after a death. */
  lemma {:induction false} HistoryHasTrace(policy: Policy, h: seq<Event>) returns (t: seq<Entry>)
    requires History(policy, h)
    ensures Tells(policy, t, h)
  {
    if h == [] { return []; }
    hide Appendable, Legal, Events;
    HistoryTail(policy, h);
    t := HistoryHasTrace(policy, Front(h));
    t := TellsNext(policy, t, Front(h), Last(h));
  }

  /** The histories are exactly what legal traces write: nothing is lost by forgetting the drivers. */
  lemma HistoryIffTrace(policy: Policy, h: seq<Event>)
    ensures History(policy, h) <==> exists t :: Legal(policy, t) && Events(t) == h
  {
    hide History, Legal, Events;
    if History(policy, h) { var t := HistoryHasTrace(policy, h); }
    if exists t :: Legal(policy, t) && Events(t) == h {
      var t :| Legal(policy, t) && Events(t) == h;
      TraceIsHistory(policy, t);
    }
  }

  // ---- Writes and the gaps between them

  /** Nothing is written between the write at `j` and position `k`. */
  predicate Quiet(t: seq<Entry>, j: nat, k: nat)
    requires j < k <= |t|
  {
    forall i :: j < i < k ==> t[i].Left?
  }

  lemma {:induction false} QuietEvents(t: seq<Entry>, j: nat, k: nat)
    requires j < k <= |t| && Quiet(t, j, k)
    ensures Events(t[..k]) == Events(t[..j + 1])
  {
    if j + 1 < k {
      QuietEvents(t, j, k - 1);
      TakeNext(t, k - 1);
    }
  }

  lemma {:induction false} LastWrite(t: seq<Entry>) returns (j: nat)
    requires Events(t) != []
    ensures j < |t| && t[j] == Wrote(Last(Events(t))) && Quiet(t, j, |t|)
  {
    if Last(t).Wrote? {
      j := |t| - 1;
    } else {
      j := LastWrite(Front(t));
    }
  }

  lemma FirstWrite(t: seq<Entry>, j: nat, i: nat) returns (k: nat)
    requires j < i < |t| && t[i].Wrote?
    ensures j < k <= i && t[k].Wrote? && Quiet(t, j, k)
  {
    k := j + 1;
    while t[k].Left?
      invariant j < k <= i && Quiet(t, j, k)
      decreases i - k
    {
      k := k + 1;
    }
  }

  lemma {:induction false} TraceMembers(t: seq<Entry>)
    ensures forall e :: e in Events(t) <==> Wrote(e) in t
  {
    if t != [] {
      TraceMembers(Front(t));
      assert t == Front(t) + [Last(t)];
    }
  }

  // ---- Approval: exactly a death between materialization and request loses it

  /** A driver died directly behind the materialization of the call that `s` starts. */
  predicate DiedBehind(t: seq<Entry>, j: nat, s: Event) {
    j + 1 < |t| && t[j].Wrote? && t[j].event.kind == Materialized && t[j].event.meta.callId == s.meta.callId
    && t[j + 1] == Left(ByDeath)
  }

  lemma {:induction false} JustMaterialized(policy: Policy, h: seq<Event>)
    requires History(policy, h) && h != [] && Last(h).kind == Materialized
    ensures CurrentCall(h).Some? && Last(h).meta.digest == Some(CurrentCall(h).value.Digest())
  {
    hide History, Appendable;
    HistoryTail(policy, h);
    NewCallForm(policy, Front(h), Last(h));
    assert h == Front(h) + [Last(h)];
    OfKindsSnoc(Front(h), Last(h), {Materialized});
  }

  lemma SameDigest(policy: Policy, f: seq<Event>, s: Event)
    requires History(policy, f) && Appendable(policy, f, s) && s.kind == ExecutionStarted
               && Last(f).kind == Materialized
    ensures s.meta.digest == Last(f).meta.digest
  {
    hide History, Appendable, CurrentCall;
    FollowupForm(policy, f, s);
    JustMaterialized(policy, f);
  }

  lemma StartBehindMaterialization(policy: Policy, t: seq<Entry>, s: Event)
    requires MayWrite(policy, t, s) && s.kind == ExecutionStarted && Events(t) != []
    requires Last(Events(t)).kind == Materialized && WantsApproval(policy, Last(Events(t)))
    ensures Idle(t)
  {
    hide Appendable;
  }

  lemma OnlyDeathLeaves(policy: Policy, t: seq<Entry>, how: Leaving)
    requires MayLeave(policy, t, how) && !Idle(t) && Events(t) != []
    requires Last(Events(t)).kind == Materialized && WantsApproval(policy, Last(Events(t)))
    ensures how == ByDeath
  {}

  /** Without an approval directly before it, a resumed driver starts the call its last event materialized. */
  lemma {:induction false} BareStartResumes(policy: Policy, t: seq<Entry>, s: Event)
    requires Legal(policy, t) && MayWrite(policy, t, s) && s.kind == ExecutionStarted && WantsApproval(policy, s)
    requires Events(t) != [] ==> !ApprovedFor(Last(Events(t)), s)
    ensures Events(t) != [] && Last(Events(t)).kind == Materialized && Idle(t)
    ensures Last(Events(t)).meta.callId == s.meta.callId && WantsApproval(policy, Last(Events(t)))
  {
    hide Legal, MayWrite, Appendable, History, Events, ApprovedFor;
    var f := Events(t);
    TraceIsHistory(policy, t);
    WriteIsAppendable(policy, t, s);
    StartFollows(policy, f, s);
    SameDigest(policy, f, s);
    StartBehindMaterialization(policy, t, s);
  }

  /** Without an approval directly before it, the start stands behind its materialization, with a death between. */
  lemma {:induction false} BareStartBehindDeath(policy: Policy, t: seq<Entry>, i: nat) returns (j: nat)
    requires Legal(policy, t) && i < |t| && t[i].Wrote?
    requires t[i].event.kind == ExecutionStarted && WantsApproval(policy, t[i].event)
    requires Events(t[..i]) != [] ==> !ApprovedFor(Last(Events(t[..i])), t[i].event)
    ensures j + 1 < i && DiedBehind(t, j, t[i].event)
  {
    hide Legal, MayWrite, MayLeave, Appendable, Events, ApprovedFor, WantsApproval;
    var before := t[..i];
    LegalAt(policy, t, i);
    BareStartResumes(policy, before, t[i].event);
    j := LastWrite(before);
    assert before[j] == t[j] && Last(before) == t[i - 1];
    LegalAt(policy, t, j + 1);
    assert Quiet(t, j, i);
    QuietEvents(t, j, i);
    assert t[j + 1].Left? && Last(t[..j + 1]) == t[j];
    OnlyDeathLeaves(policy, t[..j + 1], t[j + 1].how);
  }

  lemma OnlyStartResumes(policy: Policy, t: seq<Entry>, e: Event)
    requires MayWrite(policy, t, e) && Idle(t) && Events(t) != [] && Last(Events(t)).kind == Materialized
    ensures e.kind == ExecutionStarted
  {}

  /** Behind such a death the resumed driver starts the call at once. */
  lemma {:induction false} DeathThenStart(policy: Policy, t: seq<Entry>, j: nat, i: nat)
    requires Legal(policy, t) && j + 1 < i < |t| && t[i].Wrote? && t[i].event.kind == ExecutionStarted
               && DiedBehind(t, j, t[i].event)
    ensures Events(t[..i]) == Events(t[..j]) + [t[j].event]
  {
    hide Legal, MayWrite, MayLeave, Appendable, History, Events;
    LegalAt(policy, t, j);
    var k := FirstWrite(t, j, i);
    QuietEvents(t, j, k);
    LegalAt(policy, t, k);
    assert Idle(t[..k]) by { assert k > j + 1 && t[..k][k - 1] == t[k - 1]; }
    TraceIsHistory(policy, t[..k]);
    WriteIsAppendable(policy, t[..k], t[k].event);
    OnlyStartResumes(policy, t[..k], t[k].event);
    StartFollows(policy, Events(t[..k]), t[k].event);
    if k < i { StartsOnce(policy, t, k, i); }
  }

  lemma {:induction false} StartsOnce(policy: Policy, t: seq<Entry>, k: nat, i: nat)
    requires Legal(policy, t) && k < i < |t| && t[k].Wrote? && t[i].Wrote?
    requires t[k].event.kind == ExecutionStarted && t[i].event.kind == ExecutionStarted
    ensures t[k].event.meta.callId != t[i].event.meta.callId
  {
    hide Legal, MayWrite, MayLeave, Appendable, History, Events;
    var s := t[i].event;
    LegalAt(policy, t, i);
    TraceIsHistory(policy, t[..i]);
    WriteIsAppendable(policy, t[..i], s);
    StartHasCall(policy, Events(t[..i]), s);
    NotYetStarted(policy, Events(t[..i]), s);
    TraceMembers(t[..i]);
    assert t[..i][k] == Wrote(t[k].event);
  }

  lemma StartHasCall(policy: Policy, h: seq<Event>, e: Event)
    requires Appendable(policy, h, e) && e.kind == ExecutionStarted
    ensures e.meta.callId.Some?
  {}

  /** A call whose start directly follows its materialization has no approval anywhere. */
  lemma {:induction false} BareStartUnapproved(policy: Policy, h: seq<Event>, a: Event)
    requires History(policy, h) && |h| >= 2 && Last(h).kind == ExecutionStarted && h[|h| - 2].kind == Materialized
    requires Last(h).meta.callId.Some? && h[|h| - 2].meta.callId == Last(h).meta.callId && a in h
    ensures !ApprovedFor(a, Last(h))
  {
    hide History, Related, CallShape;
    var c := Last(h).meta.callId.value;
    BareStartAlone(policy, h, |h| - 1);
    var rel := Related(h, c);
    RelatedMembers(h, c);
    if a.meta.callId == Some(c) {
      assert a in rel && Last(h) in rel;
      RelatedIsSomeGroup(policy, h, c);
      ShapePositions(rel);
      var i :| 0 <= i < |rel| && rel[i] == a;
      var k :| 0 <= k < |rel| && rel[k] == Last(h);
    }
  }

  predicate ApprovedBefore(t: seq<Entry>, i: nat)
    requires i < |t| && t[i].Wrote?
  {
    exists a :: 0 <= a < i && t[a].Wrote? && ApprovedFor(t[a].event, t[i].event)
  }

  /** Over all traces: a start of a call that wants approval has no earlier approval bound to it
      if and only if a driver died directly behind the call's materialization. */
  lemma {:induction false} UnapprovedIffDied(policy: Policy, t: seq<Entry>, i: nat)
    requires Legal(policy, t) && i < |t| && t[i].Wrote?
    requires t[i].event.kind == ExecutionStarted && WantsApproval(policy, t[i].event)
    ensures !ApprovedBefore(t, i) <==> exists j: nat :: j + 1 < i && DiedBehind(t, j, t[i].event)
  {
    hide Legal, Events, ApprovedFor, DiedBehind;
    TraceMembers(t[..i]);
    var f := Events(t[..i]);
    if !ApprovedBefore(t, i) {
      if f != [] {
        assert Wrote(Last(f)) in t[..i];
        var a :| 0 <= a < i && t[a] == Wrote(Last(f));
      }
      var j := BareStartBehindDeath(policy, t, i);
    }
    if j: nat :| j + 1 < i && DiedBehind(t, j, t[i].event) {
      DiedMeansUnapproved(policy, t, j, i);
    }
  }

  lemma {:induction false} DiedMeansUnapproved(policy: Policy, t: seq<Entry>, j: nat, i: nat)
    requires Legal(policy, t) && j + 1 < i < |t| && t[i].Wrote? && t[i].event.kind == ExecutionStarted
               && DiedBehind(t, j, t[i].event)
    ensures !ApprovedBefore(t, i)
  {
    hide Legal, MayWrite, MayLeave, Appendable, History, Events, ApprovedFor;
    DeathThenStart(policy, t, j, i);
    LegalAt(policy, t, i);
    TraceIsHistory(policy, t[..i]);
    WriteIsAppendable(policy, t[..i], t[i].event);
    StartHasCall(policy, Events(t[..i]), t[i].event);
    LegalPrefix(policy, t, i + 1);
    TraceIsHistory(policy, t[..i + 1]);
    TraceMembers(t[..i + 1]);
    forall a | 0 <= a < i && t[a].Wrote? ensures !ApprovedFor(t[a].event, t[i].event) {
      assert t[..i + 1][a] == Wrote(t[a].event);
      BareStartUnapproved(policy, Events(t[..i + 1]), t[a].event);
    }
  }

  // ---- Rejection: exactly a death before the closing event leaves the run open

  lemma AfterRejection(policy: Policy, h: seq<Event>, e: Event)
    requires Appendable(policy, h, e) && h != []
    ensures RejectedBy(Last(h)) ==> e.kind in {CallRejected, DecisionRecorded, BudgetExhausted}
    ensures Last(h).kind == CallRejected ==> e.kind in {RunRejected, DecisionRecorded, BudgetExhausted}
    ensures Last(h).kind != RunRejected
  {}

  lemma BehindRejection(policy: Policy, t: seq<Entry>, x: Entry)
    requires Next(policy, t, x) && !Idle(t) && Events(t) != [] && RejectedBy(Last(Events(t)))
    ensures x == Left(ByDeath) || (x.Wrote? && x.event.kind == CallRejected)
  {
    hide Appendable, Events;
    if x.Wrote? { WriteIsAppendable(policy, t, x.event); AfterRejection(policy, Events(t), x.event); }
  }

  lemma BehindCallRejection(policy: Policy, t: seq<Entry>, x: Entry)
    requires Next(policy, t, x) && !Idle(t) && Events(t) != [] && Last(Events(t)).kind == CallRejected
    ensures x == Left(ByDeath) || (x.Wrote? && x.event.kind == RunRejected)
  {
    hide Appendable, Events;
    if x.Wrote? { WriteIsAppendable(policy, t, x.event); AfterRejection(policy, Events(t), x.event); }
  }

  lemma BehindRunRejection(policy: Policy, t: seq<Entry>, x: Entry)
    requires Next(policy, t, x) && Events(t) != [] && Last(Events(t)).kind == RunRejected
    ensures x.Left?
  {
    hide Appendable, Events;
    if x.Wrote? { WriteIsAppendable(policy, t, x.event); AfterRejection(policy, Events(t), x.event); }
  }

  /** The driver that records a rejection writes the two events that close the run, unless it dies. */
  lemma {:induction false} RejectionLines(policy: Policy, t: seq<Entry>, a: nat, b: nat)
    requires Legal(policy, t) && a < b < |t| && t[a].Wrote? && RejectedBy(t[a].event)
    requires t[b].Left? && forall k :: a < k < b ==> t[k].Wrote?
    ensures b <= a + 3 && (b <= a + 2 ==> t[b] == Left(ByDeath))
    ensures Events(t[..b]) != [] && Last(Events(t[..b])) == t[b - 1].event
    ensures b == a + 2 ==> t[b - 1].event.kind == CallRejected
    ensures b == a + 3 ==> t[b - 1].event.kind == RunRejected
  {
    hide Legal, Next, Events;
    LegalAt(policy, t, a);
    LegalAt(policy, t, a + 1);
    BehindRejection(policy, t[..a + 1], t[a + 1]);
    if b > a + 1 {
      LegalAt(policy, t, a + 2);
      BehindCallRejection(policy, t[..a + 2], t[a + 2]);
      if b > a + 2 {
        LegalAt(policy, t, a + 3);
        BehindRunRejection(policy, t[..a + 3], t[a + 3]);
      }
    }
  }

  /** Over all traces: when the driver that recorded a rejection has left, the run is active
      if and only if it died before the closing event, and otherwise it is rejected. */
  lemma {:induction false} OpenIffDiedBeforeClosing(policy: Policy, t: seq<Entry>, a: nat, b: nat)
    requires Legal(policy, t) && a < b < |t| && t[a].Wrote? && RejectedBy(t[a].event)
    requires t[b].Left? && forall k :: a < k < b ==> t[k].Wrote?
    ensures b <= a + 3
    ensures var p := Project(Events(t[..b]));
            && p.Ok? && (p.value.end.Some? ==> p.value.end.value.kind in RUN_ENDS)
            && (StatusOf(p.value) == Active <==> b <= a + 2)
            && (StatusOf(p.value) == RejectedRun <==> b == a + 3)
    ensures b <= a + 2 ==> t[b] == Left(ByDeath)
  {
    hide Legal, Events, Project, History;
    RejectionLines(policy, t, a, b);
    LegalPrefix(policy, t, b);
    TraceIsHistory(policy, t[..b]);
    ProjectionTotal(policy, Events(t[..b]));
  }

  lemma {:induction false} AskedHistory(policy: Policy, call: Call, asked: Event)
    requires policy.digest == 7 && call.Valid() && call.reason == "why" && policy.requiresApproval(call.body.specDigest)
    requires call.body == CallBody(1, 20, 30, Tool("tool", "1"), call.body.specDigest, 7, 0, [], call.body.createdAt)
    requires asked == CallEvent(ApprovalRequired, 3, 0, call, [], NO_METADATA)
    ensures var h := UntilMaterialized(call) + [asked];
            && History(policy, h) && Last(h) == asked && CurrentCall(h) == Some(call)
            && h[0] == StartEvent(0, 0, Request(1, "goal", [], 7, None)) && forall e :: e in h ==> e.eventId < 4
  {
    var f := UntilMaterialized(call);
    MaterializedHistory(policy, call);
    OfKindsSnoc(f, asked, {Materialized});
    hide OfKinds, History;
    assert Appendable(policy, f, asked);
    HistoryGrows(policy, f, asked);
  }

  /** Such a death is possible: a run whose last event records a rejection, and which is active again. */
  lemma {:induction false} RejectionLeftOpen() returns (policy: Policy, t: seq<Entry>, a: nat)
    ensures Legal(policy, t) && |t| == a + 2 && t[a].Wrote? && RejectedBy(t[a].event) && t[a + 1] == Left(ByDeath)
    ensures Events(t) != [] && RejectedBy(Last(Events(t)))
    ensures var p := Project(Events(t)); p.Ok? && p.value.end.None? && StatusOf(p.value) == Active
  {
    hide Legal, Events, Project, History, UntilMaterialized;
    var body := CallBody(1, 20, 30, Tool("tool", "1"), 3, 7, 0, [], 0);
    var call := Call(body, CallDigest(body), "why");
    var asked := CallEvent(ApprovalRequired, 3, 0, call, [], NO_METADATA);
    var no := CallEvent(ApprovalRecorded, 4, 0, call, [],
        NO_METADATA.(approval := Some(Approval(40, call.Digest(), Rejected, 5, 0))));
    policy := Policy(7, spec => spec == 3);
    var f := UntilMaterialized(call) + [asked];
    AskedHistory(policy, call, asked);
    assert Appendable(policy, f, no);
    HistoryGrows(policy, f, no);
    var written := HistoryHasTrace(policy, f + [no]);
    LegalSnoc(policy, written, Left(ByDeath));
    EventsSnoc(written, Left(ByDeath));
    a, t := |written| - 1, written + [Left(ByDeath)];
    assert Last(written) == Wrote(no) by { LastWriteIsLast(written); }
    RecordedRejectionResumesActive(policy, f + [no]);
  }

  lemma LastWriteIsLast(t: seq<Entry>)
    requires t != [] && Last(t).Wrote?
    ensures Events(t) != [] && Last(t) == Wrote(Last(Events(t)))
  {}

  // ---- Every line of a turn is taken, unless the driver dies

  /** What stands behind a decision: the event its action asks for. */
  predicate ActedOn(d: Event, x: Entry, r: Request) {
    d.meta.action.Some? &&
    match d.meta.action.value
    case Stop(_) => x.Wrote? && x.event.kind == RunStopped && x.event.meta.action == d.meta.action
    case RequestReview(_) => x.Wrote? && x.event.kind == ReviewRequested && x.event.meta.action == d.meta.action
    case Propose(_, _, _, _) =>
      x == Left(ByError)
      || (x.Wrote? && x.event.kind == Materialized && x.event.meta.call.Some?
          && Carries(x.event.meta.call.value, d.meta.action.value, r))
  }

  lemma AfterDecision(policy: Policy, h: seq<Event>, e: Event)
    requires Appendable(policy, h, e) && h != [] && Last(h).kind == DecisionRecorded && h[0].meta.start.Some?
    requires e.kind in LINE_WRITES
    ensures ActedOn(Last(h), Wrote(e), RequestOf(h))
  {
    hide FreshCall, Visible, LimitHit, FreshEvent;
  }

  lemma LeftBehindDecision(policy: Policy, t: seq<Entry>, how: Leaving, r: Request)
    requires MayLeave(policy, t, how) && !Idle(t) && Events(t) != [] && Last(Events(t)).kind == DecisionRecorded
    ensures how == ByDeath || ActedOn(Last(Events(t)), Left(how), r)
  {}

  lemma AfterMaterialization(policy: Policy, h: seq<Event>, e: Event)
    requires Appendable(policy, h, e) && h != [] && Last(h).kind == Materialized
    requires CurrentCall(h).Some? && Last(h).meta.digest == Some(CurrentCall(h).value.Digest())
    ensures e.kind == ExecutionStarted || (e.kind == ApprovalRequired && WantsApproval(policy, Last(h)))
  {
    hide OfKinds;
  }

  lemma AfterRequest(policy: Policy, h: seq<Event>, e: Event)
    requires Appendable(policy, h, e) && h != [] && Last(h).kind == ApprovalRequired
    ensures e.kind == ApprovalRecorded
  {}

  lemma BehindDecision(policy: Policy, t: seq<Entry>, x: Entry)
    requires Next(policy, t, x) && !Idle(t) && Events(t) != [] && Last(Events(t)).kind == DecisionRecorded
    requires Events(t)[0].meta.start.Some?
    ensures x == Left(ByDeath) || ActedOn(Last(Events(t)), x, RequestOf(Events(t)))
  {
    hide Appendable, Events, ActedOn, MayLeave;
    if x.Wrote? { AfterDecision(policy, Events(t), x.event); } else {
      LeftBehindDecision(policy, t, x.how, RequestOf(Events(t)));
    }
  }

  lemma BehindMaterialization(policy: Policy, t: seq<Entry>, x: Entry)
    requires Next(policy, t, x) && !Idle(t) && Events(t) != [] && Last(Events(t)).kind == Materialized
    requires CurrentCall(Events(t)).Some? && Last(Events(t)).meta.digest == Some(CurrentCall(Events(t)).value.Digest())
    ensures if WantsApproval(policy, Last(Events(t))) then x == Left(ByDeath)
              || (x.Wrote? && x.event.kind == ApprovalRequired)
            else x in {Left(ByDeath), Left(ByError)} || (x.Wrote? && x.event.kind == ExecutionStarted)
  {
    hide Appendable, Events, CurrentCall, LimitHit;
    if x.Wrote? { WriteIsAppendable(policy, t, x.event); AfterMaterialization(policy, Events(t), x.event); }
  }

  lemma BehindRequest(policy: Policy, t: seq<Entry>, x: Entry)
    requires Next(policy, t, x) && !Idle(t) && Events(t) != [] && Last(Events(t)).kind == ApprovalRequired
    ensures x in {Left(ByDeath), Left(ByReturn)}
  {
    hide Appendable, Events, LimitHit;
    if x.Wrote? { WriteIsAppendable(policy, t, x.event); AfterRequest(policy, Events(t), x.event); }
  }

  /** Over all traces: unless the driver dies there, a stop closes the run, a review request is recorded,
      and a proposal is materialized as proposed or fails; a materialized call is put up for approval if
      and only if the policy wants that, and then the driver returns; otherwise it starts or fails. */
  lemma {:induction false} TurnsAreCompleted(policy: Policy, t: seq<Entry>, i: nat)
    requires Legal(policy, t) && i + 1 < |t| && t[i].Wrote? && t[i + 1] != Left(ByDeath)
    ensures var h := Events(t[..i + 1]); h != [] && h[0].meta.start.Some? && Last(h) == t[i].event
    ensures t[i].event.kind == DecisionRecorded ==> ActedOn(t[i].event, t[i + 1], RequestOf(Events(t[..i + 1])))
    ensures t[i].event.kind == Materialized ==>
              if WantsApproval(policy, t[i].event) then t[i + 1].Wrote? && t[i + 1].event.kind == ApprovalRequired
              else t[i + 1] == Left(ByError) || (t[i + 1].Wrote? && t[i + 1].event.kind == ExecutionStarted)
    ensures t[i].event.kind == ApprovalRequired ==> t[i + 1] == Left(ByReturn)
  {
    hide Legal, Next, Events, ActedOn, History;
    var (u, x) := (t[..i + 1], t[i + 1]);
    LegalAt(policy, t, i);
    LegalAt(policy, t, i + 1);
    TraceIsHistory(policy, u);
    var h := Events(u);
    HistoryKept(policy, h);
    if t[i].event.kind == DecisionRecorded { BehindDecision(policy, u, x); }
    if t[i].event.kind == Materialized {
      JustMaterialized(policy, h);
      BehindMaterialization(policy, u, x);
    }
    if t[i].event.kind == ApprovalRequired { BehindRequest(policy, u, x); }
  }
}
