/** The run loop itself (src/molly/core/agent_loop.py:175-281, 518-579, 641-950, 972-1114), with
    every append, executor call and check as it comes.
    What the loop cannot decide is asked of an `Environment`. */
module AgentLoops {
  import opened RunEvents
  import opened Projection
  import opened RunHistory
  import opened Inspection
  import opened RunTheorems
  import opened RunSafety
  import opened RunTraces
  import opened Lineage
  import opened LoopSteps

  class AgentLoop {
    const policy: Policy
    const env: Environment
    const lineage: ArtifactLineage
    var log: seq<Event>
    var executed: seq<Invocation>
    var clock: nat
    /** What each run has lived through so far. */
    ghost var traces: map<Id, seq<Entry>>

    ghost function Ledger(run: Id): seq<Event> reads this`log { ForRun(log, run) }

    ghost function Trace(run: Id): seq<Entry> reads this`traces { if run in traces then traces[run] else [] }

    ghost predicate Valid() reads this`log, this`executed, lineage {
      && lineage.Valid() && Grounded(log, lineage.relations) && FreshEventIds(log)
      && forall i, j :: 0 <= i < j < |executed| ==> executed[i] != executed[j]
    }

    ghost predicate RunOk(run: Id) reads this`log, this`executed, this`traces, lineage {
      var h := ForRun(log, run);
      && History(policy, h) && Converging(lineage.relations, h) && Started(executed, run, h)
      && Legal(policy, Trace(run)) && Events(Trace(run)) == h
    }

    ghost predicate Mirrored(run: Id) reads this`log, lineage { Complete(lineage.relations, ForRun(log, run)) }

    constructor (policy: Policy, env: Environment, lineage: ArtifactLineage)
      requires lineage.Valid() && forall r :: r in lineage.relations ==> r.id.GivenId?
      ensures Valid() && log == [] && executed == [] && clock == 0
      ensures this.policy == policy && this.env == env && this.lineage == lineage
      ensures forall run :: RunOk(run) && Mirrored(run) && Trace(run) == []
    {
      this.policy, this.env, this.lineage := policy, env, lineage;
      log, executed, clock, traces := [], [], 0, map[];
      new;
      forall run: Id ensures RunOk(run) && Mirrored(run) && Trace(run) == [] { NoneOfRun(lineage.relations, []); }
    }

    // ---- Appending to the shared ledger

    /** Other runs append between any two appends of this one. */
    method Interleave(run: Id, reserved: Id)
      requires Valid() && reserved !in Ids(log)
      modifies this`log
      ensures Valid() && Ledger(run) == old(Ledger(run)) && reserved !in Ids(log) && old(log) <= log
    {
      var events := env.others(clock);
      var i := 0;
      while i < |events|
        invariant 0 <= i <= |events|
        invariant Valid() && Ledger(run) == old(Ledger(run)) && reserved !in Ids(log) && old(log) <= log
      {
        var x := events[i];
        if x.runId != run && x.eventId != reserved && x.eventId !in Ids(log) {
          ForRunSnoc(log, x, run);
          log := log + [x];
        }
        i := i + 1;
      }
    }

    method FreshEventId() returns (id: Id)
      ensures id !in Ids(log)
    {
      ghost var free := FreeId(log);
      assert free !in Ids(log);
      id :| id !in Ids(log);
    }

    /** Other runs may write first; then the event reaches the file unless the process dies before. */
    method Append(run: Id, e: Event) returns (alive: bool)
      requires Valid() && RunOk(run) && e.runId == run && e.eventId !in Ids(log)
      requires MayWrite(policy, Trace(run), e)
      requires e.kind == ExecutionSucceeded ==> Mirrored(run)
      modifies this`log, this`clock, this`traces
      ensures Valid() && RunOk(run) && clock == old(clock) + 1 && alive == (env.crash(clock) == Survives)
      ensures if env.crash(clock) == DiesBefore then Ledger(run) == old(Ledger(run)) && Trace(run) == old(Trace(run))
              else Ledger(run) == old(Ledger(run)) + [e] && Trace(run) == old(Trace(run)) + [Wrote(e)]
      ensures e.kind != ExecutionSucceeded && old(Mirrored(run)) ==> Mirrored(run)
      ensures OfRun(lineage.relations, Ledger(run)) == old(OfRun(lineage.relations, Ledger(run)))
    {
      hide History, Appendable, MayWrite, Legal, Events, Converging, Complete, Canonical, Started, Grounded,
          FreshEventIds, OfRun, ForRun;
      Interleave(run, e.eventId);
      clock := clock + 1;
      var crash := env.crash(clock);
      if crash == DiesBefore { return false; }
      ForRunSnoc(log, e, run);
      WriteIsAppendable(policy, Trace(run), e);
      AppendKeepsRun(policy, log, lineage.relations, executed, run, e);
      LegalSnoc(policy, Trace(run), Wrote(e));
      EventsSnoc(Trace(run), Wrote(e));
      log := log + [e];
      traces := traces[run := Trace(run) + [Wrote(e)]];
      alive := crash == Survives;
    }

    // ---- Mirroring success events into the lineage

    /** The process died, or an error is explained by a refused check. */
    twostate predicate MirrorEnds(outcome: Outcome) reads this`clock {
      if outcome == Died then Crashes(env, old(clock), clock)
      else outcome == Raised(ReconciliationError) && Refuses(env, old(clock), clock)
    }

    /** Offer the canonical relation at position `n`: skipped if present, appended if it is the next one. */
    method Mirror(run: Id, ghost n: nat, r: Relation) returns (step: Step)
      requires Valid() && RunOk(run) && r.id.ExecutionId? && r.id.success in Ids(log)
      requires n < |Canonical(Ledger(run))| && r == Canonical(Ledger(run))[n]
      requires n <= |OfRun(lineage.relations, Ledger(run))|
      requires lineage.strict && r.subject in lineage.known && r.target in lineage.known
      modifies this`clock, lineage`relations
      ensures Valid() && RunOk(run) && clock == old(clock) + 1
      ensures step == if env.crash(clock) == Survives then Continue else Halt(Died)
      ensures step == Continue ==> n < |OfRun(lineage.relations, Ledger(run))|
      ensures n < old(|OfRun(lineage.relations, Ledger(run))|) ==> lineage.relations == old(lineage.relations)
      ensures if env.crash(clock) == DiesBefore then lineage.relations == old(lineage.relations)
              else r in lineage.relations
      ensures old(|OfRun(lineage.relations, Ledger(run))|) <= |OfRun(lineage.relations, Ledger(run))|
    {
      hide History, Legal, Events;
      ghost var h := ForRun(log, run);
      ForRunFresh(log, run);
      clock := clock + 1;
      var crash := env.crash(clock);
      if crash == DiesBefore { return Halt(Died); }
      if n < |OfRun(lineage.relations, h)| {
        NextIsPresent(lineage.relations, h, n);
      } else {
        NextIsAbsent(lineage.relations, h, n);
      }
      var ok := lineage.AddIdempotent(r);
      if !ok { return Halt(Raised(ReconciliationError)); }
      step := if crash == Survives then Continue else Halt(Died);
    }

    /** What mirroring guarantees about the lineage once the first `upTo` canonical relations were offered. */
    twostate predicate Advanced(run: Id, upTo: nat)
      reads this`log, this`executed, this`traces, this`clock, lineage
    {
      var h := Ledger(run);
      && Valid() && RunOk(run) && old(|OfRun(lineage.relations, h)|) <= |OfRun(lineage.relations, h)|
      && (upTo <= old(|OfRun(lineage.relations, h)|) ==> lineage.relations == old(lineage.relations))
      && old(clock) <= clock
    }

    /** The store, asked from this time on, verifies each artifact of the success in turn. */
    ghost predicate AllVerified(e: Event, from: nat) {
      forall n: nat :: from < n <= from + |e.inputs + e.outputs| ==> env.accepts(n)
    }

    method RegisterAll(e: Event) returns (ok: bool)
      requires lineage.Valid() && e.stepId.Some?
      modifies this`clock, lineage`known, lineage`strict
      ensures lineage.Valid() && old(clock) <= clock && (!ok ==> Refuses(env, old(clock), clock))
      ensures ok <==> AllVerified(e, old(clock))
      ensures ok ==> lineage.strict && StepRef(e.stepId.value) in lineage.known
      ensures ok ==> forall a :: a in e.inputs + e.outputs ==> ArtifactRef(a) in lineage.known
    {
      lineage.Register(StepRef(e.stepId.value));
      var all := e.inputs + e.outputs;
      var i := 0;
      while i < |all|
        invariant 0 <= i <= |all| && lineage.Valid() && lineage.strict && StepRef(e.stepId.value) in lineage.known
        invariant clock == old(clock) + i && forall n: nat :: old(clock) < n <= clock ==> env.accepts(n)
        invariant forall k :: 0 <= k < i ==> ArtifactRef(all[k]) in lineage.known
      {
        clock := clock + 1;
        if !env.accepts(clock) { return false; }
        lineage.Register(ArtifactRef(all[i]));
        i := i + 1;
      }
      ok := true;
    }

    /** One turn of the outer loop: the production of an output, then its derivations. */
    method MirrorOutput(run: Id, ghost at: nat, e: Event, o: nat) returns (step: Step)
      requires Valid() && RunOk(run) && e.eventId in Ids(log) && StandsAt(Ledger(run), at, e) && o < |e.outputs|
      requires lineage.strict && RefsOf(e) <= lineage.known
      requires at + |Produced(e, o)| <= |OfRun(lineage.relations, Ledger(run))|
      modifies this`clock, lineage`relations
      ensures Advanced(run, at + |EventRelations(e)|)
      ensures step.Halt? ==> step.outcome == Died && Crashes(env, old(clock), clock)
      ensures step == Continue ==> at + |Produced(e, o + 1)| <= |OfRun(lineage.relations, Ledger(run))|
    {
      hide Valid, RunOk, Canonical, OfRun, ForRun, Produced, EventRelations, Derived;
      ghost var h := Ledger(run);
      ghost var from := |Produced(e, o)|;
      OutputPosition(e, o);
      assert Canonical(h)[at + from] == EventRelations(e)[from];
      step := Mirror(run, at + from, Execution(e, ProducedBy, ArtifactRef(e.outputs[o]), StepRef(e.stepId.value)));
      if step.Halt? { return; }
      var i := 0;
      while i < |e.inputs|
        invariant 0 <= i <= |e.inputs|
        invariant Advanced(run, at + |EventRelations(e)|)
        invariant at + from + 1 + i <= |OfRun(lineage.relations, h)|
      {
        assert Canonical(h)[at + from + 1 + i] == EventRelations(e)[from + 1 + i];
        DerivedPosition(e, o, i);
        step := Mirror(run, at + from + 1 + i,
                       Execution(e, DerivedFrom, ArtifactRef(e.outputs[o]), ArtifactRef(e.inputs[i])));
        if step.Halt? { return; }
        i := i + 1;
      }
      step := Continue;
    }

    method MirrorInputs(run: Id, ghost at: nat, e: Event) returns (step: Step)
      requires Valid() && RunOk(run) && e.eventId in Ids(log) && StandsAt(Ledger(run), at, e)
      requires lineage.strict && RefsOf(e) <= lineage.known
      requires at + |Produced(e, |e.outputs|)| <= |OfRun(lineage.relations, Ledger(run))|
      modifies this`clock, lineage`relations
      ensures Advanced(run, at + |EventRelations(e)|)
      ensures step.Halt? ==> step.outcome == Died && Crashes(env, old(clock), clock)
      ensures step == Continue ==> at + |EventRelations(e)| <= |OfRun(lineage.relations, Ledger(run))|
    {
      hide Valid, RunOk, Canonical, OfRun, ForRun, Produced, EventRelations, Derived;
      ghost var h := Ledger(run);
      ghost var from := |Produced(e, |e.outputs|)|;
      RelationsLength(e);
      var i := 0;
      while i < |e.inputs|
        invariant 0 <= i <= |e.inputs|
        invariant Advanced(run, at + |EventRelations(e)|)
        invariant at + from + i <= |OfRun(lineage.relations, h)|
      {
        InputPosition(e, i);
        assert Canonical(h)[at + from + i] == EventRelations(e)[from + i];
        step := Mirror(run, at + from + i, Execution(e, ConsumedBy, ArtifactRef(e.inputs[i]), StepRef(e.stepId.value)));
        if step.Halt? { return; }
        i := i + 1;
      }
      step := Continue;
    }

    /** `_project_success`: verify and register the artifacts, then mirror the relations in order. */
    method ProjectSuccess(run: Id, ghost at: nat, e: Event) returns (step: Step)
      requires Valid() && RunOk(run) && e in Ledger(run) && StandsAt(Ledger(run), at, e)
      requires at <= |OfRun(lineage.relations, Ledger(run))|
      modifies this`clock, lineage
      ensures Advanced(run, at + |EventRelations(e)|)
      ensures step.Halt? ==> MirrorEnds(step.outcome)
      ensures step == Continue ==> at + |EventRelations(e)| <= |OfRun(lineage.relations, Ledger(run))|
      ensures step == Continue ==> forall r :: GivesRise(e, r) ==> r in lineage.relations
      ensures !AllVerified(e, old(clock)) <==> step == Halt(Raised(ReconciliationError))
      ensures step == Halt(Raised(ReconciliationError)) ==> lineage.relations == old(lineage.relations)
    {
      hide History, Legal, Events, Started, Grounded, FreshEventIds, Converging, DistinctIds, OfRun, Canonical, ForRun;
      hide Produced, EventRelations, Derived;
      ForRunMembers(log, run);
      assert e.eventId in Ids(log);
      RelationsLength(e);
      var ok := RegisterAll(e);
      if !ok { return Halt(Raised(ReconciliationError)); }
      assert RefsOf(e) <= lineage.known;
      var o := 0;
      while o < |e.outputs|
        invariant 0 <= o <= |e.outputs|
        invariant Advanced(run, at + |EventRelations(e)|) && lineage.strict && RefsOf(e) <= lineage.known
        invariant at + |Produced(e, o)| <= |OfRun(lineage.relations, Ledger(run))|
      {
        step := MirrorOutput(run, at, e, o);
        if step.Halt? { return; }
        o := o + 1;
      }
      step := MirrorInputs(run, at, e);
      if step == Continue { StoredBehind(run, at, e); }
    }

    lemma StoredBehind(run: Id, at: nat, e: Event)
      requires RunOk(run) && StandsAt(Ledger(run), at, e)
      requires at + |EventRelations(e)| <= |OfRun(lineage.relations, Ledger(run))|
      ensures forall r :: GivesRise(e, r) ==> r in lineage.relations
    {
      hide History, Legal, Events, Started, OfRun, Canonical, EventRelations, GivesRise;
      EventStored(lineage.relations, Ledger(run), at, e);
    }

    /** What the lineage log says about the run is true, and it says everything once all successes are mirrored. */
    lemma LineageMeans(run: Id)
      requires RunOk(run)
      ensures Truthful(lineage.relations, Ledger(run))
      ensures Mirrored(run) ==> AllStored(lineage.relations, Ledger(run))
    {
      hide History, Legal, Events, Started, Converging, Truthful, AllStored, AllProjectable;
      HistoryProjectable(policy, Ledger(run));
      LogMeans(lineage.relations, Ledger(run));
    }

    /** `_reconcile_success_lineage`: completes exactly the canonical list, and a second time does nothing. */
    method Reconcile(run: Id) returns (step: Step)
      requires Valid() && RunOk(run)
      modifies this`clock, lineage
      ensures Valid() && RunOk(run) && old(clock) <= clock
      ensures step.Halt? ==> MirrorEnds(step.outcome)
      ensures step == Continue ==> Mirrored(run) && AllStored(lineage.relations, Ledger(run))
      ensures Truthful(lineage.relations, Ledger(run))
      ensures old(Mirrored(run)) ==> lineage.relations == old(lineage.relations)
    {
      hide History, Appendable, Legal, Events, Started, Grounded, FreshEventIds, DistinctIds, OfRun, EventRelations;
      hide Truthful, AllStored, GivesRise;
      var events := ForRun(log, run);
      var i := 0;
      while i < |events|
        invariant 0 <= i <= |events|
        invariant Advanced(run, |Canonical(events)|)
        invariant |Canonical(events[..i])| <= |OfRun(lineage.relations, events)|
      {
        var e := events[i];
        TakeNext(events, i);
        CanonicalPrefix(events, i + 1);
        if e.kind == ExecutionSucceeded {
          assert e in events;
          SuccessProjectable(policy, events, e);
          EventStands(events, i);
          step := ProjectSuccess(run, |Canonical(events[..i])|, e);
          if step.Halt? { LineageMeans(run); return; }
        }
        i := i + 1;
      }
      assert events[..i] == events;
      LineageMeans(run);
      step := Continue;
    }

    // ---- The driver

    /** The run has started, with exactly this request. */
    ghost predicate Runs(request: Request) reads this`log {
      var h := ForRun(log, request.runId);
      h != [] && h[0].meta.start.Some? && RequestOf(h) == request
    }

    /** A run under way whose successes are all mirrored. */
    ghost predicate Steady(request: Request) reads this`log, this`executed, this`traces, lineage {
      Valid() && RunOk(request.runId) && Mirrored(request.runId) && Runs(request)
    }

    /** `call` is the last call of the run. */
    ghost predicate Current(request: Request, call: Call) reads this`log {
      call.body.runId == request.runId && CurrentCall(Ledger(request.runId)) == Some(call)
    }

    /** What no driver takes back. */
    twostate predicate Kept(run: Id) reads this`log, this`executed, this`traces, this`clock, lineage {
      && Valid() && RunOk(run) && old(Ledger(run)) <= Ledger(run) && old(executed) <= executed
      && old(Trace(run)) <= Trace(run) && old(clock) <= clock
    }

    /** While a driver is at work, its trace grows by writes alone. */
    twostate predicate Grown(run: Id) reads this`log, this`executed, this`traces, this`clock, lineage {
      Kept(run) && |Trace(run)| - |Ledger(run)| == old(|Trace(run)| - |Ledger(run)|)
    }

    /** No decision was recorded meanwhile. */
    twostate predicate Undecided(run: Id) reads this`log {
      forall k :: old(|Ledger(run)|) <= k < |Ledger(run)| ==> Ledger(run)[k].kind != DecisionRecorded
    }

    /** Whatever was recorded meanwhile and is not the loop's own choice comes from the provider, from the
        approval handed in or from an executor, meanwhile. */
    twostate predicate Honest(run: Id, approval: Option<Approval>) reads this`log, this`clock {
      AllVouched(env, old(clock), clock, approval, old(Ledger(run)), Ledger(run))
    }

    /** How a driver ends: with a cause met since then, and at a place where it may leave the run. */
    twostate predicate Ends(request: Request, outcome: Outcome) reads this`log, this`traces, this`clock {
      && Caused(env, old(clock), clock, request, Ledger(request.runId), outcome)
      && MayLeave(policy, Trace(request.runId), How(outcome))
    }

    lemma SteadyParts(request: Request)
      requires Steady(request)
      ensures Valid() && RunOk(request.runId) && Runs(request) && Mirrored(request.runId) && Ledger(request.runId) != []
    {}

    lemma TraceWrites(run: Id)
      requires RunOk(run)
      ensures Events(Trace(run)) == Ledger(run) && History(policy, Ledger(run))
    {}

    lemma FreshIdUnderWay(request: Request, id: Id)
      requires RunOk(request.runId) && Runs(request) && id !in Ids(log)
      ensures Events(Trace(request.runId)) == Ledger(request.runId)
      ensures UnderWay(policy, Trace(request.runId), request, id)
    {
      hide History, Legal, Events, Converging, Started;
      ForRunMembers(log, request.runId);
    }

    /** An approval that does not fit is refused, a fitting one is not, and a run that is over,
        waiting for review or interrupted is not touched. */
    twostate predicate Guarded(run: Id, approval: Option<Approval>, outcome: Outcome) reads this`log, this`executed {
      && (approval.Some? && !ApprovalFits(approval.value, old(Ledger(run))) ==>
            && !outcome.Returned? && executed == old(executed)
            && (old(Ledger(run)) != [] ==> Ledger(run) == old(Ledger(run))))
      && (outcome == Raised(ApprovalError) ==> approval.Some? && !ApprovalFits(approval.value, old(Ledger(run))))
      && (Quiescent(old(Ledger(run))) ==>
            && Ledger(run) == old(Ledger(run)) && executed == old(executed)
            && (approval.Some? ==> !outcome.Returned?))
    }

    /** Append one event of a run under way. */
    method Record(request: Request, e: Event) returns (step: Step)
      requires Steady(request) && e.runId == request.runId && e.eventId !in Ids(log)
      requires MayWrite(policy, Trace(request.runId), e)
      modifies this`log, this`clock, this`traces
      ensures Grown(request.runId) && Runs(request) && clock == old(clock) + 1
      ensures step == if env.crash(clock) == Survives then Continue else Halt(Died)
      ensures step.Halt? ==> Ends(request, Died)
      ensures if env.crash(clock) == DiesBefore then
                Ledger(request.runId) == old(Ledger(request.runId)) && Trace(request.runId) == old(Trace(request.runId))
              else
                && Ledger(request.runId) == old(Ledger(request.runId)) + [e]
                && Trace(request.runId) == old(Trace(request.runId)) + [Wrote(e)]
      ensures e.kind != ExecutionSucceeded ==> Steady(request)
      ensures OfRun(lineage.relations, Ledger(request.runId)) == old(OfRun(lineage.relations, Ledger(request.runId)))
    {
      hide Valid, RunOk, Mirrored, MayWrite, OfRun, ForRun, Ids;
      var alive := Append(request.runId, e);
      step := if alive then Continue else Halt(Died);
    }

    /** `_result`. */
    method Result(request: Request) returns (outcome: Outcome)
      requires RunOk(request.runId) && Runs(request)
      ensures outcome.Returned? && Reports(outcome, request, Ledger(request.runId))
    {
      hide History, Appendable, Converging, Started, Project, Legal, Events;
      var events := ForRun(log, request.runId);
      ProjectionTotal(policy, events);
      var s := ProjectEvents(events);
      LoopStatusByLast(events, s.value);
      var visible := VisibleArtifacts(request, events);
      outcome := ResultFrom(s.value, visible);
    }

    /** Return what the projection says, at a place that does not depend on the provider. */
    method Rest(request: Request) returns (step: Step)
      requires RunOk(request.runId) && Runs(request)
      requires Last(Ledger(request.runId)).kind in RUN_ENDS + {ReviewRequested, ApprovalRequired}
               || (AtTop(Trace(request.runId)) && Last(Ledger(request.runId)).kind == ExecutionStarted)
               || (!Idle(Trace(request.runId)) && ApprovedEnd(Ledger(request.runId)))
      ensures step.Halt? && step.outcome.Returned?
      ensures forall from: nat :: Caused(env, from, clock, request, Ledger(request.runId), step.outcome)
      ensures MayLeave(policy, Trace(request.runId), ByReturn)
    {
      hide RunOk, Reports, ForRun, Events, AtTop;
      TraceWrites(request.runId);
      MayReturnHere(Trace(request.runId));
      var outcome := Result(request);
      step := Halt(outcome);
    }

    /** The start event is written first; only then is the executor invoked, and only here. */
    method StartExecutor(request: Request, call: Call) returns (step: Step)
      requires Steady(request) && Current(request, call) && MayStart(policy, Trace(request.runId))
      modifies this`log, this`clock, this`executed, this`traces
      ensures Grown(request.runId) && Runs(request) && Undecided(request.runId) && clock == old(clock) + 1
      ensures step == if env.crash(clock) == Survives then Continue else Halt(Died)
      ensures step.Halt? ==> executed == old(executed) && Ends(request, Died)
      ensures Ledger(request.runId) == old(Ledger(request.runId))
              || (|Ledger(request.runId)| == old(|Ledger(request.runId)|) + 1
                  && Last(Ledger(request.runId)).kind == ExecutionStarted
                  && Last(Ledger(request.runId)).meta.callId == Some(call.body.callId))
      ensures step == Continue ==>
                && Steady(request) && Current(request, call) && !Idle(Trace(request.runId))
                && |Ledger(request.runId)| == old(|Ledger(request.runId)|) + 1
                && executed == old(executed) + [Invocation(request.runId, call.body.callId)]
    {
      hide History, Legal, Events, AtTop, Grounded, FreshEventIds, Converging, Complete, ForRun, Started, MayStart,
          Caused;
      ghost var h := Ledger(request.runId);
      var e: Event;
      step, e := RecordStart(request, call);
      if step.Halt? { return; }
      StartIsCovered(executed, h, e);
      executed := executed + [Invocation(request.runId, call.body.callId)];
    }

    method RecordStart(request: Request, call: Call) returns (step: Step, e: Event)
      requires Steady(request) && Current(request, call) && MayStart(policy, Trace(request.runId))
      modifies this`log, this`clock, this`traces
      ensures Grown(request.runId) && Steady(request) && clock == old(clock) + 1
      ensures step == if env.crash(clock) == Survives then Continue else Halt(Died)
      ensures step.Halt? ==> Ends(request, Died)
      ensures e.kind == ExecutionStarted && e.runId == request.runId && e.meta.callId == Some(call.body.callId)
      ensures Ledger(request.runId) in {old(Ledger(request.runId)), old(Ledger(request.runId)) + [e]}
      ensures step == Continue ==>
                && Ledger(request.runId) == old(Ledger(request.runId)) + [e] && Current(request, call)
                && !Idle(Trace(request.runId))
      ensures forall s :: s in old(Ledger(request.runId)) && s.kind == ExecutionStarted ==>
                s.meta.callId != e.meta.callId
    {
      hide Valid, RunOk, Mirrored, MayWrite, Events, ForRun, Ids, OfKinds, UnderWay, MayLeave, Caused, AtTop, MayStart;
      hide History, Appendable;
      ghost var h := Ledger(request.runId);
      TraceWrites(request.runId);
      var id := FreshEventId();
      FreshIdUnderWay(request, id);
      CanStartCall(policy, Trace(request.runId), request, id, env.now(clock), call);
      e := CallEvent(ExecutionStarted, id, env.now(clock), call, [], NO_METADATA);
      NotYetStarted(policy, h, e);
      step := Record(request, e);
      OfKindsSnoc(h, e, {Materialized});
    }

    /** After the executor: a failure, or a success mirrored into the lineage.
        Two equal outputs, and nothing else, make the success event impossible and leave the call interrupted. */
    method FinishExecutor(request: Request, call: Call) returns (step: Step)
      requires Steady(request) && Current(request, call)
      requires Last(Ledger(request.runId)).kind == ExecutionStarted && !Idle(Trace(request.runId))
      modifies this`log, this`clock, this`traces, lineage
      ensures Grown(request.runId) && Runs(request) && Undecided(request.runId)
      ensures step.Halt? ==> !step.outcome.Returned? && !BlamesCaller(step.outcome) && Ends(request, step.outcome)
      ensures step == Halt(Raised(DuplicateOutputs)) <==> RepeatsOutputs(env.tool(old(clock) + 1))
      ensures RepeatsOutputs(env.tool(old(clock) + 1)) ==> Ledger(request.runId) == old(Ledger(request.runId))
      ensures old(clock) < clock
      ensures Ledger(request.runId) == old(Ledger(request.runId))
              || (|Ledger(request.runId)| == old(|Ledger(request.runId)|) + 1
                  && Finishes(env.tool(old(clock) + 1), Last(Ledger(request.runId))))
      ensures step == Continue ==>
                Steady(request) && !Idle(Trace(request.runId)) && Ledger(request.runId) != old(Ledger(request.runId))
    {
      hide Valid, RunOk, Mirrored, MayWrite, Events, OfRun, ForRun, Ids, OfKinds, UnderWay, SafeErrorType, Caused,
          MayLeave;
      FinishKinds();
      hide Finishes, Steady, Runs, Current, Ledger, Trace, Idle;
      SteadyParts(request);
      clock := clock + 1;
      ghost var called := clock;
      var outcome := env.tool(clock);
      if outcome.ToolReturns? && |outcome.data| <= MAX_TOOL_RESULT_DATA_BYTES {
        if !Distinct(outcome.outputs) {
          RepeatedOutputsEnd(request, old(clock));
          return Halt(Raised(DuplicateOutputs));
        }
        step := Succeed(request, call, outcome);
      } else {
        step := Fail(request, call, outcome);
      }
      if step.Halt? { CausedSooner(env, old(clock), called, clock, request, Ledger(request.runId), step.outcome); }
    }

    lemma FinishKinds()
      ensures forall outcome, e :: Finishes(outcome, e) ==> e.kind in EXECUTION_ENDS
    {}

    lemma RepeatedOutputsEnd(request: Request, from: nat)
      requires Steady(request) && Last(Ledger(request.runId)).kind == ExecutionStarted
      requires from < clock && RepeatsOutputs(env.tool(clock))
      ensures Caused(env, from, clock, request, Ledger(request.runId), Raised(DuplicateOutputs))
      ensures MayLeave(policy, Trace(request.runId), ByError)
    {
      hide Valid, Mirrored, History, Legal, Events, Converging, Started, AtTop;
    }

    method Fail(request: Request, call: Call, outcome: ToolOutcome) returns (step: Step)
      requires Steady(request) && Current(request, call)
      requires outcome.ToolRaises? || |outcome.data| > MAX_TOOL_RESULT_DATA_BYTES
      requires Last(Ledger(request.runId)).kind == ExecutionStarted && !Idle(Trace(request.runId))
      modifies this`log, this`clock, this`traces
      ensures Grown(request.runId) && Runs(request) && Steady(request)
      ensures step == Continue || (step == Halt(Died) && Ends(request, Died))
      ensures step == Continue ==> !Idle(Trace(request.runId)) && Ledger(request.runId) != old(Ledger(request.runId))
      ensures Ledger(request.runId) == old(Ledger(request.runId))
              || (|Ledger(request.runId)| == old(|Ledger(request.runId)|) + 1
                  && Finishes(outcome, Last(Ledger(request.runId))))
    {
      hide Valid, RunOk, Mirrored, MayWrite, Events, OfRun, ForRun, Ids, OfKinds, UnderWay, SafeErrorType, NamesFailure;
      var name := if outcome.ToolRaises? then outcome.name else "ToolContractError";
      RecordedName(name);
      var id := FreshEventId();
      FreshIdUnderWay(request, id);
      CanFail(policy, Trace(request.runId), request, id, env.now(clock), call, name);
      step := Record(request, CallEvent(ExecutionFailed, id, env.now(clock), call, [],
                                        NO_METADATA.(errorType := Some(SafeErrorType(name)))));
    }

    method Succeed(request: Request, call: Call, outcome: ToolOutcome) returns (step: Step)
      requires Steady(request) && Current(request, call)
      requires outcome.ToolReturns? && |outcome.data| <= MAX_TOOL_RESULT_DATA_BYTES && Distinct(outcome.outputs)
      requires Last(Ledger(request.runId)).kind == ExecutionStarted && !Idle(Trace(request.runId))
      modifies this`log, this`clock, this`traces, lineage
      ensures Grown(request.runId) && Runs(request)
      ensures step.Halt? ==> step.outcome in {Died, Raised(ReconciliationError)} && Ends(request, step.outcome)
      ensures step == Continue ==>
                Steady(request) && !Idle(Trace(request.runId)) && Ledger(request.runId) != old(Ledger(request.runId))
      ensures Ledger(request.runId) == old(Ledger(request.runId))
              || (|Ledger(request.runId)| == old(|Ledger(request.runId)|) + 1
                  && Finishes(outcome, Last(Ledger(request.runId))))
    {
      hide Valid, RunOk, MayWrite, Events, OfRun, ForRun, Ids, OfKinds, UnderWay, Canonical, Crashes, Refuses, MayLeave;
      hide Caused, StandsAt, EventRelations;
      ghost var h := Ledger(request.runId);
      var id := FreshEventId();
      FreshIdUnderWay(request, id);
      CanSucceed(policy, Trace(request.runId), request, id, env.now(clock), call, outcome.data, outcome.outputs);
      var e := CallEvent(ExecutionSucceeded, id, env.now(clock), call, outcome.outputs,
                         NO_METADATA.(result := Some(Observation(outcome.data, outcome.data))));
      step := Record(request, e);
      if step.Halt? { return; }
      StandsLast(request.runId, h, e);
      ghost var recorded := clock;
      step := ProjectSuccess(request.runId, |Canonical(h)|, e);
      if step == Continue {
        SuccessMirrored(request.runId, h, e);
      } else {
        MirrorEnd(request, old(clock), recorded, step.outcome);
      }
    }

    lemma StandsLast(run: Id, h: seq<Event>, e: Event)
      requires RunOk(run) && Ledger(run) == h + [e] && e.kind == ExecutionSucceeded && Complete(lineage.relations, h)
      ensures e in Ledger(run) && StandsAt(Ledger(run), |Canonical(h)|, e)
    {
      hide Appendable, Legal, Events, Started, OfRun, ForRun, Canonical, EventRelations;
      var after := h + [e];
      assert e in after;
      SuccessProjectable(policy, after, e);
      EventStands(after, |h|);
      assert after[..|h|] == h;
    }

    lemma SuccessMirrored(run: Id, h: seq<Event>, e: Event)
      requires Valid() && RunOk(run) && Ledger(run) == h + [e] && StandsAt(Ledger(run), |Canonical(h)|, e)
      requires |Canonical(h)| + |EventRelations(e)| <= |OfRun(lineage.relations, Ledger(run))|
      ensures Mirrored(run)
    {
      hide History, Appendable, Legal, Events, Started, OfRun, ForRun, EventRelations;
      Snoc(h, e);
      AllMirrored(lineage.relations, h + [e]);
    }

    lemma MirrorEnd(request: Request, from: nat, later: nat, outcome: Outcome)
      requires RunOk(request.runId) && Runs(request) && Last(Ledger(request.runId)).kind == ExecutionSucceeded
      requires from <= later
      requires if outcome == Died then Crashes(env, later, clock)
               else outcome == Raised(ReconciliationError) && Refuses(env, later, clock)
      ensures Caused(env, from, clock, request, Ledger(request.runId), outcome)
      ensures MayLeave(policy, Trace(request.runId), How(outcome))
    {
      hide History, Legal, Events, Converging, Started, AtTop;
    }

    /** The start event, the executor, and the event for its outcome. */
    method Invoke(request: Request, call: Call) returns (step: Step)
      requires Steady(request) && Current(request, call) && MayStart(policy, Trace(request.runId))
      modifies this`log, this`clock, this`executed, this`traces, lineage
      ensures Grown(request.runId) && Runs(request) && Undecided(request.runId)
      ensures step.Halt? ==> !step.outcome.Returned? && !BlamesCaller(step.outcome) && Ends(request, step.outcome)
      ensures step == Continue ==>
                && Steady(request) && !Idle(Trace(request.runId))
                && |Ledger(request.runId)| == old(|Ledger(request.runId)|) + 2
                && Last(Ledger(request.runId)).kind in EXECUTION_ENDS
                && executed == old(executed) + [Invocation(request.runId, call.body.callId)]
      ensures executed in {old(executed), old(executed) + [Invocation(request.runId, call.body.callId)]}
      ensures |Ledger(request.runId)| > old(|Ledger(request.runId)|) ==>
                && Ledger(request.runId)[old(|Ledger(request.runId)|)].kind == ExecutionStarted
                && Ledger(request.runId)[old(|Ledger(request.runId)|)].meta.callId == Some(call.body.callId)
      ensures |Ledger(request.runId)| <= old(|Ledger(request.runId)|) + 2
      ensures |Ledger(request.runId)| == old(|Ledger(request.runId)|) + 2 ==>
                Finishes(env.tool(old(clock) + 2), Last(Ledger(request.runId)))
      ensures Honest(request.runId, None)
      ensures step == Halt(Raised(DuplicateOutputs)) <==>
                env.crash(old(clock) + 1) == Survives && RepeatsOutputs(env.tool(old(clock) + 2))
      ensures step == Halt(Raised(DuplicateOutputs)) ==> |Ledger(request.runId)| == old(|Ledger(request.runId)|) + 1
    {
      FinishKinds();
      hide Valid, RunOk, Steady, Runs, Current, Ledger, Trace, Idle, MayStart, MayLeave, Caused, RepeatsOutputs,
          Finishes, AllVouched;
      SteadyParts(request);
      ghost var h := Ledger(request.runId);
      step := StartExecutor(request, call);
      if step.Halt? {
        VouchedExecution(env, old(clock), clock, clock, h, Ledger(request.runId));
        return;
      }
      ghost var started := clock;
      step := FinishExecutor(request, call);
      VouchedExecution(env, old(clock), started + 1, clock, h, Ledger(request.runId));
      if step.Halt? { CausedSooner(env, old(clock), started, clock, request, Ledger(request.runId), step.outcome); }
    }

    /** `_execute_call`. */
    method ExecuteCall(request: Request, call: Call) returns (step: Step)
      requires Steady(request) && Current(request, call) && MayStart(policy, Trace(request.runId))
      modifies this`log, this`clock, this`executed, this`traces, lineage
      ensures Grown(request.runId) && Runs(request) && Undecided(request.runId)
      ensures step.Halt? ==> !step.outcome.Returned? && !BlamesCaller(step.outcome) && Ends(request, step.outcome)
      ensures step == Continue ==>
                && Steady(request) && !Idle(Trace(request.runId))
                && |Ledger(request.runId)| == old(|Ledger(request.runId)|) + 2
                && Last(Ledger(request.runId)).kind in EXECUTION_ENDS
                && executed == old(executed) + [Invocation(request.runId, call.body.callId)]
      ensures executed in {old(executed), old(executed) + [Invocation(request.runId, call.body.callId)]}
      ensures |Ledger(request.runId)| > old(|Ledger(request.runId)|) ==>
                && Ledger(request.runId)[old(|Ledger(request.runId)|)].kind == ExecutionStarted
                && Ledger(request.runId)[old(|Ledger(request.runId)|)].meta.callId == Some(call.body.callId)
      ensures |Ledger(request.runId)| <= old(|Ledger(request.runId)|) + 2
      ensures |Ledger(request.runId)| == old(|Ledger(request.runId)|) + 2 ==>
                Finishes(env.tool(old(clock) + 3), Last(Ledger(request.runId)))
      ensures Honest(request.runId, None)
      ensures !env.accepts(old(clock) + 1) ==>
                step == Halt(Raised(ContractError)) && Ledger(request.runId) == old(Ledger(request.runId))
      ensures step == Halt(Raised(DuplicateOutputs)) <==> StartsThenRepeats(env, old(clock))
      ensures step == Halt(Raised(DuplicateOutputs)) ==> |Ledger(request.runId)| == old(|Ledger(request.runId)|) + 1
    {
      hide Valid, RunOk, Steady, Runs, Current, Ledger, Trace, Idle, MayStart, MayLeave, Caused, RepeatsOutputs,
          Finishes, AllVouched;
      SteadyParts(request);
      ghost var h := Ledger(request.runId);
      clock := clock + 1;
      if !env.accepts(clock) {
        StartRefused(request, old(clock));
        VouchedNothing(env, old(clock), clock, None, h);
        return Halt(Raised(ContractError));
      }
      ghost var accepted := clock;
      step := Invoke(request, call);
      VouchedLater(env, old(clock), accepted, clock, None, h, Ledger(request.runId));
      if step.Halt? { CausedSooner(env, old(clock), accepted, clock, request, Ledger(request.runId), step.outcome); }
    }

    lemma StartRefused(request: Request, from: nat)
      requires Steady(request) && MayStart(policy, Trace(request.runId)) && from < clock && !env.accepts(clock)
      ensures Caused(env, from, clock, request, Ledger(request.runId), Raised(ContractError))
      ensures MayLeave(policy, Trace(request.runId), ByError)
    {
      hide Valid, RunOk, Mirrored, Runs, Events, AtTop, ReadyToExecute;
    }

    /** The approval branch: the record must bind to the pending call; a rejection closes the run. */
    method Review(request: Request, call: Call, approval: Approval) returns (step: Step)
      requires Steady(request) && Current(request, call)
      requires Last(Ledger(request.runId)).kind == ApprovalRequired && AtTop(Trace(request.runId))
      modifies this`log, this`clock, this`traces
      ensures Grown(request.runId) && Runs(request) && Undecided(request.runId)
      ensures !approval.BindsTo(call) <==> step == Halt(Raised(ApprovalError))
      ensures step == Halt(Raised(ApprovalError)) ==> Ledger(request.runId) == old(Ledger(request.runId))
      ensures step.Halt? && step.outcome.Raised? ==> step.outcome == Raised(ApprovalError)
      ensures Ledger(request.runId) == old(Ledger(request.runId))
              || (|Ledger(request.runId)| > old(|Ledger(request.runId)|)
                  && Records(approval, call.body.callId, Ledger(request.runId)[old(|Ledger(request.runId)|)]))
      ensures approval.BindsTo(call) ==>
                Reviewed(approval, call.body.callId, old(Ledger(request.runId)), Ledger(request.runId), step)
      ensures Honest(request.runId, Some(approval))
      ensures step == Continue ==>
                && approval.decision == Approved && Steady(request) && AtTop(Trace(request.runId))
                && |Ledger(request.runId)| == old(|Ledger(request.runId)|) + 1
      ensures step.Halt? ==> step.outcome != Raised(BindingError) && Ends(request, step.outcome)
      ensures step.Halt? && step.outcome.Returned? ==>
                && approval.decision == Rejected && Steady(request)
                && |Ledger(request.runId)| == old(|Ledger(request.runId)|) + 3
                   && Last(Ledger(request.runId)).kind == RunRejected
    {
      hide Valid, RunOk, Mirrored, Runs, Ledger, Trace, Idle, MayLeave, Caused, AtTop, CurrentCall, AllVouched,
          Reviewed;
      SteadyParts(request);
      ghost var (h, x) := (Ledger(request.runId), call.body.callId);
      if !approval.BindsTo(call) {
        ApprovalRefused(request, old(clock));
        VouchedReview(env, old(clock), clock, approval, x, h, h);
        return Halt(Raised(ApprovalError));
      }
      step := RecordApproval(request, call, approval);
      ghost var later := clock;
      if step == Continue && approval.decision == Rejected {
        step := Refuse(request, call);
        CausedSooner(env, old(clock), later, clock, request, Ledger(request.runId), step.outcome);
      } else if step == Continue {
        BackAtTop(request.runId);
      }
      ReviewedAs(approval, x, h, Ledger(request.runId), step);
      VouchedReview(env, old(clock), clock, approval, x, h, Ledger(request.runId));
    }

    /** `_record_approval`. */
    method RecordApproval(request: Request, call: Call, approval: Approval) returns (step: Step)
      requires Steady(request) && Current(request, call) && approval.BindsTo(call)
      requires Last(Ledger(request.runId)).kind == ApprovalRequired && AtTop(Trace(request.runId))
      modifies this`log, this`clock, this`traces
      ensures Grown(request.runId) && Steady(request)
      ensures step == Continue || (step == Halt(Died) && Ends(request, Died))
      ensures Ledger(request.runId) == old(Ledger(request.runId))
              || (|Ledger(request.runId)| == old(|Ledger(request.runId)|) + 1
                 && Records(approval, call.body.callId, Last(Ledger(request.runId))))
      ensures step == Continue ==>
                Ledger(request.runId) != old(Ledger(request.runId)) && !Idle(Trace(request.runId))
                    && Current(request, call)
    {
      hide Valid, RunOk, Mirrored, MayWrite, Events, ForRun, Ids, OfKinds, UnderWay, MayLeave, Caused, AtTop;
      ghost var h := Ledger(request.runId);
      var id := FreshEventId();
      FreshIdUnderWay(request, id);
      CanRecord(policy, Trace(request.runId), request, id, env.now(clock), call, approval);
      var recorded := CallEvent(ApprovalRecorded, id, env.now(clock), call, [],
          NO_METADATA.(approval := Some(approval)));
      step := Record(request, recorded);
      OfKindsSnoc(h, recorded, {Materialized});
    }

    lemma ApprovalRefused(request: Request, from: nat)
      requires AtTop(Trace(request.runId)) && from <= clock
      ensures Caused(env, from, clock, request, Ledger(request.runId), Raised(ApprovalError))
      ensures MayLeave(policy, Trace(request.runId), ByError)
    {}

    lemma BackAtTop(run: Id)
      requires RunOk(run) && LoopsBack(Ledger(run))
      ensures AtTop(Trace(run))
    {
      hide History, Legal, Events, Converging, Started, ForRun, LoopsBack;
    }

    /** The two events after a recorded rejection. */
    method Refuse(request: Request, call: Call) returns (step: Step)
      requires Steady(request) && Current(request, call)
      requires RejectedBy(Last(Ledger(request.runId))) && !Idle(Trace(request.runId))
      modifies this`log, this`clock, this`traces
      ensures Grown(request.runId) && Steady(request) && Undecided(request.runId)
      ensures step.Halt? && !step.outcome.Raised? && Ends(request, step.outcome)
      ensures |Ledger(request.runId)| <= old(|Ledger(request.runId)|) + 2
      ensures |Ledger(request.runId)| > old(|Ledger(request.runId)|) ==>
                Ledger(request.runId)[old(|Ledger(request.runId)|)].kind == CallRejected
      ensures |Ledger(request.runId)| == old(|Ledger(request.runId)|) + 2 ==>
                Last(Ledger(request.runId)).kind == RunRejected
      ensures step.outcome.Returned? ==>
                |Ledger(request.runId)| == old(|Ledger(request.runId)|) + 2
                    && Last(Ledger(request.runId)).kind == RunRejected
    {
      hide Valid, RunOk, Mirrored, Runs, Steady, Current, Ledger, Trace, Idle, MayLeave, Caused;
      step := RejectCall(request, call);
      if step == Continue {
        ghost var later := clock;
        step := CloseRejected(request, call);
        CausedSooner(env, old(clock), later, clock, request, Ledger(request.runId), step.outcome);
      }
    }

    /** `_append_rejection`. */
    method RejectCall(request: Request, call: Call) returns (step: Step)
      requires Steady(request) && Current(request, call)
      requires RejectedBy(Last(Ledger(request.runId))) && !Idle(Trace(request.runId))
      modifies this`log, this`clock, this`traces
      ensures Grown(request.runId) && Steady(request) && Undecided(request.runId)
      ensures step == Continue || (step == Halt(Died) && Ends(request, Died))
      ensures Ledger(request.runId) == old(Ledger(request.runId))
              || (|Ledger(request.runId)| == old(|Ledger(request.runId)|) + 1
                  && Last(Ledger(request.runId)).kind == CallRejected)
      ensures step == Continue ==>
                && |Ledger(request.runId)| == old(|Ledger(request.runId)|) + 1 && Current(request, call)
                && Last(Ledger(request.runId)).kind == CallRejected && !Idle(Trace(request.runId))
    {
      hide Valid, RunOk, Mirrored, MayWrite, Events, ForRun, Ids, OfKinds, UnderWay, MayLeave, Caused, AtTop;
      ghost var h := Ledger(request.runId);
      var id := FreshEventId();
      FreshIdUnderWay(request, id);
      CanReject(policy, Trace(request.runId), request, id, env.now(clock), call);
      var rejected := CallEvent(CallRejected, id, env.now(clock), call, [], NO_METADATA);
      step := Record(request, rejected);
      OfKindsSnoc(h, rejected, {Materialized});
    }

    method CloseRejected(request: Request, call: Call) returns (step: Step)
      requires Steady(request) && Current(request, call)
      requires Last(Ledger(request.runId)).kind == CallRejected && !Idle(Trace(request.runId))
      modifies this`log, this`clock, this`traces
      ensures Grown(request.runId) && Steady(request) && Undecided(request.runId)
      ensures step.Halt? && !step.outcome.Raised? && Ends(request, step.outcome)
      ensures Ledger(request.runId) == old(Ledger(request.runId))
              || (|Ledger(request.runId)| == old(|Ledger(request.runId)|) + 1
                  && Last(Ledger(request.runId)).kind == RunRejected)
      ensures step.outcome.Returned? ==>
                |Ledger(request.runId)| == old(|Ledger(request.runId)|) + 1
                    && Last(Ledger(request.runId)).kind == RunRejected
    {
      hide Valid, RunOk, Mirrored, MayWrite, Events, ForRun, Ids, OfKinds, UnderWay, MayLeave, Caused, AtTop;
      var id := FreshEventId();
      FreshIdUnderWay(request, id);
      CanReject(policy, Trace(request.runId), request, id, env.now(clock), call);
      step := Record(request, RejectedRunEvent(id, env.now(clock), call));
      if step == Continue { step := Rest(request); }
    }

    /** Append the closing event and report. */
    method Close(request: Request, e: Event) returns (step: Step)
      requires Steady(request) && e.runId == request.runId && e.eventId !in Ids(log)
                 && MayWrite(policy, Trace(request.runId), e)
      requires e.kind in {BudgetExhausted, RunStopped, ReviewRequested, ApprovalRequired}
      modifies this`log, this`clock, this`traces
      ensures Grown(request.runId) && Steady(request)
      ensures step.Halt? && !step.outcome.Raised? && Ends(request, step.outcome)
      ensures clock == old(clock) + 1 && (step.outcome.Returned? <==> env.crash(clock) == Survives)
      ensures Ledger(request.runId) == old(Ledger(request.runId))
                || Ledger(request.runId) == old(Ledger(request.runId)) + [e]
      ensures step.outcome.Returned? ==> Ledger(request.runId) == old(Ledger(request.runId)) + [e]
    {
      hide Valid, RunOk, Mirrored, MayWrite, Events, ForRun, Ids, OfKinds, UnderWay, MayLeave, Caused, AtTop;
      step := Record(request, e);
      if step == Continue { step := Rest(request); }
    }

    /** The server, never the provider, makes the identities of a call. */
    method NewCall(request: Request, a: Action) returns (call: Call)
      requires a.Propose? && Distinct(a.inputs)
      ensures Carries(call, a, request) && FreshCall(Ledger(request.runId), call.body)
      ensures (call.body.tool.version, call.body.specDigest) == env.resolve(clock)
    {
      ghost var free := FreeId(log);
      assert free !in StepIds(log) && free !in CallIdsUsed(log);
      var stepId: Id :| stepId !in StepIds(log);
      var callId: Id :| callId !in CallIdsUsed(log);
      ForRunMembers(log, request.runId);
      var (version, spec) := env.resolve(clock);
      var body := CallBody(request.runId, stepId, callId, Tool(a.toolName, version), spec, request.policyDigest,
                           a.arguments, a.inputs, env.now(clock));
      call := Call(body, CallDigest(body), a.reason);
    }

    /** A materialized call that wants approval is put up for it and not executed; any other is executed at once. */
    method AskOrExecute(request: Request, call: Call) returns (step: Step)
      requires Steady(request) && Current(request, call) && !Idle(Trace(request.runId))
      requires Last(Ledger(request.runId)).kind == Materialized
      modifies this`log, this`clock, this`executed, this`traces, lineage
      ensures Grown(request.runId) && Runs(request) && Undecided(request.runId)
      ensures policy.requiresApproval(call.body.specDigest) ==>
                && executed == old(executed) && step.Halt? && !step.outcome.Raised?
                && (step.outcome.Returned? <==> env.crash(old(clock) + 1) == Survives)
                && (step.outcome.Returned? ==> Ledger(request.runId) != old(Ledger(request.runId)))
      ensures Ledger(request.runId) == old(Ledger(request.runId))
              || (|Ledger(request.runId)| > old(|Ledger(request.runId)|)
                  && if policy.requiresApproval(call.body.specDigest) then
                       |Ledger(request.runId)| == old(|Ledger(request.runId)|) + 1
                       && Last(Ledger(request.runId)).kind == ApprovalRequired
                     else
                       Ledger(request.runId)[old(|Ledger(request.runId)|)].kind == ExecutionStarted
                       && |Ledger(request.runId)| <= old(|Ledger(request.runId)|) + 2
                       && (|Ledger(request.runId)| == old(|Ledger(request.runId)|) + 2 ==>
                             Last(Ledger(request.runId)).kind in EXECUTION_ENDS))
      ensures !policy.requiresApproval(call.body.specDigest) && step.Halt? ==> !step.outcome.Returned?
      ensures Honest(request.runId, None)
      ensures step == Continue ==>
                Steady(request) && AtTop(Trace(request.runId)) && Ledger(request.runId) != old(Ledger(request.runId))
      ensures step.Halt? ==> !BlamesCaller(step.outcome) && Ends(request, step.outcome)
      ensures step.Halt? && step.outcome.Returned? ==> Steady(request)
      ensures step == Halt(Raised(DuplicateOutputs)) <==>
                !policy.requiresApproval(call.body.specDigest) && StartsThenRepeats(env, old(clock))
      ensures step == Halt(Raised(DuplicateOutputs)) ==> |Ledger(request.runId)| == old(|Ledger(request.runId)|) + 1
    {
      hide Valid, RunOk, Mirrored, Runs, Trace, MayLeave, Caused, StartsThenRepeats, CurrentCall, ForRun, AtTop,
          AllVouched;
      SteadyParts(request);
      if policy.requiresApproval(call.body.specDigest) {
        step := PutUp(request, call);
      } else {
        FinishKinds();
        hide Finishes;
        MayStartBehind(request, call);
        ghost var h := Ledger(request.runId);
        step := ExecuteCall(request, call);
        if step == Continue {
          assert Ledger(request.runId)[|h| - 1] == Last(h);
          BackAtTop(request.runId);
        }
      }
    }

    /** `_append_approval_required`, and the return behind it. */
    method PutUp(request: Request, call: Call) returns (step: Step)
      requires Steady(request) && Current(request, call) && !Idle(Trace(request.runId))
      requires Last(Ledger(request.runId)).kind == Materialized && policy.requiresApproval(call.body.specDigest)
      modifies this`log, this`clock, this`traces
      ensures Grown(request.runId) && Steady(request) && Undecided(request.runId) && Honest(request.runId, None)
      ensures step.Halt? && !step.outcome.Raised? && Ends(request, step.outcome)
      ensures step.outcome.Returned? <==> env.crash(old(clock) + 1) == Survives
      ensures step.outcome.Returned? ==> Ledger(request.runId) != old(Ledger(request.runId))
      ensures Ledger(request.runId) == old(Ledger(request.runId))
              || (|Ledger(request.runId)| == old(|Ledger(request.runId)|) + 1
                  && Last(Ledger(request.runId)).kind == ApprovalRequired)
    {
      hide Valid, RunOk, Mirrored, MayWrite, Events, ForRun, Ids, OfKinds, UnderWay, MayLeave, Caused, AtTop,
          AllVouched;
      ghost var h := Ledger(request.runId);
      var id := FreshEventId();
      FreshIdUnderWay(request, id);
      CanAsk(policy, Trace(request.runId), request, id, env.now(clock), call);
      step := Close(request, CallEvent(ApprovalRequired, id, env.now(clock), call, [], NO_METADATA));
      VouchedPlain(env, old(clock), clock, h, Ledger(request.runId));
    }

    lemma MayStartBehind(request: Request, call: Call)
      requires Steady(request) && Current(request, call) && Last(Ledger(request.runId)).kind == Materialized
      requires !policy.requiresApproval(call.body.specDigest)
      ensures MayStart(policy, Trace(request.runId))
    {
      hide Valid, Mirrored, History, Legal, Events, Converging, Started, AtTop, CurrentCall;
      JustMaterialized(policy, Ledger(request.runId));
    }

    /** A proposal becomes a call, which waits for approval or runs at once.  `n` is when the provider proposed it. */
    method Propose(request: Request, a: Action, ghost n: nat) returns (step: Step)
      requires Steady(request) && !Idle(Trace(request.runId)) && a.Propose? && Distinct(a.inputs)
      requires Last(Ledger(request.runId)).kind == DecisionRecorded
                 && Last(Ledger(request.runId)).meta.action == Some(a)
      requires 0 < n <= clock && env.provider(n) == Acts(a)
      modifies this`log, this`clock, this`executed, this`traces, lineage
      ensures Grown(request.runId) && Runs(request) && Undecided(request.runId)
      ensures Honest(request.runId, None)
      ensures Handled(policy, request, a, old(Ledger(request.runId)), Ledger(request.runId), executed == old(executed),
                step)
      ensures !Admitted(env, old(clock), a, Visible(request, old(Ledger(request.runId)))) <==>
                step == Halt(Raised(ContractError)) && Ledger(request.runId) == old(Ledger(request.runId))
      ensures step == Continue ==>
                && Steady(request) && AtTop(Trace(request.runId))
                && |Ledger(request.runId)| > old(|Ledger(request.runId)|)
      ensures step.Halt? ==>
                && !BlamesCaller(step.outcome)
                   && Caused(env, n - 1, clock, request, Ledger(request.runId), step.outcome)
                && MayLeave(policy, Trace(request.runId), How(step.outcome))
      ensures step.Halt? && step.outcome.Returned? ==> Steady(request)
      ensures step == Halt(Raised(DuplicateOutputs)) <==>
                ProposalRepeats(policy, env, old(clock), a, Visible(request, old(Ledger(request.runId))))
      ensures step == Halt(Raised(DuplicateOutputs)) ==>
                |Ledger(request.runId)| == old(|Ledger(request.runId)|) + 2
                    && Last(Ledger(request.runId)).kind == ExecutionStarted
    {
      hide Valid, RunOk, Mirrored, Trace, MayLeave, Caused, AtTop, StartsThenRepeats, Visible, Handled, AllVouched;
      SteadyParts(request);
      clock := clock + 1;
      var events := ForRun(log, request.runId);
      var visible := VisibleArtifacts(request, events);
      if !env.accepts(clock) || exists i :: 0 <= i < |a.inputs| && a.inputs[i] !in visible {
        ProposalRefused(request, a, n, visible);
        HandledAtOnce(policy, request, a, events, Halt(Raised(ContractError)));
        VouchedPlain(env, old(clock), clock, events, events);
        return Halt(Raised(ContractError));
      }
      ghost var checked := clock;
      step := Materialize(request, a);
      VouchedLater(env, old(clock), checked, clock, None, events, Ledger(request.runId));
      if step.Halt? { CausedSooner(env, n - 1, checked, clock, request, Ledger(request.runId), step.outcome); }
    }

    /** `_materialize` and `_append_materialized`. */
    method RecordCall(request: Request, a: Action) returns (step: Step, call: Call)
      requires Steady(request) && !Idle(Trace(request.runId)) && a.Propose? && Distinct(a.inputs)
      requires Last(Ledger(request.runId)).kind == DecisionRecorded
                 && Last(Ledger(request.runId)).meta.action == Some(a)
      requires forall x :: x in a.inputs ==> x in Visible(request, Ledger(request.runId))
      modifies this`log, this`clock, this`traces
      ensures Grown(request.runId) && Steady(request) && clock == old(clock) + 1
      ensures step == if env.crash(clock) == Survives then Continue else Halt(Died)
      ensures step.Halt? ==> Ends(request, Died)
      ensures (call.body.tool.version, call.body.specDigest) == env.resolve(old(clock))
      ensures Ledger(request.runId) == old(Ledger(request.runId))
              || CallFor(request, a, call, old(Ledger(request.runId)), Ledger(request.runId))
      ensures step == Continue ==>
                && CallFor(request, a, call, old(Ledger(request.runId)), Ledger(request.runId))
                && Current(request, call) && !Idle(Trace(request.runId))
    {
      hide Valid, RunOk, Mirrored, MayWrite, Events, ForRun, Ids, OfKinds, UnderWay, MayLeave, Caused, AtTop;
      hide Visible, FreshCall, Carries;
      ghost var h := Ledger(request.runId);
      call := NewCall(request, a);
      var id := FreshEventId();
      FreshIdUnderWay(request, id);
      CarriesBody(call, a, request);
      CanMaterialize(policy, Trace(request.runId), request, id, env.now(clock), call);
      var e := CallEvent(Materialized, id, env.now(clock), call, [], NO_METADATA.(call := Some(call)));
      step := Record(request, e);
      OfKindsSnoc(h, e, {Materialized});
    }

    /** The admitted proposal is materialized under fresh identities, and then asked about or executed. */
    method Materialize(request: Request, a: Action) returns (step: Step)
      requires Steady(request) && !Idle(Trace(request.runId)) && a.Propose? && Distinct(a.inputs)
      requires Last(Ledger(request.runId)).kind == DecisionRecorded
                 && Last(Ledger(request.runId)).meta.action == Some(a)
      requires forall x :: x in a.inputs ==> x in Visible(request, Ledger(request.runId))
      modifies this`log, this`clock, this`executed, this`traces, lineage
      ensures Grown(request.runId) && Runs(request) && Undecided(request.runId)
      ensures Honest(request.runId, None)
      ensures Handled(policy, request, a, old(Ledger(request.runId)), Ledger(request.runId), executed == old(executed),
                step)
      ensures Ledger(request.runId) == old(Ledger(request.runId)) ==> step == Halt(Died)
      ensures step == Continue ==>
                && Steady(request) && AtTop(Trace(request.runId))
                && |Ledger(request.runId)| > old(|Ledger(request.runId)|)
      ensures step.Halt? ==> !BlamesCaller(step.outcome) && Ends(request, step.outcome)
      ensures step.Halt? && step.outcome.Returned? ==> Steady(request)
      ensures step == Halt(Raised(DuplicateOutputs)) <==>
                && env.crash(old(clock) + 1) == Survives && !policy.requiresApproval(env.resolve(old(clock)).1)
                && StartsThenRepeats(env, old(clock) + 1)
      ensures step == Halt(Raised(DuplicateOutputs)) ==>
                |Ledger(request.runId)| == old(|Ledger(request.runId)|) + 2
                    && Last(Ledger(request.runId)).kind == ExecutionStarted
    {
      hide Valid, RunOk, Mirrored, Runs, Steady, Current, Ledger, Trace, Idle, MayLeave, Caused, AtTop,
          StartsThenRepeats;
      hide Visible, Handled, Carries, AllVouched;
      ghost var h := Ledger(request.runId);
      var call: Call;
      step, call := RecordCall(request, a);
      SteadyParts(request);
      VouchedCall(env, old(clock), clock, request, a, call, h, Ledger(request.runId));
      if step.Halt? {
        DiedBehindMaterialization(policy, request, a, call, h, Ledger(request.runId));
        return;
      }
      ghost var (mid, later) := (Ledger(request.runId), clock);
      step := AskOrExecute(request, call);
      VouchedTwice(env, old(clock), later, clock, None, h, mid, Ledger(request.runId));
      HandledAfter(policy, request, a, h, Ledger(request.runId), Last(mid), executed == old(executed), step);
      if step.Halt? { CausedSooner(env, old(clock), later, clock, request, Ledger(request.runId), step.outcome); }
    }

    lemma ProposalRefused(request: Request, a: Action, n: nat, visible: seq<ArtifactId>)
      requires RunOk(request.runId) && Runs(request) && visible == Visible(request, Ledger(request.runId))
      requires Last(Ledger(request.runId)).kind == DecisionRecorded
                 && Last(Ledger(request.runId)).meta.action == Some(a)
      requires 0 < n <= clock && env.provider(n) == Acts(a) && a.Propose?
      requires (n <= clock && !env.accepts(clock)) || exists i :: 0 <= i < |a.inputs| && a.inputs[i] !in visible
      ensures Caused(env, n - 1, clock, request, Ledger(request.runId), Raised(ContractError))
      ensures MayLeave(policy, Trace(request.runId), ByError)
    {
      hide History, Legal, Events, Converging, Started, AtTop, Visible;
      if i :| 0 <= i < |a.inputs| && a.inputs[i] !in visible { assert UnseenInput(env.provider(n), visible); }
    }

    method RecordDecision(request: Request, a: Action) returns (step: Step)
      requires Steady(request) && AtTop(Trace(request.runId)) && AtLoopTop(Last(Ledger(request.runId)))
      requires !LimitHit(request, Ledger(request.runId), false)
      modifies this`log, this`clock, this`traces
      ensures Grown(request.runId) && Steady(request) && clock == old(clock) + 1
      ensures step == if env.crash(clock) == Survives then Continue else Halt(Died)
      ensures step.Halt? ==> Ends(request, Died)
      ensures Ledger(request.runId) == old(Ledger(request.runId))
                || DecisionFor(a, old(Ledger(request.runId)), Ledger(request.runId))
      ensures step == Continue ==>
                DecisionFor(a, old(Ledger(request.runId)), Ledger(request.runId)) && !Idle(Trace(request.runId))
    {
      hide Valid, RunOk, Mirrored, MayWrite, Events, ForRun, Ids, OfKinds, UnderWay, MayLeave, Caused, AtTop, LimitHit;
      var id := FreshEventId();
      FreshIdUnderWay(request, id);
      CanDecide(policy, Trace(request.runId), request, id, env.now(clock), a);
      step := Record(request, PlainEvent(DecisionRecorded, id, env.now(clock), request.runId, Some(a)));
    }

    /** The action is recorded and carried out.  `n` is when the provider gave it. */
    method Act(request: Request, a: Action, ghost n: nat) returns (step: Step)
      requires Steady(request) && AtTop(Trace(request.runId)) && AtLoopTop(Last(Ledger(request.runId)))
      requires !LimitHit(request, Ledger(request.runId), false) && 0 < n <= clock
      requires env.provider(n) == Acts(a) && !InvalidAnswer(Acts(a))
      modifies this`log, this`clock, this`executed, this`traces, lineage
      ensures Grown(request.runId) && Runs(request)
      ensures Acted(policy, request, Acts(a), old(Ledger(request.runId)), Ledger(request.runId),
                executed == old(executed), step)
      ensures forall k :: old(|Ledger(request.runId)|) < k < |Ledger(request.runId)| ==>
                Ledger(request.runId)[k].kind != DecisionRecorded
      ensures AllVouched(env, n - 1, clock, None, old(Ledger(request.runId)), Ledger(request.runId))
      ensures step == Continue ==>
                && Steady(request) && AtTop(Trace(request.runId))
                && |Ledger(request.runId)| > old(|Ledger(request.runId)|)
      ensures step.Halt? ==>
                && !BlamesCaller(step.outcome)
                   && Caused(env, n - 1, clock, request, Ledger(request.runId), step.outcome)
                && MayLeave(policy, Trace(request.runId), How(step.outcome))
      ensures step.Halt? && step.outcome.Returned? ==> Steady(request)
      ensures step == Halt(Raised(DuplicateOutputs)) <==>
                && a.Propose? && env.crash(old(clock) + 1) == Survives
                && ProposalRepeats(policy, env, old(clock) + 1, a, Visible(request, old(Ledger(request.runId))))
      ensures step == Halt(Raised(DuplicateOutputs)) ==> Last(Ledger(request.runId)).kind == ExecutionStarted
    {
      hide Valid, RunOk, Mirrored, Runs, Steady, Ledger, Trace, MayLeave, Caused, AtTop, LimitHit, Handled, Visible,
          Closed;
      hide ProposalRepeats, Acted, AllVouched;
      ghost var (h, before) := (Ledger(request.runId), clock);
      step := RecordDecision(request, a);
      SteadyParts(request);
      VouchedDecision(env, n, clock, a, h, Ledger(request.runId));
      if step.Halt? {
        CausedSooner(env, n - 1, before, clock, request, Ledger(request.runId), step.outcome);
        DiedBehindDecision(policy, request, a, h, Ledger(request.runId));
        return;
      }
      ghost var (mid, later) := (Ledger(request.runId), clock);
      VisibleBehindDecision(request, h, Last(mid));
      if a.Propose? {
        step := Propose(request, a, n);
        VouchedTwice(env, n - 1, later, clock, None, h, mid, Ledger(request.runId));
        ActedByProposal(policy, request, a, h, Ledger(request.runId), Last(mid), executed == old(executed), step);
      } else {
        step := Finish(request, a);
        VouchedClosing(env, later, clock, if a.Stop? then RunStopped
            else ReviewRequested, a, mid, Ledger(request.runId), step);
        VouchedTwice(env, n - 1, later, clock, None, h, mid, Ledger(request.runId));
        ActedByClosing(policy, request, a, h, Ledger(request.runId), Last(mid), step);
        CausedSooner(env, n - 1, later, clock, request, Ledger(request.runId), step.outcome);
        SteadyParts(request);
      }
    }

    /** `Stop` closes the run and `RequestReview` hands it over. */
    method Finish(request: Request, a: Action) returns (step: Step)
      requires Steady(request) && !Idle(Trace(request.runId)) && !a.Propose?
      requires Last(Ledger(request.runId)).kind == DecisionRecorded
                 && Last(Ledger(request.runId)).meta.action == Some(a)
      modifies this`log, this`clock, this`traces
      ensures Grown(request.runId) && Steady(request) && Undecided(request.runId)
      ensures Closed(old(Ledger(request.runId)), Ledger(request.runId), if a.Stop? then RunStopped else ReviewRequested,
                     Some(a), true, step)
      ensures step.Halt? && !step.outcome.Raised? && Ends(request, step.outcome)
    {
      hide Valid, RunOk, Mirrored, MayWrite, Events, ForRun, Ids, OfKinds, UnderWay, MayLeave, Caused, AtTop;
      var id := FreshEventId();
      FreshIdUnderWay(request, id);
      CanClose(policy, Trace(request.runId), request, id, env.now(clock));
      var kind := if a.Stop? then RunStopped else ReviewRequested;
      step := Close(request, PlainEvent(kind, id, env.now(clock), request.runId, Some(a)));
    }

    /** Within the limits the provider is asked, once. */
    method Ask(request: Request) returns (step: Step)
      requires Steady(request) && AtTop(Trace(request.runId)) && AtLoopTop(Last(Ledger(request.runId)))
      requires !LimitHit(request, Ledger(request.runId), false)
      modifies this`log, this`clock, this`executed, this`traces, lineage
      ensures Grown(request.runId) && Runs(request) && old(clock) < clock
      ensures Acted(policy, request, env.provider(old(clock) + 1), old(Ledger(request.runId)), Ledger(request.runId),
                    executed == old(executed), step)
      ensures forall k :: old(|Ledger(request.runId)|) < k < |Ledger(request.runId)| ==>
                Ledger(request.runId)[k].kind != DecisionRecorded
      ensures Honest(request.runId, None)
      ensures step == Continue ==>
                && Steady(request) && AtTop(Trace(request.runId))
                && |Ledger(request.runId)| > old(|Ledger(request.runId)|)
      ensures step.Halt? ==> !BlamesCaller(step.outcome) && Ends(request, step.outcome)
      ensures step.Halt? && step.outcome.Returned? ==> Steady(request)
      ensures step == Halt(Raised(DuplicateOutputs)) <==>
                AnswerRepeats(policy, env, old(clock), Visible(request, old(Ledger(request.runId))))
      ensures step == Halt(Raised(DuplicateOutputs)) ==> Last(Ledger(request.runId)).kind == ExecutionStarted
    {
      hide Valid, RunOk, Mirrored, Ledger, Trace, MayLeave, Caused, AtTop, LimitHit, Handled, Visible, Closed,
          ProposalRepeats;
      hide Reports, AllVouched;
      SteadyParts(request);
      clock := clock + 1;
      var answer := env.provider(clock);
      VouchedPlain(env, old(clock), clock, Ledger(request.runId), Ledger(request.runId));
      if answer.NothingFurther? {
        var outcome := Result(request);
        NothingFurtherEnd(request, old(clock), outcome);
        return Halt(outcome);
      }
      if InvalidAnswer(answer) {
        InvalidAnswerEnd(request, old(clock));
        return Halt(Raised(ActionError));
      }
      step := Act(request, answer.action, clock);
    }

    lemma NothingFurtherEnd(request: Request, from: nat, outcome: Outcome)
      requires Steady(request) && AtTop(Trace(request.runId)) && AtLoopTop(Last(Ledger(request.runId)))
      requires !LimitHit(request, Ledger(request.runId), false) && from < clock && env.provider(clock).NothingFurther?
      requires outcome.Returned? && Reports(outcome, request, Ledger(request.runId))
      ensures Caused(env, from, clock, request, Ledger(request.runId), outcome)
      ensures MayLeave(policy, Trace(request.runId), ByReturn)
    {
      hide Valid, Mirrored, History, Legal, Events, Converging, Started, AtTop, LimitHit, Reports, ApprovedEnd;
    }

    lemma InvalidAnswerEnd(request: Request, from: nat)
      requires AtTop(Trace(request.runId)) && from < clock && InvalidAnswer(env.provider(clock))
      ensures Caused(env, from, clock, request, Ledger(request.runId), Raised(ActionError))
      ensures MayLeave(policy, Trace(request.runId), ByError)
    {
      hide Events, InvalidAnswer;
    }

    /** Nothing is pending: check the limits, ask the provider, act. */
    method Decide(request: Request) returns (step: Step)
      requires Steady(request) && AtTop(Trace(request.runId)) && AtLoopTop(Last(Ledger(request.runId)))
      modifies this`log, this`clock, this`executed, this`traces, lineage
      ensures Grown(request.runId) && Runs(request) && old(clock) < clock
      ensures Acted(policy, request, env.provider(old(clock) + 1), old(Ledger(request.runId)), Ledger(request.runId),
                    executed == old(executed), step)
      ensures RespectsLimits(request, old(Ledger(request.runId)), Ledger(request.runId))
      ensures Honest(request.runId, None)
      ensures step == Continue ==>
                && Steady(request) && AtTop(Trace(request.runId))
                && |Ledger(request.runId)| > old(|Ledger(request.runId)|)
      ensures step.Halt? ==> !BlamesCaller(step.outcome) && Ends(request, step.outcome)
      ensures step.Halt? && step.outcome.Returned? ==> Steady(request)
      ensures step == Halt(Raised(DuplicateOutputs)) <==>
                && !LimitHit(request, old(Ledger(request.runId)), false)
                && AnswerRepeats(policy, env, old(clock), Visible(request, old(Ledger(request.runId))))
      ensures step == Halt(Raised(DuplicateOutputs)) ==> Last(Ledger(request.runId)).kind == ExecutionStarted
    {
      hide Valid, RunOk, Mirrored, MayWrite, Events, ForRun, Ids, OfKinds, UnderWay, MayLeave, Caused, AtTop, LimitHit,
          Handled;
      hide Visible, AnswerRepeats, AllVouched, RespectsLimits;
      var events := ForRun(log, request.runId);
      if LimitHit(request, events, false) {
        var id := FreshEventId();
        FreshIdUnderWay(request, id);
        CanExhaust(policy, Trace(request.runId), request, id, env.now(clock));
        step := Close(request, PlainEvent(BudgetExhausted, id, env.now(clock), request.runId, None));
        VouchedPlain(env, old(clock), clock, events, Ledger(request.runId));
      } else {
        step := Ask(request);
      }
      ActedWithinLimits(policy, request, env.provider(old(clock) + 1), events, Ledger(request.runId),
                        executed == old(executed), step);
    }

    /** One turn of the loop, for a supplied approval that was not yet used up.
        A pending call never carries an approval already, so the branch for it (lines 998-1002)
        is dead; so is the relaxed limit check before a pending execution (lines 1043-1049). */
    method Turn(request: Request, approval: Option<Approval>, resumed: bool) returns (step: Step, afterApproval: bool)
      requires Steady(request) && AtTop(Trace(request.runId))
      requires resumed ==> ApprovedBy(Last(Ledger(request.runId)))
      modifies this`log, this`clock, this`executed, this`traces, lineage
      ensures Grown(request.runId) && Runs(request) && Honest(request.runId, approval)
      ensures Heeded(request.runId, approval, old(Ledger(request.runId)), Ledger(request.runId), old(executed),
                executed, step)
      ensures approval.None? && old(AtLoopTop(Last(Ledger(request.runId)))) ==>
                Acted(policy, request, env.provider(old(clock) + 1), old(Ledger(request.runId)), Ledger(request.runId),
                      executed == old(executed), step)
      ensures step == Continue ==>
                && Steady(request) && AtTop(Trace(request.runId))
                && |Ledger(request.runId)| > old(|Ledger(request.runId)|)
      ensures step == Continue && afterApproval ==> ApprovedBy(Last(Ledger(request.runId)))
      ensures step.Halt? ==> step.outcome != Raised(BindingError) && Ends(request, step.outcome)
      ensures step.Halt? && step.outcome.Returned? ==> Steady(request)
      ensures approval.Some? && !old(ApprovalFits(approval.value, Ledger(request.runId))) ==>
                && step.Halt? && !step.outcome.Returned?
                && Ledger(request.runId) == old(Ledger(request.runId)) && executed == old(executed)
      ensures step == Halt(Raised(ApprovalError)) ==>
                approval.Some? && !old(ApprovalFits(approval.value, Ledger(request.runId)))
      ensures old(Quiescent(Ledger(request.runId))) ==>
                step.Halt? && Ledger(request.runId) == old(Ledger(request.runId)) && executed == old(executed)
      ensures old(Quiescent(Ledger(request.runId))) && approval.Some? ==> step == Halt(Raised(ApprovalError))
    {
      hide Valid, RunOk, Mirrored, Runs, Steady, Ledger, Trace, MayLeave, Caused, AtTop, Acted, CurrentCall, LimitHit;
      hide ProjectedByLast, ApprovalFits, Quiescent, ReadyToExecute, Supplied, Current, AtLoopTop, ApprovedBy;
      hide AllVouched, Reviewed, Executes, Heeded, Awaits;
      SteadyParts(request);
      afterApproval := resumed;
      var s := ProjectTurn(request);
      ghost var h := Ledger(request.runId);
      LastDecides(h, s, approval);
      VouchedNothing(env, clock, clock, approval, h);
      if s.end.Some? || s.interrupted {
        step := RestUnless(request, approval);
        NothingToHeed(request.runId, approval, h, s, executed, step);
      } else if s.pendingApproval.Some? {
        step, afterApproval := WhilePending(request, s.pendingApproval.value.call, approval, resumed);
        HeededWhilePending(request.runId, approval, h, s, Ledger(request.runId), executed, step);
      } else if approval.Some? && !Supplied(approval.value, s) {
        ApprovalRefused(request, old(clock));
        step := Halt(Raised(ApprovalError));
        NothingToHeed(request.runId, approval, h, s, executed, step);
      } else {
        ghost var before := executed;
        step, afterApproval := Proceed(request, s, resumed);
        VouchedTwice(env, old(clock), old(clock), clock, approval, h, h, Ledger(request.runId));
        HeededByProceeding(request.runId, approval, h, s, Ledger(request.runId), before, executed, step);
      }
    }

    /** The rest of a turn: nothing waits for an approval, and none is left over. */
    method Proceed(request: Request, s: RunState, resumed: bool) returns (step: Step, afterApproval: bool)
      requires Steady(request) && AtTop(Trace(request.runId)) && ProjectedByLast(Ledger(request.runId), s)
      requires s.pendingExecution.Some? ==> Current(request, s.pendingExecution.value.call)
      requires s.end.None? && !s.interrupted && s.pendingApproval.None?
      requires resumed ==> ApprovedBy(Last(Ledger(request.runId)))
      modifies this`log, this`clock, this`executed, this`traces, lineage
      ensures Grown(request.runId) && Runs(request) && Honest(request.runId, None)
      ensures Heeded(request.runId, None, old(Ledger(request.runId)), Ledger(request.runId), old(executed), executed,
                step)
      ensures old(AtLoopTop(Last(Ledger(request.runId)))) ==>
                Acted(policy, request, env.provider(old(clock) + 1), old(Ledger(request.runId)), Ledger(request.runId),
                      executed == old(executed), step)
      ensures step == Continue ==>
                && Steady(request) && AtTop(Trace(request.runId)) && !afterApproval
                && |Ledger(request.runId)| > old(|Ledger(request.runId)|)
      ensures step.Halt? ==> !BlamesCaller(step.outcome) && Ends(request, step.outcome)
      ensures step.Halt? && step.outcome.Returned? ==> Steady(request)
      ensures old(Last(Ledger(request.runId))).kind == ReviewRequested ==>
                step.Halt? && Ledger(request.runId) == old(Ledger(request.runId)) && executed == old(executed)
    {
      hide Valid, RunOk, Mirrored, Runs, Steady, Ledger, Trace, MayLeave, Caused, AtTop, Acted, CurrentCall, LimitHit;
      hide AllVouched, Executes;
      SteadyParts(request);
      ghost var h := Ledger(request.runId);
      VouchedPlain(env, old(clock), clock, h, h);
      afterApproval := resumed;
      if s.waitingReview {
        step := Rest(request);
      } else if s.pendingExecution.Some? {
        NoHardLimit(request);
        var recorded := s.pendingExecution.value.approval;
        afterApproval := afterApproval || (recorded.Some? && recorded.value.decision == Approved);
        step := RunPending(request, s.pendingExecution.value.call, afterApproval);
      } else {
        LoopTop(request);
        step := Decide(request);
      }
    }

    /** The relaxed limit check before a pending execution never fires. */
    lemma NoHardLimit(request: Request)
      requires Steady(request)
      ensures !LimitHit(request, Ledger(request.runId), true)
    {
      hide Valid, Mirrored, History, Legal, Events, Converging, Started, LimitHit;
      RunIsBounded(policy, Ledger(request.runId));
    }

    lemma LoopTop(request: Request)
      requires Steady(request)
      requires !Quiescent(Ledger(request.runId)) && Last(Ledger(request.runId)).kind != ApprovalRequired
      requires !ReadyToExecute(Last(Ledger(request.runId)))
      ensures AtLoopTop(Last(Ledger(request.runId)))
    {
      hide Valid, Mirrored, History, Legal, Events, Converging, Started, Quiescent, ReadyToExecute, AtLoopTop;
      NothingPendingIsLoopTop(policy, Ledger(request.runId));
    }

    /** The projection at the top of the loop: everything is decided by the last event, and calls belong to the run. */
    method ProjectTurn(request: Request) returns (s: RunState)
      requires Steady(request)
      ensures ProjectedByLast(Ledger(request.runId), s)
      ensures s.pendingApproval.Some? ==> Current(request, s.pendingApproval.value.call)
      ensures s.pendingExecution.Some? ==> Current(request, s.pendingExecution.value.call)
    {
      hide Valid, Mirrored, History, Legal, Events, Converging, Started, Project;
      var events := ForRun(log, request.runId);
      ProjectionTotal(policy, events);
      var projected := ProjectEvents(events);
      s := projected.value;
      CurrentCallBelongs(policy, events);
      ForRunMembers(log, request.runId);
    }

    /** An ended or interrupted run accepts no approval. */
    method RestUnless(request: Request, approval: Option<Approval>) returns (step: Step)
      requires Steady(request) && AtTop(Trace(request.runId))
      requires Last(Ledger(request.runId)).kind in RUN_ENDS + {ExecutionStarted}
      ensures step.Halt? && (if approval.Some? then step.outcome == Raised(ApprovalError) else step.outcome.Returned?)
      ensures Caused(env, clock, clock, request, Ledger(request.runId), step.outcome)
      ensures MayLeave(policy, Trace(request.runId), How(step.outcome))
    {
      hide Valid, RunOk, Mirrored, Events, ForRun, MayLeave, Caused, AtTop;
      if approval.Some? {
        ApprovalRefused(request, clock);
        step := Halt(Raised(ApprovalError));
      } else {
        step := Rest(request);
      }
    }

    /** The pending-execution branch: after an approval the driver hands back control. */
    method RunPending(request: Request, call: Call, approved: bool) returns (step: Step)
      requires Steady(request) && Current(request, call) && AtTop(Trace(request.runId))
      requires ReadyToExecute(Last(Ledger(request.runId))) && (approved <==> ApprovedBy(Last(Ledger(request.runId))))
      modifies this`log, this`clock, this`executed, this`traces, lineage
      ensures Grown(request.runId) && Runs(request) && Undecided(request.runId)
      ensures |Ledger(request.runId)| > old(|Ledger(request.runId)|) ==>
                Ledger(request.runId)[old(|Ledger(request.runId)|)].kind == ExecutionStarted
      ensures Honest(request.runId, None)
      ensures approved ==>
                step.Halt? && Executes(Invocation(request.runId, call.body.callId), old(Ledger(request.runId)),
                                       Ledger(request.runId), old(executed), executed, step.outcome)
      ensures step == Continue ==>
                && !approved && Steady(request) && AtTop(Trace(request.runId))
                && |Ledger(request.runId)| > old(|Ledger(request.runId)|)
      ensures step.Halt? ==> !BlamesCaller(step.outcome) && Ends(request, step.outcome)
      ensures step.Halt? && step.outcome.Returned? ==>
                approved && Steady(request) && |Ledger(request.runId)| == old(|Ledger(request.runId)|) + 2
    {
      hide Valid, RunOk, Mirrored, Runs, Trace, MayLeave, Caused, StartsThenRepeats, CurrentCall, ForRun, AtTop,
          ReadyToExecute, AllVouched;
      SteadyParts(request);
      ghost var h := Ledger(request.runId);
      ReadyAtTop(request);
      step := ExecuteCall(request, call);
      if step == Continue {
        assert Ledger(request.runId)[|h| - 1] == Last(h);
        if approved {
          step := Rest(request);
        } else {
          BackAtTop(request.runId);
        }
      }
    }

    lemma ReadyAtTop(request: Request)
      requires Steady(request) && AtTop(Trace(request.runId)) && ReadyToExecute(Last(Ledger(request.runId)))
      ensures MayStart(policy, Trace(request.runId))
    {
      hide Valid, Mirrored, History, Legal, Events, Converging, Started, AtTop, ReadyToExecute;
    }

    /** The pending-approval branch. */
    method WhilePending(request: Request, call: Call, approval: Option<Approval>, resumed: bool)
      returns (step: Step, afterApproval: bool)
      requires Steady(request) && Current(request, call) && AtTop(Trace(request.runId))
      requires Last(Ledger(request.runId)).kind == ApprovalRequired
      modifies this`log, this`clock, this`traces
      ensures Grown(request.runId) && Runs(request) && Undecided(request.runId)
      ensures step == Continue ==>
                && Steady(request) && AtTop(Trace(request.runId)) && afterApproval
                && |Ledger(request.runId)| > old(|Ledger(request.runId)|) && ApprovedBy(Last(Ledger(request.runId)))
                && approval.Some? && approval.value.BindsTo(call) && approval.value.decision == Approved
      ensures Honest(request.runId, approval)
      ensures approval.Some? && approval.value.BindsTo(call) ==>
                Reviewed(approval.value, call.body.callId, old(Ledger(request.runId)), Ledger(request.runId), step)
      ensures step.Halt? ==> step.outcome != Raised(BindingError) && Ends(request, step.outcome)
      ensures step.Halt? && step.outcome.Returned? ==>
                Steady(request) && (approval.Some? ==> approval.value.BindsTo(call))
      ensures step == Halt(Raised(ApprovalError)) ==> approval.Some? && !approval.value.BindsTo(call)
      ensures !env.accepts(old(clock) + 1) <==> step == Halt(Raised(ContractError))
      ensures approval.None? || !approval.value.BindsTo(call) ==> Ledger(request.runId) == old(Ledger(request.runId))
    {
      hide Valid, RunOk, Mirrored, Runs, Current, Ledger, Trace, MayLeave, Caused, AtTop, AllVouched;
      SteadyParts(request);
      ghost var h := Ledger(request.runId);
      afterApproval := resumed;
      clock := clock + 1;
      if !env.accepts(clock) {
        CheckRefused(request, old(clock));
        VouchedNothing(env, old(clock), clock, approval, h);
        return Halt(Raised(ContractError)), afterApproval;
      }
      if approval.None? {
        VouchedNothing(env, old(clock), clock, approval, h);
        step := Rest(request);
        return;
      }
      ghost var checked := clock;
      step := Review(request, call, approval.value);
      VouchedLater(env, old(clock), checked, clock, approval, h, Ledger(request.runId));
      afterApproval := true;
      if step.Halt? { CausedSooner(env, old(clock), checked, clock, request, Ledger(request.runId), step.outcome); }
    }

    lemma CheckRefused(request: Request, from: nat)
      requires AtTop(Trace(request.runId)) && from < clock && !env.accepts(clock)
      ensures Caused(env, from, clock, request, Ledger(request.runId), Raised(ContractError))
      ensures MayLeave(policy, Trace(request.runId), ByError)
    {
      hide Events, UnseenInput;
    }

    /** `_initialize_or_validate`: start the run, or check that it is the same request. */
    method Initialize(request: Request) returns (step: Step)
      requires Valid() && RunOk(request.runId) && Idle(Trace(request.runId)) && Distinct(request.inputs)
      modifies this`log, this`clock, this`traces
      ensures Grown(request.runId)
      ensures step == Continue ==> Runs(request) && request.policyDigest == policy.digest && AtTop(Trace(request.runId))
      ensures step == Halt(Raised(BindingError)) <==>
                request.policyDigest != policy.digest || (old(Ledger(request.runId)) != [] && old(!Runs(request)))
      ensures step == Halt(Raised(StoreError)) ==> !env.accepts(old(clock) + 1)
      ensures step.Halt? ==>
                step.outcome in {Died, Raised(BindingError), Raised(StoreError)} && Ends(request, step.outcome)
      ensures old(Ledger(request.runId)) == [] ==>
                Ledger(request.runId) == []
                || (|Ledger(request.runId)| == 1 && Last(Ledger(request.runId)).kind == RunStarted)
      ensures step == Continue ==> Ledger(request.runId) != []
      ensures step == Continue <==>
                && request.policyDigest == policy.digest && (old(Ledger(request.runId)) == [] || old(Runs(request)))
                && env.accepts(old(clock) + 1)
                && (old(Ledger(request.runId)) == [] ==> env.crash(old(clock) + 2) == Survives)
      ensures clock <= old(clock) + 2
      ensures old(Ledger(request.runId)) != [] ==> Ledger(request.runId) == old(Ledger(request.runId))
      ensures old(Mirrored(request.runId)) ==> Mirrored(request.runId)
    {
      hide Valid, RunOk, Mirrored, Runs, Ledger, Trace, MayLeave, Caused, AtTop, Idle;
      IdleAtTop(request.runId);
      var events := ForRun(log, request.runId);
      SameRequest(request);
      LeaveAtTop(request, old(clock), Raised(BindingError));
      if request.policyDigest != policy.digest { return Halt(Raised(BindingError)); }
      if events != [] && events[0].meta.start.value.requestDigest != request { return Halt(Raised(BindingError)); }
      clock := clock + 1;
      if !env.accepts(clock) {
        LeaveAtTop(request, old(clock), Raised(StoreError));
        return Halt(Raised(StoreError));
      }
      ghost var checked := clock;
      if events == [] {
        step := Begin(request);
        if step.Halt? { CausedSooner(env, old(clock), checked, clock, request, Ledger(request.runId), step.outcome); }
      } else {
        step := Continue;
      }
    }

    lemma IdleAtTop(run: Id)
      requires Idle(Trace(run))
      ensures AtTop(Trace(run))
    {
      hide Events;
    }

    /** The recorded request is the one the digest was taken over, so comparing digests compares requests. */
    lemma SameRequest(request: Request)
      requires RunOk(request.runId)
      ensures Ledger(request.runId) == ForRun(log, request.runId)
      ensures var h := Ledger(request.runId);
              h != [] ==> h[0].meta.start.Some? && (Runs(request) <==> h[0].meta.start.value.requestDigest == request)
    {
      hide Appendable, Converging, Started, Legal, Events, ForRun;
      if Ledger(request.runId) != [] { StartOk(policy, Ledger(request.runId)); }
    }

    lemma LeaveAtTop(request: Request, from: nat, outcome: Outcome)
      requires AtTop(Trace(request.runId)) && outcome in {Raised(BindingError), Raised(StoreError)}
      requires from <= clock && (outcome == Raised(StoreError) ==> from < clock && !env.accepts(clock))
      ensures Caused(env, from, clock, request, Ledger(request.runId), outcome)
      ensures MayLeave(policy, Trace(request.runId), How(outcome))
    {
      hide Events, AtTop;
    }

    /** The start event of a new run. */
    method Begin(request: Request) returns (step: Step)
      requires Valid() && RunOk(request.runId) && Idle(Trace(request.runId)) && Distinct(request.inputs)
      requires Ledger(request.runId) == [] && request.policyDigest == policy.digest
      modifies this`log, this`clock, this`traces
      ensures Grown(request.runId) && clock == old(clock) + 1
      ensures step == if env.crash(clock) == Survives then Continue else Halt(Died)
      ensures step.Halt? ==> Ends(request, Died)
      ensures step == Continue ==> Runs(request) && AtTop(Trace(request.runId)) && Ledger(request.runId) != []
      ensures Ledger(request.runId) == []
              || (|Ledger(request.runId)| == 1 && Last(Ledger(request.runId)).kind == RunStarted)
      ensures old(Mirrored(request.runId)) ==> Mirrored(request.runId)
    {
      hide Valid, Mirrored, History, Converging, Started, Legal, MayWrite, Events, ForRun, AtTop, Ids, OfRun;
      var id := FreshEventId();
      CanStart(policy, Trace(request.runId), request, id, env.now(clock));
      var alive := Append(request.runId, StartEvent(id, env.now(clock), request));
      step := if alive then Continue else Halt(Died);
      if alive { BackAtTop(request.runId); }
    }

    /** The loop: turn after turn until one ends the drive. */
    method Loop(request: Request, approval: Option<Approval>) returns (step: Step)
      requires Steady(request) && AtTop(Trace(request.runId))
      modifies this`log, this`clock, this`executed, this`traces, lineage
      ensures Grown(request.runId) && Runs(request) && Honest(request.runId, approval)
      ensures step.Halt? && Obeys(request.runId, approval, old(Ledger(request.runId)), Ledger(request.runId),
                                  old(executed), executed, step.outcome)
      ensures step.outcome != Raised(BindingError) && Ends(request, step.outcome)
      ensures step.outcome.Returned? ==> Steady(request)
      ensures Guarded(request.runId, approval, step.outcome)
    {
      hide Valid, RunOk, Mirrored, Runs, Ledger, Trace, MayLeave, Caused, AtTop, Acted, CurrentCall, LimitHit;
      hide ApprovalFits, Quiescent, Steady, EventBound, AllVouched, Heeded, InReview, Obeys, ApprovedBy;
      ghost var (h, from, before) := (Ledger(request.runId), clock, executed);
      var resumed := false;
      step, resumed := Turn(request, approval, resumed);
      FirstTurnObeys(request.runId, approval, h, Ledger(request.runId), before, executed, step);
      while step == Continue
        invariant Grown(request.runId) && Runs(request) && Honest(request.runId, approval)
        invariant step == Continue ==>
                    && InReview(approval, h, Ledger(request.runId), before, executed)
                    && Steady(request) && AtTop(Trace(request.runId))
                    && (resumed ==> ApprovedBy(Last(Ledger(request.runId))))
                    && (approval.Some? ==> ApprovalFits(approval.value, h)) && !Quiescent(h)
        invariant step.Halt? ==>
                    && step.outcome != Raised(BindingError) && Ends(request, step.outcome)
                    && (step.outcome.Returned? ==> Steady(request))
                    && Guarded(request.runId, approval, step.outcome)
                    && Obeys(request.runId, approval, h, Ledger(request.runId), before, executed, step.outcome)
        decreases step == Continue, EventBound(request) - |Ledger(request.runId)|
      {
        StepsLeft(request);
        ghost var (mid, turned, between) := (Ledger(request.runId), clock, executed);
        step, resumed := Turn(request, None, resumed);
        if step.Halt? {
          CausedSooner(env, from, turned, clock, request, Ledger(request.runId), step.outcome);
        } else {
          StepsLeft(request);
        }
        VouchedTwice(env, from, turned, clock, approval, h, mid, Ledger(request.runId));
        NextTurnObeys(request.runId, approval, h, mid, Ledger(request.runId), before, between, executed, step);
      }
    }

    lemma StepsLeft(request: Request)
      requires Steady(request)
      ensures |Ledger(request.runId)| <= EventBound(request)
    {
      hide Valid, Mirrored, History, Legal, Events, Converging, Started, LimitHit, Counts;
      RunIsBounded(policy, Ledger(request.runId));
    }

    /** The driver lets go of the run. */
    ghost method Leave(run: Id, how: Leaving)
      requires Valid() && RunOk(run) && MayLeave(policy, Trace(run), how)
      modifies this`traces
      ensures Valid() && RunOk(run) && Trace(run) == old(Trace(run)) + [Left(how)]
    {
      hide History, Legal, Events, Converging, Started, MayLeave, MayWrite;
      LegalSnoc(policy, Trace(run), Left(how));
      EventsSnoc(Trace(run), Left(how));
      traces := traces[run := Trace(run) + [Left(how)]];
    }

    /** Reconcile, then loop. */
    method Resume(request: Request, approval: Option<Approval>) returns (step: Step)
      requires Valid() && RunOk(request.runId) && Runs(request) && AtTop(Trace(request.runId))
      modifies this`log, this`clock, this`executed, this`traces, lineage
      ensures Grown(request.runId) && Runs(request) && Honest(request.runId, approval)
      ensures step.Halt? && step.outcome != Raised(BindingError) && Ends(request, step.outcome)
      ensures step.outcome.Returned? ==> Steady(request)
      ensures Guarded(request.runId, approval, step.outcome)
      ensures Obeys(request.runId, approval, old(Ledger(request.runId)), Ledger(request.runId),
                    old(executed), executed, step.outcome)
    {
      hide Valid, RunOk, Mirrored, Runs, Ledger, Trace, MayLeave, Caused, AtTop, ApprovalFits, Quiescent, AllVouched,
          Obeys;
      ghost var h := Ledger(request.runId);
      step := Reconcile(request.runId);
      if step.Halt? {
        ReconcileEnd(request, old(clock), step.outcome);
        VouchedNothing(env, old(clock), clock, approval, h);
        NothingDone(request.runId, approval, h, executed, step.outcome);
        return;
      }
      ghost var reconciled := clock;
      step := Loop(request, approval);
      CausedSooner(env, old(clock), reconciled, clock, request, Ledger(request.runId), step.outcome);
      VouchedLater(env, old(clock), reconciled, clock, approval, h, Ledger(request.runId));
    }

    lemma ReconcileEnd(request: Request, from: nat, outcome: Outcome)
      requires AtTop(Trace(request.runId)) && from <= clock
      requires if outcome == Died then Crashes(env, from, clock)
               else outcome == Raised(ReconciliationError) && Refuses(env, from, clock)
      ensures Caused(env, from, clock, request, Ledger(request.runId), outcome)
      ensures MayLeave(policy, Trace(request.runId), How(outcome))
    {
      hide Events, AtTop;
    }

    lemma OnlyWrites(run: Id, before: seq<Entry>, h: seq<Event>)
      requires RunOk(run) && before <= Trace(run) && Events(before) == h
                 && |Trace(run)| - |Ledger(run)| == |before| - |h|
      ensures forall k :: |before| <= k < |Trace(run)| ==> Trace(run)[k].Wrote?
    {
      hide History, Converging, Started, Legal, Events;
      WritesAlone(before, Trace(run));
    }

    /** After initialization the ledger is unchanged or just begun. */
    lemma NewOrSame(h: seq<Event>, now: seq<Event>, approval: Option<Approval>)
      requires h != [] ==> now == h
      requires h == [] && now != [] ==> |now| == 1 && Last(now).kind == RunStarted
      ensures AllVouched(env, clock, clock, approval, h, now)
      ensures approval.Some? && h == [] ==> !ApprovalFits(approval.value, h) && !ApprovalFits(approval.value, now)
      ensures Quiescent(h) ==> now == h
      ensures approval.Some? && Quiescent(h) ==> !ApprovalFits(approval.value, h)
    {
      hide CurrentCall;
    }

    /** The work of one driver, up to where it lets go of the run. */
    method Serve(request: Request, approval: Option<Approval>) returns (outcome: Outcome)
      requires Valid() && RunOk(request.runId) && Idle(Trace(request.runId)) && Distinct(request.inputs)
      modifies this`log, this`clock, this`executed, this`traces, lineage
      ensures Grown(request.runId) && Honest(request.runId, approval) && Ends(request, outcome)
      ensures outcome.Returned? ==> Runs(request) && Mirrored(request.runId)
      ensures outcome == Raised(BindingError) <==>
                request.policyDigest != policy.digest || (old(Ledger(request.runId)) != [] && old(!Runs(request)))
      ensures Guarded(request.runId, approval, outcome)
      ensures old(Runs(request)) && request.policyDigest == policy.digest ==>
                Obeys(request.runId, approval, old(Ledger(request.runId)), Ledger(request.runId),
                      old(executed), executed, outcome)
      ensures old(Ledger(request.runId)) != [] && old(!Runs(request)) ==>
                outcome == Raised(BindingError) && Ledger(request.runId) == old(Ledger(request.runId))
                && executed == old(executed) && lineage.relations == old(lineage.relations)
    {
      hide Valid, RunOk, Mirrored, Ledger, Trace, MayLeave, Caused, AtTop, Quiescent, ApprovalFits, AllVouched, Obeys,
          Idle;
      RunsNotEmpty(request);
      hide Runs;
      ghost var (h, from) := (Ledger(request.runId), clock);
      var step := Initialize(request);
      ghost var (mid, begun) := (Ledger(request.runId), clock);
      NewOrSame(h, mid, approval);
      if step == Continue {
        step := Resume(request, approval);
        CausedSooner(env, from, begun, clock, request, Ledger(request.runId), step.outcome);
        VouchedFromStart(env, from, begun, clock, approval, h, mid, Ledger(request.runId));
      } else {
        VouchedLater(env, from, clock, clock, approval, h, mid);
        if h != [] && !BlamesCaller(step.outcome) { NothingDone(request.runId, approval, h, executed, step.outcome); }
      }
      outcome := step.outcome;
    }

    lemma RunsNotEmpty(request: Request)
      ensures Runs(request) ==> Ledger(request.runId) != []
    {}

    /** `run`: whatever the environment does, it ends, lives through a legal trace that ends by its outcome, records
        only what the provider answered, the approval handed in and what executors returned, acts on an approval that
        was awaited, and reports what the history says.  A run that is over, waiting or interrupted is not touched. */
    method Run(request: Request, approval: Option<Approval>) returns (outcome: Outcome)
      requires Valid() && RunOk(request.runId) && Idle(Trace(request.runId)) && Distinct(request.inputs)
      modifies this`log, this`clock, this`executed, this`traces, lineage
      ensures Kept(request.runId) && Honest(request.runId, approval)
      ensures |Trace(request.runId)| > old(|Trace(request.runId)|) && Last(Trace(request.runId)) == Left(How(outcome))
      ensures forall k :: old(|Trace(request.runId)|) <= k < |Trace(request.runId)| - 1 ==>
                Trace(request.runId)[k].Wrote?
      ensures Caused(env, old(clock), clock, request, Ledger(request.runId), outcome)
      ensures outcome.Returned? ==>
                Runs(request) && Mirrored(request.runId) && ReportsLast(outcome, Ledger(request.runId))
      ensures Truthful(lineage.relations, Ledger(request.runId))
      ensures outcome.Returned? ==> AllStored(lineage.relations, Ledger(request.runId))
      ensures outcome == Raised(BindingError) <==>
                request.policyDigest != policy.digest || (old(Ledger(request.runId)) != [] && old(!Runs(request)))
      ensures Guarded(request.runId, approval, outcome)
      ensures old(Runs(request)) && request.policyDigest == policy.digest ==>
                Obeys(request.runId, approval, old(Ledger(request.runId)), Ledger(request.runId),
                      old(executed), executed, outcome)
      ensures old(Ledger(request.runId)) != [] && old(!Runs(request)) ==>
                outcome == Raised(BindingError) && Ledger(request.runId) == old(Ledger(request.runId))
                && executed == old(executed) && lineage.relations == old(lineage.relations)
    {
      hide Valid, RunOk, Mirrored, Ledger, Trace, MayLeave, Caused, Runs, Quiescent, ApprovalFits, AllVouched, Obeys,
          Events, Idle, ReportsLast, Truthful, AllStored;
      TraceWrites(request.runId);
      outcome := Serve(request, approval);
      OnlyWrites(request.runId, old(Trace(request.runId)), old(Ledger(request.runId)));
      ReturnReports(env, old(clock), clock, request, Ledger(request.runId), outcome);
      Leave(request.runId, How(outcome));
      LineageMeans(request.runId);
    }

    /** A new process opens the same lineage log. */
    method ReopenLineage(run: Id)
      requires Valid() && RunOk(run)
      modifies lineage
      ensures Valid() && RunOk(run) && lineage.relations == old(lineage.relations)
    {
      hide History, Converging, Legal, Events, Started;
      lineage.Reopen();
    }

    /** Any number of invocations of one run, each in a new process after the last one died.  Of the calls that want
        approval only those are executed for which an operator handed in an approved record, apart from the calls
        directly behind whose materialization a driver died. */
    method Drive(run: Id, attempts: seq<(Request, Option<Approval>)>, ghost handed: set<Approval>)
      requires Valid() && RunOk(run) && Idle(Trace(run)) && Signed(handed, Ledger(run))
      requires forall a :: a in attempts ==> a.0.runId == run && Distinct(a.0.inputs)
      modifies this`log, this`clock, this`executed, this`traces, lineage
      ensures Kept(run) && Idle(Trace(run))
      ensures old(Quiescent(Ledger(run))) ==> Ledger(run) == old(Ledger(run)) && executed == old(executed)
      ensures Signed(HandedIn(handed, attempts), Ledger(run))
      ensures forall x :: x in executed && x.runId == run ==>
                Licensed(policy, Trace(run), x, HandedIn(handed, attempts))
    {
      hide Valid, RunOk, Ledger, Trace, Quiescent, Caused, ApprovalFits, Runs, AllVouched, Obeys, Signed, Licensed;
      var i := 0;
      assert attempts[..0] == [];
      while i < |attempts|
        invariant 0 <= i <= |attempts| && Kept(run) && Idle(Trace(run))
        invariant Signed(HandedIn(handed, attempts[..i]), Ledger(run))
        invariant old(Quiescent(Ledger(run))) ==> Ledger(run) == old(Ledger(run)) && executed == old(executed)
      {
        assert attempts[i] in attempts;
        ghost var (h, from) := (Ledger(run), clock);
        var outcome := Run(attempts[i].0, attempts[i].1);
        SignedOn(env, from, clock, HandedIn(handed, attempts[..i]), attempts[i].1, h, Ledger(run));
        TakeNext(attempts, i);
        if outcome == Died { ReopenLineage(run); }
        i := i + 1;
      }
      assert attempts[..i] == attempts;
      AllLicensed(run, HandedIn(handed, attempts));
    }

    lemma AllLicensed(run: Id, handed: set<Approval>)
      requires RunOk(run) && Signed(handed, Ledger(run))
      ensures forall x :: x in executed && x.runId == run ==> Licensed(policy, Trace(run), x, handed)
    {
      hide History, Legal, Events, Converging, Started, Signed, Licensed;
      forall x | x in executed && x.runId == run ensures Licensed(policy, Trace(run), x, handed) {
        ExecutorCallsLicensed(policy, executed, run, Trace(run), x, handed);
      }
    }
  }

  // ---- What holds of every run of the class

  predicate StartsCall(t: seq<Entry>, k: nat, c: Id)
    requires k < |t|
  {
    t[k].Wrote? && t[k].event.kind == ExecutionStarted && t[k].event.meta.callId == Some(c)
  }

  lemma StartEntry(executed: seq<Invocation>, run: Id, t: seq<Entry>, x: Invocation) returns (i: nat)
    requires Started(executed, run, Events(t)) && x in executed && x.runId == run
    ensures i < |t| && StartsCall(t, i, x.callId)
  {
    var s :| s in Events(t) && s.kind == ExecutionStarted && s.meta.callId == Some(x.callId);
    TraceMembers(t);
    assert Wrote(s) in t;
    i :| 0 <= i < |t| && t[i] == Wrote(s);
  }

  lemma NeverRejected(policy: Policy, t: seq<Entry>, i: nat, r: Event)
    requires Legal(policy, t) && i < |t| && t[i].Wrote? && t[i].event.kind == ExecutionStarted
    requires Wrote(r) in t && RejectedBy(r)
    ensures r.meta.callId != t[i].event.meta.callId
  {
    hide Legal, Events, RejectedBy;
    TraceIsHistory(policy, t);
    TraceMembers(t);
    assert t[i] == Wrote(t[i].event) && t[i] in t;
    if r.meta.callId == t[i].event.meta.callId { RejectedNeverStarts(policy, Events(t), r, t[i].event); }
  }

  /** Behind every executor call stands exactly one start, and its call was never rejected.  If the policy wants
      approval for it, there is an earlier approval of this very call unless a driver died directly behind
      its materialization. */
  lemma ExecutorCallsApproved(policy: Policy, executed: seq<Invocation>, run: Id, t: seq<Entry>, x: Invocation)
    returns (i: nat)
    requires Legal(policy, t) && Started(executed, run, Events(t)) && x in executed && x.runId == run
    ensures i < |t| && StartsCall(t, i, x.callId)
    ensures forall k: nat :: k < |t| && StartsCall(t, k, x.callId) ==> k == i
    ensures WantsApproval(policy, t[i].event) ==>
              (ApprovedBefore(t, i) <==> forall j: nat :: j + 1 < i ==> !DiedBehind(t, j, t[i].event))
    ensures forall r :: Wrote(r) in t && RejectedBy(r) ==> r.meta.callId != Some(x.callId)
  {
    hide Legal, Started, Events, WantsApproval, ApprovedBefore, DiedBehind, RejectedBy;
    i := StartEntry(executed, run, t, x);
    forall k: nat | k < |t| && StartsCall(t, k, x.callId) ensures k == i {
      if k < i { StartsOnce(policy, t, k, i); }
      if i < k { StartsOnce(policy, t, i, k); }
    }
    if WantsApproval(policy, t[i].event) { UnapprovedIffDied(policy, t, i); }
    forall r | Wrote(r) in t && RejectedBy(r) ensures r.meta.callId != Some(x.callId) {
      NeverRejected(policy, t, i, r);
    }
  }

  function HandedIn(handed: set<Approval>, attempts: seq<(Request, Option<Approval>)>): set<Approval> {
    if attempts == [] then handed else With(HandedIn(handed, Front(attempts)), Last(attempts).1)
  }

  /** If the policy wants approval for this call, an operator handed in an approved record bound to its digest, or a
      driver died directly behind its materialization. */
  ghost predicate Licensed(policy: Policy, t: seq<Entry>, x: Invocation, handed: set<Approval>) {
    exists i: nat :: i < |t| && StartsCall(t, i, x.callId) && (WantsApproval(policy, t[i].event) ==>
      (exists a :: a in handed && a.decision == Approved && Some(a.callDigest) == t[i].event.meta.digest)
      || (exists j: nat :: j + 1 < i && DiedBehind(t, j, t[i].event)))
  }

  lemma ExecutorCallsLicensed(policy: Policy, executed: seq<Invocation>, run: Id, t: seq<Entry>, x: Invocation,
                              handed: set<Approval>)
    requires Legal(policy, t) && Started(executed, run, Events(t)) && x in executed && x.runId == run
    requires Signed(handed, Events(t))
    ensures Licensed(policy, t, x, handed)
  {
    hide Legal, Started, Events, WantsApproval, DiedBehind;
    var i := ExecutorCallsApproved(policy, executed, run, t, x);
    if WantsApproval(policy, t[i].event) && ApprovedBefore(t, i) {
      var k :| 0 <= k < i && t[k].Wrote? && ApprovedFor(t[k].event, t[i].event);
      TraceMembers(t);
      assert t[k] == Wrote(t[k].event) && t[k].event in Events(t);
    }
  }

  lemma NewRunHasRoom(request: Request, h: seq<Event>)
    requires request.legacy.None? && |h| == 1 && Last(h).kind == RunStarted
    ensures !LimitHit(request, h, false) && AtLoopTop(Last(h))
  {
    hide Counts;
    assert h == [h[0]];
    FirstCounts(h[0]);
  }

  /** A run in which nothing crashes and nothing is refused, and which two equal outputs leave interrupted. */
  method RepeatedOutputsInterrupt() returns (loop: AgentLoop, step: Step)
    ensures fresh(loop) && step == Halt(Raised(DuplicateOutputs))
    ensures loop.Ledger(1) != [] && Last(loop.Ledger(1)).kind == ExecutionStarted
    ensures forall n: nat :: loop.env.crash(n) == Survives && loop.env.accepts(n)
  {
    var policy := Policy(7, spec => false);
    var proposal := Propose("tool", 0, [], "why");
    var env := Environment(n => Survives, n => true, n => Acts(proposal), n => ("1", 3),
                           n => ToolReturns("", [5, 5]), n => [], n => 0);
    var request := Request(1, "goal", [], 7, None);
    var lineage := new ArtifactLineage([]);
    loop := new AgentLoop(policy, env, lineage);
    step := loop.Initialize(request);
    NewRunHasRoom(request, loop.Ledger(1));
    RepeatsAlways(policy, env, loop.clock, Visible(request, loop.Ledger(1)), proposal);
    step := loop.Decide(request);
  }

  lemma RepeatsAlways(policy: Policy, env: Environment, c: nat, visible: seq<ArtifactId>, a: Action)
    requires a.Propose? && a.inputs == [] && forall n: nat :: env.provider(n) == Acts(a)
    requires forall n: nat :: env.crash(n) == Survives && env.accepts(n) && env.tool(n) == ToolReturns("", [5, 5])
    requires forall spec :: !policy.requiresApproval(spec)
    ensures AnswerRepeats(policy, env, c, visible)
  {
    var outputs: seq<ArtifactId> := [5, 5];
    assert outputs[0] == outputs[1];
  }

  /** Whatever the loop returns, the inspector, if it accepts the run at all, says the same. */
  lemma ReportAgreesWithInspector(policy: Policy, request: Request, h: seq<Event>, outcome: Outcome)
    requires History(policy, h) && h != [] && h[0].meta.start.Some? && RequestOf(h) == request
    requires outcome.Returned? && Reports(outcome, request, h)
    ensures Inspect(h).Ok? <==> FailuresNamed(h)
    ensures Inspect(h).Ok? ==>
              outcome == Returned(Inspect(h).value.status, Inspect(h).value.pending, Inspect(h).value.finalIds)
  {
    hide History, Project, Inspect, Visible, FailuresNamed, Counts;
    ProjectionsAgree(policy, h);
  }

  lemma AllMirrored(relations: seq<Relation>, h: seq<Event>)
    requires Converging(relations, h) && |Canonical(h)| <= |OfRun(relations, h)|
    ensures Complete(relations, h)
  {}

  lemma StartIsCovered(executed: seq<Invocation>, h: seq<Event>, e: Event)
    requires Started(executed, e.runId, h) && e.kind == ExecutionStarted && e.meta.callId.Some?
    requires forall s :: s in h && s.kind == ExecutionStarted ==> s.meta.callId != e.meta.callId
    ensures Invocation(e.runId, e.meta.callId.value) !in executed
    ensures Started(executed + [Invocation(e.runId, e.meta.callId.value)], e.runId, h + [e])
  {
    var all := executed + [Invocation(e.runId, e.meta.callId.value)];
    assert e in h + [e];
    forall x | x in all && x.runId == e.runId
      ensures exists s :: s in h + [e] && s.kind == ExecutionStarted && s.meta.callId == Some(x.callId)
    {
      if x in executed {
        var s :| s in h && s.kind == ExecutionStarted && s.meta.callId == Some(x.callId);
        assert s in h + [e];
      }
    }
  }

  /** One legal append keeps the run's history, its lineage prefix and its executor record. */
  lemma {:induction false} AppendKeepsRun(policy: Policy, log: seq<Event>, relations: seq<Relation>,
                                          executed: seq<Invocation>, run: Id, e: Event)
    requires History(policy, ForRun(log, run)) && Appendable(policy, ForRun(log, run), e) && e.eventId !in Ids(log)
    requires Grounded(log, relations) && FreshEventIds(log) && Started(executed, run, ForRun(log, run))
    requires Complete(relations, ForRun(log, run))
               || (Converging(relations, ForRun(log, run)) && e.kind != ExecutionSucceeded)
    ensures History(policy, ForRun(log, run) + [e]) && Converging(relations, ForRun(log, run) + [e])
    ensures e.kind != ExecutionSucceeded && Complete(relations, ForRun(log, run)) ==>
              Complete(relations, ForRun(log, run) + [e])
    ensures Started(executed, run, ForRun(log, run) + [e])
    ensures OfRun(relations, ForRun(log, run) + [e]) == OfRun(relations, ForRun(log, run))
    ensures FreshEventIds(log + [e]) && Grounded(log + [e], relations)
  {
    hide Appendable;
    var h := ForRun(log, run);
    Snoc(h, e);
    ConvergingStep(relations, h, e);
    OfRunUnchanged(relations, h, e);
    hide Converging, Complete;
    forall x | x in executed && x.runId == run
      ensures exists s :: s in h + [e] && s.kind == ExecutionStarted && s.meta.callId == Some(x.callId)
    {
      var s :| s in h && s.kind == ExecutionStarted && s.meta.callId == Some(x.callId);
      assert s in h + [e];
    }
    forall i | 0 <= i < |log| ensures log[i].eventId != e.eventId { assert log[i] in log; }
    assert forall x :: x in log ==> x in log + [e];
  }
}
