/** The execution relations mirrored from success events into `ArtifactLineage`
    (src/molly/core/agent_loop.py:641-707, src/molly/core/lineage.py:140-394). */
module Lineage {
  import opened RunEvents

  datatype Ref = StepRef(step: Id) | ArtifactRef(artifact: ArtifactId)

  datatype RelationType = ConsumedBy | ProducedBy | DerivedFrom | SupportedBy

  /** An execution relation's id is a digest of exactly these four values; other writers choose their own ids. */
  datatype RelationId = ExecutionId(success: Id, relType: RelationType, subject: Ref, target: Ref) | GivenId(n: nat)

  datatype Relation = Relation(id: RelationId, relType: RelationType, subject: Ref, target: Ref, createdAt: nat,
      runId: Id, callId: Id)

  // ---- The canonical list of one success event, in the order of the source's loops

  function Execution(e: Event, t: RelationType, subject: Ref, target: Ref): Relation
    requires e.meta.callId.Some?
  {
    Relation(ExecutionId(e.eventId, t, subject, target), t, subject, target, e.timestamp, e.runId, e.meta.callId.value)
  }

  predicate Projectable(e: Event) {
    e.kind == ExecutionSucceeded && e.stepId.Some? && e.meta.callId.Some? && Distinct(e.inputs) && Distinct(e.outputs)
  }

  /** The first `n` inputs that `output` is derived from. */
  function Derived(e: Event, output: ArtifactId, n: nat): seq<Relation>
    requires Projectable(e) && n <= |e.inputs|
  {
    if n == 0 then []
    else Derived(e, output, n - 1) + [Execution(e, DerivedFrom, ArtifactRef(output), ArtifactRef(e.inputs[n - 1]))]
  }

  function Produced(e: Event, n: nat): seq<Relation>
    requires Projectable(e) && n <= |e.outputs|
  {
    if n == 0 then []
    else
      var output := e.outputs[n - 1];
      var production := Execution(e, ProducedBy, ArtifactRef(output), StepRef(e.stepId.value));
      Produced(e, n - 1) + ([production] + Derived(e, output, |e.inputs|))
  }

  function Consumed(e: Event, n: nat): seq<Relation>
    requires Projectable(e) && n <= |e.inputs|
  {
    if n == 0 then []
    else Consumed(e, n - 1) + [Execution(e, ConsumedBy, ArtifactRef(e.inputs[n - 1]), StepRef(e.stepId.value))]
  }

  function EventRelations(e: Event): seq<Relation>
    requires Projectable(e)
  {
    Produced(e, |e.outputs|) + Consumed(e, |e.inputs|)
  }

  /** The canonical list of a run: its success events in order. */
  function Canonical(h: seq<Event>): seq<Relation> {
    if h == [] then []
    else if Projectable(Last(h)) then Canonical(Front(h)) + EventRelations(Last(h))
    else Canonical(Front(h))
  }

  // ---- No relation occurs twice in the canonical list

  predicate DistinctIds(rs: seq<Relation>) { forall i, j :: 0 <= i < j < |rs| ==> rs[i].id != rs[j].id }

  lemma {:induction false} DerivedForm(e: Event, output: ArtifactId, n: nat)
    requires Projectable(e) && n <= |e.inputs|
    ensures |Derived(e, output, n)| == n
    ensures forall k :: 0 <= k < n ==>
              Derived(e, output, n)[k] == Execution(e, DerivedFrom, ArtifactRef(output), ArtifactRef(e.inputs[k]))
  {
    if n > 0 { DerivedForm(e, output, n - 1); }
  }

  lemma {:induction false} ConsumedForm(e: Event, n: nat)
    requires Projectable(e) && n <= |e.inputs|
    ensures |Consumed(e, n)| == n
    ensures forall k :: 0 <= k < n ==>
              Consumed(e, n)[k] == Execution(e, ConsumedBy, ArtifactRef(e.inputs[k]), StepRef(e.stepId.value))
  {
    if n > 0 { ConsumedForm(e, n - 1); }
  }

  predicate ProducedShape(e: Event, n: nat, r: Relation)
    requires n <= |e.outputs|
  {
    && r.id.ExecutionId? && r.id.success == e.eventId && r.id.relType in {ProducedBy, DerivedFrom}
    && exists k :: 0 <= k < n && r.id.subject == ArtifactRef(e.outputs[k])
  }

  lemma {:induction false} ProducedDistinct(e: Event, n: nat)
    requires Projectable(e) && n <= |e.outputs|
    ensures DistinctIds(Produced(e, n)) && forall r :: r in Produced(e, n) ==> ProducedShape(e, n, r)
  {
    if n > 0 {
      ProducedDistinct(e, n - 1);
      var output := e.outputs[n - 1];
      DerivedForm(e, output, |e.inputs|);
      var (before, head, derived) :=
        (Produced(e, n - 1), Execution(e, ProducedBy, ArtifactRef(output), StepRef(e.stepId.value)),
            Derived(e, output, |e.inputs|));
      var block := [head] + derived;
      assert forall k :: 0 <= k < |block| ==> block[k].id.ExecutionId? && block[k].id.subject == ArtifactRef(output);
      assert DistinctIds(block);
      forall r | r in before ensures ProducedShape(e, n, r) && r.id.subject != ArtifactRef(output) {
        assert ProducedShape(e, n - 1, r);
      }
      forall r | r in block ensures ProducedShape(e, n, r) { assert e.outputs[n - 1] == output; }
      JoinDistinct(before, block);
    }
  }

  lemma JoinDistinct(a: seq<Relation>, b: seq<Relation>)
    requires DistinctIds(a) && DistinctIds(b)
    requires forall x, y :: x in a && y in b ==> x.id != y.id
    ensures DistinctIds(a + b)
  {}

  lemma EventRelationsDistinct(e: Event)
    requires Projectable(e)
    ensures DistinctIds(EventRelations(e))
    ensures forall r :: r in EventRelations(e) ==> r.id.ExecutionId? && r.id.success == e.eventId
  {
    ProducedDistinct(e, |e.outputs|);
    ConsumedForm(e, |e.inputs|);
    JoinDistinct(Produced(e, |e.outputs|), Consumed(e, |e.inputs|));
  }

  lemma {:induction false} ProducedExtends(e: Event, n: nat)
    requires Projectable(e) && n <= |e.outputs|
    ensures Produced(e, n) <= Produced(e, |e.outputs|)
    decreases |e.outputs| - n
  {
    if n < |e.outputs| { ProducedExtends(e, n + 1); }
  }

  /** The block of one output in the list of one event: its production, then its derivations. */
  lemma OutputBlock(e: Event, n: nat)
    requires Projectable(e) && n < |e.outputs|
    ensures var (from, block) := (|Produced(e, n)|,
              [Execution(e, ProducedBy, ArtifactRef(e.outputs[n]), StepRef(e.stepId.value))]
                                                    + Derived(e, e.outputs[n], |e.inputs|));
            |Produced(e, n + 1)| == from + |block| <= |EventRelations(e)|
                && EventRelations(e)[from..from + |block|] == block
  {
    hide Derived;
    ProducedExtends(e, n + 1);
    var next := Produced(e, n + 1);
    assert EventRelations(e)[..|next|] == next;
    assert EventRelations(e)[|Produced(e, n)|..|next|] == next[|Produced(e, n)|..];
  }

  /** Where the nested loops of `_project_success` stand in the list of one event. */
  lemma OutputPosition(e: Event, n: nat)
    requires Projectable(e) && n < |e.outputs|
    ensures |Produced(e, n + 1)| == |Produced(e, n)| + 1 + |e.inputs| <= |EventRelations(e)|
    ensures EventRelations(e)[|Produced(e, n)|] ==
              Execution(e, ProducedBy, ArtifactRef(e.outputs[n]), StepRef(e.stepId.value))
  {
    hide Produced, EventRelations, Derived;
    DerivedForm(e, e.outputs[n], |e.inputs|);
    OutputBlock(e, n);
    assert EventRelations(e)[|Produced(e, n)|] == EventRelations(e)[|Produced(e, n)|..|Produced(e, n + 1)|][0];
  }

  lemma DerivedPosition(e: Event, n: nat, k: nat)
    requires Projectable(e) && n < |e.outputs| && k < |e.inputs|
    ensures |Produced(e, n)| + 1 + k < |EventRelations(e)|
    ensures EventRelations(e)[|Produced(e, n)| + 1 + k] ==
              Execution(e, DerivedFrom, ArtifactRef(e.outputs[n]), ArtifactRef(e.inputs[k]))
  {
    hide Produced, EventRelations, Derived;
    DerivedForm(e, e.outputs[n], |e.inputs|);
    OutputBlock(e, n);
    assert EventRelations(e)[|Produced(e, n)| + 1 + k] ==
        EventRelations(e)[|Produced(e, n)|..|Produced(e, n + 1)|][1 + k];
  }

  lemma RelationsLength(e: Event)
    requires Projectable(e)
    ensures |Produced(e, 0)| == 0 && |EventRelations(e)| == |Produced(e, |e.outputs|)| + |e.inputs|
  {
    ConsumedForm(e, |e.inputs|);
  }

  lemma InputPosition(e: Event, k: nat)
    requires Projectable(e) && k < |e.inputs|
    ensures |EventRelations(e)| == |Produced(e, |e.outputs|)| + |e.inputs|
    ensures EventRelations(e)[|Produced(e, |e.outputs|)| + k] ==
              Execution(e, ConsumedBy, ArtifactRef(e.inputs[k]), StepRef(e.stepId.value))
  {
    ConsumedForm(e, |e.inputs|);
  }

  // ---- What the relations say, field by field

  /** Success `e` gives rise to exactly these relations: each output was produced by the step and derived from each
      input, and each input was consumed by the step. */
  predicate GivesRise(e: Event, r: Relation) {
    && e.kind == ExecutionSucceeded && e.stepId.Some? && e.meta.callId.Some?
    && r.id.ExecutionId? && r.id.success == e.eventId && r.id.relType == r.relType
    && r.id.subject == r.subject && r.id.target == r.target
    && r.createdAt == e.timestamp && r.runId == e.runId && r.callId == e.meta.callId.value
    && r.subject.ArtifactRef?
    && match r.relType
       case ProducedBy => r.subject.artifact in e.outputs && r.target == StepRef(e.stepId.value)
       case DerivedFrom =>
         r.subject.artifact in e.outputs && r.target.ArtifactRef? && r.target.artifact in e.inputs
       case ConsumedBy => r.subject.artifact in e.inputs && r.target == StepRef(e.stepId.value)
       case SupportedBy => false
  }

  lemma {:induction false} ProducedMeans(e: Event, n: nat)
    requires Projectable(e) && n <= |e.outputs|
    ensures forall r :: r in Produced(e, n) <==>
              GivesRise(e, r) && r.relType != ConsumedBy && r.subject.artifact in e.outputs[..n]
  {
    if n == 0 { return; }
    ProducedMeans(e, n - 1);
    var output := e.outputs[n - 1];
    assert e.outputs[..n] == e.outputs[..n - 1] + [output];
    DerivedForm(e, output, |e.inputs|);
    hide Derived;
    var (before, head) := (Produced(e, n - 1), Execution(e, ProducedBy, ArtifactRef(output), StepRef(e.stepId.value)));
    var derived := Derived(e, output, |e.inputs|);
    forall r ensures r in derived <==> GivesRise(e, r) && r.relType == DerivedFrom && r.subject == ArtifactRef(output) {
      if GivesRise(e, r) && r.relType == DerivedFrom && r.subject == ArtifactRef(output) {
        var k :| 0 <= k < |e.inputs| && e.inputs[k] == r.target.artifact;
        assert derived[k] == r;
      }
    }
    forall r ensures r in [head] <==> GivesRise(e, r) && r.relType == ProducedBy && r.subject == ArtifactRef(output) {}
    assert Produced(e, n) == before + ([head] + derived);
  }

  lemma ConsumedMeans(e: Event)
    requires Projectable(e)
    ensures forall r :: r in Consumed(e, |e.inputs|) <==> GivesRise(e, r) && r.relType == ConsumedBy
  {
    ConsumedForm(e, |e.inputs|);
    hide Consumed;
    forall r | GivesRise(e, r) && r.relType == ConsumedBy ensures r in Consumed(e, |e.inputs|) {
      var k :| 0 <= k < |e.inputs| && e.inputs[k] == r.subject.artifact;
      assert Consumed(e, |e.inputs|)[k] == r;
    }
  }

  lemma RelationsMean(e: Event)
    requires Projectable(e)
    ensures forall r :: r in EventRelations(e) <==> GivesRise(e, r)
  {
    ProducedMeans(e, |e.outputs|);
    ConsumedMeans(e);
    hide Produced, Consumed;
    assert e.outputs[..|e.outputs|] == e.outputs;
  }

  /** Every success lists no artifact twice and names its call and step. */
  predicate AllProjectable(h: seq<Event>) { forall e :: e in h && e.kind == ExecutionSucceeded ==> Projectable(e) }

  ghost predicate Justified(h: seq<Event>, r: Relation) { exists e :: e in h && GivesRise(e, r) }

  /** The canonical list of a run holds exactly the relations its successes give rise to. */
  lemma {:induction false} CanonicalMeans(h: seq<Event>, r: Relation)
    requires AllProjectable(h)
    ensures r in Canonical(h) <==> Justified(h, r)
  {
    if h == [] { return; }
    var (f, e) := (Front(h), Last(h));
    assert h == f + [e];
    forall x | x in f && x.kind == ExecutionSucceeded ensures Projectable(x) { assert x in h; }
    hide AllProjectable;
    CanonicalMeans(f, r);
    if Projectable(e) { RelationsMean(e); }
    hide GivesRise, EventRelations, Projectable;
    if Justified(f, r) {
      var x :| x in f && GivesRise(x, r);
      assert x in h;
    }
  }

  predicate FreshEventIds(h: seq<Event>) { forall i, j :: 0 <= i < j < |h| ==> h[i].eventId != h[j].eventId }

  predicate SuccessId(h: seq<Event>, id: Id) { exists e :: e in h && e.kind == ExecutionSucceeded && e.eventId == id }

  lemma SuccessKept(f: seq<Event>, e: Event, id: Id)
    ensures SuccessId(f, id) ==> SuccessId(f + [e], id)
    ensures e.kind == ExecutionSucceeded ==> SuccessId(f + [e], e.eventId)
  {
    assert e in f + [e];
    if SuccessId(f, id) {
      var x :| x in f && x.kind == ExecutionSucceeded && x.eventId == id;
      assert x in f + [e];
    }
  }

  lemma NewIdIsNoSuccess(f: seq<Event>, e: Event)
    requires FreshEventIds(f + [e])
    ensures FreshEventIds(f) && !SuccessId(f, e.eventId)
  {
    var h := f + [e];
    forall i, j | 0 <= i < j < |f| ensures f[i].eventId != f[j].eventId { assert h[i] == f[i] && h[j] == f[j]; }
    forall i | 0 <= i < |f| ensures f[i].eventId != e.eventId { assert h[i] == f[i] && h[|f|] == e; }
  }

  lemma {:induction false} CanonicalDistinct(h: seq<Event>)
    requires FreshEventIds(h)
    ensures DistinctIds(Canonical(h))
    ensures forall r :: r in Canonical(h) ==> r.id.ExecutionId? && SuccessId(h, r.id.success)
  {
    hide EventRelations, DistinctIds, SuccessId, FreshEventIds, Projectable;
    if h == [] { EmptyDistinct(); return; }
    var (f, e) := (Front(h), Last(h));
    assert h == f + [e];
    NewIdIsNoSuccess(f, e);
    CanonicalDistinct(f);
    forall r | r in Canonical(f) ensures SuccessId(h, r.id.success) { SuccessKept(f, e, r.id.success); }
    if Projectable(e) {
      EventRelationsDistinct(e);
      ProjectableSucceeded(e);
      SuccessKept(f, e, e.eventId);
      JoinDistinct(Canonical(f), EventRelations(e));
    }
  }

  lemma EmptyDistinct() ensures DistinctIds([]) {}

  lemma ProjectableSucceeded(e: Event) requires Projectable(e) ensures e.kind == ExecutionSucceeded {}

  lemma {:induction false} CanonicalPrefix(h: seq<Event>, n: nat)
    requires n <= |h|
    ensures Canonical(h[..n]) <= Canonical(h)
  {
    if n < |h| {
      CanonicalPrefix(Front(h), n);
      assert Front(h)[..n] == h[..n];
    } else {
      assert h[..n] == h;
    }
  }

  /** The relations of one success event stand together in the canonical list, after those of the events before it. */
  predicate StandsAt(h: seq<Event>, at: nat, e: Event) {
    && Projectable(e) && at + |EventRelations(e)| <= |Canonical(h)|
    && Canonical(h)[at..at + |EventRelations(e)|] == EventRelations(e)
  }

  lemma EventStands(h: seq<Event>, n: nat)
    requires n < |h| && Projectable(h[n])
    ensures StandsAt(h, |Canonical(h[..n])|, h[n])
    ensures |Canonical(h[..n + 1])| == |Canonical(h[..n])| + |EventRelations(h[n])|
  {
    TakeNext(h, n);
    CanonicalPrefix(h, n + 1);
    var whole := Canonical(h[..n + 1]);
    assert whole == Canonical(h[..n]) + EventRelations(h[n]);
    assert Canonical(h)[..|whole|] == whole;
    assert Canonical(h)[|Canonical(h[..n])|..|whole|] == whole[|Canonical(h[..n])|..];
  }

  // ---- The log

  /** The part of the log that belongs to the success events of `h`. */
  function OfRun(log: seq<Relation>, h: seq<Event>): seq<Relation> {
    if log == [] then []
    else if Last(log).id.ExecutionId? && SuccessId(h, Last(log).id.success) then OfRun(Front(log), h) + [Last(log)]
    else OfRun(Front(log), h)
  }

  lemma OfRunSnoc(log: seq<Relation>, r: Relation, h: seq<Event>)
    ensures OfRun(log + [r], h) ==
              if r.id.ExecutionId? && SuccessId(h, r.id.success) then OfRun(log, h) + [r] else OfRun(log, h)
  { Snoc(log, r); }

  lemma {:induction false} OfRunMembers(log: seq<Relation>, h: seq<Event>)
    ensures forall r :: r in OfRun(log, h) <==> r in log && r.id.ExecutionId? && SuccessId(h, r.id.success)
  {
    if log != [] { OfRunMembers(Front(log), h); assert log == Front(log) + [Last(log)]; }
  }

  /** The log restricted to a run is a prefix of the run's canonical list. */
  predicate Converging(log: seq<Relation>, h: seq<Event>) { OfRun(log, h) <= Canonical(h) }

  predicate Complete(log: seq<Relation>, h: seq<Event>) { OfRun(log, h) == Canonical(h) }

  lemma JustifiedBySuccess(h: seq<Event>, r: Relation)
    requires Justified(h, r)
    ensures r.id.ExecutionId? && SuccessId(h, r.id.success)
  {}

  /** A stored relation that names a success of the run is one that the run gives rise to. */
  ghost predicate Truthful(log: seq<Relation>, h: seq<Event>) {
    forall r :: r in log && r.id.ExecutionId? && SuccessId(h, r.id.success) ==> Justified(h, r)
  }

  /** All relations that the run gives rise to are stored. */
  ghost predicate AllStored(log: seq<Relation>, h: seq<Event>) { forall r :: Justified(h, r) ==> r in log }

  lemma LogMeans(log: seq<Relation>, h: seq<Event>)
    requires AllProjectable(h) && Converging(log, h)
    ensures Truthful(log, h) && (Complete(log, h) ==> AllStored(log, h))
  {
    OfRunMembers(log, h);
    hide OfRun, SuccessId, Justified;
    forall r | r in OfRun(log, h) ensures Justified(h, r) {
      assert r in Canonical(h);
      CanonicalMeans(h, r);
    }
    if Complete(log, h) {
      forall r | Justified(h, r) ensures r in log {
        CanonicalMeans(h, r);
        JustifiedBySuccess(h, r);
      }
    }
  }

  lemma {:induction false} NoneOfRun(log: seq<Relation>, h: seq<Event>)
    requires forall r :: r in log ==> r.id.GivenId?
    ensures OfRun(log, h) == []
  {
    if log != [] {
      assert log == Front(log) + [Last(log)];
      NoneOfRun(Front(log), h);
    }
  }

  /** Appending an event whose id no relation mentions leaves the restriction alone. */
  lemma {:induction false} OfRunUnchanged(log: seq<Relation>, h: seq<Event>, e: Event)
    requires forall r :: r in log && r.id.ExecutionId? ==> r.id.success != e.eventId
    ensures OfRun(log, h + [e]) == OfRun(log, h)
  {
    if log != [] {
      OfRunUnchanged(Front(log), h, e);
      var r := Last(log);
      assert log == Front(log) + [r];
      if r.id.ExecutionId? {
        assert r in log;
        assert SuccessId(h + [e], r.id.success) <==> SuccessId(h, r.id.success) by {
          if SuccessId(h, r.id.success) {
            var x :| x in h && x.kind == ExecutionSucceeded && x.eventId == r.id.success;
            assert x in h + [e];
          }
        }
      }
    }
  }

  /** Whatever is appended, what the log holds for a run stays a prefix. */
  lemma ConvergingStep(log: seq<Relation>, h: seq<Event>, e: Event)
    requires Complete(log, h) || (Converging(log, h) && e.kind != ExecutionSucceeded)
    requires forall r :: r in log && r.id.ExecutionId? ==> r.id.success != e.eventId
    ensures Converging(log, h + [e]) && (e.kind != ExecutionSucceeded && Complete(log, h) ==> Complete(log, h + [e]))
  {
    OfRunUnchanged(log, h, e);
    Snoc(h, e);
  }

  /** Already there: the next canonical relation is found in the log, with exactly its own meaning. */
  lemma NextIsPresent(log: seq<Relation>, h: seq<Event>, n: nat)
    requires Converging(log, h) && n < |OfRun(log, h)|
    ensures Canonical(h)[n] in log
  {
    OfRunMembers(log, h);
    assert OfRun(log, h)[n] in OfRun(log, h);
  }

  /** The relations of one success are stored once the log has grown to their end. */
  lemma EventStored(log: seq<Relation>, h: seq<Event>, at: nat, e: Event)
    requires Converging(log, h) && StandsAt(h, at, e) && at + |EventRelations(e)| <= |OfRun(log, h)|
    ensures forall r :: GivesRise(e, r) ==> r in log
  {
    RelationsMean(e);
    OfRunMembers(log, h);
    hide OfRun, EventRelations, GivesRise, SuccessId, Projectable;
    forall r | r in EventRelations(e) ensures r in log {
      var k :| 0 <= k < |EventRelations(e)| && EventRelations(e)[k] == r;
      assert Canonical(h)[at..at + |EventRelations(e)|][k] == Canonical(h)[at + k] == OfRun(log, h)[at + k];
    }
  }

  lemma EarlierDiffers(canonical: seq<Relation>, n: nat, r: Relation)
    requires DistinctIds(canonical) && n < |canonical| && r in canonical[..n]
    ensures r.id != canonical[n].id
  {}

  /** Not there yet: no relation of the log carries the id, so it is appended and the prefix grows by one. */
  lemma NextIsAbsent(log: seq<Relation>, h: seq<Event>, n: nat)
    requires FreshEventIds(h) && Converging(log, h) && n == |OfRun(log, h)| < |Canonical(h)|
    ensures forall r :: r in log ==> r.id != Canonical(h)[n].id
    ensures OfRun(log + [Canonical(h)[n]], h) == Canonical(h)[..n + 1]
  {
    hide Canonical, OfRun, SuccessId, FreshEventIds, DistinctIds;
    CanonicalDistinct(h);
    OfRunMembers(log, h);
    var next := Canonical(h)[n];
    assert next in Canonical(h);
    forall r | r in log ensures r.id != next.id {
      if r in OfRun(log, h) { EarlierDiffers(Canonical(h), n, r); }
    }
    OfRunSnoc(log, next, h);
  }

  /** The identities that stored relations refer to. */
  function Endpoints(relations: seq<Relation>): set<Ref> {
    (set x | x in relations :: x.subject) + (set x | x in relations :: x.target)
  }

  /** `ArtifactLineage` over one log.  The chain of digests is the subject of module HashChain. */
  class ArtifactLineage {
    var relations: seq<Relation>
    var known: set<Ref>
    var strict: bool

    /** A read succeeds: in strict mode every stored relation refers to known identities. */
    predicate Readable() reads this {
      strict ==> forall r :: r in relations ==> r.subject in known && r.target in known
    }

    ghost predicate Valid() reads this { DistinctIds(relations) && Readable() }

    /** A process opens the log: nothing is known and nothing is strict yet. */
    constructor (stored: seq<Relation>)
      requires DistinctIds(stored)
      ensures Valid() && relations == stored && known == {} && !strict
    {
      relations, known, strict := stored, {}, false;
    }

    /** A restarted process sees only the file. */
    method Reopen()
      requires Valid()
      modifies this
      ensures Valid() && relations == old(relations) && !strict
    {
      known, strict := {}, false;
    }

    /** `register_*`: before the first registration makes the log strict, the persisted
        identities are remembered, so that what is already stored stays readable. */
    method Register(r: Ref)
      requires Valid()
      modifies this`known, this`strict
      ensures Valid() && strict
      ensures known == old(known) + {r} + (if old(strict) then {} else Endpoints(relations))
    {
      if !strict {
        known := known + Endpoints(relations);
      }
      known := known + {r};
      strict := true;
    }

    /** `add_relation_idempotent`: an existing id must mean exactly the same, a new one is appended. */
    method AddIdempotent(r: Relation) returns (ok: bool)
      requires Valid()
      modifies this`relations
      ensures Valid()
      ensures (exists x :: x in old(relations) && x.id == r.id) ==>
                relations == old(relations) && (ok <==> r in old(relations))
      ensures !(exists x :: x in old(relations) && x.id == r.id) ==>
                if strict && (r.subject !in known || r.target !in known) then !ok && relations == old(relations)
                else ok && relations == old(relations) + [r]
    {
      var i := 0;
      while i < |relations|
        invariant 0 <= i <= |relations|
        invariant forall k :: 0 <= k < i ==> relations[k].id != r.id
      {
        if relations[i].id == r.id {
          assert relations[i] in relations;
          ok := relations[i] == r;
          if !ok {
            forall k | 0 <= k < |relations| ensures relations[k] != r {
              assert k != i ==> relations[k].id != relations[i].id;
            }
          }
          return;
        }
        i := i + 1;
      }
      if strict && (r.subject !in known || r.target !in known) { return false; }
      relations := relations + [r];
      ok := true;
    }
  }
}
