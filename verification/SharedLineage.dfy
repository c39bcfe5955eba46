/** Several runs, each with its own driver, over one ledger and one lineage log
    (src/molly/core/agent_loop.py:641-707, 972-1114, src/molly/core/lineage.py:344-394).
    What one run's drivers append never moves another run's part of the lineage log. */
module SharedLineage {
  import opened RunEvents
  import opened Projection
  import opened RunHistory
  import opened RunSafety
  import opened Lineage
  import opened LoopSteps

  datatype Shared = Shared(log: seq<Event>, relations: seq<Relation>)

  /** A driver appends an event of its run, or offers the run's next canonical relation; another writer
      of lineage stores a relation under an id of its own. */
  datatype Move = Write(e: Event) | Offer(run: Id) | Store(r: Relation)

  /** A success is only recorded by a driver that has mirrored all earlier ones. */
  ghost predicate Allowed(policy: Policy, s: Shared, m: Move) {
    match m
    case Write(e) =>
      && Appendable(policy, ForRun(s.log, e.runId), e) && e.eventId !in Ids(s.log)
      && (e.kind == ExecutionSucceeded ==> Complete(s.relations, ForRun(s.log, e.runId)))
    case Offer(run) => true
    case Store(r) => r.id.GivenId?
  }

  function Mirrored(s: Shared, run: Id): nat { |OfRun(s.relations, ForRun(s.log, run))| }

  function After(s: Shared, m: Move): Shared {
    match m
    case Write(e) => s.(log := s.log + [e])
    case Offer(run) =>
      var canonical := Canonical(ForRun(s.log, run));
      if Mirrored(s, run) < |canonical| then s.(relations := s.relations + [canonical[Mirrored(s, run)]]) else s
    case Store(r) => s.(relations := s.relations + [r])
  }

  ghost predicate Inv(s: Shared) {
    && FreshEventIds(s.log) && Grounded(s.log, s.relations)
    && forall run :: Converging(s.relations, ForRun(s.log, run))
  }

  // ---- One event belongs to one run

  lemma SuccessOfOneRun(log: seq<Event>, a: Id, b: Id, id: Id)
    requires FreshEventIds(log) && a != b && SuccessId(ForRun(log, a), id)
    ensures !SuccessId(ForRun(log, b), id) && id in Ids(log)
  {
    ForRunMembers(log, a);
    ForRunMembers(log, b);
    var x :| x in ForRun(log, a) && x.kind == ExecutionSucceeded && x.eventId == id;
    forall y | y in ForRun(log, b) ensures y.eventId != id { IdsDiffer(log, x, y); }
  }

  lemma IdsDiffer(log: seq<Event>, x: Event, y: Event)
    requires FreshEventIds(log) && x in log && y in log && x != y
    ensures x.eventId != y.eventId
  {
    var i :| 0 <= i < |log| && log[i] == x;
    var j :| 0 <= j < |log| && log[j] == y;
    assert i < j || j < i;
  }

  // ---- What one move does to the part of one run

  /** Offering a run's next relation extends its own part by exactly that relation ... */
  lemma OfferOwn(s: Shared, run: Id)
    requires Inv(s)
    ensures var (t, h) := (After(s, Offer(run)), ForRun(s.log, run));
            OfRun(t.relations, h) == Canonical(h)[..Min(|Canonical(h)|, Mirrored(s, run) + 1)]
  {
    var h := ForRun(s.log, run);
    ForRunFresh(s.log, run);
    assert Converging(s.relations, h);
    if Mirrored(s, run) < |Canonical(h)| {
      NextIsAbsent(s.relations, h, Mirrored(s, run));
    }
  }

  lemma OfferIsSuccess(s: Shared, run: Id)
    requires Inv(s) && Mirrored(s, run) < |Canonical(ForRun(s.log, run))|
    ensures var r := Canonical(ForRun(s.log, run))[Mirrored(s, run)];
            r.id.ExecutionId? && SuccessId(ForRun(s.log, run), r.id.success)
  {
    var h := ForRun(s.log, run);
    ForRunFresh(s.log, run);
    CanonicalDistinct(h);
    assert Canonical(h)[Mirrored(s, run)] in Canonical(h);
  }

  /** ... and leaves the part of every other run alone. */
  lemma OfferOther(s: Shared, run: Id, other: Id)
    requires Inv(s) && other != run
    ensures OfRun(After(s, Offer(run)).relations, ForRun(s.log, other)) == OfRun(s.relations, ForRun(s.log, other))
  {
    hide OfRun, Canonical, SuccessId, ForRun;
    var h := ForRun(s.log, run);
    if Mirrored(s, run) < |Canonical(h)| {
      OfferIsSuccess(s, run);
      var r := Canonical(h)[Mirrored(s, run)];
      SuccessOfOneRun(s.log, run, other, r.id.success);
      OfRunSnoc(s.relations, r, ForRun(s.log, other));
    }
  }

  lemma WriteKeeps(policy: Policy, s: Shared, e: Event, run: Id)
    requires Inv(s) && Allowed(policy, s, Write(e))
    ensures OfRun(s.relations, ForRun(s.log + [e], run)) == OfRun(s.relations, ForRun(s.log, run))
    ensures Converging(s.relations, ForRun(s.log + [e], run))
  {
    hide OfRun, Canonical, Appendable;
    ForRunSnoc(s.log, e, run);
    var h := ForRun(s.log, run);
    assert Converging(s.relations, h);
    if e.runId == run {
      ConvergingStep(s.relations, h, e);
      OfRunUnchanged(s.relations, h, e);
    }
  }

  lemma StoreKeeps(s: Shared, r: Relation, h: seq<Event>)
    requires r.id.GivenId?
    ensures OfRun(s.relations + [r], h) == OfRun(s.relations, h)
  {
    OfRunSnoc(s.relations, r, h);
  }

  /** Only a run's own offers move its part of the lineage log, and they extend it along its canonical list. */
  lemma MovesOwnPart(policy: Policy, s: Shared, m: Move, run: Id)
    requires Inv(s) && Allowed(policy, s, m)
    ensures var (before, after) := (OfRun(s.relations, ForRun(s.log, run)),
                                    OfRun(After(s, m).relations, ForRun(After(s, m).log, run)));
            if m == Offer(run) then
              after == Canonical(ForRun(s.log, run))[..Min(|Canonical(ForRun(s.log, run))|, |before| + 1)]
            else after == before
    ensures Converging(After(s, m).relations, ForRun(After(s, m).log, run))
  {
    hide OfRun, Canonical, Appendable, ForRun;
    assert Converging(s.relations, ForRun(s.log, run));
    match m
    case Write(e) => WriteKeeps(policy, s, e, run);
    case Offer(own) => if own == run { OfferOwn(s, run); } else { OfferOther(s, own, run); }
    case Store(r) => StoreKeeps(s, r, ForRun(s.log, run));
  }

  lemma GroundedKept(policy: Policy, s: Shared, m: Move)
    requires Inv(s) && Allowed(policy, s, m)
    ensures FreshEventIds(After(s, m).log) && Grounded(After(s, m).log, After(s, m).relations)
  {
    hide OfRun, Canonical, Appendable, ForRun, SuccessId;
    match m
    case Write(e) =>
      forall i | 0 <= i < |s.log| ensures s.log[i].eventId != e.eventId { assert s.log[i] in s.log; }
      assert forall x :: x in s.log ==> x in s.log + [e];
    case Offer(run) =>
      if Mirrored(s, run) < |Canonical(ForRun(s.log, run))| {
        OfferIsSuccess(s, run);
        SuccessIsLogged(s.log, run, Canonical(ForRun(s.log, run))[Mirrored(s, run)].id.success);
      }
    case Store(r) =>
  }

  lemma SuccessIsLogged(log: seq<Event>, run: Id, id: Id)
    requires SuccessId(ForRun(log, run), id)
    ensures id in Ids(log)
  {
    ForRunMembers(log, run);
  }

  lemma InvKept(policy: Policy, s: Shared, m: Move)
    requires Inv(s) && Allowed(policy, s, m)
    ensures Inv(After(s, m))
  {
    hide Converging, Allowed, After;
    GroundedKept(policy, s, m);
    forall run ensures Converging(After(s, m).relations, ForRun(After(s, m).log, run)) {
      MovesOwnPart(policy, s, m, run);
    }
  }

  // ---- Any number of moves

  function Play(s: Shared, moves: seq<Move>): Shared {
    if moves == [] then s else After(Play(s, Front(moves)), Last(moves))
  }

  ghost predicate AllAllowed(policy: Policy, s: Shared, moves: seq<Move>) {
    moves == [] || (AllAllowed(policy, s, Front(moves)) && Allowed(policy, Play(s, Front(moves)), Last(moves)))
  }

  function Offers(moves: seq<Move>, run: Id): nat {
    if moves == [] then 0 else Offers(Front(moves), run) + (if Last(moves) == Offer(run) then 1 else 0)
  }

  predicate WritesNothing(moves: seq<Move>, run: Id) { forall m :: m in moves && m.Write? ==> m.e.runId != run }

  lemma {:induction false} PlayKeeps(policy: Policy, s: Shared, moves: seq<Move>)
    requires Inv(s) && AllAllowed(policy, s, moves)
    ensures Inv(Play(s, moves))
  {
    hide Inv, Allowed, After;
    if moves != [] {
      PlayKeeps(policy, s, Front(moves));
      InvKept(policy, Play(s, Front(moves)), Last(moves));
    }
  }

  lemma FirstShared(stored: seq<Relation>)
    requires forall r :: r in stored ==> r.id.GivenId?
    ensures Inv(Shared([], stored))
  {
    forall run ensures Converging(stored, ForRun([], run)) { NoneOfRun(stored, []); }
  }

  /** From an empty ledger on, whatever other writers stored before and whatever the others do: the part of every run
      stays a prefix of its canonical list, and no relation is mirrored ahead of its event. */
  lemma EveryRunConverges(policy: Policy, stored: seq<Relation>, moves: seq<Move>)
    requires forall r :: r in stored ==> r.id.GivenId?
    requires AllAllowed(policy, Shared([], stored), moves)
    ensures var t := Play(Shared([], stored), moves);
            Grounded(t.log, t.relations) && forall run :: Converging(t.relations, ForRun(t.log, run))
  {
    hide Converging, Allowed, After, Grounded;
    FirstShared(stored);
    PlayKeeps(policy, Shared([], stored), moves);
  }

  /** Between two writes of a run, its part grows by exactly its own offers: enough of them complete it,
      and no other run can prevent or undo that. */
  lemma {:induction false} OwnOffersComplete(policy: Policy, s: Shared, moves: seq<Move>, run: Id)
    requires Inv(s) && AllAllowed(policy, s, moves) && WritesNothing(moves, run)
    ensures var (t, h) := (Play(s, moves), ForRun(s.log, run));
            && ForRun(t.log, run) == h
            && OfRun(t.relations, h) == Canonical(h)[..Min(|Canonical(h)|, Mirrored(s, run) + Offers(moves, run))]
    ensures Offers(moves, run) >= |Canonical(ForRun(s.log, run))| - Mirrored(s, run) ==>
              Complete(Play(s, moves).relations, ForRun(s.log, run))
  {
    hide Allowed, OfRun, Canonical, ForRun, Inv;
    var h := ForRun(s.log, run);
    assert Converging(s.relations, h) by { ConvergingIn(s, run); }
    if moves != [] {
      var (front, m) := (Front(moves), Last(moves));
      assert moves == front + [m];
      assert WritesNothing(front, run) && m in moves;
      hide WritesNothing;
      OwnOffersComplete(policy, s, front, run);
      PlayKeeps(policy, s, front);
      MovesOwnPart(policy, Play(s, front), m, run);
      if m.Write? { ForRunSnoc(Play(s, front).log, m.e, run); }
    }
  }

  lemma ConvergingIn(s: Shared, run: Id)
    requires Inv(s)
    ensures Converging(s.relations, ForRun(s.log, run))
  {}
}
