/** The per-host rate gate shared by threads (src/molly/acquisition/transport.py:156-160, 202-263).
    A thread reads the clock before it takes the lock, so the time it brings may be stale. */
module RateGate {
  import opened RunEvents

  datatype Gate = Gate(rate: real, nextAllowed: real, lastReservedAt: Option<real>)

  /** A granted slot: the time it was recorded at, the rate in force then, and the moment the lock was held. */
  datatype Slot = Slot(at: real, rate: real, moment: real)

  function Period(rate: real): real requires rate > 0.0 { 1.0 / rate }

  function Larger(a: real, b: real): real { if a >= b then a else b }

  /** `_host_rate_gate_for` on an existing gate: the rate is only ever lowered, and a lowered
      rate postpones the next slot. */
  function Configured(g: Gate, requested: real): Gate
    requires requested > 0.0
  {
    if requested >= g.rate then g
    else
      Gate(requested,
           if g.lastReservedAt.Some? then Larger(g.nextAllowed, g.lastReservedAt.value + Period(requested))
           else g.nextAllowed,
           g.lastReservedAt)
  }

  /** What a thread must wait, by the time it read. */
  function WaitFor(g: Gate, now: real): real { Larger(0.0, g.nextAllowed - now) }

  function Reserved(g: Gate, now: real): Gate
    requires g.rate > 0.0
  { Gate(g.rate, now + Period(g.rate), Some(now)) }

  /** The gate as the source keeps it. */
  class HostRateGate {
    var requestsPerSecond: real
    var nextAllowed: real
    var lastReservedAt: Option<real>

    function View(): Gate reads this { Gate(requestsPerSecond, nextAllowed, lastReservedAt) }

    constructor (rate: real)
      ensures View() == Gate(rate, 0.0, None)
    {
      requestsPerSecond, nextAllowed, lastReservedAt := rate, 0.0, None;
    }

    method Configure(requested: real)
      requires requested > 0.0
      modifies this
      ensures View() == Configured(old(View()), requested)
      ensures requestsPerSecond <= old(requestsPerSecond) && requestsPerSecond <= requested
      ensures requestsPerSecond == old(requestsPerSecond) || requestsPerSecond == requested
      ensures nextAllowed >= old(nextAllowed) && lastReservedAt == old(lastReservedAt)
      ensures requestsPerSecond < old(requestsPerSecond) && lastReservedAt.Some? ==>
                nextAllowed >= lastReservedAt.value + 1.0 / requestsPerSecond
      ensures nextAllowed == old(nextAllowed)
              || (lastReservedAt.Some? && nextAllowed == lastReservedAt.value + 1.0 / requestsPerSecond)
    {
      var effective := if requestsPerSecond <= requested then requestsPerSecond else requested;
      if effective != requestsPerSecond {
        requestsPerSecond := effective;
        if lastReservedAt.Some? {
          nextAllowed := Larger(nextAllowed, lastReservedAt.value + 1.0 / effective);
        }
      }
    }

    /** One pass through the locked section: a slot, or the time to wait. */
    method TryReserve(now: real) returns (wait: real)
      requires requestsPerSecond > 0.0
      modifies this
      ensures wait == WaitFor(old(View()), now) && wait >= 0.0
      ensures wait == if old(nextAllowed) <= now then 0.0 else old(nextAllowed) - now
      ensures wait == 0.0 ==> nextAllowed == now + 1.0 / old(requestsPerSecond) && lastReservedAt == Some(now)
      ensures View() == if wait == 0.0 then Reserved(old(View()), now) else old(View())
    {
      wait := Larger(0.0, nextAllowed - now);
      if wait == 0.0 {
        nextAllowed := now + 1.0 / requestsPerSecond;
        lastReservedAt := Some(now);
      }
    }
  }

  // ---- Any interleaving of threads

  /** A configuration seen by some thread, or one attempt with the time it read and the moment it got the lock. */
  datatype Step = Configure(requested: real) | Attempt(now: real, moment: real)

  datatype State = State(gate: Gate, slots: seq<Slot>)

  predicate Possible(step: Step) { step.Configure? ==> step.requested > 0.0 }

  function Next(s: State, step: Step): State
    requires s.gate.rate > 0.0 && Possible(step)
  {
    match step
    case Configure(requested) => s.(gate := Configured(s.gate, requested))
    case Attempt(now, moment) =>
      if WaitFor(s.gate, now) == 0.0 then State(Reserved(s.gate, now), s.slots + [Slot(now, s.gate.rate, moment)])
      else s
  }

  function Run(rate: real, steps: seq<Step>): (s: State)
    requires rate > 0.0 && forall i :: 0 <= i < |steps| ==> Possible(steps[i])
    ensures s.gate.rate > 0.0
  {
    if steps == [] then State(Gate(rate, 0.0, None), []) else Next(Run(rate, Front(steps)), Last(steps))
  }

  lemma TimesLess(x: real, y: real, c: real)
    requires x < y && c > 0.0
    ensures x * c < y * c && c * x < c * y
  {}

  lemma PeriodTimesRate(a: real)
    requires a > 0.0
    ensures Period(a) > 0.0 && a * Period(a) == 1.0 && Period(a) * a == 1.0
  {}

  lemma ProductsLess(p: real, a: real, q: real, b: real)
    requires 0.0 < a <= b && q > 0.0 && p < q
    ensures p * a < q * b
  {
    TimesLess(p, q, a);
    if a < b { TimesLess(a, b, q); }
    assert q * a <= q * b;
  }

  lemma EqualProducts(p: real, a: real, q: real, b: real)
    requires 0.0 < a <= b && q > 0.0 && p * a == q * b
    ensures p >= q
  {
    if p < q { ProductsLess(p, a, q, b); }
  }

  lemma LowerRateIsLongerPeriod(a: real, b: real)
    requires 0.0 < a <= b
    ensures Period(a) >= Period(b) > 0.0
  {
    PeriodTimesRate(a);
    PeriodTimesRate(b);
    EqualProducts(Period(a), a, Period(b), b);
  }

  /** The next slot is at least one period of the current rate after the last one. */
  ghost predicate Spaced(s: State) {
    && s.gate.rate > 0.0
    && (s.gate.lastReservedAt.Some? <==> s.slots != [])
    && (s.slots != [] ==>
          s.gate.lastReservedAt == Some(Last(s.slots).at)
              && s.gate.nextAllowed >= Last(s.slots).at + Period(s.gate.rate)
          && s.gate.rate <= Last(s.slots).rate)
    && (forall i :: 0 <= i < |s.slots| ==> s.slots[i].rate > 0.0)
    && (forall i {:trigger s.slots[i]} :: 0 < i < |s.slots| ==>
          s.slots[i].at >= s.slots[i - 1].at + Period(s.slots[i].rate) && s.slots[i].rate <= s.slots[i - 1].rate)
  }

  lemma SpacedStep(s: State, step: Step)
    requires Spaced(s) && Possible(step)
    ensures Spaced(Next(s, step))
  {
    hide Period;
    if step.Configure? {
      if step.requested < s.gate.rate { LowerRateIsLongerPeriod(step.requested, s.gate.rate); }
      assert Next(s, step).slots == s.slots;
    } else if WaitFor(s.gate, step.now) == 0.0 {
      GrantSpaced(s, Slot(step.now, s.gate.rate, step.moment));
    }
  }

  /** A granted slot stands a period behind the last one. */
  lemma GrantSpaced(s: State, slot: Slot)
    requires Spaced(s) && slot.rate == s.gate.rate && s.gate.nextAllowed <= slot.at
    ensures Spaced(State(Reserved(s.gate, slot.at), s.slots + [slot]))
  {
    hide Period;
    var slots := s.slots + [slot];
    forall i {:trigger slots[i]} | 0 < i < |slots|
      ensures slots[i].rate > 0.0 && slots[i].at >= slots[i - 1].at + Period(slots[i].rate)
                && slots[i].rate <= slots[i - 1].rate
    {
      if i < |s.slots| { assert slots[i] == s.slots[i] && slots[i - 1] == s.slots[i - 1]; }
    }
  }

  lemma {:induction false} RunSpaced(rate: real, steps: seq<Step>)
    requires rate > 0.0 && forall i :: 0 <= i < |steps| ==> Possible(steps[i])
    ensures Spaced(Run(rate, steps))
  {
    hide Spaced, Next;
    if steps == [] { NothingYet(rate); return; }
    RunSpaced(rate, Front(steps));
    SpacedStep(Run(rate, Front(steps)), Last(steps));
  }

  lemma NothingYet(rate: real)
    requires rate > 0.0
    ensures Spaced(State(Gate(rate, 0.0, None), []))
  {}

  lemma {:induction false} SlotsApart(s: State, k: nat, n: nat)
    requires Spaced(s) && k + n < |s.slots|
    ensures s.slots[k].rate > 0.0 && s.slots[k + n].rate <= s.slots[k].rate
    ensures s.slots[k + n].at >= s.slots[k].at + Periods(n, Period(s.slots[k].rate))
    decreases n
  {
    hide Period, Periods;
    PeriodsStep(n, Period(s.slots[k].rate));
    if n > 0 {
      SlotsApart(s, k, n - 1);
      var slot := s.slots[k + n];
      assert s.slots[k + n - 1].rate >= slot.rate;
      LowerRateIsLongerPeriod(slot.rate, s.slots[k].rate);
    }
  }

  function Periods(n: nat, period: real): real { (n as real) * period }

  lemma PeriodsStep(n: nat, period: real)
    ensures Periods(n, period) == if n == 0 then 0.0 else Periods(n - 1, period) + period
  {
    if n > 0 { assert n as real == (n - 1) as real + 1.0; }
  }

  lemma PeriodsQuotient(n: nat, rate: real)
    requires rate > 0.0
    ensures Periods(n, Period(rate)) == (n as real) / rate
  {}

  lemma QuotientTimes(n: real, rate: real, window: real)
    requires rate > 0.0 && n / rate <= window
    ensures n <= window * rate
  {
    assert n == (n / rate) * rate;
    if n / rate < window { TimesLess(n / rate, window, rate); }
  }

  /** Under any interleaving, with any stale clock readings and rates lowered at any time, the n-th
      slot after the k-th is recorded at least n / (rate in force at the k-th) later. */
  lemma ReservationsSpaced(rate: real, steps: seq<Step>, k: nat, n: nat)
    requires rate > 0.0 && forall i :: 0 <= i < |steps| ==> Possible(steps[i])
    requires k + n < |Run(rate, steps).slots|
    ensures var slots := Run(rate, steps).slots;
            0.0 < slots[k].rate <= rate && slots[k + n].at - slots[k].at >= (n as real) / slots[k].rate
  {
    hide Run, Spaced, Period, Periods;
    RunSpaced(rate, steps);
    var s := Run(rate, steps);
    SlotsApart(s, k, n);
    RatesOnlyFall(rate, steps);
    PeriodsQuotient(n, s.slots[k].rate);
  }

  lemma {:induction false} RatesOnlyFall(rate: real, steps: seq<Step>)
    requires rate > 0.0 && forall i :: 0 <= i < |steps| ==> Possible(steps[i])
    ensures Run(rate, steps).gate.rate <= rate && forall i :: 0 <= i < |Run(rate, steps).slots| ==>
              Run(rate, steps).slots[i].rate <= rate
  {
    if steps != [] { RatesOnlyFall(rate, Front(steps)); }
  }

  /** So a window of recorded time holds at most 1 + window * rate slots. */
  lemma WindowBound(rate: real, steps: seq<Step>, first: nat, last: nat, window: real)
    requires rate > 0.0 && forall i :: 0 <= i < |steps| ==> Possible(steps[i])
    requires first <= last < |Run(rate, steps).slots|
    requires Run(rate, steps).slots[last].at - Run(rate, steps).slots[first].at <= window
    ensures ((last - first + 1) as real) <= 1.0 + window * Run(rate, steps).slots[first].rate
  {
    hide Run;
    ReservationsSpaced(rate, steps, first, last - first);
    QuotientTimes((last - first) as real, Run(rate, steps).slots[first].rate, window);
    assert (last - first + 1) as real == (last - first) as real + 1.0;
  }

  // ---- Recorded time is not the time of the request

  /** When no reading is older than `staleness`, the moments keep the spacing up to exactly that much. */
  lemma MomentsSpaced(rate: real, steps: seq<Step>, k: nat, n: nat, staleness: real)
    requires rate > 0.0 && forall i :: 0 <= i < |steps| ==> Possible(steps[i])
    requires k + n < |Run(rate, steps).slots|
    requires forall i :: 0 <= i < |Run(rate, steps).slots| ==>
               0.0 <= Run(rate, steps).slots[i].moment - Run(rate, steps).slots[i].at <= staleness
    ensures var slots := Run(rate, steps).slots;
            slots[k].rate > 0.0 && slots[k + n].moment - slots[k].moment >= (n as real) / slots[k].rate - staleness
  {
    hide Run;
    ReservationsSpaced(rate, steps, k, n);
    var slots := Run(rate, steps).slots;
    assert slots[k + n].moment >= slots[k + n].at && slots[k].moment <= slots[k].at + staleness;
  }

  /** Attempts that read the clock at most `staleness` before they get the lock, in the order of the lock. */
  predicate Prompt(steps: seq<Step>, staleness: real) {
    && (forall i :: 0 <= i < |steps| ==> Possible(steps[i]))
    && (forall i :: 0 <= i < |steps| && steps[i].Attempt? ==> 0.0 <= steps[i].moment - steps[i].now <= staleness)
    && (forall i, j :: 0 <= i < j < |steps| && steps[i].Attempt? && steps[j].Attempt? ==>
       steps[i].moment <= steps[j].moment)
  }

  lemma {:induction false} SlotsPrompt(rate: real, steps: seq<Step>, staleness: real)
    requires rate > 0.0 && Prompt(steps, staleness)
    ensures forall i :: 0 <= i < |Run(rate, steps).slots| ==>
              0.0 <= Run(rate, steps).slots[i].moment - Run(rate, steps).slots[i].at <= staleness
  {
    if steps != [] {
      assert Prompt(Front(steps), staleness);
      SlotsPrompt(rate, Front(steps), staleness);
    }
  }

  /** The moments are spaced as the recorded times are. */
  predicate FullySpaced(rate: real, steps: seq<Step>)
    requires rate > 0.0
  {
    && (forall i :: 0 <= i < |steps| ==> Possible(steps[i]))
    && var slots := Run(rate, steps).slots;
       forall i, j :: 0 <= i <= j < |slots| ==>
         slots[i].rate > 0.0 && slots[j].moment - slots[i].moment >= ((j - i) as real) / slots[i].rate
  }

  /** That much can really be lost: for every staleness up to one period there is a schedule in lock order whose
      two moments are exactly that much closer; with a whole period they are one moment. */
  lemma StaleReadingsTight(rate: real, staleness: real) returns (steps: seq<Step>)
    requires rate > 0.0 && 0.0 <= staleness <= Period(rate)
    ensures Prompt(steps, staleness)
    ensures var slots := Run(rate, steps).slots;
            |slots| == 2 && slots[0].rate == rate && slots[1].moment - slots[0].moment == Period(rate) - staleness
  {
    var p := Period(rate);
    var (first, second) := (Attempt(0.0, staleness), Attempt(p, p));
    steps := [first, second];
    assert Front(steps) == [first] && Front(Front(steps)) == [];
    hide Period;
    assert Run(rate, []) == State(Gate(rate, 0.0, None), []);
    assert Run(rate, [first]) == State(Gate(rate, p, Some(0.0)), [Slot(0.0, rate, staleness)]);
    assert Run(rate, steps).slots == [Slot(0.0, rate, staleness), Slot(p, rate, p)];
  }

  lemma PromptIsWeaker(steps: seq<Step>, less: real, more: real)
    requires Prompt(steps, less) && less <= more
    ensures Prompt(steps, more)
  {}

  lemma CloserThanPeriod(rate: real, steps: seq<Step>)
    requires rate > 0.0 && forall i :: 0 <= i < |steps| ==> Possible(steps[i])
    requires |Run(rate, steps).slots| == 2 && Run(rate, steps).slots[0].rate == rate
    requires Run(rate, steps).slots[1].moment - Run(rate, steps).slots[0].moment < Period(rate)
    ensures !FullySpaced(rate, steps)
  {
    hide Run;
    var slots := Run(rate, steps).slots;
    assert !(slots[1].moment - slots[0].moment >= ((1 - 0) as real) / slots[0].rate);
  }

  lemma FreshReadingsSpace(rate: real, steps: seq<Step>)
    requires rate > 0.0 && Prompt(steps, 0.0)
    ensures FullySpaced(rate, steps)
  {
    hide Run, Prompt;
    assert forall i :: 0 <= i < |steps| ==> Possible(steps[i]) by { PossibleSteps(steps, 0.0); }
    SlotsPrompt(rate, steps, 0.0);
    var slots := Run(rate, steps).slots;
    forall i, j | 0 <= i <= j < |slots|
      ensures slots[i].rate > 0.0 && slots[j].moment - slots[i].moment >= ((j - i) as real) / slots[i].rate
    {
      MomentsSpaced(rate, steps, i, j - i, 0.0);
    }
  }

  lemma PossibleSteps(steps: seq<Step>, staleness: real)
    requires Prompt(steps, staleness)
    ensures forall i :: 0 <= i < |steps| ==> Possible(steps[i])
  {}

  /** The gate keeps requests themselves a period apart under every interleaving if and only if no reading is stale. */
  lemma SpacingIffFresh(rate: real, staleness: real)
    requires rate > 0.0 && staleness >= 0.0
    ensures (forall steps :: Prompt(steps, staleness) ==> FullySpaced(rate, steps)) <==> staleness == 0.0
  {
    hide Run, FullySpaced, Prompt;
    if staleness == 0.0 {
      forall steps | Prompt(steps, staleness) ensures FullySpaced(rate, steps) { FreshReadingsSpace(rate, steps); }
    } else {
      PeriodTimesRate(rate);
      hide Period;
      var lost := if staleness <= Period(rate) then staleness else Period(rate);
      var steps := StaleReadingsTight(rate, lost);
      PossibleSteps(steps, lost);
      CloserThanPeriod(rate, steps);
      PromptIsWeaker(steps, lost, staleness);
    }
  }
}
