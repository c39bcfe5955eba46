/** The response cache: the body is committed first and the manifest second, neither is ever
    replaced, and `put` refuses an entry of which exactly one file is seen
    (src/molly/acquisition/cache.py:290-309, 337-426). */
module AcquisitionCaches {
  import opened RunEvents

  type Bytes = seq<nat>

  /** A manifest: what it binds the body to, everything else that must match, and its bookkeeping time. */
  datatype Manifest = Manifest(identity: nat, bodyDigest: nat, bodySize: nat, binding: nat, storedAt: nat)
  {
    predicate Same(other: Manifest) { this.(storedAt := other.storedAt) == other }
  }

  datatype Disk = Disk(bodies: map<nat, Bytes>, manifests: map<nat, Manifest>)

  datatype CacheError = Partial | Integrity | Missing | IdentityMismatch | BindingMismatch | DifferentManifest

  ghost predicate Injective(digest: Bytes -> nat) { forall a, b :: digest(a) == digest(b) ==> a == b }

  // ---- The single file operations

  function LinkBody(d: Disk, id: nat, body: Bytes): Disk {
    if id in d.bodies then d else d.(bodies := d.bodies[id := body])
  }

  function LinkManifest(d: Disk, m: Manifest): Disk {
    if m.identity in d.manifests then d else d.(manifests := d.manifests[m.identity := m])
  }

  function ReadBody(digest: Bytes -> nat, d: Disk, id: nat, expected: nat): Result<Bytes, CacheError> {
    if id !in d.bodies then Err(Missing)
    else if digest(d.bodies[id]) != expected then Err(Integrity) else Ok(d.bodies[id])
  }

  function ReadManifest(d: Disk, id: nat): Result<Manifest, CacheError> {
    if id !in d.manifests then Err(Missing) else Ok(d.manifests[id])
  }

  /** The checks of `get` on the manifest it read. */
  function ManifestError(m: Manifest, id: nat, binding: Option<nat>): Option<CacheError> {
    if m.identity != id then Some(IdentityMismatch)
    else if binding.Some? && m.binding != binding.value then Some(BindingMismatch)
    else None
  }

  // ---- One process alone

  class AcquisitionCache {
    const digest: Bytes -> nat
    var disk: Disk

    constructor (digest: Bytes -> nat)
      ensures disk == Disk(map[], map[]) && this.digest == digest
    {
      this.digest, disk := digest, Disk(map[], map[]);
    }

    /** `get`: a verified pair, or nothing only when neither file exists. */
    method Get(id: nat, binding: Option<nat>) returns (r: Result<Option<(Manifest, Bytes)>, CacheError>)
      ensures r == Ok(None) <==> id !in disk.bodies && id !in disk.manifests
      ensures r == Err(Partial) <==> !(id in disk.bodies <==> id in disk.manifests)
      ensures r.Ok? && r.value.Some? ==>
                var (m, body) := r.value.value;
                && id in disk.manifests && disk.manifests[id] == m && id in disk.bodies && disk.bodies[id] == body
                && m.identity == id && (binding.Some? ==> m.binding == binding.value)
                && digest(body) == m.bodyDigest && |body| == m.bodySize
      ensures SoundDisk(digest, disk) && id in disk.manifests ==>
                r == if binding.Some? && disk.manifests[id].binding != binding.value then Err(BindingMismatch)
                     else Ok(Some((disk.manifests[id], disk.bodies[id])))
    {
      if id !in disk.manifests && id !in disk.bodies { return Ok(None); }
      if id !in disk.manifests || id !in disk.bodies { return Err(Partial); }
      var m := ReadManifest(disk, id);
      var wrong := ManifestError(m.value, id, binding);
      if wrong.Some? { return Err(wrong.value); }
      var body := ReadBody(digest, disk, id, m.value.bodyDigest);
      if body.Err? { return Err(body.error); }
      if |body.value| != m.value.bodySize { return Err(Integrity); }
      r := Ok(Some((m.value, body.value)));
    }

    /** `put`: what is on disk stays; an accepted entry is there afterwards, with this very body. */
    method Put(id: nat, body: Bytes, binding: nat, now: nat) returns (r: Result<Manifest, CacheError>)
      requires Injective(digest)
      modifies this
      ensures Extends(old(disk), disk)
      ensures !(id in old(disk.bodies) <==> id in old(disk.manifests)) <==> r == Err(Partial)
      ensures r == Err(Partial) ==> disk == old(disk)
      ensures id !in old(disk.bodies) && id !in old(disk.manifests) ==>
                r == Ok(Manifest(id, digest(body), |body|, binding, now))
      ensures r.Ok? ==>
                && id in disk.bodies && disk.bodies[id] == body
                && id in disk.manifests && disk.manifests[id] == r.value
                && (id in old(disk.manifests) ==>
                      disk == old(disk) && r.value == Manifest(id, digest(body), |body|, binding, r.value.storedAt))
      ensures SoundDisk(digest, old(disk)) ==> SoundDisk(digest, disk)
      ensures SoundDisk(digest, old(disk)) && id in old(disk.manifests) ==>
                r == if old(disk.bodies[id]) != body then Err(Integrity)
                     else if old(disk.manifests[id]).binding != binding then Err(DifferentManifest)
                     else Ok(old(disk.manifests[id]))
    {
      var candidate := Manifest(id, digest(body), |body|, binding, now);
      if (id in disk.manifests) != (id in disk.bodies) { return Err(Partial); }
      if id !in disk.bodies { disk := LinkBody(disk, id, body); }
      var existing := ReadBody(digest, disk, id, digest(body));
      if existing.Err? { return Err(existing.error); }
      if id in disk.manifests {
        var m := ReadManifest(disk, id);
        if !m.value.Same(candidate) { return Err(DifferentManifest); }
        return m;
      }
      disk := LinkManifest(disk, candidate);
      r := ReadManifest(disk, id);
    }
  }

  ghost predicate Extends(a: Disk, b: Disk) {
    && (forall id :: id in a.bodies ==> id in b.bodies && b.bodies[id] == a.bodies[id])
    && (forall id :: id in a.manifests ==> id in b.manifests && b.manifests[id] == a.manifests[id])
  }

  /** A manifest on disk implies a body on disk with exactly its digest and size. */
  ghost predicate SoundDisk(digest: Bytes -> nat, d: Disk) {
    forall id :: id in d.manifests ==>
      && d.manifests[id].identity == id && id in d.bodies
      && digest(d.bodies[id]) == d.manifests[id].bodyDigest && |d.bodies[id]| == d.manifests[id].bodySize
  }

  // ---- Many processes: every existence test, read and link is a step of its own

  datatype PutPhase =
    | SeeManifest | SeeBody(manifestSeen: bool) | FindBody | LinkingBody | CheckingBody
    | FindManifest | ReadingManifest | LinkingManifest | RereadingManifest

  datatype GetPhase =
    | FirstManifest | FirstBody | SecondManifest(bodySeen: bool) | SecondBody | ReadEntry | ReadEntryBody(m: Manifest)

  /** `complete`: the manifest was there when the operation started. */
  datatype Process =
    | Idle
    | Putting(body: Bytes, candidate: Manifest, complete: bool, putPhase: PutPhase)
    | Getting(id: nat, binding: Option<nat>, complete: bool, getPhase: GetPhase)

  /** What the existence tests behind a miss or a partial answer saw. */
  datatype Seen = Seen(id: nat, complete: bool, manifest: bool, body: bool)

  datatype Hit = Hit(id: nat, binding: Option<nat>, m: Manifest, body: Bytes)

  datatype Failure =
    | PutFailed(candidate: Manifest, error: CacheError)
    | GetFailed(id: nat, binding: Option<nat>, error: CacheError)

  /** An accepted candidate and the manifest that was returned for it. */
  datatype Accepted = Accepted(candidate: Manifest, m: Manifest, complete: bool)

  datatype System = System(
    disk: Disk, processes: seq<Process>,
    hits: set<Hit>, stored: set<Accepted>, misses: set<Seen>, partials: set<Seen>, failed: set<Failure>)

  datatype Move =
    | StartPut(p: nat, id: nat, body: Bytes, binding: nat, now: nat)
    | StartGet(p: nat, id: nat, expected: Option<nat>)
    | Advance(p: nat)
    | Stop(p: nat)

  function Stopped(s: System, p: nat): System
    requires p < |s.processes|
  { s.(processes := s.processes[p := Idle]) }

  function AdvancePut(digest: Bytes -> nat, s: System, p: nat, body: Bytes, candidate: Manifest, complete: bool,
                      phase: PutPhase): System
    requires p < |s.processes|
  {
    var (d, id) := (s.disk, candidate.identity);
    var go := (next: PutPhase) => s.(processes := s.processes[p := Putting(body, candidate, complete, next)]);
    var fail := (error: CacheError) => Stopped(s, p).(failed := s.failed + {PutFailed(candidate, error)});
    match phase
    case SeeManifest => go(SeeBody(id in d.manifests))
    case SeeBody(seen) =>
      if seen == (id in d.bodies) then go(FindBody)
      else Stopped(s, p).(partials := s.partials + {Seen(id, complete, seen, id in d.bodies)})
    case FindBody => go(if id in d.bodies then CheckingBody else LinkingBody)
    case LinkingBody => go(CheckingBody).(disk := LinkBody(d, id, body))
    case CheckingBody =>
      var existing := ReadBody(digest, d, id, digest(body));
      if existing.Err? then fail(existing.error) else go(FindManifest)
    case FindManifest => go(if id in d.manifests then ReadingManifest else LinkingManifest)
    case ReadingManifest =>
      var m := ReadManifest(d, id);
      if m.Err? then fail(m.error)
      else if !m.value.Same(candidate) then fail(DifferentManifest)
      else Stopped(s, p).(stored := s.stored + {Accepted(candidate, m.value, complete)})
    case LinkingManifest => go(RereadingManifest).(disk := LinkManifest(d, candidate))
    case RereadingManifest =>
      var m := ReadManifest(d, id);
      if m.Err? then fail(m.error) else Stopped(s, p).(stored := s.stored + {Accepted(candidate, m.value, complete)})
  }

  function AdvanceGet(digest: Bytes -> nat, s: System, p: nat, id: nat, binding: Option<nat>, complete: bool,
                      phase: GetPhase): System
    requires p < |s.processes|
  {
    var d := s.disk;
    var go := (next: GetPhase) => s.(processes := s.processes[p := Getting(id, binding, complete, next)]);
    var fail := (error: CacheError) => Stopped(s, p).(failed := s.failed + {GetFailed(id, binding, error)});
    match phase
    case FirstManifest => go(if id in d.manifests then SecondManifest(false) else FirstBody)
    case FirstBody =>
      if id in d.bodies then go(SecondManifest(true))
      else Stopped(s, p).(misses := s.misses + {Seen(id, complete, false, id in d.bodies)})
    case SecondManifest(bodySeen) =>
      if id in d.manifests then go(SecondBody)
      else Stopped(s, p).(partials := s.partials + {Seen(id, complete, id in d.manifests, bodySeen)})
    case SecondBody =>
      if id in d.bodies then go(ReadEntry)
      else Stopped(s, p).(partials := s.partials + {Seen(id, complete, true, id in d.bodies)})
    case ReadEntry =>
      var m := ReadManifest(d, id);
      if m.Err? then fail(m.error)
      else if ManifestError(m.value, id, binding).Some? then fail(ManifestError(m.value, id, binding).value)
      else go(ReadEntryBody(m.value))
    case ReadEntryBody(m) =>
      var body := ReadBody(digest, d, id, m.bodyDigest);
      if body.Err? then fail(body.error)
      else if |body.value| != m.bodySize then fail(Integrity)
      else Stopped(s, p).(hits := s.hits + {Hit(id, binding, m, body.value)})
  }

  function AdvanceOne(digest: Bytes -> nat, s: System, p: nat): System
    requires p < |s.processes|
  {
    match s.processes[p]
    case Idle => s
    case Putting(body, candidate, complete, phase) => AdvancePut(digest, s, p, body, candidate, complete, phase)
    case Getting(id, binding, complete, phase) => AdvanceGet(digest, s, p, id, binding, complete, phase)
  }

  function Next(digest: Bytes -> nat, s: System, move: Move): System {
    match move
    case StartPut(p, id, body, binding, now) =>
      if p < |s.processes| && s.processes[p].Idle?
      then
        var candidate := Manifest(id, digest(body), |body|, binding, now);
        s.(processes := s.processes[p := Putting(body, candidate, id in s.disk.manifests, SeeManifest)])
      else s
    case StartGet(p, id, binding) =>
      if p < |s.processes| && s.processes[p].Idle?
      then s.(processes := s.processes[p := Getting(id, binding, id in s.disk.manifests, FirstManifest)])
      else s
    case Advance(p) => if p < |s.processes| then AdvanceOne(digest, s, p) else s
    case Stop(p) => if p < |s.processes| then Stopped(s, p) else s
  }

  function Run(digest: Bytes -> nat, s: System, moves: seq<Move>): System {
    if moves == [] then s else Next(digest, Run(digest, s, Front(moves)), Last(moves))
  }

  function Start(n: nat): System { System(Disk(map[], map[]), seq(n, _ => Idle), {}, {}, {}, {}, {}) }

  /** What a process already knows about the disk. */
  ghost predicate Underway(digest: Bytes -> nat, d: Disk, process: Process) {
    match process
    case Idle => true
    case Putting(body, candidate, complete, phase) =>
      && (complete ==> candidate.identity in d.manifests)
      && (complete && phase.SeeBody? ==> phase.manifestSeen)
      && (complete ==> !phase.LinkingManifest? && !phase.RereadingManifest?)
      && candidate.bodyDigest == digest(body) && candidate.bodySize == |body|
      && (phase.SeeBody? && phase.manifestSeen ==> candidate.identity in d.manifests && candidate.identity in d.bodies)
      && (phase.CheckingBody? ==> candidate.identity in d.bodies)
      && (phase.FindManifest? || phase.ReadingManifest? || phase.LinkingManifest? || phase.RereadingManifest? ==>
            candidate.identity in d.bodies && d.bodies[candidate.identity] == body)
      && (phase.ReadingManifest? || phase.RereadingManifest? ==> candidate.identity in d.manifests)
    case Getting(id, binding, complete, phase) =>
      && (complete ==> id in d.manifests && !phase.FirstBody?)
      && (phase.SecondManifest? ==> if phase.bodySeen then id in d.bodies else id in d.manifests)
      && (phase.SecondBody? || phase.ReadEntry? ==> id in d.manifests)
      && (phase.ReadEntryBody? ==>
            id in d.manifests && d.manifests[id] == phase.m && ManifestError(phase.m, id, binding).None?)
  }

  /** Every answer given so far. */
  ghost predicate Answers(digest: Bytes -> nat, s: System) {
    && (forall x :: x in s.hits ==>
          && x.id in s.disk.manifests && s.disk.manifests[x.id] == x.m && x.id in s.disk.bodies
             && s.disk.bodies[x.id] == x.body
          && (x.binding.Some? ==> x.m.binding == x.binding.value))
    && (forall x :: x in s.stored ==>
          && x.candidate.identity in s.disk.manifests && s.disk.manifests[x.candidate.identity] == x.m
          && x.m.bodyDigest == x.candidate.bodyDigest && x.m.bodySize == x.candidate.bodySize
          && (x.complete ==> x.m.binding == x.candidate.binding))
    && (forall x :: x in s.misses ==> !x.complete && !x.manifest && !x.body)
    && (forall x :: x in s.partials ==> !x.complete && !x.manifest && x.body && x.id in s.disk.bodies)
    && (forall x :: x in s.failed ==> Deserved(digest, s.disk, x))
  }

  /** A put fails only for another body or another manifest, a get only for another binding, which the disk shows. */
  predicate Deserved(digest: Bytes -> nat, d: Disk, x: Failure) {
    match x
    case PutFailed(candidate, error) =>
      var id := candidate.identity;
      (error == Integrity && id in d.bodies && digest(d.bodies[id]) != candidate.bodyDigest)
      || (error == DifferentManifest && id in d.manifests && !d.manifests[id].Same(candidate))
    case GetFailed(id, binding, error) =>
      error == BindingMismatch && id in d.manifests && binding.Some? && d.manifests[id].binding != binding.value
  }

  ghost predicate Consistent(digest: Bytes -> nat, s: System) {
    && SoundDisk(digest, s.disk) && Answers(digest, s)
    && forall p :: 0 <= p < |s.processes| ==> Underway(digest, s.disk, s.processes[p])
  }

  lemma Unchanged(d: Disk) ensures Extends(d, d) {}

  lemma UnderwayExtends(digest: Bytes -> nat, a: Disk, b: Disk, process: Process)
    requires Underway(digest, a, process) && Extends(a, b)
    ensures Underway(digest, b, process)
  {}

  lemma AnswersExtend(digest: Bytes -> nat, s: System, d: Disk)
    requires Answers(digest, s) && Extends(s.disk, d)
    ensures Answers(digest, s.(disk := d))
  {}

  lemma OnlyOneMoves(digest: Bytes -> nat, s: System, p: nat)
    requires p < |s.processes|
    ensures var t := AdvanceOne(digest, s, p);
            |t.processes| == |s.processes| && forall q :: 0 <= q < |s.processes| && q != p ==>
                t.processes[q] == s.processes[q]
  {
    hide ReadBody, ReadManifest, ManifestError, LinkBody, LinkManifest;
  }

  lemma PutDisk(digest: Bytes -> nat, s: System, p: nat)
    requires Consistent(digest, s) && p < |s.processes| && s.processes[p].Putting?
    ensures Extends(s.disk, AdvanceOne(digest, s, p).disk) && SoundDisk(digest, AdvanceOne(digest, s, p).disk)
  {
    hide Answers, Extends, LinkBody, LinkManifest, ReadBody, ReadManifest, SoundDisk;
    assert Underway(digest, s.disk, s.processes[p]);
    hide Consistent;
    Unchanged(s.disk);
    var candidate := s.processes[p].candidate;
    LinkBodyKeeps(digest, s.disk, candidate.identity, s.processes[p].body);
    if s.processes[p].putPhase.LinkingManifest? { LinkManifestKeeps(digest, s.disk, candidate); }
  }

  lemma PutUnderway(digest: Bytes -> nat, s: System, p: nat)
    requires Injective(digest) && Consistent(digest, s) && p < |s.processes| && s.processes[p].Putting?
    ensures Underway(digest, AdvanceOne(digest, s, p).disk, AdvanceOne(digest, s, p).processes[p])
  {
    hide Answers, Deserved, ReadManifest, LinkBody, LinkManifest;
    assert Underway(digest, s.disk, s.processes[p]);
    var candidate := s.processes[p].candidate;
    assert candidate.identity in s.disk.manifests ==> candidate.identity in s.disk.bodies;
    hide SoundDisk, Consistent, Extends;
    match s.processes[p].putPhase
    case LinkingBody => LinkBodyKeeps(digest, s.disk, candidate.identity, s.processes[p].body);
    case LinkingManifest => LinkManifestKeeps(digest, s.disk, candidate);
    case _ =>
  }

  lemma LinkBodyKeeps(digest: Bytes -> nat, d: Disk, id: nat, body: Bytes)
    requires SoundDisk(digest, d)
    ensures var after := LinkBody(d, id, body);
            Extends(d, after) && SoundDisk(digest, after) && id in after.bodies && after.manifests == d.manifests
  {}

  lemma LinkManifestKeeps(digest: Bytes -> nat, d: Disk, m: Manifest)
    requires SoundDisk(digest, d) && m.identity in d.bodies
    requires digest(d.bodies[m.identity]) == m.bodyDigest && |d.bodies[m.identity]| == m.bodySize
    ensures var after := LinkManifest(d, m);
            Extends(d, after) && SoundDisk(digest, after) && m.identity in after.manifests && after.bodies == d.bodies
  {}

  lemma PutAnswers(digest: Bytes -> nat, s: System, p: nat)
    requires Injective(digest) && Consistent(digest, s) && p < |s.processes| && s.processes[p].Putting?
    requires Extends(s.disk, AdvanceOne(digest, s, p).disk)
    ensures Answers(digest, AdvanceOne(digest, s, p))
  {
    hide LinkBody, LinkManifest, SoundDisk, AdvanceOne, Answers;
    assert Underway(digest, s.disk, s.processes[p]);
    AnswersExtend(digest, s, AdvanceOne(digest, s, p).disk);
    if s.processes[p].putPhase in {CheckingBody, ReadingManifest, RereadingManifest} {
      PutEnds(digest, s, p);
    } else {
      PutGoesOn(digest, s, p);
    }
  }

  lemma PutGoesOn(digest: Bytes -> nat, s: System, p: nat)
    requires p < |s.processes| && Underway(digest, s.disk, s.processes[p]) && s.processes[p].Putting?
    requires s.processes[p].putPhase !in {CheckingBody, ReadingManifest, RereadingManifest}
    requires Answers(digest, s.(disk := AdvanceOne(digest, s, p).disk))
    ensures Answers(digest, AdvanceOne(digest, s, p))
  {
    hide Deserved, ReadBody, ReadManifest;
  }

  lemma PutEnds(digest: Bytes -> nat, s: System, p: nat)
    requires SoundDisk(digest, s.disk) && p < |s.processes| && Underway(digest, s.disk, s.processes[p])
               && s.processes[p].Putting?
    requires s.processes[p].putPhase in {CheckingBody, ReadingManifest, RereadingManifest}
    requires Answers(digest, s.(disk := AdvanceOne(digest, s, p).disk))
    ensures Answers(digest, AdvanceOne(digest, s, p))
  {}

  lemma GetKeeps(digest: Bytes -> nat, s: System, p: nat)
    requires Consistent(digest, s) && p < |s.processes| && !s.processes[p].Putting?
    ensures var t := AdvanceOne(digest, s, p);
            t.disk == s.disk && Answers(digest, t) && Underway(digest, t.disk, t.processes[p])
  {
    assert Underway(digest, s.disk, s.processes[p]);
  }

  lemma OthersStand(digest: Bytes -> nat, s: System, t: System, p: nat)
    requires Consistent(digest, s) && p < |s.processes| == |t.processes|
    requires Extends(s.disk, t.disk) && SoundDisk(digest, t.disk) && Answers(digest, t)
    requires Underway(digest, t.disk, t.processes[p])
    requires forall q :: 0 <= q < |s.processes| && q != p ==> t.processes[q] == s.processes[q]
    ensures Consistent(digest, t)
  {
    hide SoundDisk, Answers, Extends, Underway;
    forall q | 0 <= q < |t.processes| && q != p ensures Underway(digest, t.disk, t.processes[q]) {
      UnderwayExtends(digest, s.disk, t.disk, s.processes[q]);
    }
  }

  lemma AdvanceKeeps(digest: Bytes -> nat, s: System, p: nat)
    requires Injective(digest) && Consistent(digest, s) && p < |s.processes|
    ensures Consistent(digest, AdvanceOne(digest, s, p)) && Extends(s.disk, AdvanceOne(digest, s, p).disk)
  {
    OnlyOneMoves(digest, s, p);
    Unchanged(s.disk);
    hide Injective, Answers, SoundDisk, Underway, Extends, AdvanceOne;
    if s.processes[p].Putting? {
      PutDisk(digest, s, p);
      PutUnderway(digest, s, p);
      PutAnswers(digest, s, p);
    } else {
      GetKeeps(digest, s, p);
    }
    OthersStand(digest, s, AdvanceOne(digest, s, p), p);
  }

  lemma MoveKeeps(digest: Bytes -> nat, s: System, move: Move)
    requires Injective(digest) && Consistent(digest, s)
    ensures Consistent(digest, Next(digest, s, move)) && Extends(s.disk, Next(digest, s, move).disk)
  {
    hide SoundDisk, Extends, AdvanceOne;
    Unchanged(s.disk);
    if move.Advance? && move.p < |s.processes| { AdvanceKeeps(digest, s, move.p); }
  }

  lemma {:induction false} RunKeeps(digest: Bytes -> nat, s: System, moves: seq<Move>)
    requires Injective(digest) && Consistent(digest, s)
    ensures Consistent(digest, Run(digest, s, moves)) && Extends(s.disk, Run(digest, s, moves).disk)
  {
    hide Consistent, Next;
    if moves == [] { Unchanged(s.disk); return; }
    RunKeeps(digest, s, Front(moves));
    MoveKeeps(digest, Run(digest, s, Front(moves)), Last(moves));
  }

  /** On any disk, sound or not, no move of any process replaces or removes anything. */
  lemma NothingReplaced(digest: Bytes -> nat, s: System, move: Move)
    ensures Extends(s.disk, Next(digest, s, move).disk)
  {
    hide ReadBody, ReadManifest, ManifestError;
  }

  /** On any disk a new hit is the manifest the get had accepted, with a body of exactly its digest and size. */
  lemma HitsMatchOnAnyDisk(digest: Bytes -> nat, s: System, p: nat, x: Hit)
    requires p < |s.processes| && x in AdvanceOne(digest, s, p).hits && x !in s.hits
    ensures s.processes[p].Getting? && s.processes[p].getPhase == ReadEntryBody(x.m) && x.id == s.processes[p].id
    ensures x.id in s.disk.bodies && x.body == s.disk.bodies[x.id]
    ensures digest(x.body) == x.m.bodyDigest && |x.body| == x.m.bodySize
  {
    hide ReadManifest, ManifestError, LinkBody, LinkManifest;
  }

  /** Under any interleaving of `put`, `get` and crashes: a manifest has its body; hits are the matching pair on
      disk and agree with each other; an accepted put is backed by its own body; a miss saw neither file and a
      partial answer saw a body without its manifest, and neither is given to an operation that started when the
      entry was complete, so that such a get ends in the pair or in a real difference of bindings. */
  lemma CacheAgrees(digest: Bytes -> nat, n: nat, moves: seq<Move>)
    requires Injective(digest)
    ensures var s := Run(digest, Start(n), moves);
            && SoundDisk(digest, s.disk)
            && (forall x :: x in s.hits ==>
                  && x.m.identity == x.id && digest(x.body) == x.m.bodyDigest && |x.body| == x.m.bodySize
                  && (x.binding.Some? ==> x.m.binding == x.binding.value))
            && (forall x, y :: x in s.hits && y in s.hits && x.id == y.id ==> x.m == y.m && x.body == y.body)
            && (forall x, y :: x in s.stored && y in s.hits && x.candidate.identity == y.id ==>
                  x.m == y.m && digest(y.body) == x.candidate.bodyDigest)
            && (forall x :: x in s.stored && x.complete ==> x.m.binding == x.candidate.binding)
            && (forall x :: x in s.misses ==> !x.complete && !x.manifest && !x.body)
            && (forall x :: x in s.partials ==> !x.complete && !x.manifest && x.body && x.id in s.disk.bodies)
            && (forall x :: x in s.failed ==> Deserved(digest, s.disk, x))
  {
    hide Run, Next;
    RunKeeps(digest, Start(n), moves);
  }

  // ---- A crash between the two links

  /** This put can still link the manifest: it is past its tests, and its body is the stored one. */
  predicate CanLink(process: Process, id: nat, stored: Bytes) {
    && process.Putting? && process.candidate.identity == id && process.body == stored
    && process.putPhase in {FindBody, LinkingBody, CheckingBody, FindManifest, LinkingManifest}
  }

  /** A body without its manifest, and no put in flight that can still link the manifest. */
  predicate Stuck(s: System, id: nat) {
    && id in s.disk.bodies && id !in s.disk.manifests
    && forall p :: 0 <= p < |s.processes| ==> !CanLink(s.processes[p], id, s.disk.bodies[id])
  }

  lemma StuckAdvance(digest: Bytes -> nat, s: System, p: nat, id: nat)
    requires Injective(digest) && Consistent(digest, s) && Stuck(s, id) && p < |s.processes|
    ensures Stuck(AdvanceOne(digest, s, p), id)
  {
    hide Answers, SoundDisk, ManifestError;
    OnlyOneMoves(digest, s, p);
    assert Underway(digest, s.disk, s.processes[p]) && !CanLink(s.processes[p], id, s.disk.bodies[id]);
    var t := AdvanceOne(digest, s, p);
    StuckProcess(digest, s, p, id);
    forall q | 0 <= q < |t.processes| ensures !CanLink(t.processes[q], id, t.disk.bodies[id]) {
      if q != p { assert !CanLink(s.processes[q], id, s.disk.bodies[id]); }
    }
  }

  lemma StuckProcess(digest: Bytes -> nat, s: System, p: nat, id: nat)
    requires Injective(digest) && p < |s.processes| && Underway(digest, s.disk, s.processes[p])
    requires id in s.disk.bodies && id !in s.disk.manifests && !CanLink(s.processes[p], id, s.disk.bodies[id])
    ensures var t := AdvanceOne(digest, s, p);
            && id in t.disk.bodies && t.disk.bodies[id] == s.disk.bodies[id] && id !in t.disk.manifests
            && p < |t.processes| && !CanLink(t.processes[p], id, t.disk.bodies[id])
  {
    hide ManifestError;
  }

  lemma StuckMove(digest: Bytes -> nat, s: System, move: Move, id: nat)
    requires Injective(digest) && Consistent(digest, s) && Stuck(s, id)
    ensures Stuck(Next(digest, s, move), id)
  {
    hide Injective, Consistent, AdvanceOne;
    if move.Advance? && move.p < |s.processes| { StuckAdvance(digest, s, move.p, id); }
  }

  /** From then on no manifest ever appears: every later put of this identity is refused as partial. */
  lemma {:induction false} PartialForever(digest: Bytes -> nat, s: System, moves: seq<Move>, id: nat)
    requires Injective(digest) && Consistent(digest, s) && Stuck(s, id)
    ensures Stuck(Run(digest, s, moves), id)
  {
    hide Stuck, Next, Consistent, Injective;
    if moves == [] { return; }
    PartialForever(digest, s, Front(moves), id);
    RunKeeps(digest, s, Front(moves));
    StuckMove(digest, Run(digest, s, Front(moves)), Last(moves), id);
  }

  /** Steps left to the link. */
  function ToLink(phase: PutPhase): nat {
    match phase
    case FindBody => 4
    case LinkingBody => 4
    case CheckingBody => 3
    case FindManifest => 2
    case _ => 1
  }

  lemma LinkProgress(digest: Bytes -> nat, s: System, p: nat, id: nat)
    requires Consistent(digest, s) && p < |s.processes| && id in s.disk.bodies && id !in s.disk.manifests
    requires CanLink(s.processes[p], id, s.disk.bodies[id])
    ensures var t := AdvanceOne(digest, s, p);
            && p < |t.processes|
            && if s.processes[p].putPhase == LinkingManifest then
                 t.disk == LinkManifest(s.disk, s.processes[p].candidate)
               else
                 && t.disk == s.disk && CanLink(t.processes[p], id, t.disk.bodies[id])
                 && t.processes[p].candidate == s.processes[p].candidate
                 && ToLink(t.processes[p].putPhase) < ToLink(s.processes[p].putPhase)
  {
    hide Answers, SoundDisk;
    assert Underway(digest, s.disk, s.processes[p]);
  }

  /** A put of the stored body that is past its tests completes the entry when it is left alone. */
  lemma {:induction false} PutCompletes(digest: Bytes -> nat, s: System, p: nat, id: nat) returns (moves: seq<Move>)
    requires Injective(digest) && Consistent(digest, s) && p < |s.processes|
    requires id in s.disk.bodies && id !in s.disk.manifests && CanLink(s.processes[p], id, s.disk.bodies[id])
    ensures forall m :: m in moves ==> m == Advance(p)
    ensures var t := Run(digest, s, moves);
            id in t.disk.manifests && t.disk.manifests[id] == s.processes[p].candidate && t.disk.bodies == s.disk.bodies
    decreases ToLink(s.processes[p].putPhase)
  {
    hide Run, AdvanceOne, Consistent, Injective;
    LinkProgress(digest, s, p, id);
    var t := AdvanceOne(digest, s, p);
    AdvanceKeeps(digest, s, p);
    if s.processes[p].putPhase == LinkingManifest {
      moves := [];
    } else {
      moves := PutCompletes(digest, t, p, id);
    }
    RunCons(digest, s, Advance(p), moves);
    NoMoves(digest, t);
    moves := [Advance(p)] + moves;
  }

  lemma NoMoves(digest: Bytes -> nat, s: System)
    ensures Run(digest, s, []) == s
  {}

  lemma {:induction false} RunCons(digest: Bytes -> nat, s: System, move: Move, moves: seq<Move>)
    ensures Run(digest, s, [move] + moves) == Run(digest, Next(digest, s, move), moves)
  {
    hide Next;
    if moves == [] {
      assert [move] + moves == [] + [move];
      RunSnoc(digest, s, [], move);
    } else {
      assert [move] + moves == ([move] + Front(moves)) + [Last(moves)];
      RunSnoc(digest, s, [move] + Front(moves), Last(moves));
      RunCons(digest, s, move, Front(moves));
    }
  }

  /** In any consistent state, a body without its manifest can still be completed by the processes in flight or by
      new ones if and only if some put of the stored body is past its tests. */
  lemma CompletedIffInFlight(digest: Bytes -> nat, s: System, id: nat)
    requires Injective(digest) && Consistent(digest, s) && id in s.disk.bodies && id !in s.disk.manifests
    ensures (exists moves :: id in Run(digest, s, moves).disk.manifests) <==>
              exists p :: 0 <= p < |s.processes| && CanLink(s.processes[p], id, s.disk.bodies[id])
  {
    hide Run, Injective, Consistent, CanLink;
    if p :| 0 <= p < |s.processes| && CanLink(s.processes[p], id, s.disk.bodies[id]) {
      var moves := PutCompletes(digest, s, p, id);
    } else {
      forall moves ensures id !in Run(digest, s, moves).disk.manifests { PartialForever(digest, s, moves, id); }
    }
  }

  /** One crash is enough: a put that stops between its two links leaves the entry stuck. */
  lemma StuckIsReachable(digest: Bytes -> nat) returns (moves: seq<Move>)
    ensures Stuck(Run(digest, Start(1), moves), 0)
  {
    hide Next, Run;
    moves := [];
    NoMoves(digest, Start(1));
    DyingStep(digest, 0);
    var k := 0;
    while k < 6
      invariant k <= 6 && Run(digest, Start(1), moves) == Dying(digest, k)
    {
      DyingStep(digest, k);
      RunSnoc(digest, Start(1), moves, DyingMove(k));
      moves := moves + [DyingMove(k)];
      k := k + 1;
    }
  }

  function DyingMove(k: nat): Move {
    if k == 0 then StartPut(0, 0, [], 0, 0) else if k < 5 then Advance(0) else Move.Stop(0)
  }

  /** The states of that run. */
  function Dying(digest: Bytes -> nat, k: nat): System {
    var c := Manifest(0, digest([]), 0, 0, 0);
    var phase := if k == 1 then SeeManifest else if k == 2 then SeeBody(false) else if k == 3 then FindBody
                 else if k == 4 then LinkingBody else CheckingBody;
    Start(1).(disk := Disk(if k >= 5 then map[0 := []] else map[], map[]),
              processes := [if k == 0 || k >= 6 then Idle else Putting([], c, false, phase)])
  }

  lemma DyingStep(digest: Bytes -> nat, k: nat)
    requires k < 6
    ensures Dying(digest, 0) == Start(1)
    ensures Next(digest, Dying(digest, k), DyingMove(k)) == Dying(digest, k + 1)
  {
    assert Start(1).processes == [Idle];
    var (t, u) := (Next(digest, Dying(digest, k), DyingMove(k)), Dying(digest, k + 1));
    assert t.processes == u.processes;
    assert t.disk.bodies == u.disk.bodies;
  }

  // ---- What a returned manifest may differ in

  lemma RunSnoc(digest: Bytes -> nat, s: System, moves: seq<Move>, move: Move)
    ensures Run(digest, s, moves + [move]) == Next(digest, Run(digest, s, moves), move)
  { Snoc(moves, move); }

  /** Two puts of one body under one identity, both past their last test for a manifest. */
  function BothLinking(digest: Bytes -> nat): System {
    Start(2).(disk := Disk(map[0 := []], map[]),
              processes := [Putting([], Manifest(0, digest([]), 0, 0, 0), false, LinkingManifest),
                            Putting([], Manifest(0, digest([]), 0, 1, 0), false, LinkingManifest)])
  }

  function Schedule(): seq<Move> {
    [StartPut(0, 0, [], 0, 0), StartPut(1, 0, [], 1, 0), Advance(0), Advance(0), Advance(1), Advance(1),
     Advance(0), Advance(0), Advance(0), Advance(0), Advance(1), Advance(1), Advance(1)]
  }

  lemma ProgressStep(digest: Bytes -> nat, k: nat)
    requires k < |Schedule()|
    ensures Next(digest, Progress(digest, k), Schedule()[k]) == Progress(digest, k + 1)
  {
    var (t, u) := (Next(digest, Progress(digest, k), Schedule()[k]), Progress(digest, k + 1));
    assert t.processes == u.processes;
    assert t.disk.bodies == u.disk.bodies;
  }

  lemma BothCanLink(digest: Bytes -> nat) returns (moves: seq<Move>)
    ensures Run(digest, Start(2), moves) == BothLinking(digest)
  {
    hide Next, Run;
    moves := [];
    StartOfRun(digest);
    var k := 0;
    while k < |Schedule()|
      invariant k <= |Schedule()| && Run(digest, Start(2), moves) == Progress(digest, k)
    {
      RunSnoc(digest, Start(2), moves, Schedule()[k]);
      ProgressStep(digest, k);
      moves := moves + [Schedule()[k]];
      k := k + 1;
    }
    EndOfRun(digest);
  }

  lemma StartOfRun(digest: Bytes -> nat)
    ensures Run(digest, Start(2), []) == Progress(digest, 0)
  {
    assert Start(2).processes == [Idle, Idle];
  }

  lemma EndOfRun(digest: Bytes -> nat)
    ensures Progress(digest, 13) == BothLinking(digest)
  {}

  /** The states of that run, one by one. */
  function Progress(digest: Bytes -> nat, k: nat): System {
    var (c, d) := (Manifest(0, digest([]), 0, 0, 0), Manifest(0, digest([]), 0, 1, 0));
    var phase :=
      if k <= 2 then SeeManifest else if k == 3 then SeeBody(false) else if k <= 6 then FindBody
      else if k == 7 then LinkingBody else if k == 8 then CheckingBody else if k == 9 then FindManifest
      else LinkingManifest;
    var other :=
      if k <= 4 then SeeManifest else if k == 5 then SeeBody(false) else if k <= 10 then FindBody
      else if k == 11 then CheckingBody else if k == 12 then FindManifest else LinkingManifest;
    var first := if k == 0 then Idle else Putting([], c, false, phase);
    var second := if k <= 1 then Idle else Putting([], d, false, other);
    Start(2).(disk := Disk(if k >= 8 then map[0 := []] else map[], map[]), processes := [first, second])
  }

  /** A put that loses the race for the manifest returns the winner's without comparing it,
      so it may be answered by a manifest with other bindings than its own. */
  lemma RacingPutReturnsOther(digest: Bytes -> nat) returns (moves: seq<Move>)
    ensures exists x :: x in Run(digest, Start(2), moves).stored && !x.m.Same(x.candidate)
  {
    moves := BothCanLink(digest);
    var (s, c, d) := (BothLinking(digest), Manifest(0, digest([]), 0, 0, 0), Manifest(0, digest([]), 0, 1, 0));
    RunSnoc(digest, Start(2), moves, Advance(0));
    RunSnoc(digest, Start(2), moves + [Advance(0)], Advance(1));
    RunSnoc(digest, Start(2), moves + [Advance(0)] + [Advance(1)], Advance(1));
    moves := moves + [Advance(0)] + [Advance(1)] + [Advance(1)];
    assert Accepted(d, c, false) in Run(digest, Start(2), moves).stored;
  }

  /** What decides the answer is the moment of the link: from then on, whatever others do, the put is
      answered by its own candidate's bindings if and only if no other manifest was there, or one that agrees. */
  lemma LinkDecidesAnswer(digest: Bytes -> nat, s: System, p: nat, moves: seq<Move>) returns (m: Manifest)
    requires Injective(digest) && Consistent(digest, s) && p < |s.processes|
    requires s.processes[p].Putting? && s.processes[p].putPhase.LinkingManifest?
    requires var u := Run(digest, AdvanceOne(digest, s, p), moves);
             p < |u.processes| && u.processes[p] == s.processes[p].(putPhase := RereadingManifest)
    ensures var (c, u) := (s.processes[p].candidate, Run(digest, AdvanceOne(digest, s, p), moves));
            && AdvanceOne(digest, u, p).stored == u.stored + {Accepted(c, m, s.processes[p].complete)}
            && (m.Same(c) <==> c.identity !in s.disk.manifests || s.disk.manifests[c.identity].Same(c))
  {
    hide AdvanceOne, Run, Consistent, Injective;
    var c := s.processes[p].candidate;
    var t := AdvanceOne(digest, s, p);
    LinkStep(digest, s, p);
    AdvanceKeeps(digest, s, p);
    RunKeeps(digest, t, moves);
    m := RereadStep(digest, Run(digest, t, moves), p);
  }

  lemma LinkStep(digest: Bytes -> nat, s: System, p: nat)
    requires p < |s.processes| && s.processes[p].Putting? && s.processes[p].putPhase.LinkingManifest?
    ensures var (c, t) := (s.processes[p].candidate, AdvanceOne(digest, s, p));
            c.identity in t.disk.manifests
            && t.disk.manifests[c.identity] == if c.identity in s.disk.manifests then s.disk.manifests[c.identity]
               else c
  {}

  lemma RereadStep(digest: Bytes -> nat, u: System, p: nat) returns (m: Manifest)
    requires p < |u.processes| && u.processes[p].Putting? && u.processes[p].putPhase.RereadingManifest?
    requires u.processes[p].candidate.identity in u.disk.manifests
    ensures var c := u.processes[p].candidate;
            m == u.disk.manifests[c.identity]
            && AdvanceOne(digest, u, p).stored == u.stored + {Accepted(c, m, u.processes[p].complete)}
  {
    m := u.disk.manifests[u.processes[p].candidate.identity];
  }

  // ---- When all puts of an identity carry one binding

  /** Every put of `id` so far, and whatever it left on disk or was told, carries this binding. */
  ghost predicate OneBinding(s: System, id: nat, binding: nat) {
    && (id in s.disk.manifests ==> s.disk.manifests[id].binding == binding)
    && (forall p :: 0 <= p < |s.processes| && s.processes[p].Putting? && s.processes[p].candidate.identity == id ==>
          s.processes[p].candidate.binding == binding)
    && (forall x :: x in s.stored && x.candidate.identity == id ==> x.candidate.binding == binding)
  }

  lemma BindingAdvance(digest: Bytes -> nat, s: System, p: nat, id: nat, binding: nat)
    requires OneBinding(s, id, binding) && p < |s.processes|
    ensures OneBinding(AdvanceOne(digest, s, p), id, binding)
  {
    OnlyOneMoves(digest, s, p);
    var t := AdvanceOne(digest, s, p);
    BindingOfOne(digest, s, p, id, binding);
    hide AdvanceOne;
    forall q | 0 <= q < |t.processes| && t.processes[q].Putting? && t.processes[q].candidate.identity == id
      ensures t.processes[q].candidate.binding == binding
    {
      if q != p { assert t.processes[q] == s.processes[q]; }
    }
  }

  lemma BindingOfOne(digest: Bytes -> nat, s: System, p: nat, id: nat, binding: nat)
    requires OneBinding(s, id, binding) && p < |s.processes|
    ensures var t := AdvanceOne(digest, s, p);
            && (id in t.disk.manifests ==> t.disk.manifests[id].binding == binding)
            && p < |t.processes|
            && (t.processes[p].Putting? ==>
                  s.processes[p].Putting? && t.processes[p].candidate == s.processes[p].candidate)
            && (forall x :: x in t.stored && x.candidate.identity == id ==> x.candidate.binding == binding)
  {
    hide AdvanceOne;
    if s.processes[p].Putting? { BindingOfPut(digest, s, p, id, binding); } else { GetWritesNothing(digest, s, p); }
  }

  lemma GetWritesNothing(digest: Bytes -> nat, s: System, p: nat)
    requires p < |s.processes| && !s.processes[p].Putting?
    ensures var t := AdvanceOne(digest, s, p);
            t.disk == s.disk && t.stored == s.stored && p < |t.processes| && !t.processes[p].Putting?
  {
    hide ReadBody, ReadManifest, ManifestError;
  }

  lemma BindingOfPut(digest: Bytes -> nat, s: System, p: nat, id: nat, binding: nat)
    requires OneBinding(s, id, binding) && p < |s.processes| && s.processes[p].Putting?
    ensures var (t, c) := (AdvanceOne(digest, s, p), s.processes[p].candidate);
            && (id in t.disk.manifests ==> t.disk.manifests[id].binding == binding)
            && p < |t.processes| && (t.processes[p].Putting? ==> t.processes[p].candidate == c)
            && (forall x :: x in t.stored && x.candidate.identity == id ==> x.candidate.binding == binding)
  {
    hide ReadBody, ReadManifest;
  }

  lemma BindingMove(digest: Bytes -> nat, s: System, move: Move, id: nat, binding: nat)
    requires OneBinding(s, id, binding) && (move.StartPut? && move.id == id ==> move.binding == binding)
    ensures OneBinding(Next(digest, s, move), id, binding)
  {
    hide AdvanceOne;
    if move.Advance? && move.p < |s.processes| { BindingAdvance(digest, s, move.p, id, binding); }
  }

  lemma {:induction false} BindingKept(digest: Bytes -> nat, n: nat, moves: seq<Move>, id: nat, binding: nat)
    requires forall m :: m in moves && m.StartPut? && m.id == id ==> m.binding == binding
    ensures OneBinding(Run(digest, Start(n), moves), id, binding)
  {
    hide OneBinding, Next;
    if moves == [] { NothingBound(n, id, binding); return; }
    assert moves == Front(moves) + [Last(moves)];
    BindingKept(digest, n, Front(moves), id, binding);
    BindingMove(digest, Run(digest, Start(n), Front(moves)), Last(moves), id, binding);
  }

  lemma NothingBound(n: nat, id: nat, binding: nat)
    ensures OneBinding(Start(n), id, binding)
  {}

  /** Under any interleaving and crashes: as long as all puts of an identity carry one binding, every accepted
      put is answered by a manifest that agrees with its own in everything but the time. */
  lemma OneBindingAgrees(digest: Bytes -> nat, n: nat, moves: seq<Move>, id: nat, binding: nat)
    requires Injective(digest) && forall m :: m in moves && m.StartPut? && m.id == id ==> m.binding == binding
    ensures forall x :: x in Run(digest, Start(n), moves).stored && x.candidate.identity == id ==> x.m.Same(x.candidate)
  {
    hide Run, Next;
    RunKeeps(digest, Start(n), moves);
    BindingKept(digest, n, moves, id, binding);
  }
}
