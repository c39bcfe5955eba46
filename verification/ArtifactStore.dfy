/** The content-addressed store: bytes and metadata are published without replacing anything,
    by any number of processes that may stop at any point (src/molly/core/artifacts.py:173-404).
    A digest is an injective function of the bytes, and an artifact id is a digest. */
module ArtifactStores {
  import opened RunEvents

  type Bytes = seq<nat>

  datatype Record = Record(id: nat, mediaType: nat, schemaName: Option<nat>, schemaVersion: Option<nat>, size: nat,
      storedAt: nat)

  datatype StoreError = NotFound | Integrity | Conflict

  /** A metadata file holds a record or something else. */
  datatype Metadata = Stored(record: Record) | Unreadable

  /** The two directories.  Temporary files are invisible: they only matter once linked. */
  datatype Disk = Disk(objects: map<nat, Bytes>, metadata: map<nat, Metadata>)

  ghost predicate Injective(digest: Bytes -> nat) { forall a, b :: digest(a) == digest(b) ==> a == b }

  // ---- The single file operations

  /** `os.link` either creates the name or finds it taken. */
  function LinkObject(d: Disk, id: nat, payload: Bytes): Disk {
    if id in d.objects then d else d.(objects := d.objects[id := payload])
  }

  function LinkMetadata(d: Disk, r: Record): Disk {
    if r.id in d.metadata then d else d.(metadata := d.metadata[r.id := Stored(r)])
  }

  function ReadVerified(digest: Bytes -> nat, d: Disk, id: nat): Result<Bytes, StoreError> {
    if id !in d.objects then Err(NotFound)
    else if digest(d.objects[id]) != id then Err(Integrity)
    else Ok(d.objects[id])
  }

  function ReadRecord(d: Disk, id: nat): Result<Record, StoreError> {
    if id !in d.metadata then Err(NotFound)
    else if d.metadata[id].Unreadable? then Err(Integrity)
    else Ok(d.metadata[id].record)
  }

  predicate Agrees(a: Option<nat>, b: Option<nat>) { a.None? || b.None? || a == b }

  /** `_assert_compatible_intrinsic_metadata`. */
  predicate Compatible(existing: Record, requested: Record) {
    existing.id == requested.id && existing.mediaType == requested.mediaType
    && Agrees(existing.schemaName, requested.schemaName) && Agrees(existing.schemaVersion, requested.schemaVersion)
  }

  /** The last two steps of `_existing_record`. */
  function Confirm(digest: Bytes -> nat, d: Disk, requested: Record, existing: Record): Result<Record, StoreError> {
    match ReadVerified(digest, d, requested.id)
    case Err(error) => Err(error)
    case Ok(bytes) => if existing.size != |bytes| then Err(Integrity) else Ok(existing)
  }

  // ---- One process alone

  /** What a store that nobody else touches answers, and what it looks like afterwards. */
  class ArtifactStore {
    const digest: Bytes -> nat
    var disk: Disk

    constructor (digest: Bytes -> nat)
      ensures disk == Disk(map[], map[]) && this.digest == digest
    {
      this.digest, disk := digest, Disk(map[], map[]);
    }

    method ExistingRecord(requested: Record) returns (r: Result<Record, StoreError>)
      ensures r == (match ReadRecord(disk, requested.id)
                    case Err(error) => Err(error)
                    case Ok(existing) =>
                      if !Compatible(existing, requested) then Err(Conflict)
                      else Confirm(digest, disk, requested, existing))
    {
      var existing := ReadRecord(disk, requested.id);
      if existing.Err? { return existing; }
      if !Compatible(existing.value, requested) { return Err(Conflict); }
      r := Confirm(digest, disk, requested, existing.value);
    }

    /** `put`: nothing on disk is ever replaced, whatever state the disk is in; a returned
        record is the one on disk, compatible with the request, for exactly these bytes. */
    method Put(content: Bytes, mediaType: nat, schemaName: Option<nat>, schemaVersion: Option<nat>, now: nat)
      returns (r: Result<Record, StoreError>)
      requires Injective(digest)
      modifies this
      ensures Extends(old(disk), disk)
      ensures digest(content) in old(disk.objects) && digest(old(disk.objects[digest(content)])) != digest(content) ==>
                r == Err(Integrity) && disk == old(disk)
      ensures var requested := Record(digest(content), mediaType, schemaName, schemaVersion, |content|, now);
              && (r.Ok? ==> disk == LinkMetadata(LinkObject(old(disk), requested.id, content), requested))
              && (r.Ok? ==> disk.metadata[requested.id] == Stored(r.value) && disk.objects[requested.id] == content)
              && (r.Ok? ==> Compatible(r.value, requested) && r.value.size == |content|)
              && (SoundDisk(digest, old(disk)) ==>
                    && (requested.id !in old(disk.metadata) ==> r == Ok(requested))
                    && (requested.id in old(disk.metadata) ==>
                          disk == old(disk)
                          && var existing := disk.metadata[requested.id].record;
                             r == if existing.mediaType == mediaType
                                     && (existing.schemaName.None? || schemaName.None?
                                         || existing.schemaName == schemaName)
                                     && (existing.schemaVersion.None? || schemaVersion.None?
                                         || existing.schemaVersion == schemaVersion)
                                  then Ok(existing) else Err(Conflict)))
    {
      var id := digest(content);
      var requested := Record(id, mediaType, schemaName, schemaVersion, |content|, now);
      if id !in disk.objects { disk := LinkObject(disk, id, content); }
      var bytes := ReadVerified(digest, disk, id);
      if bytes.Err? { return Err(bytes.error); }
      if id !in disk.metadata { disk := LinkMetadata(disk, requested); }
      r := ExistingRecord(requested);
    }

    /** `verify`, on any disk. */
    method Verify(id: nat) returns (r: Result<Record, StoreError>)
      ensures r.Ok? ==> id in disk.metadata && disk.metadata[id] == Stored(r.value) && r.value.id == id
      ensures r.Ok? ==> id in disk.objects && digest(disk.objects[id]) == id && |disk.objects[id]| == r.value.size
      ensures SoundDisk(digest, disk) ==> if id in disk.metadata then r.Ok? else r == Err(NotFound)
    {
      var record := ReadRecord(disk, id);
      if record.Err? { return record; }
      if record.value.id != id { return Err(Integrity); }
      r := Confirm(digest, disk, record.value, record.value);
    }

    /** `read`: the bytes are those the id is the digest of, even on a damaged disk. */
    method Read(id: nat) returns (r: Result<Bytes, StoreError>)
      ensures r.Ok? ==> digest(r.value) == id
      ensures SoundDisk(digest, disk) ==> if id in disk.metadata then r == Ok(disk.objects[id]) else r == Err(NotFound)
    {
      var record := Verify(id);
      if record.Err? { return Err(record.error); }
      r := ReadVerified(digest, disk, record.value.id);
    }
  }

  /** Everything that was there is still there, unchanged. */
  ghost predicate Extends(a: Disk, b: Disk) {
    && (forall id :: id in a.objects ==> id in b.objects && b.objects[id] == a.objects[id])
    && (forall id :: id in a.metadata ==> id in b.metadata && b.metadata[id] == a.metadata[id])
  }

  /** What no process of the store ever breaks. */
  ghost predicate SoundDisk(digest: Bytes -> nat, d: Disk) {
    && (forall id :: id in d.objects ==> digest(d.objects[id]) == id)
    && (forall id :: id in d.metadata ==>
          d.metadata[id].Stored? && d.metadata[id].record.id == id
          && id in d.objects && d.metadata[id].record.size == |d.objects[id]|)
  }

  // ---- Many processes, one file operation at a time

  datatype PutPhase =
    | CheckObject | Linking | VerifyObject
    | CheckMetadata | LinkingMetadata | ReadExisting | VerifyExisting(existing: Record)

  datatype Process =
    | Idle
    | Putting(content: Bytes, requested: Record, phase: PutPhase)
    | Verifying(id: nat, reading: bool)
    | VerifyingBytes(record: Record, reading: bool)
    | ReadingBytes(record: Record)

  /** The disk, the processes, and everything ever returned or refused. */
  datatype System = System(
    disk: Disk, processes: seq<Process>,
    returned: set<(nat, Record)>, read: set<(nat, Bytes)>, refused: set<(Record, StoreError)>)

  datatype Move =
    | StartPut(p: nat, content: Bytes, mediaType: nat, schemaName: Option<nat>, schemaVersion: Option<nat>, now: nat)
    | StartVerify(p: nat, id: nat, reading: bool)
    | Advance(p: nat)
    | Stop(p: nat)

  function Finish(s: System, p: nat, r: Result<Record, StoreError>, requested: Record): System
    requires p < |s.processes|
  {
    match r
    case Ok(record) => s.(processes := s.processes[p := Idle], returned := s.returned + {(requested.id, record)})
    case Err(error) => s.(processes := s.processes[p := Idle], refused := s.refused + {(requested, error)})
  }

  /** The next file operation of a `put`. */
  function AdvancePut(digest: Bytes -> nat, s: System, p: nat, content: Bytes, requested: Record,
                      phase: PutPhase): System
    requires p < |s.processes|
  {
    var go := (next: PutPhase) => s.(processes := s.processes[p := Putting(content, requested, next)]);
    match phase
    case CheckObject => go(if requested.id in s.disk.objects then VerifyObject else Linking)
    case Linking => go(VerifyObject).(disk := LinkObject(s.disk, requested.id, content))
    case VerifyObject =>
      var bytes := ReadVerified(digest, s.disk, requested.id);
      if bytes.Err? then Finish(s, p, Err(bytes.error), requested) else go(CheckMetadata)
    case CheckMetadata => go(if requested.id in s.disk.metadata then ReadExisting else LinkingMetadata)
    case LinkingMetadata => go(ReadExisting).(disk := LinkMetadata(s.disk, requested))
    case ReadExisting =>
      var existing := ReadRecord(s.disk, requested.id);
      if existing.Err? then Finish(s, p, existing, requested)
      else if !Compatible(existing.value, requested) then Finish(s, p, Err(Conflict), requested)
      else go(VerifyExisting(existing.value))
    case VerifyExisting(existing) => Finish(s, p, Confirm(digest, s.disk, requested, existing), requested)
  }

  /** The next file operation of any process. */
  function AdvanceOne(digest: Bytes -> nat, s: System, p: nat): System
    requires p < |s.processes|
  {
    match s.processes[p]
    case Idle => s
    case Putting(content, requested, phase) => AdvancePut(digest, s, p, content, requested, phase)
    case Verifying(id, reading) =>
      var record := ReadRecord(s.disk, id);
      if record.Err? || record.value.id != id then s.(processes := s.processes[p := Idle])
      else s.(processes := s.processes[p := VerifyingBytes(record.value, reading)])
    case VerifyingBytes(record, reading) =>
      if Confirm(digest, s.disk, record, record).Err? then s.(processes := s.processes[p := Idle])
      else if reading then s.(processes := s.processes[p := ReadingBytes(record)],
          returned := s.returned + {(record.id, record)})
      else s.(processes := s.processes[p := Idle], returned := s.returned + {(record.id, record)})
    case ReadingBytes(record) =>
      var bytes := ReadVerified(digest, s.disk, record.id);
      if bytes.Err? then s.(processes := s.processes[p := Idle])
      else s.(processes := s.processes[p := Idle], read := s.read + {(record.id, bytes.value)})
  }

  function Next(digest: Bytes -> nat, s: System, move: Move): System {
    match move
    case StartPut(p, content, mediaType, name, version, now) =>
      if p < |s.processes| && s.processes[p].Idle?
      then s.(processes := s.processes[p := Putting(content,
          Record(digest(content), mediaType, name, version, |content|, now), CheckObject)])
      else s
    case StartVerify(p, id, reading) =>
      if p < |s.processes| && s.processes[p].Idle? then s.(processes := s.processes[p := Verifying(id, reading)]) else s
    case Advance(p) => if p < |s.processes| then AdvanceOne(digest, s, p) else s
    case Stop(p) => if p < |s.processes| then s.(processes := s.processes[p := Idle]) else s
  }

  function Run(digest: Bytes -> nat, s: System, moves: seq<Move>): System {
    if moves == [] then s else Next(digest, Run(digest, s, Front(moves)), Last(moves))
  }

  function Start(n: nat): System { System(Disk(map[], map[]), seq(n, _ => Idle), {}, {}, {}) }

  /** What the disk already holds for a process at its place. */
  ghost predicate Underway(digest: Bytes -> nat, d: Disk, process: Process) {
    match process
    case Idle => true
    case Putting(content, requested, phase) =>
      && requested.id == digest(content) && requested.size == |content|
      && (!phase.CheckObject? && !phase.Linking? ==> requested.id in d.objects)
      && (phase.ReadExisting? || phase.VerifyExisting? ==> requested.id in d.metadata)
      && (phase.VerifyExisting? ==> d.metadata[requested.id] == Stored(phase.existing))
    case Verifying(_, _) => true
    case VerifyingBytes(record, _) => record.id in d.metadata && d.metadata[record.id] == Stored(record)
    case ReadingBytes(record) => record.id in d.metadata && d.metadata[record.id] == Stored(record)
  }

  /** Every answer ever given is still what the disk says. */
  ghost predicate Answers(s: System) {
    && (forall x :: x in s.returned ==> x.0 in s.disk.metadata && s.disk.metadata[x.0] == Stored(x.1))
    && (forall x :: x in s.read ==> x.0 in s.disk.objects && s.disk.objects[x.0] == x.1)
    && (forall x :: x in s.refused ==>
          x.1 == Conflict && x.0.id in s.disk.metadata && s.disk.metadata[x.0.id].Stored?
          && !Compatible(s.disk.metadata[x.0.id].record, x.0))
  }

  ghost predicate Consistent(digest: Bytes -> nat, s: System) {
    && SoundDisk(digest, s.disk) && Answers(s)
    && forall p :: 0 <= p < |s.processes| ==> Underway(digest, s.disk, s.processes[p])
  }

  /** On any disk, sound or not, no move of any process replaces or removes anything. */
  lemma NothingReplaced(digest: Bytes -> nat, s: System, move: Move)
    ensures Extends(s.disk, Next(digest, s, move).disk)
  {
    hide Compatible, Confirm, ReadVerified, ReadRecord;
  }

  lemma UnderwayExtends(digest: Bytes -> nat, a: Disk, b: Disk, process: Process)
    requires Underway(digest, a, process) && Extends(a, b)
    ensures Underway(digest, b, process)
  {}

  lemma AnswersExtend(s: System, d: Disk)
    requires Answers(s) && Extends(s.disk, d)
    ensures Answers(s.(disk := d))
  {}

  lemma LinksExtend(digest: Bytes -> nat, d: Disk, content: Bytes, r: Record)
    requires Injective(digest) && SoundDisk(digest, d) && r.id == digest(content) && r.size == |content|
    ensures Extends(d, LinkObject(d, r.id, content)) && SoundDisk(digest, LinkObject(d, r.id, content))
    ensures Extends(d, LinkMetadata(d, r))
    ensures r.id in d.objects ==> d.objects[r.id] == content && SoundDisk(digest, LinkMetadata(d, r))
  {}

  lemma Unchanged(d: Disk) ensures Extends(d, d) {}

  /** If one process goes on, the others stand where they stood. */
  lemma OthersStand(digest: Bytes -> nat, s: System, t: System, p: nat)
    requires Consistent(digest, s) && p < |s.processes| == |t.processes|
    requires Extends(s.disk, t.disk) && SoundDisk(digest, t.disk) && Answers(t)
    requires Underway(digest, t.disk, t.processes[p])
    requires forall q :: 0 <= q < |s.processes| && q != p ==> t.processes[q] == s.processes[q]
    ensures Consistent(digest, t)
  {
    hide SoundDisk, Answers, Extends, Underway;
    forall q | 0 <= q < |t.processes| && q != p ensures Underway(digest, t.disk, t.processes[q]) {
      UnderwayExtends(digest, s.disk, t.disk, s.processes[q]);
    }
  }

  lemma PutDisk(digest: Bytes -> nat, s: System, p: nat)
    requires Injective(digest) && Consistent(digest, s) && p < |s.processes| && s.processes[p].Putting?
    ensures Extends(s.disk, AdvanceOne(digest, s, p).disk) && SoundDisk(digest, AdvanceOne(digest, s, p).disk)
    ensures Underway(digest, AdvanceOne(digest, s, p).disk, AdvanceOne(digest, s, p).processes[p])
  {
    hide Compatible, Injective, Answers;
    assert Underway(digest, s.disk, s.processes[p]);
    LinksExtend(digest, s.disk, s.processes[p].content, s.processes[p].requested);
    Unchanged(s.disk);
  }

  lemma PutAnswers(digest: Bytes -> nat, s: System, p: nat)
    requires Injective(digest) && Consistent(digest, s) && p < |s.processes| && s.processes[p].Putting?
    requires Extends(s.disk, AdvanceOne(digest, s, p).disk)
    ensures Answers(AdvanceOne(digest, s, p))
  {
    hide Injective, LinkObject, LinkMetadata;
    assert Underway(digest, s.disk, s.processes[p]);
    AnswersExtend(s, AdvanceOne(digest, s, p).disk);
    hide Extends;
  }

  lemma OnlyOneMoves(digest: Bytes -> nat, s: System, p: nat)
    requires p < |s.processes|
    ensures var t := AdvanceOne(digest, s, p);
            |t.processes| == |s.processes| && forall q :: 0 <= q < |s.processes| && q != p ==>
                t.processes[q] == s.processes[q]
  {
    hide ReadVerified, ReadRecord, Confirm, Compatible, LinkObject, LinkMetadata;
  }

  lemma AdvancePutKeeps(digest: Bytes -> nat, s: System, p: nat)
    requires Injective(digest) && Consistent(digest, s) && p < |s.processes| && s.processes[p].Putting?
    ensures Consistent(digest, AdvanceOne(digest, s, p)) && Extends(s.disk, AdvanceOne(digest, s, p).disk)
  {
    PutDisk(digest, s, p);
    PutAnswers(digest, s, p);
    OnlyOneMoves(digest, s, p);
    hide Injective, Answers, SoundDisk, Underway, Extends, Consistent, AdvanceOne;
    OthersStand(digest, s, AdvanceOne(digest, s, p), p);
  }

  lemma CheckAnswers(digest: Bytes -> nat, s: System, p: nat)
    requires Consistent(digest, s) && p < |s.processes| && !s.processes[p].Putting?
    ensures var t := AdvanceOne(digest, s, p);
            t.disk == s.disk && Extends(s.disk, t.disk) && SoundDisk(digest, t.disk) && Answers(t)
                && Underway(digest, t.disk, t.processes[p])
  {
    hide Compatible, AdvancePut;
    assert Underway(digest, s.disk, s.processes[p]);
  }

  lemma AdvanceKeeps(digest: Bytes -> nat, s: System, p: nat)
    requires Injective(digest) && Consistent(digest, s) && p < |s.processes|
    ensures Consistent(digest, AdvanceOne(digest, s, p)) && Extends(s.disk, AdvanceOne(digest, s, p).disk)
  {
    if s.processes[p].Putting? {
      AdvancePutKeeps(digest, s, p);
    } else {
      CheckAnswers(digest, s, p);
      OnlyOneMoves(digest, s, p);
      hide Injective, Answers, SoundDisk, Underway, Extends, Consistent, AdvanceOne;
      OthersStand(digest, s, AdvanceOne(digest, s, p), p);
    }
  }

  /** One move of one process keeps the disk sound, keeps every earlier answer true and makes only true new ones. */
  lemma MoveKeeps(digest: Bytes -> nat, s: System, move: Move)
    requires Injective(digest) && Consistent(digest, s)
    ensures Consistent(digest, Next(digest, s, move)) && Extends(s.disk, Next(digest, s, move).disk)
  {
    hide SoundDisk, Compatible, Extends, AdvanceOne;
    Unchanged(s.disk);
    if move.Advance? && move.p < |s.processes| { AdvanceKeeps(digest, s, move.p); }
  }

  lemma {:induction false} RunKeeps(digest: Bytes -> nat, s: System, moves: seq<Move>)
    requires Injective(digest) && Consistent(digest, s)
    ensures Consistent(digest, Run(digest, s, moves)) && Extends(s.disk, Run(digest, s, moves).disk)
  {
    hide Consistent, Next;
    if moves == [] { Unchanged(s.disk); return; }
    RunKeeps(digest, s, Front(moves));
    MoveKeeps(digest, Run(digest, s, Front(moves)), Last(moves));
  }

  lemma StartConsistent(digest: Bytes -> nat, n: nat)
    ensures Consistent(digest, Start(n))
  {}

  /** Under any interleaving of `put`, `verify`, `read` and crashes, all successful calls for one
      artifact return one record, reads return the bytes of the id, and the only refusal is a real conflict. */
  lemma OneRecordForever(digest: Bytes -> nat, n: nat, moves: seq<Move>)
    requires Injective(digest)
    ensures var s := Run(digest, Start(n), moves);
            && (forall x, y :: x in s.returned && y in s.returned && x.0 == y.0 ==> x.1 == y.1)
            && (forall x, y :: x in s.returned && y in s.read && x.0 == y.0 ==> digest(y.1) == x.0 && |y.1| == x.1.size)
            && (forall x, y :: x in s.read && y in s.read && x.0 == y.0 ==> x.1 == y.1)
            && (forall x, y :: x in s.returned && y in s.refused && x.0 == y.0.id ==>
               y.1 == Conflict && !Compatible(x.1, y.0))
  {
    hide Run, Next, Compatible;
    StartConsistent(digest, n);
    RunKeeps(digest, Start(n), moves);
  }

  // ---- A later put completes what a crash left half published

  /** The next `steps` file operations of one process, nobody else moving. */
  function Alone(digest: Bytes -> nat, s: System, p: nat, steps: nat): (t: System)
    requires p < |s.processes|
    ensures |t.processes| == |s.processes|
    decreases steps
  {
    if steps == 0 then s else Alone(digest, AdvanceOne(digest, s, p), p, steps - 1)
  }

  lemma {:induction false} IdleStays(digest: Bytes -> nat, s: System, p: nat, steps: nat)
    requires p < |s.processes| && s.processes[p].Idle?
    ensures Alone(digest, s, p, steps) == s
    decreases steps
  {
    if steps > 0 { IdleStays(digest, s, p, steps - 1); }
  }

  /** On any disk: what `verify` returns for `id` is its own record, for bytes of its digest and size. */
  ghost predicate Verifiable(digest: Bytes -> nat, d: Disk, id: nat) {
    && id in d.metadata && d.metadata[id].Stored? && d.metadata[id].record.id == id
    && id in d.objects && digest(d.objects[id]) == id && |d.objects[id]| == d.metadata[id].record.size
  }

  /** A process that verifies or reads and is left alone returns the record, and the bytes if it reads, exactly when the
      disk holds a verifiable artifact; otherwise it returns nothing. */
  lemma VerifyAlone(digest: Bytes -> nat, s: System, p: nat, id: nat, reading: bool)
    requires p < |s.processes| && s.processes[p].Idle?
    ensures var t := Alone(digest, Next(digest, s, StartVerify(p, id, reading)), p, 3);
            && t.disk == s.disk && t.refused == s.refused && t.processes[p].Idle?
            && t.returned == (if Verifiable(digest, s.disk, id) then s.returned + {(id, s.disk.metadata[id].record)}
                              else s.returned)
            && t.read == (if Verifiable(digest, s.disk, id) && reading then s.read + {(id, s.disk.objects[id])}
                          else s.read)
  {
    var a := Next(digest, s, StartVerify(p, id, reading));
    var b := AdvanceOne(digest, a, p);
    var c := AdvanceOne(digest, b, p);
    assert a.processes[p] == Verifying(id, reading);
    if b.processes[p].Idle? {
      IdleStays(digest, b, p, 2);
    } else {
      assert b.processes[p] == VerifyingBytes(s.disk.metadata[id].record, reading);
      if c.processes[p].Idle? { IdleStays(digest, c, p, 1); }
    }
  }

  /** The put is over: its artifact is complete, and it was answered by the record on disk or by its conflict. */
  ghost predicate Completed(t: System, p: nat, content: Bytes, requested: Record) {
    && p < |t.processes| && t.processes[p].Idle?
    && requested.id in t.disk.objects && t.disk.objects[requested.id] == content
    && requested.id in t.disk.metadata && t.disk.metadata[requested.id].Stored?
    && var existing := t.disk.metadata[requested.id].record;
       if Compatible(existing, requested) then (requested.id, existing) in t.returned
       else (requested, Conflict) in t.refused
  }

  lemma LastSteps(digest: Bytes -> nat, s: System, p: nat, content: Bytes, requested: Record, steps: nat)
    requires Injective(digest) && Consistent(digest, s) && p < |s.processes| && steps >= 2
    requires s.processes[p] == Putting(content, requested, ReadExisting)
    ensures Alone(digest, s, p, steps).disk == s.disk && Completed(Alone(digest, s, p, steps), p, content, requested)
  {
    hide Compatible, Answers;
    assert Underway(digest, s.disk, s.processes[p]);
    var t := AdvanceOne(digest, s, p);
    if t.processes[p].Idle? {
      IdleStays(digest, t, p, steps - 1);
    } else {
      IdleStays(digest, AdvanceOne(digest, t, p), p, steps - 2);
    }
  }

  /** Checking for metadata: what is there is read next, and otherwise the record is linked first. */
  lemma FromCheckMetadata(digest: Bytes -> nat, s: System, p: nat, content: Bytes, requested: Record)
    requires p < |s.processes| && s.processes[p] == Putting(content, requested, CheckMetadata)
    ensures var t := AdvanceOne(digest, s, p);
            && t.disk == s.disk && |t.processes| == |s.processes|
            && t.processes[p] == Putting(content, requested,
                                         if requested.id in s.disk.metadata then ReadExisting else LinkingMetadata)
  {}

  lemma FromLinkingMetadata(digest: Bytes -> nat, s: System, p: nat, content: Bytes, requested: Record)
    requires p < |s.processes| && s.processes[p] == Putting(content, requested, LinkingMetadata)
    ensures var t := AdvanceOne(digest, s, p);
            && t.disk == LinkMetadata(s.disk, requested) && |t.processes| == |s.processes|
            && t.processes[p] == Putting(content, requested, ReadExisting)
  {}

  lemma MetadataSteps(digest: Bytes -> nat, s: System, p: nat, content: Bytes, requested: Record, steps: nat)
    requires Injective(digest) && Consistent(digest, s) && p < |s.processes| && steps >= 4
    requires s.processes[p] == Putting(content, requested, CheckMetadata)
    ensures Alone(digest, s, p, steps).disk == LinkMetadata(s.disk, requested)
    ensures Completed(Alone(digest, s, p, steps), p, content, requested)
  {
    hide Injective, Consistent, Completed, AdvanceOne;
    var t := AdvanceOne(digest, s, p);
    AdvanceKeeps(digest, s, p);
    FromCheckMetadata(digest, s, p, content, requested);
    if requested.id in s.disk.metadata {
      LastSteps(digest, t, p, content, requested, steps - 1);
    } else {
      AdvanceKeeps(digest, t, p);
      FromLinkingMetadata(digest, t, p, content, requested);
      LastSteps(digest, AdvanceOne(digest, t, p), p, content, requested, steps - 2);
    }
  }

  /** From any reachable state a process that is left alone finishes its put: afterwards bytes and
      metadata are both on disk, whatever an earlier crash had left out, and nothing was replaced. */
  lemma PutCompletes(digest: Bytes -> nat, s: System, p: nat, content: Bytes, requested: Record)
    requires Injective(digest) && Consistent(digest, s) && p < |s.processes|
    requires s.processes[p] == Putting(content, requested, CheckObject)
    ensures Alone(digest, s, p, 7).disk == LinkMetadata(LinkObject(s.disk, requested.id, content), requested)
    ensures Completed(Alone(digest, s, p, 7), p, content, requested)
  {
    var t := AdvanceOne(digest, s, p);
    AdvanceKeeps(digest, s, p);
    if t.processes[p].phase.Linking? {
      var u := AdvanceOne(digest, t, p);
      AdvanceKeeps(digest, t, p);
      VerifySteps(digest, u, p, content, requested, 5);
    } else {
      VerifySteps(digest, t, p, content, requested, 6);
    }
  }

  lemma VerifySteps(digest: Bytes -> nat, s: System, p: nat, content: Bytes, requested: Record, steps: nat)
    requires Injective(digest) && Consistent(digest, s) && p < |s.processes| && steps >= 5
    requires s.processes[p] == Putting(content, requested, VerifyObject)
    ensures Alone(digest, s, p, steps).disk == LinkMetadata(s.disk, requested)
    ensures Completed(Alone(digest, s, p, steps), p, content, requested)
  {
    assert Underway(digest, s.disk, s.processes[p]);
    var t := AdvanceOne(digest, s, p);
    AdvanceKeeps(digest, s, p);
    hide Consistent, Completed;
    MetadataSteps(digest, t, p, content, requested, steps - 1);
  }
}
