/** Concurrent appends to one chained log file: a lock, writes in pieces, writers that may die
    in the middle of a line, and readers without the lock
    (src/molly/core/_persistence.py:31-68, src/molly/core/ledger.py:210-246, 286-316). */
module AppendLog {
  import opened RunEvents
  import opened HashChain

  // ---- One process at a time: the file as `append` changes it

  datatype AppendError = CannotRead(cause: LogError) | DuplicateEvent | WriterDied

  /** A log file.  `pieces` says how much each write call takes, and when the process dies. */
  class LogFile {
    const codec: Codec
    const pieces: nat -> Option<nat>
    var bytes: seq<nat>
    var calls: nat

    constructor (codec: Codec, pieces: nat -> Option<nat>)
      ensures bytes == [] && this.codec == codec
    {
      this.codec, this.pieces, bytes, calls := codec, pieces, [], 0;
    }

    /** `append_all`: write until nothing is left, or die on the way. */
    method AppendAll(payload: seq<nat>) returns (alive: bool)
      modifies this`bytes, this`calls
      ensures exists n :: 0 <= n <= |payload| && bytes == old(bytes) + payload[..n] && (alive ==> n == |payload|)
    {
      var view := payload;
      ghost var n := 0;
      while view != []
        invariant 0 <= n <= |payload| && view == payload[n..] && bytes == old(bytes) + payload[..n]
        decreases |view|
      {
        calls := calls + 1;
        var piece := pieces(calls);
        if piece.None? { return false; }
        var written := if 0 < piece.value <= |view| then piece.value else |view|;
        bytes := bytes + view[..written];
        assert payload[..n + written] == payload[..n] + payload[n..][..written];
        n := n + written;
        view := view[written..];
      }
      alive := true;
    }

    /** `RunLedger.append`: either the log grows by exactly one sealed event, or it is as
        before, or the writer died and the log holds the old events and a part of one line. */
    method Append(id: Id, content: nat) returns (r: Result<Entry, AppendError>)
      requires codec.Sound()
      modifies this`bytes, this`calls
      ensures r.Ok? ==>
                && ReadFrom(codec, old(bytes), []).Ok?
                && r.value == Seal(codec, ReadFrom(codec, old(bytes), []).value, id, content)
                && bytes == old(bytes) + Line(codec, r.value)
      ensures r.Err? && r.error != WriterDied ==> bytes == old(bytes)
      ensures r == Err(WriterDied) ==>
                && ReadFrom(codec, old(bytes), []).Ok?
                && old(bytes) <= bytes <= old(bytes) + Line(codec,
                   Seal(codec, ReadFrom(codec, old(bytes), []).value, id, content))
      ensures ReadFrom(codec, old(bytes), []).Err? ==> r == Err(CannotRead(ReadFrom(codec, old(bytes), []).error))
      ensures r == Err(DuplicateEvent) <==>
                ReadFrom(codec, old(bytes), []).Ok? && HasId(ReadFrom(codec, old(bytes), []).value, id)
    {
      var existing := ReadEvents(codec, bytes);
      if existing.Err? { return Err(CannotRead(existing.error)); }
      if exists i :: 0 <= i < |existing.value| && existing.value[i].body.eventId == id { return Err(DuplicateEvent); }
      var entry := Seal(codec, existing.value, id, content);
      var alive := AppendAll(Line(codec, entry));
      r := if alive then Ok(entry) else Err(WriterDied);
    }
  }

  /** A finished append is read as one more event than before; an unfinished one stops every reader. */
  lemma AppendExtendsByOne(c: Codec, es: seq<Entry>, id: Id, content: nat, n: nat)
    requires c.Sound() && Chained(c, es) && !HasId(es, id)
    requires n <= |Line(c, Seal(c, es, id, content))|
    ensures var line := Line(c, Seal(c, es, id, content));
            ReadFrom(c, Lines(c, es) + line[..n], []) ==
              if n == 0 then Ok(es) else if n == |line| then Ok(es + [Seal(c, es, id, content)]) else Err(Truncated)
  {
    var e := Seal(c, es, id, content);
    var line := Line(c, e);
    if n == |line| {
      SealChains(c, es, id, content);
      LinesSnoc(c, es, e);
      ReadBack(c, es + [e], []);
      assert line[..n] == line;
      assert Lines(c, es + [e]) + [] == Lines(c, es) + line[..n];
    } else {
      assert line[..n] == c.encode(e)[..n];
      ReadBack(c, es, line[..n]);
    }
  }

  // ---- Many processes

  datatype Writer = Idle | Holding | Writing(entry: Entry, rest: seq<nat>)

  /** The file, the processes that append to it, what each reader has read so far; and, only for
      the statements, the events whose lines are complete and the unfinished rest of the file. */
  datatype System = System(
    file: seq<nat>, writers: seq<Writer>, readers: seq<seq<nat>>, committed: seq<Entry>, torn: seq<nat>)

  datatype Move =
    | Lock(w: nat)
    | Prepare(w: nat, id: Id, content: nat)
    | Write(w: nat, count: nat)
    | Unlock(w: nat)
    | Die(w: nat)
    | Read(r: nat, count: nat)

  /** The lock is free: nobody is between acquiring and releasing it. */
  predicate LockFree(writers: seq<Writer>) { forall w :: 0 <= w < |writers| ==> writers[w].Idle? }

  /** Under the lock the file is read again; a failed read or a known id ends the append. */
  function Prepared(c: Codec, file: seq<nat>, id: Id, content: nat): Writer {
    match ReadFrom(c, file, [])
    case Err(_) => Idle
    case Ok(es) => if HasId(es, id) then Idle else Writing(Seal(c, es, id, content), Line(c, Seal(c, es, id, content)))
  }

  /** One move of one process; a move that is not possible changes nothing. */
  function Next(c: Codec, s: System, move: Move): System {
    match move
    case Lock(w) =>
      if w < |s.writers| && LockFree(s.writers) then s.(writers := s.writers[w := Holding]) else s
    case Prepare(w, id, content) =>
      if w < |s.writers| && s.writers[w].Holding? then s.(writers := s.writers[w := Prepared(c, s.file, id, content)])
      else s
    case Write(w, count) =>
      if !(w < |s.writers| && s.writers[w].Writing? && 0 < count <= |s.writers[w].rest|) then s
      else
        var (e, rest) := (s.writers[w].entry, s.writers[w].rest);
        var after := s.(file := s.file + rest[..count], writers := s.writers[w := Writing(e, rest[count..])]);
        if count == |rest| then after.(committed := s.committed + [e], torn := [])
        else after.(torn := s.torn + rest[..count])
    case Unlock(w) =>
      if w < |s.writers| && s.writers[w].Writing? && s.writers[w].rest == [] then s.(writers := s.writers[w := Idle])
      else s
    case Die(w) =>
      if w < |s.writers| then s.(writers := s.writers[w := Idle]) else s
    case Read(r, count) =>
      if r < |s.readers| && |s.readers[r]| + count <= |s.file|
      then s.(readers := s.readers[r := s.readers[r] + s.file[|s.readers[r]|..|s.readers[r]| + count]]) else s
  }

  function Run(c: Codec, s: System, moves: seq<Move>): System
    decreases |moves|
  {
    if moves == [] then s else Next(c, Run(c, s, Front(moves)), Last(moves))
  }

  function Start(writers: nat, readers: nat): System {
    System([], seq(writers, _ => Idle), seq(readers, _ => []), [], [])
  }

  predicate OneAtATime(writers: seq<Writer>) {
    forall v, w :: 0 <= v < w < |writers| ==> writers[v].Idle? || writers[w].Idle?
  }

  /** A writer in the middle of a line: what is written and what is left make up that line. */
  ghost predicate InProgress(c: Codec, s: System, w: nat)
    requires w < |s.writers| && s.writers[w].Writing?
  {
    var (e, rest) := (s.writers[w].entry, s.writers[w].rest);
    if rest == [] then s.torn == [] else s.torn + rest == Line(c, e) && Chained(c, s.committed + [e])
  }

  ghost predicate Consistent(c: Codec, s: System) {
    && s.file == Lines(c, s.committed) + s.torn && NEWLINE !in s.torn && Chained(c, s.committed)
    && OneAtATime(s.writers)
    && (forall w :: 0 <= w < |s.writers| && s.writers[w].Writing? ==> InProgress(c, s, w))
    && (forall r :: 0 <= r < |s.readers| ==> s.readers[r] <= s.file)
  }

  lemma WriteStep(c: Codec, s: System, w: nat, count: nat)
    requires c.Sound() && Consistent(c, s) && w < |s.writers| && s.writers[w].Writing?
               && 0 < count <= |s.writers[w].rest|
    ensures Consistent(c, Next(c, s, Write(w, count)))
  {
    var (e, rest) := (s.writers[w].entry, s.writers[w].rest);
    var t := Next(c, s, Write(w, count));
    assert InProgress(c, s, w);
    var line := Line(c, e);
    assert t.file == Lines(c, s.committed) + (s.torn + rest[..count]);
    if count == |rest| {
      assert rest[..count] == rest;
      LinesSnoc(c, s.committed, e);
      assert t.file == Lines(c, t.committed) + t.torn;
    } else {
      assert s.torn + rest[..count] == line[..|s.torn| + count] == c.encode(e)[..|s.torn| + count];
      assert s.torn + rest[..count] + rest[count..] == line;
    }
  }

  lemma PrepareStep(c: Codec, s: System, w: nat, id: Id, content: nat)
    requires c.Sound() && Consistent(c, s) && w < |s.writers| && s.writers[w].Holding?
    ensures Consistent(c, Next(c, s, Prepare(w, id, content)))
  {
    hide ReadFrom, Lines;
    ReadBack(c, s.committed, s.torn);
    if s.torn == [] && !HasId(s.committed, id) { SealChains(c, s.committed, id, content); }
  }

  /** Every move keeps the file consistent ... */
  lemma {:induction false} MoveKeeps(c: Codec, s: System, move: Move)
    requires c.Sound() && Consistent(c, s)
    ensures Consistent(c, Next(c, s, move))
    ensures s.file <= Next(c, s, move).file && s.committed <= Next(c, s, move).committed
  {
    hide Lines, ReadFrom, Chained;
    var t := Next(c, s, move);
    match move
    case Write(w, count) => if t != s { WriteStep(c, s, w, count); }
    case Prepare(w, id, content) => if t != s { PrepareStep(c, s, w, id, content); }
    case _ =>
  }

  /** ... so after any moves of any processes the complete lines are a chained log that only grew. */
  lemma {:induction false} RunKeeps(c: Codec, s: System, moves: seq<Move>)
    requires c.Sound() && Consistent(c, s)
    ensures Consistent(c, Run(c, s, moves))
    ensures s.file <= Run(c, s, moves).file && s.committed <= Run(c, s, moves).committed
    decreases |moves|
  {
    hide Consistent, Next;
    if moves == [] { return; }
    RunKeeps(c, s, Front(moves));
    MoveKeeps(c, Run(c, s, Front(moves)), Last(moves));
  }

  lemma StartConsistent(c: Codec, writers: nat, readers: nat)
    ensures Consistent(c, Start(writers, readers))
  {}

  /** A reader without the lock, whose pieces come from different moments, returns a prefix
      of the committed events or an error. */
  lemma ReadersSeePrefixes(c: Codec, writers: nat, readers: nat, moves: seq<Move>, r: nat)
    requires c.Sound()
    ensures var s := Run(c, Start(writers, readers), moves);
            r < |s.readers| && ReadFrom(c, s.readers[r], []).Ok? ==> ReadFrom(c, s.readers[r], []).value <= s.committed
  {
    hide Lines, ReadFrom, Next, Run;
    StartConsistent(c, writers, readers);
    RunKeeps(c, Start(writers, readers), moves);
    var s := Run(c, Start(writers, readers), moves);
    if r < |s.readers| {
      ReadOfPrefix(c, s.committed, s.torn, s.readers[r], []);
      assert [] + s.committed == s.committed;
    }
  }

  /** As long as no writer dies, an unfinished line is one that some writer is still writing. */
  predicate TornIsWritten(s: System) {
    s.torn != [] ==> exists w :: 0 <= w < |s.writers| && s.writers[w].Writing? && s.writers[w].rest != []
  }

  lemma TornIsWrittenMove(c: Codec, s: System, move: Move)
    requires c.Sound() && Consistent(c, s) && TornIsWritten(s) && !move.Die?
    ensures TornIsWritten(Next(c, s, move))
  {
    hide Lines, ReadFrom, Chained;
    var t := Next(c, s, move);
    if s.torn != [] {
      var v :| 0 <= v < |s.writers| && s.writers[v].Writing? && s.writers[v].rest != [];
      assert t.torn != [] ==> t.writers[v].Writing? && t.writers[v].rest != [];
    } else if move.Write? && t.torn != [] {
      assert t.writers[move.w].Writing? && t.writers[move.w].rest != [];
    }
  }

  /** Without a death no line is ever left unfinished: whenever the lock is free, the whole file is readable. */
  lemma {:induction false} NoDeathNoTear(c: Codec, writers: nat, readers: nat, moves: seq<Move>)
    requires c.Sound() && forall m :: m in moves ==> !m.Die?
    ensures var s := Run(c, Start(writers, readers), moves);
            TornIsWritten(s) && (LockFree(s.writers) ==> ReadFrom(c, s.file, []) == Ok(s.committed))
    decreases |moves|
  {
    hide Lines, ReadFrom, Next, Consistent;
    StartConsistent(c, writers, readers);
    RunKeeps(c, Start(writers, readers), moves);
    if moves != [] {
      assert moves == Front(moves) + [Last(moves)];
      NoDeathNoTear(c, writers, readers, Front(moves));
      RunKeeps(c, Start(writers, readers), Front(moves));
      TornIsWrittenMove(c, Run(c, Start(writers, readers), Front(moves)), Last(moves));
    }
    WholeIsReadable(c, Run(c, Start(writers, readers), moves));
  }

  lemma WholeIsReadable(c: Codec, s: System)
    requires c.Sound() && Consistent(c, s)
    ensures s.torn == [] ==> ReadFrom(c, s.file, []) == Ok(s.committed)
  {
    hide Lines, ReadFrom;
    ReadBack(c, s.committed, s.torn);
  }

  /** A reader can always catch up, and then has the whole file. */
  lemma ReaderCatchesUp(c: Codec, s: System, r: nat)
    requires c.Sound() && Consistent(c, s) && r < |s.readers|
    ensures |s.readers[r]| <= |s.file|
    ensures Next(c, s, Read(r, |s.file| - |s.readers[r]|)).readers[r] == s.file
  {
    hide Lines, ReadFrom;
    var got := s.readers[r];
    assert s.file == got + s.file[|got|..];
  }

  /** Nobody is in the middle of a line, yet the file ends in one. */
  predicate Torn(s: System) { s.torn != [] && forall w :: 0 <= w < |s.writers| ==> !s.writers[w].Writing? }

  lemma TornMove(c: Codec, s: System, move: Move)
    requires c.Sound() && Consistent(c, s) && Torn(s)
    ensures Torn(Next(c, s, move)) && Next(c, s, move).file == s.file && Next(c, s, move).committed == s.committed
  {
    hide Lines, ReadFrom;
    ReadBack(c, s.committed, s.torn);
  }

  /** A torn line is final: no later read succeeds and no later append changes a byte. */
  lemma {:induction false} TornForever(c: Codec, s: System, moves: seq<Move>)
    requires c.Sound() && Consistent(c, s) && Torn(s)
    ensures Torn(Run(c, s, moves)) && Run(c, s, moves).file == s.file && Run(c, s, moves).committed == s.committed
    ensures ReadFrom(c, Run(c, s, moves).file, []) == Err(Truncated)
    decreases |moves|
  {
    hide Consistent, Next, Torn, Lines, ReadFrom;
    TornUnreadable(c, s);
    if moves == [] { return; }
    RunKeeps(c, s, Front(moves));
    TornForever(c, s, Front(moves));
    TornMove(c, Run(c, s, Front(moves)), Last(moves));
  }

  lemma TornUnreadable(c: Codec, s: System)
    requires c.Sound() && Consistent(c, s) && Torn(s)
    ensures ReadFrom(c, s.file, []) == Err(Truncated)
  {
    hide Lines, ReadFrom;
    ReadBack(c, s.committed, s.torn);
  }

  /** A death leaves a torn line exactly when some but not all of a line was written. */
  lemma DeathTearsIffPartial(c: Codec, s: System, w: nat)
    requires c.Sound() && Consistent(c, s) && w < |s.writers| && s.writers[w].Writing?
    ensures Torn(Next(c, s, Die(w))) <==>
              0 < |s.writers[w].rest| < |Line(c, s.writers[w].entry)|
    ensures !Torn(Next(c, s, Die(w))) ==> ReadFrom(c, s.file, []) == Ok(s.committed)
  {
    hide Lines, ReadFrom;
    assert InProgress(c, s, w);
    ReadBack(c, s.committed, s.torn);
    var t := Next(c, s, Die(w));
    forall v | 0 <= v < |t.writers| ensures !t.writers[v].Writing? { if v != w { assert s.writers[v].Idle?; } }
    var rest := s.writers[w].rest;
    if rest != [] { assert |s.torn| + |rest| == |Line(c, s.writers[w].entry)|; }
  }
}
