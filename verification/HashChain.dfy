/** The chained JSONL log: events, their digests, and how a file is read
    (src/molly/core/ledger.py:136-140, 210-246).  `ArtifactLineage` keeps its log the same way. */
module HashChain {
  import opened RunEvents

  /** What the digest of an event covers. */
  datatype Body = Body(eventId: Id, content: nat, previous: Option<nat>)

  /** A persisted event: its body and its stored digest. */
  datatype Entry = Entry(body: Body, digest: nat)

  datatype LogError = Truncated | EmptyLine | BadLine | BadDigest | DuplicateId | BrokenChain

  const NEWLINE: nat := 10

  /** The digest, and the canonical encoding of one event as a line. */
  datatype Codec = Codec(digest: Body -> nat, encode: Entry -> seq<nat>, decode: seq<nat> -> Option<Entry>)
  {
    ghost predicate Sound() {
      && (forall a, b :: digest(a) == digest(b) ==> a == b)
      && (forall e :: decode(encode(e)) == Some(e))
      && (forall e :: encode(e) != [] && NEWLINE !in encode(e))
    }
  }

  function LastDigest(es: seq<Entry>): Option<nat> { if es == [] then None else Some(Last(es).digest) }

  predicate HasId(es: seq<Entry>, id: Id) { exists i :: 0 <= i < |es| && es[i].body.eventId == id }

  /** The checks on one event after `es`. */
  function NextError(c: Codec, es: seq<Entry>, e: Entry): Option<LogError> {
    if c.digest(e.body) != e.digest then Some(BadDigest)
    else if HasId(es, e.body.eventId) then Some(DuplicateId)
    else if e.body.previous != LastDigest(es) then Some(BrokenChain)
    else None
  }

  /** Every event carries its own digest, a new id and the digest of its predecessor. */
  predicate Chained(c: Codec, es: seq<Entry>) { forall i :: 0 <= i < |es| ==> NextError(c, es[..i], es[i]).None? }

  function NewlineAt(bytes: seq<nat>): (n: nat)
    ensures n <= |bytes| && (n < |bytes| ==> bytes[n] == NEWLINE) && NEWLINE !in bytes[..n]
  {
    if bytes == [] || bytes[0] == NEWLINE then 0
    else
      var n := 1 + NewlineAt(bytes[1..]);
      assert bytes[..n] == [bytes[0]] + bytes[1..][..n - 1];
      n
  }

  /** Read on after `done`: the file either yields every event or an error. */
  function ReadFrom(c: Codec, bytes: seq<nat>, done: seq<Entry>): Result<seq<Entry>, LogError>
    decreases |bytes|
  {
    if bytes == [] then Ok(done)
    else
      var n := NewlineAt(bytes);
      if n == |bytes| then Err(Truncated)
      else if n == 0 then Err(EmptyLine)
      else
        match c.decode(bytes[..n])
        case None => Err(BadLine)
        case Some(e) =>
          if NextError(c, done, e).Some? then Err(NextError(c, done, e).value)
          else ReadFrom(c, bytes[n + 1..], done + [e])
  }

  /** `_read_events`, on the bytes of the file. */
  method ReadEvents(c: Codec, bytes: seq<nat>) returns (r: Result<seq<Entry>, LogError>)
    ensures r == ReadFrom(c, bytes, [])
  {
    var events: seq<Entry>, rest, previous, seen: set<Id> := [], bytes, None, {};
    while rest != []
      invariant ReadFrom(c, rest, events) == ReadFrom(c, bytes, [])
      invariant previous == LastDigest(events) && forall id :: id in seen <==> HasId(events, id)
      decreases |rest|
    {
      var n := NewlineAt(rest);
      if n == |rest| { return Err(Truncated); }
      if n == 0 { return Err(EmptyLine); }
      var decoded := c.decode(rest[..n]);
      if decoded.None? { return Err(BadLine); }
      var e := decoded.value;
      if c.digest(e.body) != e.digest { return Err(BadDigest); }
      if e.body.eventId in seen { return Err(DuplicateId); }
      if e.body.previous != previous { return Err(BrokenChain); }
      HasIdSnoc(events, e);
      events, seen, previous, rest := events + [e], seen + {e.body.eventId}, Some(e.digest), rest[n + 1..];
    }
    r := Ok(events);
  }

  lemma HasIdSnoc(es: seq<Entry>, e: Entry)
    ensures forall id :: HasId(es + [e], id) <==> HasId(es, id) || id == e.body.eventId
  {
    forall id | HasId(es, id) ensures HasId(es + [e], id) {
      var i :| 0 <= i < |es| && es[i].body.eventId == id;
      assert (es + [e])[i] == es[i];
    }
    assert (es + [e])[|es|] == e;
  }

  // ---- What is written

  function Line(c: Codec, e: Entry): seq<nat> { c.encode(e) + [NEWLINE] }

  function Lines(c: Codec, es: seq<Entry>): seq<nat> { if es == [] then [] else Line(c, es[0]) + Lines(c, es[1..]) }

  lemma {:induction false} LinesSnoc(c: Codec, es: seq<Entry>, e: Entry)
    ensures Lines(c, es + [e]) == Lines(c, es) + Line(c, e)
  {
    if es == [] {
      assert [e][1..] == [];
    } else {
      LinesSnoc(c, es[1..], e);
      assert (es + [e])[1..] == es[1..] + [e];
    }
  }

  /** What `append` makes of an event after `es`. */
  function Seal(c: Codec, es: seq<Entry>, id: Id, content: nat): Entry {
    var body := Body(id, content, LastDigest(es));
    Entry(body, c.digest(body))
  }

  lemma SealChains(c: Codec, es: seq<Entry>, id: Id, content: nat)
    requires Chained(c, es) && !HasId(es, id)
    ensures Chained(c, es + [Seal(c, es, id, content)])
  {
    var all := es + [Seal(c, es, id, content)];
    forall i | 0 <= i < |all| ensures NextError(c, all[..i], all[i]).None? {
      assert all[..i] == es[..i];
      if i == |es| { assert es[..i] == es; }
    }
  }

  // ---- Reading gives back what was written, and only that

  lemma LineEnds(line: seq<nat>, rest: seq<nat>)
    requires NEWLINE !in line
    ensures NewlineAt(line + [NEWLINE] + rest) == |line|
    decreases |line|
  {
    var all := line + [NEWLINE] + rest;
    if line != [] {
      LineEnds(line[1..], rest);
      assert all[1..] == line[1..] + [NEWLINE] + rest;
    }
  }

  /** One whole line is one event, if the checks allow it. */
  lemma ReadLine(c: Codec, e: Entry, rest: seq<nat>, done: seq<Entry>)
    requires c.Sound()
    ensures ReadFrom(c, Line(c, e) + rest, done) ==
              if NextError(c, done, e).Some? then Err(NextError(c, done, e).value) else ReadFrom(c, rest, done + [e])
  {
    var bytes := Line(c, e) + rest;
    LineEnds(c.encode(e), rest);
    assert bytes == c.encode(e) + [NEWLINE] + rest;
    assert bytes[..|c.encode(e)|] == c.encode(e) && bytes[|c.encode(e)| + 1..] == rest;
  }

  lemma {:induction false} ReadLines(c: Codec, es: seq<Entry>, from: nat, rest: seq<nat>)
    requires c.Sound() && Chained(c, es) && from <= |es|
    ensures ReadFrom(c, Lines(c, es[from..]) + rest, es[..from]) == ReadFrom(c, rest, es)
    decreases |es| - from
  {
    hide ReadFrom, Line, NextError;
    if from == |es| {
      assert Lines(c, es[from..]) + rest == rest && es[..from] == es;
    } else {
      var (e, tail) := (es[from], Lines(c, es[from..][1..]));
      assert es[from..][1..] == es[from + 1..] && es[..from + 1] == es[..from] + [e];
      assert Lines(c, es[from..]) + rest == Line(c, e) + (tail + rest);
      hide Lines;
      assert NextError(c, es[..from], e).None?;
      hide Chained;
      ReadLine(c, e, tail + rest, es[..from]);
      ReadLines(c, es, from + 1, rest);
    }
  }

  lemma ReadNothing(c: Codec, done: seq<Entry>)
    ensures ReadFrom(c, [], done) == Ok(done)
  {}

  lemma UnfinishedLine(c: Codec, part: seq<nat>, done: seq<Entry>)
    requires part != [] && NEWLINE !in part
    ensures ReadFrom(c, part, done) == Err(Truncated)
  {}

  /** Written events are read back exactly; behind an unfinished line nothing can be read. */
  lemma ReadBack(c: Codec, es: seq<Entry>, torn: seq<nat>)
    requires c.Sound() && Chained(c, es) && NEWLINE !in torn
    ensures ReadFrom(c, Lines(c, es) + torn, []) == if torn == [] then Ok(es) else Err(Truncated)
  {
    ReadLines(c, es, 0, torn);
    assert es[0..] == es;
    assert es[..0] == [];
    if torn != [] { UnfinishedLine(c, torn, es); }
  }

  lemma ShortRead(c: Codec, e: Entry, rest: seq<nat>, p: seq<nat>)
    requires c.Sound() && p <= Line(c, e) + rest && p != [] && |p| < |Line(c, e)|
    ensures NEWLINE !in p
  {
    assert p == (Line(c, e) + rest)[..|p|] == c.encode(e)[..|p|];
  }

  /** A reader that saw only a prefix of the file returns a prefix of the events, or fails. */
  lemma {:induction false} ReadOfPrefix(c: Codec, es: seq<Entry>, torn: seq<nat>, p: seq<nat>, done: seq<Entry>)
    requires c.Sound() && NEWLINE !in torn && p <= Lines(c, es) + torn
    ensures ReadFrom(c, p, done).Ok? ==> done <= ReadFrom(c, p, done).value <= done + es
    decreases |es|
  {
    hide ReadFrom, NextError;
    ReadNothing(c, done);
    if p == [] { return; }
    if es == [] {
      assert Lines(c, es) + torn == torn;
      assert NEWLINE !in p;
      UnfinishedLine(c, p, done);
      return;
    }
    var (e, tail) := (es[0], Lines(c, es[1..]) + torn);
    assert Lines(c, es) + torn == Line(c, e) + tail;
    if |p| < |Line(c, e)| {
      ShortRead(c, e, tail, p);
      UnfinishedLine(c, p, done);
    } else {
      var q := p[|Line(c, e)|..];
      assert p == Line(c, e) + q && q <= tail;
      ReadLine(c, e, q, done);
      ReadOfPrefix(c, es[1..], torn, q, done + [e]);
      assert done + [e] + es[1..] == done + es;
      assert done <= done + [e];
    }
  }

  /** Whatever is read is chained. */
  lemma {:induction false} ReadIsChained(c: Codec, bytes: seq<nat>, done: seq<Entry>)
    requires Chained(c, done) && ReadFrom(c, bytes, done).Ok?
    ensures Chained(c, ReadFrom(c, bytes, done).value)
    decreases |bytes|
  {
    if bytes == [] { return; }
    var n := NewlineAt(bytes);
    var e := c.decode(bytes[..n]).value;
    var next := done + [e];
    forall i | 0 <= i < |next| ensures NextError(c, next[..i], next[i]).None? {
      assert next[..i] == done[..i];
      if i == |done| { assert done[..i] == done; }
    }
    ReadIsChained(c, bytes[n + 1..], next);
  }

  // ---- The last digest binds the whole log

  /** Two verified logs with the same last digest are the same log. */
  lemma {:induction false} LastDigestBinds(c: Codec, a: seq<Entry>, b: seq<Entry>)
    requires c.Sound() && Chained(c, a) && Chained(c, b) && LastDigest(a) == LastDigest(b)
    ensures a == b
  {
    if a == [] { return; }
    var (x, y) := (Last(a), Last(b));
    assert NextError(c, a[..|a| - 1], x).None? && NextError(c, b[..|b| - 1], y).None?;
    assert x.body == y.body;
    forall i | 0 <= i < |a| - 1 ensures NextError(c, Front(a)[..i], Front(a)[i]).None? {
      assert Front(a)[..i] == a[..i];
    }
    forall i | 0 <= i < |b| - 1 ensures NextError(c, Front(b)[..i], Front(b)[i]).None? {
      assert Front(b)[..i] == b[..i];
    }
    LastDigestBinds(c, Front(a), Front(b));
    assert a == Front(a) + [x] && b == Front(b) + [y];
  }

  /** So a digest seen at the end of one log fixes the prefix of every log that contains it. */
  lemma DigestFixesPrefix(c: Codec, a: seq<Entry>, b: seq<Entry>, n: nat)
    requires c.Sound() && Chained(c, a) && Chained(c, b) && 0 < n <= |b| && LastDigest(a) == Some(b[n - 1].digest)
    ensures a == b[..n]
  {
    forall i | 0 <= i < n ensures NextError(c, b[..n][..i], b[..n][i]).None? { assert b[..n][..i] == b[..i]; }
    LastDigestBinds(c, a, b[..n]);
  }
}
