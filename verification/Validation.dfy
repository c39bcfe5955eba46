/** Deterministic record validation, duplicate and leakage checks (src/molly/evidence/validation.py:179-183,
    231-350).  A group id is a digest of exactly the key and the record ids, and is represented by them;
    lists that the source only ever sorts by such a digest are sets here. */
module Validation {
  import opened RunEvents

  datatype Code = IdentityUnresolved | PropertyUnresolved | ConditionUnresolved | EvidenceMissing

  datatype Verdict = Unchecked | Pass | Review

  datatype GroupId = GroupId(key: nat, members: seq<Id>)

  datatype Record = Record(
    id: Id, key: nat, identity: nat, source: nat, value: Option<real>,
    identityResolved: bool, normalized: bool, conditionKnown: bool, hasEvidence: bool,
    verdict: Verdict, group: Option<GroupId>)

  datatype Classification = Primary | ConsistentDuplicate | ConflictCandidate | ConflictingDuplicate

  datatype Group = Group(id: GroupId, classes: seq<Classification>, verdict: Verdict)

  datatype LeakCode = ExactIdentity | PaperSource | Scaffold

  datatype Finding =
    | RecordChecked(id: Id, code: Option<Code>)
    | ConflictFound(key: nat, ids: seq<Id>)
    | LeakFound(leak: LeakCode, identity: nat, leaked: seq<Id>)

  datatype Issue = RecordIssue(code: Code) | DuplicateConflict(key: nat) | Leakage(leak: LeakCode)

  datatype Report = Report(records: seq<Record>, findings: seq<Finding>, groups: set<Group>, issues: set<Issue>)

  datatype ValidationError = DuplicateRecordIds | TooManyIssues

  const MAX_BLOCKING_ISSUES: nat := 512

  /** The explicit group assignments against which leakage is checked; an absent one is empty. */
  datatype Splits = Splits(dataset: map<Id, nat>, paper: map<Id, nat>, scaffold: map<Id, nat>)

  const COMPARISON_KEY: Record -> nat := (r: Record) => r.key
  const IDENTITY_KEY: Record -> nat := (r: Record) => r.identity
  const SOURCE_KEY: Record -> nat := (r: Record) => r.source

  /** `_record_issue`: the first problem. */
  function IssueOfRecord(r: Record): Option<Code> {
    if !r.identityResolved then Some(IdentityUnresolved)
    else if !r.normalized then Some(PropertyUnresolved)
    else if !r.conditionKnown then Some(ConditionUnresolved)
    else if !r.hasEvidence then Some(EvidenceMissing)
    else None
  }

  // ---- Sorting and grouping

  function InsertById(r: Record, s: seq<Record>): seq<Record> {
    if s == [] || r.id >= Last(s).id then s + [r] else InsertById(r, Front(s)) + [Last(s)]
  }

  function SortById(s: seq<Record>): seq<Record> { if s == [] then [] else InsertById(Last(s), SortById(Front(s))) }

  predicate Ascending(s: seq<Record>) { forall i, j :: 0 <= i < j < |s| ==> s[i].id <= s[j].id }

  predicate Strict(s: seq<Record>) { forall i, j :: 0 <= i < j < |s| ==> s[i].id < s[j].id }

  function Members(s: seq<Record>, keyOf: Record -> nat, k: nat): seq<Record> {
    if s == [] then []
    else if keyOf(Last(s)) == k then Members(Front(s), keyOf, k) + [Last(s)] else Members(Front(s), keyOf, k)
  }

  function IdsOf(s: seq<Record>): (ids: seq<Id>)
    ensures |ids| == |s| && forall i :: 0 <= i < |s| ==> ids[i] == s[i].id
  { seq(|s|, i requires 0 <= i < |s| => s[i].id) }

  function InsertKey(k: nat, ks: seq<nat>): seq<nat> {
    if ks == [] || k < ks[0] then [k] + ks else if k == ks[0] then ks else [ks[0]] + InsertKey(k, ks[1..])
  }

  /** The keys in use, ascending. */
  function Keys(s: seq<Record>, keyOf: Record -> nat): seq<nat> {
    if s == [] then [] else InsertKey(keyOf(Last(s)), Keys(Front(s), keyOf))
  }

  function Distance(a: real, b: real): real { if a >= b then a - b else b - a }

  predicate Close(a: Option<real>, b: Option<real>, tolerance: real) {
    a.Some? && b.Some? && Distance(a.value, b.value) <= tolerance
  }

  predicate AllClose(members: seq<Record>, tolerance: real) {
    forall i, j :: 0 <= i < j < |members| ==> Close(members[i].value, members[j].value, tolerance)
  }

  /** A duplicate group whose values do not agree. */
  predicate Conflicting(s: seq<Record>, k: nat, tolerance: real) {
    |Members(s, COMPARISON_KEY, k)| > 1 && !AllClose(Members(s, COMPARISON_KEY, k), tolerance)
  }

  function GroupIdOf(s: seq<Record>, k: nat): GroupId { GroupId(k, IdsOf(Members(s, COMPARISON_KEY, k))) }

  function GroupOf(s: seq<Record>, k: nat, tolerance: real): Group {
    var n := |Members(s, COMPARISON_KEY, k)|;
    if Conflicting(s, k, tolerance)
    then Group(GroupIdOf(s, k), seq(n, i => if i == 0 then ConflictCandidate else ConflictingDuplicate), Review)
    else Group(GroupIdOf(s, k), seq(n, i => if i == 0 then Primary else ConsistentDuplicate), Pass)
  }

  /** The record as the report carries it. */
  function Revised(s: seq<Record>, tolerance: real, r: Record): Record {
    r.(verdict := if IssueOfRecord(r).Some? || Conflicting(s, r.key, tolerance) then Review else Pass,
       group := Some(GroupIdOf(s, r.key)))
  }

  // ---- Leakage

  function Tagged(s: seq<Record>, split: map<Id, nat>): seq<Record> {
    if s == [] then [] else if Last(s).id in split then Tagged(Front(s), split) + [Last(s)] else Tagged(Front(s), split)
  }

  function Tags(s: seq<Record>, split: map<Id, nat>): set<nat> { set r | r in s && r.id in split :: split[r.id] }

  /** Some key is shared by records of different explicit groups. */
  predicate Leaks(s: seq<Record>, keyOf: Record -> nat, split: map<Id, nat>, k: nat) {
    exists i, j :: 0 <= i < j < |s| && keyOf(s[i]) == k && keyOf(s[j]) == k && s[i].id in split && s[j].id in split
                   && split[s[i].id] != split[s[j].id]
  }

  function LeakFindings(code: LeakCode, tagged: seq<Record>, keyOf: Record -> nat, split: map<Id, nat>,
                        ks: seq<nat>): seq<Finding> {
    if ks == [] then []
    else
      var before := LeakFindings(code, tagged, keyOf, split, Front(ks));
      var bucket := Members(tagged, keyOf, Last(ks));
      if |bucket| > 1 && |Tags(bucket, split)| > 1 then before + [LeakFound(code, Last(ks), IdsOf(bucket))] else before
  }

  function AllLeaks(s: seq<Record>, code: LeakCode, keyOf: Record -> nat, split: map<Id, nat>): seq<Finding> {
    LeakFindings(code, Tagged(s, split), keyOf, split, Keys(Tagged(s, split), keyOf))
  }

  function Leakages(s: seq<Record>, splits: Splits): seq<Finding> {
    AllLeaks(s, ExactIdentity, IDENTITY_KEY, splits.dataset) + AllLeaks(s, PaperSource, SOURCE_KEY, splits.paper)
    + AllLeaks(s, Scaffold, IDENTITY_KEY, splits.scaffold)
  }

  // ---- The report

  function RecordFindings(s: seq<Record>): seq<Finding> {
    if s == [] then [] else RecordFindings(Front(s)) + [RecordChecked(Last(s).id, IssueOfRecord(Last(s)))]
  }

  function ConflictFindings(s: seq<Record>, ks: seq<nat>, tolerance: real): seq<Finding> {
    if ks == [] then []
    else
      var before := ConflictFindings(s, Front(ks), tolerance);
      if Conflicting(s, Last(ks), tolerance) then before + [ConflictFound(Last(ks), GroupIdOf(s, Last(ks)).members)]
      else before
  }

  function AllFindings(s: seq<Record>, tolerance: real, splits: Splits): seq<Finding> {
    RecordFindings(s) + ConflictFindings(s, Keys(s, COMPARISON_KEY), tolerance) + Leakages(s, splits)
  }

  function IssueOf(f: Finding): Option<Issue> {
    match f
    case RecordChecked(_, code) => if code.Some? then Some(RecordIssue(code.value)) else None
    case ConflictFound(key, _) => Some(DuplicateConflict(key))
    case LeakFound(leak, _, _) => Some(Leakage(leak))
  }

  function IssuesOf(fs: seq<Finding>): set<Issue> { set f | f in fs && IssueOf(f).Some? :: IssueOf(f).value }

  function RevisedAll(s: seq<Record>, tolerance: real): (r: seq<Record>)
    ensures |r| == |s| && forall i :: 0 <= i < |s| ==> r[i] == Revised(s, tolerance, s[i])
  { seq(|s|, i requires 0 <= i < |s| => Revised(s, tolerance, s[i])) }

  function GroupsOf(s: seq<Record>, ks: seq<nat>, tolerance: real): set<Group> {
    set k | k in ks :: GroupOf(s, k, tolerance)
  }

  function ReportOf(s: seq<Record>, tolerance: real, splits: Splits): Report {
    var findings := AllFindings(s, tolerance, splits);
    Report(RevisedAll(s, tolerance), findings, GroupsOf(s, Keys(s, COMPARISON_KEY), tolerance), IssuesOf(findings))
  }

  /** `validate_records`. */
  function Validated(records: seq<Record>, tolerance: real, splits: Splits): Result<Report, ValidationError> {
    var s := SortById(records);
    var report := ReportOf(s, tolerance, splits);
    if !Strict(s) then Err(DuplicateRecordIds)
    else if |report.issues| > MAX_BLOCKING_ISSUES then Err(TooManyIssues)
    else Ok(report)
  }

  predicate Passes(report: Report) { report.issues == {} }

  // ---- The loops of the source

  function Entry(byKey: map<nat, seq<Record>>, k: nat): seq<Record> { if k in byKey then byKey[k] else [] }

  method GroupBy(s: seq<Record>, keyOf: Record -> nat) returns (byKey: map<nat, seq<Record>>, ks: seq<nat>)
    ensures forall k :: Entry(byKey, k) == Members(s, keyOf, k)
    ensures ks == Keys(s, keyOf)
  {
    byKey, ks := map[], [];
    for i := 0 to |s|
      invariant forall k :: Entry(byKey, k) == Members(s[..i], keyOf, k)
      invariant ks == Keys(s[..i], keyOf)
    {
      TakeNext(s, i);
      var k := keyOf(s[i]);
      ghost var before := byKey;
      byKey := byKey[k := Entry(byKey, k) + [s[i]]];
      forall x ensures Entry(byKey, x) == Members(s[..i + 1], keyOf, x) {
        assert Entry(before, x) == Members(s[..i], keyOf, x);
      }
      ks := InsertKey(k, ks);
    }
    assert s[..|s|] == s;
  }

  method CheckRecords(s: seq<Record>) returns (findings: seq<Finding>, verdicts: map<Id, Verdict>)
    requires Strict(s)
    ensures findings == RecordFindings(s)
            && forall i :: 0 <= i < |s| ==>
               s[i].id in verdicts && verdicts[s[i].id] == if IssueOfRecord(s[i]).Some? then Review else Pass
  {
    findings, verdicts := [], map[];
    for i := 0 to |s|
      invariant findings == RecordFindings(s[..i])
      invariant forall k :: 0 <= k < i ==>
                  s[k].id in verdicts && verdicts[s[k].id] == if IssueOfRecord(s[k]).Some? then Review else Pass
    {
      TakeNext(s, i);
      var issue := IssueOfRecord(s[i]);
      findings := findings + [RecordChecked(s[i].id, issue)];
      verdicts := verdicts[s[i].id := if issue.Some? then Review else Pass];
    }
    assert s[..|s|] == s;
  }

  lemma IssuesSnoc(fs: seq<Finding>, f: Finding)
    ensures IssuesOf(fs + [f]) == IssuesOf(fs) + (if IssueOf(f).Some? then {IssueOf(f).value} else {})
  {
    assert f in fs + [f];
    forall g | g in fs ensures g in fs + [f] {}
  }

  lemma IssuesAppend(a: seq<Finding>, b: seq<Finding>)
    ensures IssuesOf(a + b) == IssuesOf(a) + IssuesOf(b)
  {
    forall g | g in a ensures g in a + b {}
    forall g | g in b ensures g in a + b {}
  }

  method DetectLeakage(s: seq<Record>, code: LeakCode, keyOf: Record -> nat, split: map<Id, nat>)
    returns (findings: seq<Finding>)
    ensures findings == AllLeaks(s, code, keyOf, split)
  {
    hide IdsOf;
    var tagged: seq<Record> := [];
    for i := 0 to |s|
      invariant tagged == Tagged(s[..i], split)
    {
      TakeNext(s, i);
      if s[i].id in split { tagged := tagged + [s[i]]; }
    }
    assert s[..|s|] == s;
    var buckets, ks := GroupBy(tagged, keyOf);
    findings := [];
    for i := 0 to |ks|
      invariant findings == LeakFindings(code, tagged, keyOf, split, ks[..i])
    {
      TakeNext(ks, i);
      var bucket := Entry(buckets, ks[i]);
      if |bucket| > 1 && |Tags(bucket, split)| > 1 {
        findings := findings + [LeakFound(code, ks[i], IdsOf(bucket))];
      }
    }
    assert ks[..|ks|] == ks;
  }

  /** Every pair of values, in the order of the source's comprehension. */
  method ValuesAgree(members: seq<Record>, tolerance: real) returns (consistent: bool)
    ensures consistent == AllClose(members, tolerance)
  {
    for i := 0 to |members|
      invariant forall x, y :: 0 <= x < i && x < y < |members| ==> Close(members[x].value, members[y].value, tolerance)
    {
      for j := i + 1 to |members|
        invariant forall y :: i < y < j ==> Close(members[i].value, members[y].value, tolerance)
      {
        if !Close(members[i].value, members[j].value, tolerance) { return false; }
      }
    }
    consistent := true;
  }

  /** What the loop over the comparison keys has made of the verdicts and the group ids after the keys `ks`. */
  ghost predicate VerdictsDone(s: seq<Record>, ks: seq<nat>, tolerance: real, first: map<Id, Verdict>,
                               verdicts: map<Id, Verdict>) {
    forall i :: 0 <= i < |s| ==>
      s[i].id in first && s[i].id in verdicts
      && verdicts[s[i].id] == if s[i].key in ks && Conflicting(s, s[i].key, tolerance) then Review else first[s[i].id]
  }

  ghost predicate GroupIdsDone(s: seq<Record>, ks: seq<nat>, groupIds: map<Id, GroupId>) {
    forall i :: 0 <= i < |s| && s[i].key in ks ==> s[i].id in groupIds && groupIds[s[i].id] == GroupIdOf(s, s[i].key)
  }

  /** The updates of one duplicate group. */
  ghost predicate Marked(ids: seq<Id>, conflict: bool, id: GroupId,
                         verdicts: map<Id, Verdict>, groupIds: map<Id, GroupId>, v: map<Id, Verdict>,
                         g: map<Id, GroupId>) {
    && (forall x :: x in v <==> x in verdicts || (conflict && x in ids))
    && (forall x :: x in v ==> v[x] == if conflict && x in ids then Review else verdicts[x])
    && (forall x :: x in g <==> x in groupIds || x in ids)
    && (forall x :: x in g ==> g[x] == if x in ids then id else groupIds[x])
  }

  method MarkGroup(members: seq<Record>, conflict: bool, id: GroupId, verdicts: map<Id, Verdict>,
                   groupIds: map<Id, GroupId>)
    returns (v: map<Id, Verdict>, g: map<Id, GroupId>)
    ensures Marked(IdsOf(members), conflict, id, verdicts, groupIds, v, g)
  {
    v, g := verdicts, groupIds;
    for i := 0 to |members|
      invariant Marked(IdsOf(members)[..i], conflict, id, verdicts, groupIds, v, g)
    {
      assert IdsOf(members)[..i + 1] == IdsOf(members)[..i] + [members[i].id];
      if conflict { v := v[members[i].id := Review]; }
      g := g[members[i].id := id];
    }
    assert IdsOf(members)[..|members|] == IdsOf(members);
  }

  lemma MarkedNext(s: seq<Record>, ks: seq<nat>, k: nat, tolerance: real, first: map<Id, Verdict>,
                   verdicts: map<Id, Verdict>,
                   groupIds: map<Id, GroupId>, v: map<Id, Verdict>, g: map<Id, GroupId>)
    requires Strict(s) && VerdictsDone(s, ks, tolerance, first, verdicts) && GroupIdsDone(s, ks, groupIds)
    requires Marked(GroupIdOf(s, k).members, Conflicting(s, k, tolerance), GroupIdOf(s, k), verdicts, groupIds, v, g)
    ensures VerdictsDone(s, ks + [k], tolerance, first, v) && GroupIdsDone(s, ks + [k], g)
  {
    hide Conflicting, IdsOf, Members, Strict;
    MemberIds(s, COMPARISON_KEY, k);
    forall i | 0 <= i < |s| ensures s[i].id in GroupIdOf(s, k).members <==> s[i].key == k {}
    hide GroupIdOf;
  }

  method CheckGroups(s: seq<Record>, tolerance: real, first: map<Id, Verdict>)
    returns (findings: seq<Finding>, groups: set<Group>, verdicts: map<Id, Verdict>, groupIds: map<Id, GroupId>)
    requires Strict(s) && forall i :: 0 <= i < |s| ==> s[i].id in first
    ensures findings == ConflictFindings(s, Keys(s, COMPARISON_KEY), tolerance)
    ensures groups == GroupsOf(s, Keys(s, COMPARISON_KEY), tolerance)
    ensures VerdictsDone(s, Keys(s, COMPARISON_KEY), tolerance, first, verdicts)
    ensures GroupIdsDone(s, Keys(s, COMPARISON_KEY), groupIds)
  {
    hide GroupOf, AllClose, Close, VerdictsDone, GroupIdsDone, Marked, Strict, Keys, Members, IdsOf;
    var byKey, ks := GroupBy(s, COMPARISON_KEY);
    findings, groups, verdicts, groupIds := [], {}, first, map[];
    NothingMarked(s, tolerance, first);
    for i := 0 to |ks|
      invariant findings == ConflictFindings(s, ks[..i], tolerance) && groups == GroupsOf(s, ks[..i], tolerance)
      invariant VerdictsDone(s, ks[..i], tolerance, first, verdicts) && GroupIdsDone(s, ks[..i], groupIds)
    {
      TakeNext(ks, i);
      assert ks[..i + 1] == ks[..i] + [ks[i]];
      var members := Entry(byKey, ks[i]);
      var consistent := ValuesAgree(members, tolerance);
      var conflict := |members| > 1 && !consistent;
      if conflict { findings := findings + [ConflictFound(ks[i], IdsOf(members))]; }
      ghost var before, idsBefore := verdicts, groupIds;
      verdicts, groupIds := MarkGroup(members, conflict, GroupId(ks[i], IdsOf(members)), verdicts, groupIds);
      MarkedNext(s, ks[..i], ks[i], tolerance, first, before, idsBefore, verdicts, groupIds);
      GroupsNext(s, ks[..i], ks[i], tolerance);
      groups := groups + {GroupOf(s, ks[i], tolerance)};
    }
    assert ks[..|ks|] == ks;
  }

  lemma NothingMarked(s: seq<Record>, tolerance: real, first: map<Id, Verdict>)
    requires forall i :: 0 <= i < |s| ==> s[i].id in first
    ensures VerdictsDone(s, [], tolerance, first, first) && GroupIdsDone(s, [], map[])
  {}

  lemma GroupsNext(s: seq<Record>, ks: seq<nat>, k: nat, tolerance: real)
    ensures GroupsOf(s, ks + [k], tolerance) == GroupsOf(s, ks, tolerance) + {GroupOf(s, k, tolerance)}
  {
    hide GroupOf;
    assert k in ks + [k];
    forall x | x in ks ensures x in ks + [k] {}
  }

  /** With distinct ids, the ids of a group are exactly those of the records with its key. */
  lemma {:induction false} MemberIds(s: seq<Record>, keyOf: Record -> nat, k: nat)
    requires Strict(s)
    ensures forall i :: 0 <= i < |s| ==> (s[i].id in IdsOf(Members(s, keyOf, k)) <==> keyOf(s[i]) == k)
    ensures forall r :: r in Members(s, keyOf, k) <==> r in s && keyOf(r) == k
    ensures Strict(Members(s, keyOf, k))
  {
    MembersOf(s, keyOf, k);
    MembersStrict(s, keyOf, k);
    var m := Members(s, keyOf, k);
    forall i | 0 <= i < |s| ensures s[i].id in IdsOf(m) <==> keyOf(s[i]) == k {
      if keyOf(s[i]) == k {
        assert s[i] in m;
        var j :| 0 <= j < |m| && m[j] == s[i];
        assert IdsOf(m)[j] == s[i].id;
      }
      if s[i].id in IdsOf(m) {
        var j :| 0 <= j < |m| && IdsOf(m)[j] == s[i].id;
        assert m[j] in m;
        var x :| 0 <= x < |s| && s[x] == m[j];
        assert x == i;
      }
    }
  }

  lemma {:induction false} MembersOf(s: seq<Record>, keyOf: Record -> nat, k: nat)
    ensures forall r :: r in Members(s, keyOf, k) <==> r in s && keyOf(r) == k
  {
    if s != [] {
      MembersOf(Front(s), keyOf, k);
      assert s == Front(s) + [Last(s)];
    }
  }

  lemma {:induction false} MembersStrict(s: seq<Record>, keyOf: Record -> nat, k: nat)
    requires Strict(s)
    ensures Strict(Members(s, keyOf, k))
  {
    if s == [] { return; }
    var m := Members(Front(s), keyOf, k);
    MembersStrict(Front(s), keyOf, k);
    MembersOf(Front(s), keyOf, k);
    forall i | 0 <= i < |m| ensures m[i].id < Last(s).id { assert m[i] in m; }
  }

  /** `validate_records`.  Repeated ids make the source fail when the groups or the report are built. */
  method ValidateRecords(records: seq<Record>, tolerance: real, splits: Splits)
    returns (r: Result<Report, ValidationError>)
    ensures r == Validated(records, tolerance, splits)
  {
    hide SortById, RecordFindings, ConflictFindings, AllLeaks, GroupsOf, Keys, Conflicting, GroupIdOf, IssuesOf;
    var values := SortById(records);
    if !Strict(values) { return Err(DuplicateRecordIds); }
    var checked, first := CheckRecords(values);
    var conflicts, groups, verdicts, groupIds := CheckGroups(values, tolerance, first);
    var identity := DetectLeakage(values, ExactIdentity, IDENTITY_KEY, splits.dataset);
    var paper := DetectLeakage(values, PaperSource, SOURCE_KEY, splits.paper);
    var scaffold := DetectLeakage(values, Scaffold, IDENTITY_KEY, splits.scaffold);
    KeysComplete(values, COMPARISON_KEY);
    var revised: seq<Record> := [];
    for i := 0 to |values|
      invariant |revised| == i && forall k :: 0 <= k < i ==> revised[k] == Revised(values, tolerance, values[k])
    {
      assert values[i].key in Keys(values, COMPARISON_KEY);
      revised := revised + [values[i].(verdict := verdicts[values[i].id], group := Some(groupIds[values[i].id]))];
    }
    var findings := checked + conflicts + (identity + paper + scaffold);
    assert revised == RevisedAll(values, tolerance);
    var all := IssuesOf(findings);
    if |all| > MAX_BLOCKING_ISSUES { return Err(TooManyIssues); }
    r := Ok(Report(revised, findings, groups, all));
  }

  lemma {:induction false} InsertKeyMembers(k: nat, ks: seq<nat>)
    ensures forall x :: x in InsertKey(k, ks) <==> x == k || x in ks
  {
    if ks != [] && k > ks[0] {
      InsertKeyMembers(k, ks[1..]);
      assert ks == [ks[0]] + ks[1..];
    }
  }

  lemma {:induction false} KeysComplete(s: seq<Record>, keyOf: Record -> nat)
    ensures forall i :: 0 <= i < |s| ==> keyOf(s[i]) in Keys(s, keyOf)
    ensures forall k :: k in Keys(s, keyOf) ==> exists i :: 0 <= i < |s| && keyOf(s[i]) == k
  {
    if s == [] { return; }
    KeysComplete(Front(s), keyOf);
    InsertKeyMembers(keyOf(Last(s)), Keys(Front(s), keyOf));
    forall k | k in Keys(s, keyOf) ensures exists i :: 0 <= i < |s| && keyOf(s[i]) == k {
      if k == keyOf(Last(s)) {
        assert keyOf(s[|s| - 1]) == k;
      } else {
        var i :| 0 <= i < |Front(s)| && keyOf(Front(s)[i]) == k;
        assert keyOf(s[i]) == k;
      }
    }
  }

  // ---- The groups partition the records

  /** Every record is in exactly one group, that of its key, and carries its id; no two groups share a
      key, and groups list their records by id, without repetition. */
  lemma GroupsPartition(records: seq<Record>, tolerance: real, splits: Splits)
    requires Validated(records, tolerance, splits).Ok?
    ensures var report := Validated(records, tolerance, splits).value;
            && (forall i :: 0 <= i < |report.records| ==> InGroup(report.groups, report.records[i]))
            && (forall g, h :: g in report.groups && h in report.groups && g.id.key == h.id.key ==> g == h)
            && (forall g, i ::
                  g in report.groups && 0 <= i < |report.records| && report.records[i].id in g.id.members ==>
                    g.id.key == report.records[i].key)
            && (forall g :: g in report.groups ==> AscendingIds(g.id.members))
  {
    hide SortById, AllFindings, IssuesOf, Conflicting, GroupOf, Members, Keys, GroupIdOf;
    var s := SortById(records);
    var report := Validated(records, tolerance, splits).value;
    var ks := Keys(s, COMPARISON_KEY);
    KeysComplete(s, COMPARISON_KEY);
    forall g | g in report.groups ensures GroupFacts(s, g) && g == GroupOf(s, g.id.key, tolerance) {
      var k :| k in ks && g == GroupOf(s, k, tolerance);
      GroupHasFacts(s, k, tolerance);
    }
    forall i | 0 <= i < |report.records| ensures InGroup(report.groups, report.records[i]) {
      var g := GroupOf(s, s[i].key, tolerance);
      assert s[i].key in ks && report.records[i] == Revised(s, tolerance, s[i]);
      GroupHasFacts(s, s[i].key, tolerance);
      assert g in report.groups && s[i].id in g.id.members;
    }
    forall g, i | g in report.groups && 0 <= i < |report.records| && report.records[i].id in g.id.members
      ensures g.id.key == report.records[i].key
    {
      assert report.records[i] == Revised(s, tolerance, s[i]) && GroupFacts(s, g);
    }
    forall g, h | g in report.groups && h in report.groups && g.id.key == h.id.key ensures g == h {
      assert g == GroupOf(s, g.id.key, tolerance) && h == GroupOf(s, h.id.key, tolerance);
    }
    forall g | g in report.groups ensures AscendingIds(g.id.members) { assert GroupFacts(s, g); }
  }

  /** The record is a member of the group of its key, and says so. */
  predicate InGroup(groups: set<Group>, r: Record) {
    exists g :: g in groups && g.id.key == r.key && r.id in g.id.members && r.group == Some(g.id)
  }

  /** The members of a group are the ids of the records with its key, in order. */
  ghost predicate GroupFacts(s: seq<Record>, g: Group) {
    && (forall i :: 0 <= i < |s| ==> (s[i].id in g.id.members <==> s[i].key == g.id.key))
    && AscendingIds(g.id.members)
  }

  predicate AscendingIds(ids: seq<Id>) { forall i, j :: 0 <= i < j < |ids| ==> ids[i] < ids[j] }

  lemma GroupHasFacts(s: seq<Record>, k: nat, tolerance: real)
    requires Strict(s)
    ensures var g := GroupOf(s, k, tolerance); g.id == GroupIdOf(s, k) && g.id.key == k && GroupFacts(s, g)
  {
    hide Members, Conflicting;
    MemberIds(s, COMPARISON_KEY, k);
  }

  // ---- The report does not depend on the order of the input

  lemma {:induction false} InsertedMembers(r: Record, s: seq<Record>)
    ensures multiset(InsertById(r, s)) == multiset(s) + multiset{r}
    ensures forall x :: x in InsertById(r, s) ==> x == r || x in s
  {
    if s == [] || r.id >= Last(s).id { return; }
    assert s == Front(s) + [Last(s)];
    InsertedMembers(r, Front(s));
  }

  lemma AscendingSnoc(s: seq<Record>, r: Record)
    requires Ascending(s) && forall x :: x in s ==> x.id <= r.id
    ensures Ascending(s + [r])
  {}

  lemma {:induction false} InsertedById(r: Record, s: seq<Record>)
    requires Ascending(s)
    ensures Ascending(InsertById(r, s)) && multiset(InsertById(r, s)) == multiset(s) + multiset{r}
  {
    InsertedMembers(r, s);
    if s == [] { return; }
    assert s == Front(s) + [Last(s)];
    if r.id >= Last(s).id {
      forall x | x in s ensures x.id <= r.id { var i :| 0 <= i < |s| && s[i] == x; }
      AscendingSnoc(s, r);
    } else {
      InsertedById(r, Front(s));
      InsertedMembers(r, Front(s));
      forall x | x in InsertById(r, Front(s)) ensures x.id <= Last(s).id {
        if x != r { var i :| 0 <= i < |Front(s)| && Front(s)[i] == x; }
      }
      AscendingSnoc(InsertById(r, Front(s)), Last(s));
    }
  }

  lemma {:induction false} SortedById(s: seq<Record>)
    ensures Ascending(SortById(s)) && multiset(SortById(s)) == multiset(s)
  {
    if s == [] { return; }
    assert s == Front(s) + [Last(s)];
    SortedById(Front(s));
    InsertedById(Last(s), SortById(Front(s)));
  }

  lemma FrontMultiset(s: seq<Record>)
    requires s != []
    ensures multiset(Front(s)) == multiset(s) - multiset{Last(s)}
  {
    assert s == Front(s) + [Last(s)];
  }

  lemma SameMembers(s: seq<Record>, t: seq<Record>)
    requires multiset(s) == multiset(t)
    ensures |s| == |t| && forall r :: r in s <==> r in t
  {
    assert |s| == |multiset(s)| && |t| == |multiset(t)|;
    forall r ensures r in s <==> r in t {
      assert r in s <==> r in multiset(s);
      assert r in t <==> r in multiset(t);
    }
  }

  lemma SameLast(s: seq<Record>, t: seq<Record>)
    requires Strict(s) && Ascending(t) && s != [] && t != [] && forall r :: r in s <==> r in t
    ensures Last(s) == Last(t)
  {
    var (x, y) := (Last(s), Last(t));
    assert x in t && y in s;
    var i :| 0 <= i < |t| && t[i] == x;
    var j :| 0 <= j < |s| && s[j] == y;
    assert x.id <= y.id;
  }

  /** An ascending list with the members of a strictly ascending one is that list. */
  lemma {:induction false} StrictIsUnique(s: seq<Record>, t: seq<Record>)
    requires Strict(s) && Ascending(t) && multiset(s) == multiset(t)
    ensures s == t
    decreases |s|
  {
    SameMembers(s, t);
    if s == [] { return; }
    SameLast(s, t);
    FrontMultiset(s);
    FrontMultiset(t);
    assert s == Front(s) + [Last(s)] && t == Front(t) + [Last(t)];
    StrictIsUnique(Front(s), Front(t));
  }

  lemma OrderDoesNotMatter(a: seq<Record>, b: seq<Record>, tolerance: real, splits: Splits)
    requires multiset(a) == multiset(b)
    ensures Validated(a, tolerance, splits) == Validated(b, tolerance, splits)
  {
    hide ReportOf, SortById, Strict;
    SortedById(a);
    SortedById(b);
    if Strict(SortById(a)) {
      StrictIsUnique(SortById(a), SortById(b));
    } else if Strict(SortById(b)) {
      StrictIsUnique(SortById(b), SortById(a));
    }
  }

  // ---- What a passing report says

  lemma {:induction false} RecordFindingsIssues(s: seq<Record>)
    ensures IssuesOf(RecordFindings(s)) == {} <==> forall i :: 0 <= i < |s| ==> IssueOfRecord(s[i]).None?
  {
    if s == [] { return; }
    RecordFindingsIssues(Front(s));
    IssuesSnoc(RecordFindings(Front(s)), RecordChecked(Last(s).id, IssueOfRecord(Last(s))));
    hide IssueOfRecord;
    assert forall i :: 0 <= i < |s| - 1 ==> Front(s)[i] == s[i];
  }

  lemma {:induction false} ConflictFindingsIssues(s: seq<Record>, ks: seq<nat>, tolerance: real)
    ensures IssuesOf(ConflictFindings(s, ks, tolerance)) == {} <==>
              forall k :: k in ks ==> !Conflicting(s, k, tolerance)
  {
    hide Conflicting, GroupIdOf;
    if ks == [] { return; }
    ConflictFindingsIssues(s, Front(ks), tolerance);
    assert ks == Front(ks) + [Last(ks)];
    IssuesSnoc(ConflictFindings(s, Front(ks), tolerance), ConflictFound(Last(ks), GroupIdOf(s, Last(ks)).members));
  }

  lemma {:induction false} TaggedMembers(s: seq<Record>, split: map<Id, nat>)
    ensures forall r :: r in Tagged(s, split) <==> r in s && r.id in split
  {
    if s == [] { return; }
    TaggedMembers(Front(s), split);
    assert s == Front(s) + [Last(s)];
  }

  lemma TwoTags(bucket: seq<Record>, split: map<Id, nat>)
    requires forall r :: r in bucket ==> r.id in split
    ensures |bucket| > 1 && |Tags(bucket, split)| > 1 <==>
              exists x, y :: x in bucket && y in bucket && split[x.id] != split[y.id]
  {
    var tags := Tags(bucket, split);
    if x, y :| x in bucket && y in bucket && split[x.id] != split[y.id] {
      assert {split[x.id], split[y.id]} <= tags;
      assert |{split[x.id], split[y.id]}| == 2;
      AtLeast({split[x.id], split[y.id]}, tags);
    }
    if |tags| > 1 {
      var t :| t in tags;
      assert |tags - {t}| > 0;
      var u :| u in tags - {t};
      var x :| x in bucket && x.id in split && split[x.id] == t;
      var y :| y in bucket && y.id in split && split[y.id] == u;
    }
  }

  lemma AtLeast<T>(a: set<T>, b: set<T>)
    requires a <= b
    ensures |a| <= |b|
  {
    assert b == a + (b - a);
  }

  lemma TwoLeak(s: seq<Record>, keyOf: Record -> nat, split: map<Id, nat>, k: nat, x: Record, y: Record)
    requires x in s && y in s && keyOf(x) == k == keyOf(y) && x.id in split && y.id in split
    requires split[x.id] != split[y.id]
    ensures Leaks(s, keyOf, split, k)
  {
    var i :| 0 <= i < |s| && s[i] == x;
    var j :| 0 <= j < |s| && s[j] == y;
    if i < j { assert keyOf(s[i]) == k; } else { assert keyOf(s[j]) == k; }
  }

  lemma LeakHasTwo(s: seq<Record>, keyOf: Record -> nat, split: map<Id, nat>, k: nat) returns (x: Record, y: Record)
    requires Leaks(s, keyOf, split, k)
    ensures x in s && y in s && keyOf(x) == k == keyOf(y) && x.id in split && y.id in split
    ensures split[x.id] != split[y.id]
  {
    var i, j :| 0 <= i < j < |s| && keyOf(s[i]) == k && keyOf(s[j]) == k && s[i].id in split && s[j].id in split
                && split[s[i].id] != split[s[j].id];
    x, y := s[i], s[j];
  }

  /** A bucket of the loop leaks exactly when two records of its key have different explicit groups. */
  lemma BucketLeaks(s: seq<Record>, keyOf: Record -> nat, split: map<Id, nat>, k: nat)
    ensures var bucket := Members(Tagged(s, split), keyOf, k);
            |bucket| > 1 && |Tags(bucket, split)| > 1 <==> Leaks(s, keyOf, split, k)
  {
    var bucket := Members(Tagged(s, split), keyOf, k);
    MembersOf(Tagged(s, split), keyOf, k);
    TaggedMembers(s, split);
    hide Members, Tagged, Tags, Leaks;
    TwoTags(bucket, split);
    if x, y :| x in bucket && y in bucket && split[x.id] != split[y.id] { TwoLeak(s, keyOf, split, k, x, y); }
    if Leaks(s, keyOf, split, k) {
      var x, y := LeakHasTwo(s, keyOf, split, k);
      assert x in bucket && y in bucket;
    }
  }

  lemma {:induction false} LeakFindingsIssues(s: seq<Record>, code: LeakCode, keyOf: Record -> nat,
                                              split: map<Id, nat>, ks: seq<nat>)
    ensures IssuesOf(LeakFindings(code, Tagged(s, split), keyOf, split, ks)) == {} <==>
              forall k :: k in ks ==> !Leaks(s, keyOf, split, k)
  {
    hide Leaks, IdsOf, Members, Tagged;
    if ks == [] { return; }
    LeakFindingsIssues(s, code, keyOf, split, Front(ks));
    assert ks == Front(ks) + [Last(ks)];
    BucketLeaks(s, keyOf, split, Last(ks));
    var bucket := Members(Tagged(s, split), keyOf, Last(ks));
    IssuesSnoc(LeakFindings(code, Tagged(s, split), keyOf, split, Front(ks)), LeakFound(code, Last(ks), IdsOf(bucket)));
  }

  /** No key is shared by records of different explicit groups. */
  ghost predicate NoLeak(s: seq<Record>, keyOf: Record -> nat, split: map<Id, nat>) {
    forall k: nat :: !Leaks(s, keyOf, split, k)
  }

  lemma AllLeaksIssues(s: seq<Record>, code: LeakCode, keyOf: Record -> nat, split: map<Id, nat>)
    ensures IssuesOf(AllLeaks(s, code, keyOf, split)) == {} <==> NoLeak(s, keyOf, split)
  {
    var tagged := Tagged(s, split);
    var ks := Keys(tagged, keyOf);
    LeakFindingsIssues(s, code, keyOf, split, ks);
    KeysComplete(tagged, keyOf);
    TaggedMembers(s, split);
    hide Tagged, Keys, Leaks, LeakFindings, IssuesOf;
    forall k: nat | Leaks(s, keyOf, split, k) ensures k in ks {
      var x, y := LeakHasTwo(s, keyOf, split, k);
      var i :| 0 <= i < |tagged| && tagged[i] == x;
    }
  }

  /** A report passes exactly when all its records pass and no identity or source key spans two explicit groups. */
  lemma PassesIff(records: seq<Record>, tolerance: real, splits: Splits)
    requires Validated(records, tolerance, splits).Ok?
    ensures var (report, s) := (Validated(records, tolerance, splits).value, SortById(records));
            Passes(report) <==>
              && (forall i :: 0 <= i < |report.records| ==> report.records[i].verdict == Pass)
              && NoLeak(s, IDENTITY_KEY, splits.dataset) && NoLeak(s, SOURCE_KEY, splits.paper)
                 && NoLeak(s, IDENTITY_KEY, splits.scaffold)
  {
    hide SortById, RecordFindings, ConflictFindings, AllLeaks, IssuesOf, NoLeak, Conflicting, IssueOfRecord, GroupIdOf,
        GroupsOf, Keys;
    var s := SortById(records);
    var ks := Keys(s, COMPARISON_KEY);
    var report := Validated(records, tolerance, splits).value;
    RecordFindingsIssues(s);
    ConflictFindingsIssues(s, ks, tolerance);
    AllLeaksIssues(s, ExactIdentity, IDENTITY_KEY, splits.dataset);
    AllLeaksIssues(s, PaperSource, SOURCE_KEY, splits.paper);
    AllLeaksIssues(s, Scaffold, IDENTITY_KEY, splits.scaffold);
    var (a, b, c) := (AllLeaks(s, ExactIdentity, IDENTITY_KEY, splits.dataset),
        AllLeaks(s, PaperSource, SOURCE_KEY, splits.paper),
                      AllLeaks(s, Scaffold, IDENTITY_KEY, splits.scaffold));
    IssuesAppend(RecordFindings(s), ConflictFindings(s, ks, tolerance));
    IssuesAppend(RecordFindings(s) + ConflictFindings(s, ks, tolerance), Leakages(s, splits));
    IssuesAppend(a, b);
    IssuesAppend(a + b, c);
    VerdictsTell(s, tolerance);
  }

  lemma VerdictsTell(s: seq<Record>, tolerance: real)
    ensures (forall i :: 0 <= i < |s| ==> Revised(s, tolerance, s[i]).verdict == Pass) <==>
              (forall i :: 0 <= i < |s| ==> IssueOfRecord(s[i]).None?)
              && (forall k :: k in Keys(s, COMPARISON_KEY) ==> !Conflicting(s, k, tolerance))
  {
    hide IssueOfRecord, Conflicting, GroupIdOf, Keys;
    KeysComplete(s, COMPARISON_KEY);
    if forall i :: 0 <= i < |s| ==> Revised(s, tolerance, s[i]).verdict == Pass {
      forall i | 0 <= i < |s| ensures IssueOfRecord(s[i]).None? && !Conflicting(s, s[i].key, tolerance) {
        assert Revised(s, tolerance, s[i]).verdict == Pass;
      }
    }
  }

  /** In a report without blocking issues any two records of one comparison key agree within the tolerance. */
  lemma PassingGroupsAgree(records: seq<Record>, tolerance: real, splits: Splits, i: nat, j: nat)
    requires Validated(records, tolerance, splits).Ok? && Passes(Validated(records, tolerance, splits).value)
    requires i < |Validated(records, tolerance, splits).value.records|
               && j < |Validated(records, tolerance, splits).value.records|
    requires i != j && Validated(records, tolerance, splits).value.records[i].key ==
               Validated(records, tolerance, splits).value.records[j].key
    ensures var rs := Validated(records, tolerance, splits).value.records; Close(rs[i].value, rs[j].value, tolerance)
  {
    PassesIff(records, tolerance, splits);
    var s := SortById(records);
    assert Revised(s, tolerance, s[i]).verdict == Pass;
    hide SortById, ReportOf, Validated, NoLeak, Conflicting, Close;
    MembersClose(s, tolerance, i, j);
  }

  lemma MembersClose(s: seq<Record>, tolerance: real, i: nat, j: nat)
    requires Strict(s) && i < |s| && j < |s| && i != j && s[i].key == s[j].key && !Conflicting(s, s[i].key, tolerance)
    ensures Close(s[i].value, s[j].value, tolerance)
  {
    var m := Members(s, COMPARISON_KEY, s[i].key);
    MemberIds(s, COMPARISON_KEY, s[i].key);
    hide Members;
    assert s[i] in m && s[j] in m;
    var x :| 0 <= x < |m| && m[x] == s[i];
    var y :| 0 <= y < |m| && m[y] == s[j];
    assert s[i].id != s[j].id;
    if x < y { assert Close(m[x].value, m[y].value, tolerance); } else {
      assert Close(m[y].value, m[x].value, tolerance);
    }
  }
}
