/** What a validation report says about the records themselves, field by field
    (src/molly/evidence/validation.py:179-183, 231-350). */
module ReportMeaning {
  import opened RunEvents
  import opened Validation

  /** Nothing is missing. */
  predicate Settled(r: Record) { r.identityResolved && r.normalized && r.conditionKnown && r.hasEvidence }

  /** This is the first thing that is missing. */
  predicate Lacks(r: Record, code: Code) {
    match code
    case IdentityUnresolved => !r.identityResolved
    case PropertyUnresolved => r.identityResolved && !r.normalized
    case ConditionUnresolved => r.identityResolved && r.normalized && !r.conditionKnown
    case EvidenceMissing => r.identityResolved && r.normalized && r.conditionKnown && !r.hasEvidence
  }

  predicate Within(a: Option<real>, b: Option<real>, tolerance: real) {
    a.Some? && b.Some? && a.value - b.value <= tolerance && b.value - a.value <= tolerance
  }

  /** Two records of one key have values further apart than the tolerance, or no value. */
  predicate Disagree(rs: seq<Record>, k: nat, tolerance: real) {
    exists i, j :: 0 <= i < j < |rs| && rs[i].key == k && rs[j].key == k
                   && !Within(rs[i].value, rs[j].value, tolerance)
  }

  /** Two records of one identity are assigned to different groups. */
  predicate IdentityCrosses(rs: seq<Record>, split: map<Id, nat>) {
    exists i, j :: 0 <= i < j < |rs| && rs[i].identity == rs[j].identity && rs[i].id in split && rs[j].id in split
                   && split[rs[i].id] != split[rs[j].id]
  }

  predicate SourceCrosses(rs: seq<Record>, split: map<Id, nat>) {
    exists i, j :: 0 <= i < j < |rs| && rs[i].source == rs[j].source && rs[i].id in split && rs[j].id in split
                   && split[rs[i].id] != split[rs[j].id]
  }

  lemma IssueMeans(r: Record)
    ensures IssueOfRecord(r).None? <==> Settled(r)
    ensures forall code :: IssueOfRecord(r) == Some(code) <==> Lacks(r, code)
  {}

  lemma CloseMeans(a: Option<real>, b: Option<real>, tolerance: real)
    ensures Close(a, b, tolerance) <==> Within(a, b, tolerance)
    ensures Within(a, b, tolerance) <==> Within(b, a, tolerance)
  {}

  lemma DisagreementShows(s: seq<Record>, i: nat, j: nat, tolerance: real)
    requires Strict(s) && i < j < |s| && s[i].key == s[j].key && !Close(s[i].value, s[j].value, tolerance)
    ensures Conflicting(s, s[i].key, tolerance)
  {
    var m := Members(s, COMPARISON_KEY, s[i].key);
    MemberIds(s, COMPARISON_KEY, s[i].key);
    hide Members, Close;
    assert s[i] in m && s[j] in m;
    var x :| 0 <= x < |m| && m[x] == s[i];
    var y :| 0 <= y < |m| && m[y] == s[j];
    assert m[x].id < m[y].id;
    assert x < y;
  }

  lemma ConflictShows(s: seq<Record>, k: nat, tolerance: real) returns (i: nat, j: nat)
    requires Strict(s) && Conflicting(s, k, tolerance)
    ensures i < j < |s| && s[i].key == k && s[j].key == k && !Close(s[i].value, s[j].value, tolerance)
  {
    var m := Members(s, COMPARISON_KEY, k);
    MemberIds(s, COMPARISON_KEY, k);
    hide Members, Close;
    var x, y :| 0 <= x < y < |m| && !Close(m[x].value, m[y].value, tolerance);
    assert m[x] in s && m[y] in s && m[x].id < m[y].id;
    i :| 0 <= i < |s| && s[i] == m[x];
    j :| 0 <= j < |s| && s[j] == m[y];
  }

  lemma ConflictMeans(s: seq<Record>, k: nat, tolerance: real)
    requires Strict(s)
    ensures Conflicting(s, k, tolerance) <==> Disagree(s, k, tolerance)
  {
    hide Conflicting, Close, Within, Strict;
    if Conflicting(s, k, tolerance) {
      var i, j := ConflictShows(s, k, tolerance);
      CloseMeans(s[i].value, s[j].value, tolerance);
    }
    if i, j :| 0 <= i < j < |s| && s[i].key == k && s[j].key == k && !Within(s[i].value, s[j].value, tolerance) {
      CloseMeans(s[i].value, s[j].value, tolerance);
      DisagreementShows(s, i, j, tolerance);
    }
  }

  /** The report carries the records in the order of their ids, with only the verdict and the group filled in. */
  predicate Carries(s: seq<Record>, rs: seq<Record>) {
    && |rs| == |s|
    && forall i :: 0 <= i < |s| ==> rs[i].(verdict := s[i].verdict, group := s[i].group) == s[i]
  }

  lemma CarriedAlike(s: seq<Record>, rs: seq<Record>, k: nat, tolerance: real)
    requires Carries(s, rs)
    ensures Disagree(rs, k, tolerance) <==> Disagree(s, k, tolerance)
  {
    hide Within;
    if Disagree(s, k, tolerance) {
      var i, j :| 0 <= i < j < |s| && s[i].key == k && s[j].key == k && !Within(s[i].value, s[j].value, tolerance);
      assert rs[i].key == k && rs[j].key == k && !Within(rs[i].value, rs[j].value, tolerance);
    }
    if Disagree(rs, k, tolerance) {
      var i, j :| 0 <= i < j < |rs| && rs[i].key == k && rs[j].key == k
                  && !Within(rs[i].value, rs[j].value, tolerance);
      assert s[i].key == k && s[j].key == k && !Within(s[i].value, s[j].value, tolerance);
    }
  }

  /** Every input record is in the report once, unchanged but for its verdict and group, and nothing else is. */
  lemma RecordsCarried(records: seq<Record>, tolerance: real, splits: Splits)
    requires Validated(records, tolerance, splits).Ok?
    ensures var rs := Validated(records, tolerance, splits).value.records;
            && Strict(rs) && Carries(SortById(records), rs) && multiset(SortById(records)) == multiset(records)
  {
    hide SortById, AllFindings, GroupsOf, IssuesOf, Conflicting, GroupIdOf, IssueOfRecord;
    SortedById(records);
    var (s, rs) := (SortById(records), Validated(records, tolerance, splits).value.records);
    forall i, j | 0 <= i < j < |rs| ensures rs[i].id < rs[j].id { assert s[i].id < s[j].id; }
  }

  /** A record passes exactly when nothing is missing and the values of its key agree; otherwise it goes to review. */
  lemma VerdictMeans(records: seq<Record>, tolerance: real, splits: Splits, i: nat)
    requires Validated(records, tolerance, splits).Ok?
    requires i < |Validated(records, tolerance, splits).value.records|
    ensures var rs := Validated(records, tolerance, splits).value.records;
            rs[i].verdict == if Settled(rs[i]) && !Disagree(rs, rs[i].key, tolerance) then Pass else Review
  {
    RecordsCarried(records, tolerance, splits);
    hide SortById, AllFindings, GroupsOf, IssuesOf, GroupIdOf, Conflicting, IssueOfRecord, Disagree;
    var (s, rs) := (SortById(records), Validated(records, tolerance, splits).value.records);
    assert rs[i] == Revised(s, tolerance, s[i]);
    IssueMeans(s[i]);
    ConflictMeans(s, s[i].key, tolerance);
    CarriedAlike(s, rs, s[i].key, tolerance);
  }

  // ---- The blocking issues

  lemma {:induction false} RecordIssues(s: seq<Record>)
    ensures forall x :: x in IssuesOf(RecordFindings(s)) <==>
              x.RecordIssue? && exists i :: 0 <= i < |s| && Lacks(s[i], x.code)
  {
    if s == [] { return; }
    RecordIssues(Front(s));
    var last := Last(s);
    assert s == Front(s) + [last];
    IssueMeans(last);
    IssuesSnoc(RecordFindings(Front(s)), RecordChecked(last.id, IssueOfRecord(last)));
    hide IssuesOf, Lacks, IssueOfRecord;
    forall x ensures x in IssuesOf(RecordFindings(s)) <==>
        x.RecordIssue? && exists i :: 0 <= i < |s| && Lacks(s[i], x.code)
    {
      if x.RecordIssue? {
        if i :| 0 <= i < |Front(s)| && Lacks(Front(s)[i], x.code) { assert Lacks(s[i], x.code); }
        if Lacks(last, x.code) { assert Lacks(s[|s| - 1], x.code); }
      }
    }
  }

  lemma {:induction false} ConflictIssues(s: seq<Record>, ks: seq<nat>, tolerance: real)
    ensures forall x :: x in IssuesOf(ConflictFindings(s, ks, tolerance)) <==>
              x.DuplicateConflict? && x.key in ks && Conflicting(s, x.key, tolerance)
  {
    hide Conflicting, GroupIdOf;
    if ks == [] { return; }
    ConflictIssues(s, Front(ks), tolerance);
    assert ks == Front(ks) + [Last(ks)];
    IssuesSnoc(ConflictFindings(s, Front(ks), tolerance), ConflictFound(Last(ks), GroupIdOf(s, Last(ks)).members));
    hide IssuesOf;
  }

  lemma {:induction false} LeakIssues(code: LeakCode, tagged: seq<Record>, keyOf: Record -> nat, split: map<Id, nat>,
                                      ks: seq<nat>)
    ensures forall x :: x in IssuesOf(LeakFindings(code, tagged, keyOf, split, ks)) ==> x == Leakage(code)
  {
    if ks == [] { return; }
    LeakIssues(code, tagged, keyOf, split, Front(ks));
    var bucket := Members(tagged, keyOf, Last(ks));
    IssuesSnoc(LeakFindings(code, tagged, keyOf, split, Front(ks)), LeakFound(code, Last(ks), IdsOf(bucket)));
    hide IssuesOf, Members, Tags;
  }

  lemma LeakageIssue(s: seq<Record>, code: LeakCode, keyOf: Record -> nat, split: map<Id, nat>)
    ensures forall x :: x in IssuesOf(AllLeaks(s, code, keyOf, split)) <==>
              x == Leakage(code) && !NoLeak(s, keyOf, split)
  {
    AllLeaksIssues(s, code, keyOf, split);
    LeakIssues(code, Tagged(s, split), keyOf, split, Keys(Tagged(s, split), keyOf));
    hide IssuesOf, LeakFindings, NoLeak, Tagged, Keys;
  }

  lemma IdentityLeaks(s: seq<Record>, split: map<Id, nat>)
    ensures NoLeak(s, IDENTITY_KEY, split) <==> !IdentityCrosses(s, split)
  {
    if i, j :| 0 <= i < j < |s| && s[i].identity == s[j].identity && s[i].id in split && s[j].id in split
               && split[s[i].id] != split[s[j].id] {
      assert IDENTITY_KEY(s[i]) == s[i].identity && IDENTITY_KEY(s[j]) == s[i].identity;
      assert Leaks(s, IDENTITY_KEY, split, s[i].identity);
    }
  }

  lemma SourceLeaks(s: seq<Record>, split: map<Id, nat>)
    ensures NoLeak(s, SOURCE_KEY, split) <==> !SourceCrosses(s, split)
  {
    if i, j :| 0 <= i < j < |s| && s[i].source == s[j].source && s[i].id in split && s[j].id in split
               && split[s[i].id] != split[s[j].id] {
      assert SOURCE_KEY(s[i]) == s[i].source && SOURCE_KEY(s[j]) == s[i].source;
      assert Leaks(s, SOURCE_KEY, split, s[i].source);
    }
  }

  lemma CarriedCrossings(s: seq<Record>, rs: seq<Record>, split: map<Id, nat>)
    requires Carries(s, rs)
    ensures IdentityCrosses(rs, split) <==> IdentityCrosses(s, split)
    ensures SourceCrosses(rs, split) <==> SourceCrosses(s, split)
  {
    forall i | 0 <= i < |s| ensures s[i].id == rs[i].id && s[i].identity == rs[i].identity
        && s[i].source == rs[i].source {}
  }

  lemma CarriedLacks(s: seq<Record>, rs: seq<Record>, code: Code)
    requires Carries(s, rs)
    ensures (exists i :: 0 <= i < |rs| && Lacks(rs[i], code)) <==> (exists i :: 0 <= i < |s| && Lacks(s[i], code))
  {
    forall i | 0 <= i < |s| ensures Lacks(rs[i], code) <==> Lacks(s[i], code) {}
    hide Lacks;
  }

  /** What blocks a report, exactly: a record that lacks something, a key whose values disagree, and a crossing of
      explicit groups, each under its own code. */
  ghost predicate BlockedBy(rs: seq<Record>, tolerance: real, splits: Splits, x: Issue) {
    match x
    case RecordIssue(code) => exists i :: 0 <= i < |rs| && Lacks(rs[i], code)
    case DuplicateConflict(k) => Disagree(rs, k, tolerance)
    case Leakage(ExactIdentity) => IdentityCrosses(rs, splits.dataset)
    case Leakage(PaperSource) => SourceCrosses(rs, splits.paper)
    case Leakage(Scaffold) => IdentityCrosses(rs, splits.scaffold)
  }

  lemma IssueParts(s: seq<Record>, tolerance: real, splits: Splits)
    ensures IssuesOf(AllFindings(s, tolerance, splits)) ==
              IssuesOf(RecordFindings(s)) + IssuesOf(ConflictFindings(s, Keys(s, COMPARISON_KEY), tolerance))
              + IssuesOf(AllLeaks(s, ExactIdentity, IDENTITY_KEY, splits.dataset))
              + IssuesOf(AllLeaks(s, PaperSource, SOURCE_KEY, splits.paper))
              + IssuesOf(AllLeaks(s, Scaffold, IDENTITY_KEY, splits.scaffold))
  {
    hide RecordFindings, ConflictFindings, AllLeaks, Keys, IssuesOf;
    var (f, c) := (RecordFindings(s), ConflictFindings(s, Keys(s, COMPARISON_KEY), tolerance));
    var (x, y, z) := (AllLeaks(s, ExactIdentity, IDENTITY_KEY, splits.dataset),
                      AllLeaks(s, PaperSource, SOURCE_KEY, splits.paper),
                      AllLeaks(s, Scaffold, IDENTITY_KEY, splits.scaffold));
    IssuesAppend(f, c);
    IssuesAppend(f + c, x + y + z);
    IssuesAppend(x, y);
    IssuesAppend(x + y, z);
  }

  lemma KeyedConflicts(s: seq<Record>, tolerance: real, k: nat)
    requires Strict(s)
    ensures k in Keys(s, COMPARISON_KEY) && Conflicting(s, k, tolerance) <==> Disagree(s, k, tolerance)
  {
    ConflictMeans(s, k, tolerance);
    KeysComplete(s, COMPARISON_KEY);
    hide Conflicting, Within, Keys;
    if Disagree(s, k, tolerance) {
      var i, j :| 0 <= i < j < |s| && s[i].key == k && s[j].key == k && !Within(s[i].value, s[j].value, tolerance);
      assert COMPARISON_KEY(s[i]) in Keys(s, COMPARISON_KEY);
    }
  }

  lemma IssuesOfSorted(s: seq<Record>, tolerance: real, splits: Splits, x: Issue)
    requires Strict(s)
    ensures x in IssuesOf(AllFindings(s, tolerance, splits)) <==> BlockedBy(s, tolerance, splits, x)
  {
    hide AllFindings, IssuesOf, NoLeak, Disagree, Lacks, Conflicting, Keys, RecordFindings, ConflictFindings, AllLeaks,
        IdentityCrosses, SourceCrosses, Strict;
    IssueParts(s, tolerance, splits);
    RecordIssues(s);
    ConflictIssues(s, Keys(s, COMPARISON_KEY), tolerance);
    LeakageIssue(s, ExactIdentity, IDENTITY_KEY, splits.dataset);
    LeakageIssue(s, PaperSource, SOURCE_KEY, splits.paper);
    LeakageIssue(s, Scaffold, IDENTITY_KEY, splits.scaffold);
    match x
    case RecordIssue(code) =>
    case DuplicateConflict(k) => KeyedConflicts(s, tolerance, k);
    case Leakage(ExactIdentity) => IdentityLeaks(s, splits.dataset);
    case Leakage(PaperSource) => SourceLeaks(s, splits.paper);
    case Leakage(Scaffold) => IdentityLeaks(s, splits.scaffold);
  }

  /** The report is blocked by exactly these issues. */
  lemma IssuesMean(records: seq<Record>, tolerance: real, splits: Splits, x: Issue)
    requires Validated(records, tolerance, splits).Ok?
    ensures var report := Validated(records, tolerance, splits).value;
            x in report.issues <==> BlockedBy(report.records, tolerance, splits, x)
  {
    RecordsCarried(records, tolerance, splits);
    var (s, report) := (SortById(records), Validated(records, tolerance, splits).value);
    assert report.issues == IssuesOf(AllFindings(s, tolerance, splits)) && Strict(s);
    hide Validated, SortById, AllFindings, IssuesOf, Disagree, Lacks, IdentityCrosses, SourceCrosses, Strict, Carries;
    IssuesOfSorted(s, tolerance, splits, x);
    match x
    case RecordIssue(code) => CarriedLacks(s, report.records, code);
    case DuplicateConflict(k) => CarriedAlike(s, report.records, k, tolerance);
    case Leakage(ExactIdentity) => CarriedCrossings(s, report.records, splits.dataset);
    case Leakage(PaperSource) => CarriedCrossings(s, report.records, splits.paper);
    case Leakage(Scaffold) => CarriedCrossings(s, report.records, splits.scaffold);
  }

  // ---- The duplicate groups

  /** A group names its first record the primary or the candidate of a conflict, and the others accordingly. */
  predicate Classified(g: Group, conflict: bool) {
    && |g.classes| == |g.id.members| && g.verdict == (if conflict then Review else Pass)
    && forall i :: 0 <= i < |g.classes| ==>
         g.classes[i] == if conflict then (if i == 0 then ConflictCandidate else ConflictingDuplicate)
                         else if i == 0 then Primary else ConsistentDuplicate
  }

  /** A group goes to review exactly when two values of its key disagree. */
  lemma GroupMeans(records: seq<Record>, tolerance: real, splits: Splits, g: Group)
    requires Validated(records, tolerance, splits).Ok? && g in Validated(records, tolerance, splits).value.groups
    ensures Classified(g, Disagree(Validated(records, tolerance, splits).value.records, g.id.key, tolerance))
  {
    RecordsCarried(records, tolerance, splits);
    var (s, report) := (SortById(records), Validated(records, tolerance, splits).value);
    var k :| k in Keys(s, COMPARISON_KEY) && g == GroupOf(s, k, tolerance);
    assert Strict(s);
    hide SortById, AllFindings, GroupsOf, IssuesOf, Conflicting, Members, Disagree, Validated;
    ConflictMeans(s, k, tolerance);
    CarriedAlike(s, report.records, k, tolerance);
  }

  // ---- The findings, in their order

  predicate StrictlyAscending(ks: seq<nat>) { forall i, j :: 0 <= i < j < |ks| ==> ks[i] < ks[j] }

  lemma {:induction false} InsertKeyAscending(k: nat, ks: seq<nat>)
    requires StrictlyAscending(ks)
    ensures StrictlyAscending(InsertKey(k, ks))
  {
    InsertKeyMembers(k, ks);
    if ks != [] && k > ks[0] {
      InsertKeyAscending(k, ks[1..]);
      InsertKeyMembers(k, ks[1..]);
      var rest := InsertKey(k, ks[1..]);
      forall j | 0 <= j < |rest| ensures ks[0] < rest[j] { assert rest[j] in rest; }
    }
  }

  /** The keys are taken up in ascending order, each once. */
  lemma {:induction false} KeysAscending(s: seq<Record>, keyOf: Record -> nat)
    ensures StrictlyAscending(Keys(s, keyOf))
  {
    if s == [] { return; }
    KeysAscending(Front(s), keyOf);
    InsertKeyAscending(keyOf(Last(s)), Keys(Front(s), keyOf));
  }

  /** The conflicts are reported in the order of their keys, each once. */
  predicate ConflictsInOrder(fs: seq<Finding>, s: seq<Record>, tolerance: real) {
    && (forall i :: 0 <= i < |fs| ==>
          fs[i].ConflictFound? && Disagree(s, fs[i].key, tolerance)
          && fs[i].ids == IdsOf(Members(s, COMPARISON_KEY, fs[i].key)))
    && (forall i, j :: 0 <= i < j < |fs| ==> fs[i].ConflictFound? && fs[j].ConflictFound? && fs[i].key < fs[j].key)
  }

  lemma {:induction false} ConflictsOrdered(s: seq<Record>, ks: seq<nat>, tolerance: real)
    requires Strict(s) && StrictlyAscending(ks)
    ensures ConflictsInOrder(ConflictFindings(s, ks, tolerance), s, tolerance)
    ensures forall f :: f in ConflictFindings(s, ks, tolerance) ==> f.ConflictFound? && f.key in ks
  {
    hide Conflicting, Disagree, Strict, Members, IdsOf;
    if ks == [] { return; }
    var (front, k) := (Front(ks), Last(ks));
    assert ks == front + [k];
    ConflictsOrdered(s, front, tolerance);
    ConflictMeans(s, k, tolerance);
    var before := ConflictFindings(s, front, tolerance);
    forall i | 0 <= i < |before| ensures before[i].ConflictFound? && before[i].key < k {
      assert before[i] in before;
      var j :| 0 <= j < |front| && front[j] == before[i].key;
      assert ks[j] < ks[|ks| - 1];
    }
  }

  lemma {:induction false} RecordsFirst(s: seq<Record>)
    ensures |RecordFindings(s)| == |s|
    ensures forall i :: 0 <= i < |s| ==>
              && RecordFindings(s)[i].RecordChecked? && RecordFindings(s)[i].id == s[i].id
              && (RecordFindings(s)[i].code.None? <==> Settled(s[i]))
              && (RecordFindings(s)[i].code.Some? ==> Lacks(s[i], RecordFindings(s)[i].code.value))
  {
    if s == [] { return; }
    RecordsFirst(Front(s));
    IssueMeans(Last(s));
    hide IssueOfRecord, Lacks, Settled;
    assert forall i :: 0 <= i < |s| - 1 ==> Front(s)[i] == s[i];
  }

  /** The findings begin with one for each record, in their order and with the first thing it lacks, and go on with one
      for each key whose values disagree, in the order of the keys. */
  lemma FindingsMean(records: seq<Record>, tolerance: real, splits: Splits)
    returns (conflicts: seq<Finding>, leaks: seq<Finding>)
    requires Validated(records, tolerance, splits).Ok?
    ensures var (report, s) := (Validated(records, tolerance, splits).value, SortById(records));
            && report.findings == RecordFindings(s) + conflicts + leaks && |RecordFindings(s)| == |report.records|
            && (forall i :: 0 <= i < |s| ==>
                  && report.findings[i].RecordChecked? && report.findings[i].id == report.records[i].id
                  && (report.findings[i].code.None? <==> Settled(report.records[i]))
                  && (report.findings[i].code.Some? ==> Lacks(report.records[i], report.findings[i].code.value)))
            && ConflictsInOrder(conflicts, s, tolerance)
            && (forall k :: Disagree(s, k, tolerance) <==> exists f :: f in conflicts && f.ConflictFound? && f.key == k)
  {
    RecordsCarried(records, tolerance, splits);
    var s := SortById(records);
    RecordsFirst(s);
    KeysAscending(s, COMPARISON_KEY);
    var ks := Keys(s, COMPARISON_KEY);
    ConflictsOrdered(s, ks, tolerance);
    conflicts, leaks := ConflictFindings(s, ks, tolerance), Leakages(s, splits);
    hide SortById, RecordFindings, ConflictFindings, Leakages, GroupsOf, IssuesOf, Conflicting, Strict, Keys,
        RevisedAll, Disagree, Lacks, Settled, ConflictsInOrder;
    CarriedFlags(s, Validated(records, tolerance, splits).value.records);
    forall k ensures Disagree(s, k, tolerance) <==> exists f :: f in conflicts && f.ConflictFound? && f.key == k {
      KeyedConflicts(s, tolerance, k);
      ConflictListed(s, ks, tolerance, k);
    }
  }

  lemma CarriedFlags(s: seq<Record>, rs: seq<Record>)
    requires Carries(s, rs)
    ensures forall i :: 0 <= i < |s| ==> s[i].id == rs[i].id && (Settled(s[i]) <==> Settled(rs[i]))
    ensures forall i, code :: 0 <= i < |s| ==> (Lacks(s[i], code) <==> Lacks(rs[i], code))
  {}

  lemma {:induction false} ConflictListed(s: seq<Record>, ks: seq<nat>, tolerance: real, k: nat)
    ensures (exists f :: f in ConflictFindings(s, ks, tolerance) && f.ConflictFound? && f.key == k) <==>
              k in ks && Conflicting(s, k, tolerance)
  {
    hide Conflicting, GroupIdOf;
    if ks == [] { return; }
    ConflictListed(s, Front(ks), tolerance, k);
    assert ks == Front(ks) + [Last(ks)];
    var (before, all) := (ConflictFindings(s, Front(ks), tolerance), ConflictFindings(s, ks, tolerance));
    if f :| f in before && f.ConflictFound? && f.key == k { assert f in all; }
    if k == Last(ks) && Conflicting(s, k, tolerance) { assert Last(all) in all; }
  }
}
