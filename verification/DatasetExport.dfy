/** From a validation report to exported rows: the review bundle and the export gate
    (src/molly/evidence/review.py:57-60, 149-177, src/molly/evidence/dataset.py:121-171).
    A bundle's artifact id is represented by the bundle it digests. */
module DatasetExport {
  import opened RunEvents
  import opened Validation
  import opened ReportMeaning

  /** What the digests of a candidate bundle and of a mapping result identify. */
  datatype Origin = Origin(candidates: nat, mapping: nat)

  datatype SourcedReport = SourcedReport(origin: Origin, report: Report)

  datatype Bundle = Bundle(documents: seq<nat>, origin: Origin, records: seq<Record>, groups: set<Group>,
      issues: set<Issue>)

  datatype ReviewDecision = Approved | Rejected | NeedsRevision

  /** A human review of exactly one bundle. */
  datatype ReviewRecord = ReviewRecord(bundle: Bundle, decision: ReviewDecision)

  datatype Row = Row(id: Id, key: nat, value: Option<real>, bundle: Bundle)

  datatype ExportError = NotBound | NotApproved | Blocked | NotPassed

  datatype BuildError = WrongInputs | DocumentMissing

  /** `ReviewBundleBuilder.build`, for the document the candidates were extracted from. */
  function Build(documents: seq<nat>, candidates: nat, document: nat, mapping: nat,
                 validated: SourcedReport): Result<Bundle, BuildError> {
    if validated.origin != Origin(candidates, mapping) then Err(WrongInputs)
    else if document !in documents then Err(DocumentMissing)
    else Ok(Bundle(documents, validated.origin, validated.report.records, validated.report.groups,
        validated.report.issues))
  }

  /** A bundle is built exactly from a report about these candidates and this mapping, with the document they were
      extracted from among its documents. */
  lemma BuildAccepts(documents: seq<nat>, candidates: nat, document: nat, mapping: nat, validated: SourcedReport)
    ensures var r := Build(documents, candidates, document, mapping, validated);
            && (r.Ok? <==> validated.origin.candidates == candidates && validated.origin.mapping == mapping
                           && exists i :: 0 <= i < |documents| && documents[i] == document)
            && (r.Ok? ==>
                  && r.value.documents == documents && r.value.origin.candidates == candidates
                  && r.value.origin.mapping == mapping && r.value.records == validated.report.records
                  && r.value.groups == validated.report.groups && r.value.issues == validated.report.issues)
  {}

  function RowsOf(b: Bundle, rs: seq<Record>): (rows: seq<Row>)
    ensures |rows| == |rs| && forall i :: 0 <= i < |rs| ==> rows[i] == Row(rs[i].id, rs[i].key, rs[i].value, b)
  { seq(|rs|, i requires 0 <= i < |rs| => Row(rs[i].id, rs[i].key, rs[i].value, b)) }

  /** Does the gate let this bundle through? */
  predicate Exportable(b: Bundle, review: ReviewRecord) {
    && review.bundle == b && review.decision == ReviewDecision.Approved && b.issues == {}
    && forall i :: 0 <= i < |b.records| ==> b.records[i].verdict == Pass
  }

  /** `export`: the gate, then one row per record, by id. */
  method Export(b: Bundle, review: ReviewRecord) returns (r: Result<seq<Row>, ExportError>)
    ensures r.Ok? <==> Exportable(b, review)
    ensures r.Ok? ==> r.value == RowsOf(b, SortById(b.records))
    ensures r == Err(NotBound) <==> review.bundle != b
    ensures r == Err(Blocked) <==> review.bundle == b && review.decision == ReviewDecision.Approved && b.issues != {}
  {
    if review.bundle != b { return Err(NotBound); }
    if review.decision != ReviewDecision.Approved { return Err(NotApproved); }
    if b.issues != {} { return Err(Blocked); }
    for i := 0 to |b.records|
      invariant forall k :: 0 <= k < i ==> b.records[k].verdict == Pass
    {
      if b.records[i].verdict != Pass { return Err(NotPassed); }
    }
    var ordered := SortById(b.records);
    var rows: seq<Row> := [];
    for i := 0 to |ordered|
      invariant rows == RowsOf(b, ordered)[..i]
    {
      rows := rows + [Row(ordered[i].id, ordered[i].key, ordered[i].value, b)];
    }
    r := Ok(rows);
  }

  lemma RevisedStrict(records: seq<Record>, tolerance: real, splits: Splits)
    requires Validated(records, tolerance, splits).Ok?
    ensures var rs := Validated(records, tolerance, splits).value.records;
            Strict(rs) && SortById(rs) == rs
  {
    hide SortById, AllFindings, GroupsOf, IssuesOf, Conflicting, GroupIdOf;
    var s := SortById(records);
    var rs := Validated(records, tolerance, splits).value.records;
    forall i, j | 0 <= i < j < |rs| ensures rs[i].id < rs[j].id { assert s[i].id < s[j].id; }
    SortedById(rs);
    StrictIsUnique(rs, SortById(rs));
  }

  /** For a bundle built from a validation report the gate is exactly approval of a passing report. */
  lemma GateIffApprovedAndPassing(records: seq<Record>, tolerance: real, splits: Splits, documents: seq<nat>,
                                  candidates: nat, document: nat,
                                  mapping: nat, review: ReviewRecord)
    requires Validated(records, tolerance, splits).Ok?
    requires Build(documents, candidates, document, mapping,
               SourcedReport(Origin(candidates, mapping), Validated(records, tolerance, splits).value)).Ok?
    ensures var report := Validated(records, tolerance, splits).value;
            var b := Build(documents, candidates, document, mapping,
                SourcedReport(Origin(candidates, mapping), report)).value;
            Exportable(b, review) <==>
              review.bundle == b && review.decision == ReviewDecision.Approved && Passes(report)
  {
    PassesIff(records, tolerance, splits);
  }

  /** Any two rows exported from one validation with the same comparison key have values within the tolerance. */
  lemma ExportedRowsAgree(records: seq<Record>, tolerance: real, splits: Splits, documents: seq<nat>, candidates: nat,
                          document: nat,
                          mapping: nat, review: ReviewRecord, i: nat, j: nat)
    requires Validated(records, tolerance, splits).Ok?
    requires Build(documents, candidates, document, mapping,
               SourcedReport(Origin(candidates, mapping), Validated(records, tolerance, splits).value)).Ok?
    requires var b := Build(documents, candidates, document, mapping,
                            SourcedReport(Origin(candidates, mapping),
                                Validated(records, tolerance, splits).value)).value;
             var rows := RowsOf(b, SortById(b.records));
             Exportable(b, review) && i < |rows| && j < |rows| && i != j && rows[i].key == rows[j].key
    ensures var b := Build(documents, candidates, document, mapping,
                           SourcedReport(Origin(candidates, mapping),
                               Validated(records, tolerance, splits).value)).value;
            var rows := RowsOf(b, SortById(b.records));
            rows[i].id != rows[j].id && Close(rows[i].value, rows[j].value, tolerance)
  {
    hide Validated, SortById, Close;
    RevisedStrict(records, tolerance, splits);
    PassingGroupsAgree(records, tolerance, splits, i, j);
  }

  /** The record of this row, among those that were validated. */
  predicate Stems(row: Row, r: Record) { row.id == r.id && row.key == r.key && row.value == r.value && Settled(r) }

  /** Every exported row stems from a validated record with a resolved identity, a normalized property, a known
      condition and evidence. */
  lemma ExportedRowsComplete(records: seq<Record>, tolerance: real, splits: Splits, documents: seq<nat>,
                             candidates: nat, document: nat, mapping: nat, review: ReviewRecord, i: nat)
    requires Validated(records, tolerance, splits).Ok?
    requires Build(documents, candidates, document, mapping,
               SourcedReport(Origin(candidates, mapping), Validated(records, tolerance, splits).value)).Ok?
    requires var b := Build(documents, candidates, document, mapping,
                            SourcedReport(Origin(candidates, mapping),
                                Validated(records, tolerance, splits).value)).value;
             Exportable(b, review) && i < |RowsOf(b, SortById(b.records))|
    ensures var b := Build(documents, candidates, document, mapping,
                           SourcedReport(Origin(candidates, mapping),
                               Validated(records, tolerance, splits).value)).value;
            exists r :: r in records && Stems(RowsOf(b, SortById(b.records))[i], r)
  {
    RevisedStrict(records, tolerance, splits);
    RecordsCarried(records, tolerance, splits);
    var (s, rs) := (SortById(records), Validated(records, tolerance, splits).value.records);
    hide Validated, SortById, Disagree, Strict;
    VerdictMeans(records, tolerance, splits, i);
    SameMembers(s, records);
    assert s[i] in s && s[i] in records && rs[i].(verdict := s[i].verdict, group := s[i].group) == s[i];
  }
}
