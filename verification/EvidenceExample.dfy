/** A run in which everything happens: an actual, a variance and a calibration are recorded and reviewed with any
    decisions, and the actual is superseded. The theorems are therefore about states that occur. */
module EvidenceExample {
  import opened Json
  import opened EvidenceTables
  import opened RowGuards
  import opened DeferredChecks
  import opened Transactions
  import opened EvidenceHistory
  import opened EvidenceInvariant
  import opened EvidenceProgress
  import opened EvidenceRecording
  import opened EvidenceSupersession
  import opened EvidenceTheorems

  // ----- policies and releases -----

  function Approval(draft: Version, approver: string, at: int): Version {
    draft.(status := Approved, approvedBy := Val(Plain(approver)), approvedAt := Val(at))
  }

  /** A draft version enters and is approved by anybody with a name that does not start or end with a space. */
  lemma ApprovalCommits(db: Db, id: Text, draft: Version, approver: string, at: int)
    requires id !in db.versions && draft.status == Draft && draft.approvedBy.Null? && draft.approvedAt.Null?
    requires approver != "" && approver[0] != ' ' && approver[|approver| - 1] != ' '
    ensures var s := [InsertVersion(id, draft), UpdateVersion(id, Approval(draft, approver, at))];
            Commits(db, s) && Transact(db, s) == db.(versions := db.versions[id := Approval(draft, approver, at)])
  {
    var s := [InsertVersion(id, draft), UpdateVersion(id, Approval(draft, approver, at))];
    var middle := db.(versions := db.versions[id := draft]);
    var after := db.(versions := db.versions[id := Approval(draft, approver, at)]);
    assert Apply(db, s[0]) == Done(middle, []);
    assert Apply(middle, s[1]) == Done(after, []) by {
      assert middle.versions[id := Approval(draft, approver, at)] == after.versions;
    }
    hide Apply;
    assert s[..2] == s && s[..0] == [];
    assert ApplyAll(db, s[..0]) == Done(db, []);
    OneMore(db, s, 0, db, [], middle, []);
    OneMore(db, s, 1, middle, [] + [], after, []);
  }

  lemma ReleaseCommits(db: Db, id: Text, release: Release)
    requires id !in db.releases
    ensures Commits(db, [InsertRelease(id, release)])
    ensures Transact(db, [InsertRelease(id, release)]) == db.(releases := db.releases[id := release])
  {
    var s := [InsertRelease(id, release)];
    assert Apply(db, s[0]) == Done(db.(releases := db.releases[id := release]), []);
    hide Apply;
    assert s[..1] == s && s[..0] == [];
    assert ApplyAll(db, s[..0]) == Done(db, []);
    OneMore(db, s, 0, db, [], db.(releases := db.releases[id := release]), []);
  }

  // ----- the run -----

  const DRAFT := Version(ActualsPolicy, Plain("v1"), Plain("content"), map[], Draft, Null, Null)
  const POLICY := Approval(DRAFT, "owner", 0)
  const RELEASE := Release(Plain("project"), Val(Plain("snapshot")), true, ApprovedForBid, ApprovedForBid)

  const ACTUAL := ActualBasis(Plain("actual"), Plain("project"), Plain("key"), Plain("line"), Plain("line-1"), Plain("cost"), 1.0,
                              Plain("unit"), Plain("observation"), 0, Null, 0)
  const VARIANCE := VarianceBasis(Plain("variance"), Plain("project"), Plain("actual"), Plain("snapshot"), Plain("cost"),
                                  Plain("reason"), 0.0, Null, Plain("author"), 0)
  const CALIBRATION := CalibrationBasis(Plain("calibration"), Plain("project"), Plain("actual"), Plain("variance"),
                                        Plain("snapshot"), Plain("cost"), 1.0, Plain("unit"), 0)

  function EntryFor(task: string, audit: string): Entry {
    Entry(Plain(task), Plain(audit), Plain("author"), Plain("role"), Plain("policy"), Plain("content"), Plain("submission"),
          Plain("release"), 0)
  }

  function ReviewFor(record: string, audit: string, decision: Text): Review {
    Review(Plain(record), Plain(audit), decision, Plain("reviewer"), Plain("now"), Plain("sound"), 1)
  }

  const E1 := EntryFor("task-1", "created-1")
  const E2 := EntryFor("task-2", "created-2")
  const E3 := EntryFor("task-3", "created-3")
  const STAMP := Stamp(Plain("later"), Plain("actual-2"), Plain("corrected"), 2)

  function V1(d: Text): Review { ReviewFor("record-1", "reviewed-1", d) }
  function V2(d: Text): Review { ReviewFor("record-2", "reviewed-2", d) }
  function V3(d: Text): Review { ReviewFor("record-3", "reviewed-3", d) }

  function Recorded(db: Db, basis: Basis, e: Entry, v: Review): Db {
    AfterReview(AfterRecording(db, basis, e), EntryRow(basis, e), EntryTask(basis, e), v)
  }

  function Documents(basis: Basis, e: Entry, v: Review): seq<seq<Statement>> {
    [Recording(basis, e), Reviewing(EntryRow(basis, e), EntryTask(basis, e), v)]
  }

  const SETUP := [[InsertVersion(Plain("policy"), DRAFT), UpdateVersion(Plain("policy"), POLICY)],
                  [InsertRelease(Plain("release"), RELEASE)]]

  const START := EmptyDb.(versions := map[Plain("policy") := POLICY], releases := map[Plain("release") := RELEASE])

  function WithActual(d: Text): Db {
    Recorded(START, ACTUAL, E1, V1(d))
  }

  function WithVariance(d: Text, d2: Text): Db {
    Recorded(WithActual(d), VARIANCE, E2, V2(d2))
  }

  function WithCalibration(d: Text, d2: Text, d3: Text): Db {
    Recorded(WithVariance(d, d2), CALIBRATION, E3, V3(d3))
  }

  lemma {:induction false} RunAppends(db: Db, a: seq<seq<Statement>>, b: seq<seq<Statement>>)
    ensures Run(db, a + b) == Run(Run(db, a), b)
    decreases |b|
  {
    hide Transact;
    if b == [] {
      assert a + b == a;
    } else {
      var n := |b| - 1;
      assert (a + b)[..|a + b| - 1] == a + b[..n];
      RunAppends(db, a, b[..n]);
    }
  }

  lemma SetupRuns()
    ensures Run(EmptyDb, SETUP) == START
  {
    ApprovalCommits(EmptyDb, Plain("policy"), DRAFT, "owner", 0);
    var middle := EmptyDb.(versions := map[Plain("policy") := POLICY]);
    ReleaseCommits(middle, Plain("release"), RELEASE);
    hide Transact, Commits;
    assert SETUP[..1] == [SETUP[0]] && SETUP[..1][..0] == [];
    assert Run(EmptyDb, []) == EmptyDb;
    assert Run(EmptyDb, SETUP[..1]) == middle;
  }

  lemma TwoRuns(db: Db, basis: Basis, e: Entry, v: Review)
    requires Transact(db, Recording(basis, e)) == AfterRecording(db, basis, e)
    requires var w := AfterRecording(db, basis, e);
             var s := Reviewing(EntryRow(basis, e), EntryTask(basis, e), v);
             Transact(w, s) == AfterReview(w, EntryRow(basis, e), EntryTask(basis, e), v)
    ensures Run(db, Documents(basis, e, v)) == Recorded(db, basis, e, v)
  {
    hide Transact, AfterReview, AfterRecording, Recording, Reviewing, EntryRow, EntryTask;
    var s := Documents(basis, e, v);
    assert s[..1] == [s[0]] && s[..1][..0] == [];
    assert Run(db, []) == db;
  }

  /** What a recorded and reviewed row adds to the tables. */
  lemma DocumentedTables(db: Db, basis: Basis, e: Entry, v: Review)
    ensures var w := Recorded(db, basis, e, v);
            && w.versions == db.versions && w.releases == db.releases
            && w.tasks == db.tasks[e.taskId := DecidedTask(EntryTask(basis, e), v)]
            && w.records == db.records[v.recordId := RecordOf(EntryTask(basis, e), v)]
            && w.rows == db.rows[KeyOfBasis(basis) := ReviewedRow(EntryRow(basis, e), v)]
            && w.audits == db.audits[e.auditId := EntryAudit(basis, e)][v.auditId := ReviewAudit(EntryRow(basis, e), v)]
            && ReviewedRow(EntryRow(basis, e), v).basis == basis
  {
    assert EntryTask(basis, e).basis.id == e.taskId && EntryRow(basis, e).KeyOf() == KeyOfBasis(basis);
    hide ReviewedRow, EntryAudit, ReviewAudit, EntryRow, Row.KeyOf;
    assert ReviewedRow(EntryRow(basis, e), v).basis == basis by { ReviewedBasis(basis, e, v); }
  }

  lemma ReviewedBasis(basis: Basis, e: Entry, v: Review)
    ensures ReviewedRow(EntryRow(basis, e), v).basis == basis
  {
  }

  /** Of the two events only the review names its record, and each names its own row. */
  lemma EventTexts(basis: Basis, e: Entry, v: Review)
    ensures var c, a := EntryAudit(basis, e), ReviewAudit(EntryRow(basis, e), v);
            && TextAt(c.payload, KApprovalId) == Null && TextAt(a.payload, KApprovalId) == Val(v.recordId)
            && c.eventType == WordsOf(basis).created && a.eventType == WordsOf(basis).reviewed
  {
  }

  /** One recorded and reviewed row more. */
  lemma Reaches(db: Db, basis: Basis, e: Entry, v: Review)
    requires Recordable(db, basis, e) && v.decision in {Approved, Rejected} && v.updatedAt > e.at
    requires v.reviewer != Author(basis, e) && v.recordId !in db.records && v.auditId !in db.audits && v.auditId != e.auditId
    requires forall x :: x in db.audits ==> TextAt(db.audits[x].payload, KApprovalId) != Val(v.recordId)
    ensures Run(db, Documents(basis, e, v)) == Recorded(db, basis, e, v) && Settled(Recorded(db, basis, e, v))
  {
    hide Settled, HasPlace, TextAt, AfterRecording, AfterReview, EntryRow, EntryTask, Recording, Reviewing, Commits, Transact,
         Evolves, Recorded, Documents, WordsOf, KeyOfBasis;
    assert Settled(db);
    hide Recordable;
    RecordedAndReviewed(db, basis, e, v);
    TwoRuns(db, basis, e, v);
    RunSettles(db, Documents(basis, e, v));
  }

  lemma ActualRecordable()
    ensures Recordable(START, ACTUAL, E1)
  {
    StartSettled();
    hide Settled, TextAt, WordsOf;
  }

  lemma ActualReachable(d: Text)
    requires d in {Approved, Rejected}
    ensures Run(START, Documents(ACTUAL, E1, V1(d))) == WithActual(d) && Settled(WithActual(d))
  {
    hide Settled, Recordable, Recorded, Documents;
    ActualRecordable();
    Reaches(START, ACTUAL, E1, V1(d));
  }

  lemma StartSettled()
    ensures Settled(START)
  {
    SetupRuns();
    hide Settled;
    RunFromEmpty(SETUP);
  }

  lemma ActualTables(d: Text)
    ensures var w := WithActual(d);
            && w.versions == START.versions && w.releases == START.releases
            && w.tasks.Keys == {Plain("task-1")} && w.records.Keys == {Plain("record-1")}
            && w.rows.Keys == {RowKey(Actuals, Plain("actual"))} && w.rows[RowKey(Actuals, Plain("actual"))].basis == ACTUAL
            && w.audits.Keys == {Plain("created-1"), Plain("reviewed-1")}
            && w.audits[Plain("created-1")] == EntryAudit(ACTUAL, E1)
            && w.audits[Plain("reviewed-1")] == ReviewAudit(EntryRow(ACTUAL, E1), V1(d))
  {
    DocumentedTables(START, ACTUAL, E1, V1(d));
    hide Recorded, EntryAudit, ReviewAudit, EntryRow, ReviewedRow, DecidedTask, RecordOf;
  }

  /** No event tells of the new row yet, and none of the new record. */
  ghost predicate Untold(db: Db, basis: Basis, r: Text) {
    forall x :: x in db.audits ==>
      && (db.audits[x].eventType != WordsOf(basis).created || TextAt(db.audits[x].payload, WordsOf(basis).idKey) != Val(basis.id))
      && TextAt(db.audits[x].payload, KApprovalId) != Val(r)
  }

  lemma VarianceUntold(d: Text)
    ensures Untold(WithActual(d), VARIANCE, Plain("record-2"))
  {
    hide TextAt, WithActual, EntryAudit, ReviewAudit, EntryRow;
    ActualTables(d);
    EventTexts(ACTUAL, E1, V1(d));
  }

  lemma VariancePlace(d: Text)
    ensures HasPlace(WithActual(d), VARIANCE, E2)
  {
    hide WithActual, EntryAudit, ReviewAudit, EntryRow;
    ActualTables(d);
  }

  lemma VarianceRecordable(d: Text)
    requires d in {Approved, Rejected}
    ensures Recordable(WithActual(d), VARIANCE, E2)
  {
    hide Settled, TextAt, WithActual, EntryAudit, ReviewAudit, EntryRow, HasPlace, WordsOf;
    ActualReachable(d);
    ActualTables(d);
    VarianceUntold(d);
    VariancePlace(d);
  }

  lemma ActualIds(d: Text)
    ensures Plain("record-2") !in WithActual(d).records && Plain("reviewed-2") !in WithActual(d).audits
  {
    hide WithActual, EntryAudit, ReviewAudit, EntryRow;
    ActualTables(d);
  }

  lemma VarianceReachable(d: Text, d2: Text)
    requires d in {Approved, Rejected} && d2 in {Approved, Rejected}
    ensures Run(WithActual(d), Documents(VARIANCE, E2, V2(d2))) == WithVariance(d, d2) && Settled(WithVariance(d, d2))
  {
    hide Settled, Recordable, Recorded, Documents, WithActual, TextAt, EntryAudit, ReviewAudit, EntryRow, WordsOf;
    VarianceRecordable(d);
    VarianceUntold(d);
    ActualIds(d);
    Reaches(WithActual(d), VARIANCE, E2, V2(d2));
  }

  lemma VarianceTables(d: Text, d2: Text)
    ensures var w, k := WithVariance(d, d2), RowKey(Variances, Plain("variance"));
            && w.versions == START.versions && w.releases == START.releases
            && w.tasks.Keys == {Plain("task-1"), Plain("task-2")} && w.records.Keys == {Plain("record-1"), Plain("record-2")}
            && w.rows.Keys == {RowKey(Actuals, Plain("actual")), k}
            && w.rows[RowKey(Actuals, Plain("actual"))].basis == ACTUAL && w.rows[k].basis == VARIANCE
            && w.rows[k] == ReviewedRow(EntryRow(VARIANCE, E2), V2(d2))
            && w.audits.Keys == {Plain("created-1"), Plain("reviewed-1"), Plain("created-2"), Plain("reviewed-2")}
            && w.audits[Plain("created-1")] == EntryAudit(ACTUAL, E1)
            && w.audits[Plain("reviewed-1")] == ReviewAudit(EntryRow(ACTUAL, E1), V1(d))
            && w.audits[Plain("created-2")] == EntryAudit(VARIANCE, E2)
            && w.audits[Plain("reviewed-2")] == ReviewAudit(EntryRow(VARIANCE, E2), V2(d2))
  {
    ActualTables(d);
    DocumentedTables(WithActual(d), VARIANCE, E2, V2(d2));
    hide Recorded, EntryAudit, ReviewAudit, EntryRow, ReviewedRow, DecidedTask, RecordOf, WithActual;
  }

  lemma VarianceRelease(d2: Text)
    ensures TextAt(ReviewedRow(EntryRow(VARIANCE, E2), V2(d2)).payload, KReleasedByDecisionId) == Val(Plain("release"))
  {
  }

  lemma CalibrationUntold(d: Text, d2: Text)
    ensures Untold(WithVariance(d, d2), CALIBRATION, Plain("record-3"))
  {
    hide TextAt, WithVariance, EntryAudit, ReviewAudit, EntryRow, ReviewedRow;
    VarianceTables(d, d2);
    EventTexts(ACTUAL, E1, V1(d));
    EventTexts(VARIANCE, E2, V2(d2));
  }

  lemma CalibrationPlace(d: Text, d2: Text)
    ensures HasPlace(WithVariance(d, d2), CALIBRATION, E3)
  {
    hide TextAt, WithVariance, EntryAudit, ReviewAudit, EntryRow, ReviewedRow;
    VarianceTables(d, d2);
    VarianceRelease(d2);
  }

  lemma CalibrationRecordable(d: Text, d2: Text)
    requires d in {Approved, Rejected} && d2 in {Approved, Rejected}
    ensures Recordable(WithVariance(d, d2), CALIBRATION, E3)
  {
    hide Settled, TextAt, WithVariance, EntryAudit, ReviewAudit, EntryRow, ReviewedRow, HasPlace, WordsOf;
    VarianceReachable(d, d2);
    VarianceTables(d, d2);
    CalibrationUntold(d, d2);
    CalibrationPlace(d, d2);
  }

  lemma VarianceIds(d: Text, d2: Text)
    ensures var w := WithVariance(d, d2);
            Plain("record-3") !in w.records && Plain("reviewed-3") !in w.audits
  {
    hide WithVariance, EntryAudit, ReviewAudit, EntryRow, ReviewedRow;
    VarianceTables(d, d2);
  }

  lemma CalibrationReachable(d: Text, d2: Text, d3: Text)
    requires d in {Approved, Rejected} && d2 in {Approved, Rejected} && d3 in {Approved, Rejected}
    ensures Run(WithVariance(d, d2), Documents(CALIBRATION, E3, V3(d3))) == WithCalibration(d, d2, d3)
    ensures Settled(WithCalibration(d, d2, d3))
  {
    hide Settled, Recordable, Recorded, Documents, WithVariance, TextAt, EntryAudit, ReviewAudit, EntryRow, ReviewedRow, WordsOf;
    CalibrationRecordable(d, d2);
    CalibrationUntold(d, d2);
    VarianceIds(d, d2);
    Reaches(WithVariance(d, d2), CALIBRATION, E3, V3(d3));
  }

  /** An actual, a variance and a calibration, each approved or rejected, all by committed transactions. */
  lemma EverythingIsReachable(d: Text, d2: Text, d3: Text)
    requires d in {Approved, Rejected} && d2 in {Approved, Rejected} && d3 in {Approved, Rejected}
    ensures var run := SETUP + Documents(ACTUAL, E1, V1(d)) + Documents(VARIANCE, E2, V2(d2)) + Documents(CALIBRATION, E3, V3(d3));
            var rows := Run(EmptyDb, run).rows;
            && RowKey(Actuals, Plain("actual")) in rows && RowKey(Variances, Plain("variance")) in rows
            && RowKey(Calibrations, Plain("calibration")) in rows
            && rows[RowKey(Actuals, Plain("actual"))].flag == (d == Approved)
            && rows[RowKey(Variances, Plain("variance"))].Status() == Val(if d2 == Approved then Verified else Rejected)
            && rows[RowKey(Calibrations, Plain("calibration"))].flag == (d3 == Approved)
  {
    hide Recorded, Documents, Settled, Run, Row.Status, WithActual, WithVariance, WithCalibration, ReviewedRow, EntryRow;
    SetupRuns();
    ActualReachable(d);
    VarianceReachable(d, d2);
    CalibrationReachable(d, d2, d3);
    var a, b, c := Documents(ACTUAL, E1, V1(d)), Documents(VARIANCE, E2, V2(d2)), Documents(CALIBRATION, E3, V3(d3));
    RunAppends(EmptyDb, SETUP, a);
    RunAppends(EmptyDb, SETUP + a, b);
    RunAppends(EmptyDb, SETUP + a + b, c);
    CalibrationRows(d, d2, d3);
    Outcomes(d, d2, d3);
  }

  lemma CalibrationRows(d: Text, d2: Text, d3: Text)
    ensures var rows := WithCalibration(d, d2, d3).rows;
            rows == map[RowKey(Actuals, Plain("actual")) := ReviewedRow(EntryRow(ACTUAL, E1), V1(d)),
                        RowKey(Variances, Plain("variance")) := ReviewedRow(EntryRow(VARIANCE, E2), V2(d2)),
                        RowKey(Calibrations, Plain("calibration")) := ReviewedRow(EntryRow(CALIBRATION, E3), V3(d3))]
  {
    hide Recorded, ReviewedRow, EntryRow, EntryTask, EntryAudit, ReviewAudit, DecidedTask, RecordOf;
    DocumentedTables(START, ACTUAL, E1, V1(d));
    DocumentedTables(WithActual(d), VARIANCE, E2, V2(d2));
    DocumentedTables(WithVariance(d, d2), CALIBRATION, E3, V3(d3));
  }

  lemma Outcomes(d: Text, d2: Text, d3: Text)
    ensures ReviewedRow(EntryRow(ACTUAL, E1), V1(d)).flag == (d == Approved)
    ensures ReviewedRow(EntryRow(VARIANCE, E2), V2(d2)).Status() == Val(if d2 == Approved then Verified else Rejected)
    ensures ReviewedRow(EntryRow(CALIBRATION, E3), V3(d3)).flag == (d3 == Approved)
  {
  }

  /** A reviewed actual superseded: it keeps its decision, retired under a superseded task. */
  lemma SupersededActualIsReachable(d: Text)
    requires d in {Approved, Rejected}
    ensures var row, task := ReviewedRow(EntryRow(ACTUAL, E1), V1(d)), DecidedTask(EntryTask(ACTUAL, E1), V1(d));
            var db := Run(EmptyDb, SETUP + Documents(ACTUAL, E1, V1(d)) + [Superseding(row, task, STAMP)]);
            && RowKey(Actuals, Plain("actual")) in db.rows && Plain("task-1") in db.tasks
            && db.rows[RowKey(Actuals, Plain("actual"))] == row.(current := false) && row.flag == (d == Approved)
            && db.tasks[Plain("task-1")].status == Superseded
  {
    Outcomes(d, Approved, Approved);
    ActualDocuments(d);
    hide Recorded, Documents, Settled, Recordable, Supersedable, ReviewedRow, EntryRow, EntryTask, DecidedTask, Superseding, Transact,
         Commits, AfterRecording, AfterReview, Row.KeyOf;
    var row, task := ReviewedRow(EntryRow(ACTUAL, E1), V1(d)), DecidedTask(EntryTask(ACTUAL, E1), V1(d));
    SetupRuns();
    ActualReachable(d);
    ActualRecordable();
    ActualIsSupersedable(d);
    SupersessionCommits(WithActual(d), row, task, STAMP, E1.auditId);
    RunAppends(EmptyDb, SETUP, Documents(ACTUAL, E1, V1(d)));
    RunOneMore(SETUP + Documents(ACTUAL, E1, V1(d)), Superseding(row, task, STAMP));
  }

  lemma ActualDocuments(d: Text)
    ensures ReviewedRow(EntryRow(ACTUAL, E1), V1(d)).KeyOf() == RowKey(Actuals, Plain("actual"))
    ensures EntryTask(ACTUAL, E1).basis.id == DecidedTask(EntryTask(ACTUAL, E1), V1(d)).basis.id == Plain("task-1")
    ensures EntryRow(ACTUAL, E1).basis == ACTUAL && forall k :: k in STAMP_KEYS ==> k !in EntryTask(ACTUAL, E1).payload
  {
  }

  lemma ActualIsSupersedable(d: Text)
    requires d in {Approved, Rejected}
    ensures Supersedable(WithActual(d), ReviewedRow(EntryRow(ACTUAL, E1), V1(d)), DecidedTask(EntryTask(ACTUAL, E1), V1(d)), STAMP,
                         E1.auditId)
  {
    ActualDocuments(d);
    ActualRecordable();
    hide Recordable, Supersedable, ReviewedRow, EntryRow, EntryTask, DecidedTask, AfterRecording, AfterReview, Reviewable, TextAt;
    RecordedIsReviewable(START, ACTUAL, E1, V1(d));
    ReviewedIsSupersedable(AfterRecording(START, ACTUAL, E1), EntryRow(ACTUAL, E1), EntryTask(ACTUAL, E1), V1(d), E1.auditId, STAMP);
  }

  lemma RunOneMore(transactions: seq<seq<Statement>>, last: seq<Statement>)
    ensures Run(EmptyDb, transactions + [last]) == Transact(Run(EmptyDb, transactions), last)
  {
    hide Transact;
    assert (transactions + [last])[..|transactions|] == transactions;
  }
}
