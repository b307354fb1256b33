/** What the store lets through: in any settled state a proper review of a row in review commits, for either decision
    and in each of the three tables. Statements and resulting tables are written out by the words they carry. */
module EvidenceProgress {
  import opened Json
  import opened EvidenceTables
  import opened RowGuards
  import opened DeferredChecks
  import opened Transactions
  import opened EvidenceHistory
  import opened EvidenceInvariant

  /** The words in which the documents of a table speak of its rows. */
  datatype Words = Words(idKey: Key, hashKey: Key, roleKey: Key, taskType: Text, entityType: Text, created: Text, reviewed: Text)

  function WordsOf(basis: Basis): Words {
    match basis
    case ActualBasis(_, _, _, _, _, _, _, _, _, _, _, _) =>
      Words(KActualId, KActualSubmissionHash, KReviewRole, ActualFactReview, ActualRecord, ActualFactRecorded,
            ActualFactVerified)
    case VarianceBasis(_, _, _, _, _, _, _, _, _, _) =>
      Words(KVarianceRecordId, KVarianceSubmissionHash, KReviewRole, VarianceClassificationReview, VarianceRecord,
            ForecastActualVarianceClassified, VarianceReviewDecided)
    case CalibrationBasis(_, _, _, _, _, _, _, _, _) =>
      Words(KCalibrationExampleId, KCalibrationSubmissionHash, KApprovalRole, CalibrationExampleReview, CalibrationExample,
            CalibrationExampleCreated, CalibrationExampleReviewDecided)
  }

  lemma WordsAgree(row: Row)
    ensures var k, w := row.KindOf(), WordsOf(row.basis);
            && IdKey(k) == w.idKey && HashKey(k) == w.hashKey && RoleKey(k) == w.roleKey && TaskTypeOf(k) == w.taskType
            && EntityTypeOf(k) == w.entityType && CreationEvent(k) == w.created && ReviewEvent(k) == w.reviewed
            && w.created != w.reviewed
  {
  }

  // ----- the documents of a review -----

  datatype Review = Review(recordId: Text, auditId: Text, decision: Text, reviewer: Text, at: Text, reason: Text, updatedAt: int)

  function Outcome(v: Review): Text {
    if v.decision == Approved then Verified else Rejected
  }

  function Copy(row: Row, k: Key): Value {
    if k in row.payload then row.payload[k] else JNull
  }

  function DecidedTask(task: Task, v: Review): Task {
    task.(status := v.decision, updatedAt := v.updatedAt)
  }

  function RecordOf(task: Task, v: Review): Record {
    Record(task.basis.id, v.decision, v.reviewer, task.payload)
  }

  /** Who, when and what, as every reviewed row says it. */
  function Signed(p: Payload, v: Review): Payload {
    p[KReviewDecision := JString(v.decision)][KReviewedBy := JString(v.reviewer)][KReviewedAt := JString(v.at)]
  }

  function ReviewedActual(row: Row, v: Review): Row {
    var p := Signed(row.payload[KReviewStatus := JString(Outcome(v))], v);
    row.(flag := v.decision == Approved,
         payload := if v.decision == Approved then p[KVerifiedBy := JString(v.reviewer)][KVerifiedAt := JString(v.at)] else p)
  }

  function ReviewedVarianceRow(row: Row, v: Review): Row {
    var fields := if Copy(row, KVariance).JObject? then Copy(row, KVariance).fields else map[];
    row.(payload := Signed(row.payload[KVariance := JObject(
           fields[KStatus := JString(Outcome(v))][KReviewedBy := JString(v.reviewer)])], v))
  }

  function ReviewedCalibration(row: Row, v: Review): Row {
    var p := Signed(row.payload[KReviewStatus := JString(Outcome(v))], v);
    row.(flag := v.decision == Approved,
         payload := if v.decision == Approved
                    then p[KApprovedBy := JString(v.reviewer)][KApprovedAt := JString(v.at)][KApprovalReason := JString(v.reason)]
                    else p)
  }

  function ReviewedRow(row: Row, v: Review): Row {
    match row.basis
    case ActualBasis(_, _, _, _, _, _, _, _, _, _, _, _) => ReviewedActual(row, v)
    case VarianceBasis(_, _, _, _, _, _, _, _, _, _) => ReviewedVarianceRow(row, v)
    case CalibrationBasis(_, _, _, _, _, _, _, _, _) => ReviewedCalibration(row, v)
  }

  function ReviewAudit(row: Row, v: Review): Audit {
    var p := map[WordsOf(row.basis).idKey := JString(row.basis.id), KApprovalTaskId := Copy(row, KApprovalTaskId),
                 KPolicyVersionId := Copy(row, KPolicyVersionId), KPolicyContentHash := Copy(row, KPolicyContentHash),
                 KApprovalId := JString(v.recordId), KDecision := JString(v.decision)];
    Audit(Project, row.basis.projectId, WordsOf(row.basis).reviewed, v.reviewer,
          if row.basis.ActualBasis? then p else p[KReleasedByDecisionId := Copy(row, KReleasedByDecisionId)])
  }

  function Reviewing(row: Row, task: Task, v: Review): seq<Statement> {
    [UpdateTask(DecidedTask(task, v)), InsertRecord(v.recordId, RecordOf(task, v)), UpdateRow(ReviewedRow(row, v)),
     InsertAudit(v.auditId, ReviewAudit(row, v))]
  }

  function AfterReview(db: Db, row: Row, task: Task, v: Review): Db {
    db.(tasks := db.tasks[task.basis.id := DecidedTask(task, v)],
        records := db.records[v.recordId := RecordOf(task, v)],
        rows := db.rows[row.KeyOf() := ReviewedRow(row, v)],
        audits := db.audits[v.auditId := ReviewAudit(row, v)])
  }

  function Creator(row: Row): Nullable<Text> {
    if row.basis.VarianceBasis? then Val(row.basis.classifiedBy) else TextAt(row.payload, KCreatedBy)
  }

  /** One event says that the row was created: by its creator, in its project, with its task, policy and submission. */
  ghost predicate CreatedOnce(db: Db, row: Row, task: Task, c: Text) {
    && c in db.audits
    && var audit, words := db.audits[c], WordsOf(row.basis);
    && audit.aggregateType == Project && audit.aggregateId == row.basis.projectId && audit.eventType == words.created
    && Val(audit.actorId) == Creator(row) && TextAt(audit.payload, words.idKey) == Val(row.basis.id)
    && TextAt(audit.payload, KApprovalTaskId) == Val(task.basis.id)
    && TextAt(row.payload, KPolicyVersionId) == TextAt(audit.payload, KPolicyVersionId) != Null
    && TextAt(row.payload, KPolicyContentHash) == TextAt(audit.payload, KPolicyContentHash) != Null
    && (row.basis.ActualBasis? || TextAt(row.payload, KReleasedByDecisionId) == TextAt(audit.payload, KReleasedByDecisionId) != Null)
    && TextAt(task.payload, words.hashKey) == TextAt(audit.payload, words.hashKey) != Null
    && forall x :: x in db.audits && x != c ==>
         db.audits[x].eventType != words.created || TextAt(db.audits[x].payload, words.idKey) != Val(row.basis.id)
  }

  /** A row in review with its pending task, and a review that may be given: by somebody else than the creator, under
      new ids. */
  ghost predicate Reviewable(db: Db, row: Row, task: Task, v: Review, c: Text) {
    && Settled(db) && row.KeyOf() in db.rows && db.rows[row.KeyOf()] == row && CreatedOnce(db, row, task, c)
    && row.TaskId() == Val(task.basis.id) && task.basis.id in db.tasks && db.tasks[task.basis.id] == task
    && task.status == Pending && v.decision in {Approved, Rejected} && v.updatedAt > task.updatedAt
    && v.recordId !in db.records && v.auditId !in db.audits && Creator(row) != Val(v.reviewer)
    && forall x :: x in db.audits ==> TextAt(db.audits[x].payload, KApprovalId) != Val(v.recordId)
  }

  // ----- the guards -----

  lemma TextOfCopy(row: Row, k: Key)
    requires TextAt(row.payload, k).Val?
    ensures k in row.payload && TextOf(Copy(row, k)) == TextAt(row.payload, k)
  {
  }

  lemma ActualReviewPasses(row: Row, v: Review)
    requires row.basis.ActualBasis? && row.current && !row.flag && row.Status() == Val(InReview)
    requires !HasAny(row.payload, ACTUAL_REVIEW_KEYS) && v.decision in {Approved, Rejected}
    ensures RowTransition(row, ReviewedActual(row, v))
  {
    var n := ReviewedActual(row, v).payload;
    assert n - ACTUAL_REVIEW_KEYS == row.payload[KReviewStatus := JString(Outcome(v))] - ACTUAL_REVIEW_KEYS;
    assert n - ACTUAL_REVIEW_KEYS == Replaced(row.payload, KReviewStatus, StatusFor(v.decision));
  }

  lemma VarianceReviewPasses(row: Row, v: Review)
    requires row.basis.VarianceBasis? && row.Status() == Val(InReview)
    requires !HasAny(row.payload, {KReviewDecision, KReviewedBy, KReviewedAt}) && v.decision in {Approved, Rejected}
    ensures RowTransition(row, ReviewedVarianceRow(row, v))
  {
    var n := ReviewedVarianceRow(row, v).payload;
    assert n - VARIANCE_REVIEW_KEYS == row.payload - {KVariance};
  }

  lemma CalibrationReviewPasses(row: Row, v: Review)
    requires row.basis.CalibrationBasis? && row.Status() == Val(InReview)
    requires !HasAny(row.payload, CALIBRATION_REVIEW_KEYS) && v.decision in {Approved, Rejected}
    ensures RowTransition(row, ReviewedCalibration(row, v))
  {
    var n := ReviewedCalibration(row, v).payload;
    assert n - CALIBRATION_REVIEW_KEYS == row.payload[KReviewStatus := JString(Outcome(v))] - CALIBRATION_REVIEW_KEYS;
    assert n - CALIBRATION_REVIEW_KEYS == Replaced(row.payload, KReviewStatus, StatusFor(v.decision));
  }

  lemma ReviewPasses(db: Db, row: Row, task: Task, v: Review, c: Text)
    requires Reviewable(db, row, task, v, c)
    ensures RowTransition(row, ReviewedRow(row, v))
  {
    PendingRow(db, row, task, v, c);
    hide Reviewable, RowTransition, ReviewedActual, ReviewedVarianceRow, ReviewedCalibration, HasAny, Row.Status;
    if row.basis.ActualBasis? {
      ActualReviewPasses(row, v);
    } else if row.basis.VarianceBasis? {
      VarianceReviewPasses(row, v);
    } else {
      CalibrationReviewPasses(row, v);
    }
  }

  /** What being settled says of a row in review. */
  lemma PendingRow(db: Db, row: Row, task: Task, v: Review, c: Text)
    requires Reviewable(db, row, task, v, c)
    ensures row.Status() == Val(InReview) && row.current && !row.flag && row.HasColumns()
    ensures !HasAny(row.payload, ReviewKeys(row.KindOf())) && v.decision in {Approved, Rejected}
    ensures RecordsOf(db, task.basis.id) == {} && TaskLinked(db, row)
    ensures PolicyLinked(db, row) && ReleaseLinked(db, row)
  {
    hide RecordSettled, TaskHasRow, TaskLinked, PolicyLinked, ReleaseLinked, CreatedOnce, HasAny;
    assert RowSettled(db, row) && Shape(row);
  }

  // ----- the statements -----

  lemma SameUniqueness(db: Db, o: Row, n: Row)
    requires WellFormed(db) && o.KeyOf() in db.rows && db.rows[o.KeyOf()] == o && n.basis == o.basis && n.current == o.current
    ensures UniqueIn(db, n)
  {
    hide Shape, ReferencesExist;
    forall k | k in db.rows && k != n.KeyOf() ensures Distinct(n, db.rows[k]) {
      assert Distinct(o, db.rows[k]);
    }
  }

  lemma ReviewedColumns(row: Row, v: Review)
    ensures var n := ReviewedRow(row, v);
            && n.basis == row.basis && n.current == row.current && n.KindOf() == row.KindOf() && n.KeyOf() == row.KeyOf()
            && (row.HasColumns() ==> n.HasColumns())
  {
  }

  lemma TaskStep(db: Db, task: Task, v: Review)
    requires task.basis.id in db.tasks && db.tasks[task.basis.id] == task && task.status == Pending
    requires v.decision in {Approved, Rejected} && v.updatedAt > task.updatedAt
    ensures Apply(db, UpdateTask(DecidedTask(task, v)))
         == Done(db.(tasks := db.tasks[task.basis.id := DecidedTask(task, v)]),
                 [Decision(task.basis.id, v.decision), TaskLink(task.basis.id)])
  {
    assert TaskTransition(task, DecidedTask(task, v));
    hide TaskTransition;
  }

  lemma RecordStep(db: Db, task: Task, v: Review)
    requires task.basis.id in db.tasks && v.recordId !in db.records && RecordsOf(db, task.basis.id) == {}
    ensures Apply(db, InsertRecord(v.recordId, RecordOf(task, v)))
         == Done(db.(records := db.records[v.recordId := RecordOf(task, v)]),
                 [Decision(task.basis.id, v.decision), TaskLink(task.basis.id)])
  {
  }

  lemma RowStep(db: Db, row: Row, n: Row)
    requires row.KeyOf() in db.rows && db.rows[row.KeyOf()] == row && n.KeyOf() == row.KeyOf() && n.HasColumns()
    requires RowTransition(row, n) && UniqueIn(db, n)
    ensures Apply(db, UpdateRow(n)) == Done(db.(rows := db.rows[row.KeyOf() := n]), [ReviewLink(row.KeyOf())])
  {
    hide RowTransition, UniqueIn, Row.KeyOf, Row.HasColumns;
  }

  lemma {:induction false} FourStatements(db: Db, s: seq<Statement>, d1: Db, e1: seq<Event>, d2: Db, e2: seq<Event>,
                                          d3: Db, e3: seq<Event>, d4: Db, e4: seq<Event>)
    requires |s| == 4
    requires Apply(db, s[0]) == Done(d1, e1) && Apply(d1, s[1]) == Done(d2, e2)
    requires Apply(d2, s[2]) == Done(d3, e3) && Apply(d3, s[3]) == Done(d4, e4)
    ensures ApplyAll(db, s) == Done(d4, e1 + e2 + e3 + e4)
  {
    hide Apply;
    assert s[..4] == s && s[..0] == [];
    assert ApplyAll(db, s[..0]) == Done(db, []);
    OneMore(db, s, 0, db, [], d1, e1);
    assert [] + e1 == e1;
    OneMore(db, s, 1, d1, e1, d2, e2);
    OneMore(db, s, 2, d2, e1 + e2, d3, e3);
    OneMore(db, s, 3, d3, e1 + e2 + e3, d4, e4);
  }

  lemma OneMore(db: Db, s: seq<Statement>, n: nat, middle: Db, events: seq<Event>, after: Db, more: seq<Event>)
    requires n < |s| && ApplyAll(db, s[..n]) == Done(middle, events) && Apply(middle, s[n]) == Done(after, more)
    ensures ApplyAll(db, s[..n + 1]) == Done(after, events + more)
  {
    hide Apply;
    assert s[..n + 1][..n] == s[..n];
  }

  lemma ReviewApplies(db: Db, row: Row, task: Task, v: Review, c: Text)
    requires Reviewable(db, row, task, v, c)
    ensures ApplyAll(db, Reviewing(row, task, v))
         == Done(AfterReview(db, row, task, v),
                 [Decision(task.basis.id, v.decision), TaskLink(task.basis.id)]
                 + [Decision(task.basis.id, v.decision), TaskLink(task.basis.id)] + [ReviewLink(row.KeyOf())] + [])
  {
    hide Reviewable, DecidedTask, RecordOf, ReviewedRow, ReviewAudit, RowTransition, UniqueIn, Apply, Row.KeyOf, Row.KindOf,
         Row.HasColumns, TaskLinked, PolicyLinked, ReleaseLinked, HasAny, Row.Status, Row.TaskId, WellFormed, ReviewKeys;
    PendingRow(db, row, task, v, c);
    ReviewPasses(db, row, task, v, c);
    ReviewedColumns(row, v);
    ReviewableParts(db, row, task, v, c);
    var n, t := ReviewedRow(row, v), task.basis.id;
    var d1 := db.(tasks := db.tasks[t := DecidedTask(task, v)]);
    var d2 := d1.(records := db.records[v.recordId := RecordOf(task, v)]);
    var d3 := d2.(rows := db.rows[row.KeyOf() := n]);
    SameUniqueness(db, row, n);
    UniqueDepends(db, d2, n);
    RecordsDepend(db, d1, t);
    TaskStep(db, task, v);
    RecordStep(d1, task, v);
    RowStep(d2, row, n);
    AuditStep(d3, v.auditId, ReviewAudit(row, v));
    hide RecordsOf;
    FourStatements(db, Reviewing(row, task, v), d1, [Decision(t, v.decision), TaskLink(t)], d2,
                   [Decision(t, v.decision), TaskLink(t)], d3, [ReviewLink(row.KeyOf())], AfterReview(db, row, task, v), []);
  }

  lemma ReviewableParts(db: Db, row: Row, task: Task, v: Review, c: Text)
    requires Reviewable(db, row, task, v, c)
    ensures WellFormed(db) && row.KeyOf() in db.rows && db.rows[row.KeyOf()] == row
    ensures task.basis.id in db.tasks && db.tasks[task.basis.id] == task && task.status == Pending
    ensures v.updatedAt > task.updatedAt && v.recordId !in db.records && v.auditId !in db.audits
  {
    hide WellFormed, RowSettled, RecordSettled, TaskHasRow, CreatedOnce, Row.KeyOf;
  }

  lemma AuditStep(db: Db, id: Text, audit: Audit)
    requires id !in db.audits
    ensures Apply(db, InsertAudit(id, audit)) == Done(db.(audits := db.audits[id := audit]), [])
  {
  }

  lemma UniqueDepends(a: Db, b: Db, row: Row)
    requires UniqueIn(a, row) && b.rows == a.rows
    ensures UniqueIn(b, row)
  {
    hide Distinct;
  }

  lemma RecordsDepend(a: Db, b: Db, t: Text)
    requires b.records == a.records
    ensures RecordsOf(b, t) == RecordsOf(a, t)
  {
  }

  // ----- the deferred checks -----

  /** A linked task stays linked while its payload and the row's own keys stay. */
  lemma TaskStaysLinked(a: Db, b: Db, o: Row, n: Row)
    requires TaskLinked(a, o) && RowEvolves(o, n) && o.TaskId().v in b.tasks
    requires b.tasks[o.TaskId().v].basis == a.tasks[o.TaskId().v].basis
    requires b.tasks[o.TaskId().v].payload == a.tasks[o.TaskId().v].payload
    ensures TaskLinked(b, n) && n.TaskId() == o.TaskId()
  {
    KeysKept(o, n);
    NamesKept(a.tasks[o.TaskId().v].payload, o, n);
    assert n.TaskId() == o.TaskId() && n.Role() == o.Role() && n.CreatedBy() == o.CreatedBy() && n.KindOf() == o.KindOf();
    hide NamesRow, TextAt, At, IsString, RowEvolves, Row.TaskId, Row.Role, Row.CreatedBy;
  }

  lemma KeysKept(o: Row, n: Row)
    requires RowEvolves(o, n)
    ensures n.basis == o.basis && n.KindOf() == o.KindOf()
    ensures forall k :: k !in MutableKeys(o.KindOf()) ==> At(n.payload, k) == At(o.payload, k) && TextAt(n.payload, k) == TextAt(o.payload, k)
    ensures var fixed := {KApprovalTaskId, KCreatedBy, KPolicyVersionId, KPolicyContentHash, KReleasedByDecisionId,
                          KReviewRole, KApprovalRole, KSourceLeafIds, KOutcomeEvidenceIds};
            fixed !! MutableKeys(o.KindOf())
  {
    forall k | k !in MutableKeys(o.KindOf())
      ensures At(n.payload, k) == At(o.payload, k) && TextAt(n.payload, k) == TextAt(o.payload, k)
    {
      KeyKept(o, n, k);
    }
  }

  lemma NamesKept(p: Payload, o: Row, n: Row)
    requires RowEvolves(o, n)
    ensures NamesRow(p, n) <==> NamesRow(p, o)
  {
    KeysKept(o, n);
    hide TextAt, At, RowEvolves, MutableKeys;
  }

  /** Of all events only the one that created the row says so, before the review and after it. */
  lemma CreationAuditedOnce(db: Db, w: Db, row: Row, n: Row, task: Task, m: Task, c: Text)
    requires CreatedOnce(db, row, task, c) && RowEvolves(row, n) && row.TaskId() == Val(task.basis.id)
    requires m.payload == task.payload
    requires (forall x :: x in db.audits ==> x in w.audits && w.audits[x] == db.audits[x])
    requires forall x :: x in w.audits && x !in db.audits ==> w.audits[x].eventType != WordsOf(row.basis).created
    ensures CreationAudited(w, n, m)
  {
    CreationNames(db, row, n, task, c);
    hide RowEvolves, TextAt, AuditNames, SharesText, Row.KindOf, Row.CreatedBy;
    var e, creator, hash := CreationEvent(n.KindOf()), n.CreatedBy(), HashKey(n.KindOf());
    var found := set a | a in w.audits && AuditNames(w.audits[a], n, e, creator) && SharesText(w.audits[a].payload, m.payload, hash);
    assert c in found;
    forall x | x in found ensures x == c {
      OtherEvent(db, row, n, task, c, w.audits[x]);
    }
    assert found == {c};
  }

  lemma CreationNames(db: Db, row: Row, n: Row, task: Task, c: Text)
    requires CreatedOnce(db, row, task, c) && RowEvolves(row, n) && row.TaskId() == Val(task.basis.id)
    ensures AuditNames(db.audits[c], n, CreationEvent(n.KindOf()), n.CreatedBy())
    ensures SharesText(db.audits[c].payload, task.payload, HashKey(n.KindOf()))
  {
    KeysKept(row, n);
    WordsAgree(row);
    assert n.CreatedBy() == row.CreatedBy() == Creator(row) && n.TaskId() == row.TaskId();
    hide RowEvolves, WordsOf, TextAt, MutableKeys, Row.CreatedBy, Creator;
  }

  lemma OtherEvent(db: Db, row: Row, n: Row, task: Task, c: Text, audit: Audit)
    requires CreatedOnce(db, row, task, c) && RowEvolves(row, n)
    requires AuditNames(audit, n, CreationEvent(n.KindOf()), n.CreatedBy())
    ensures audit.eventType == WordsOf(row.basis).created && TextAt(audit.payload, WordsOf(row.basis).idKey) == Val(row.basis.id)
  {
    WordsAgree(row);
    assert n.KindOf() == row.KindOf();
    hide CreatedOnce, RowEvolves, WordsOf, TextAt, Row.CreatedBy;
  }

  lemma ReviewAuditedOnce(w: Db, row: Row, n: Row, v: Review)
    requires v.auditId in w.audits && w.audits[v.auditId] == ReviewAudit(row, v) && RowEvolves(row, n)
    requires v.recordId in w.records && w.records[v.recordId].decidedBy == v.reviewer
    requires w.records[v.recordId].decision == v.decision
    requires forall x :: x in w.audits && x != v.auditId ==> TextAt(w.audits[x].payload, KApprovalId) != Val(v.recordId)
    requires TextAt(row.payload, KApprovalTaskId).Val? && TextAt(row.payload, KPolicyVersionId).Val?
    requires TextAt(row.payload, KPolicyContentHash).Val?
    requires row.KindOf() != Actuals ==> TextAt(row.payload, KReleasedByDecisionId).Val?
    ensures ReviewAudited(w, n, v.recordId)
  {
    ReviewNames(row, n, v);
    hide RowEvolves, TextAt, ReviewAudit, AuditNames, Row.KindOf;
    var found := set a | a in w.audits
          && AuditNames(w.audits[a], n, ReviewEvent(n.KindOf()), Val(w.records[v.recordId].decidedBy))
          && TextAt(w.audits[a].payload, KApprovalId) == Val(v.recordId)
          && TextAt(w.audits[a].payload, KDecision) == Val(w.records[v.recordId].decision);
    assert v.auditId in found;
    assert found == {v.auditId};
  }

  lemma ReviewNames(row: Row, n: Row, v: Review)
    requires RowEvolves(row, n) && TextAt(row.payload, KApprovalTaskId).Val? && TextAt(row.payload, KPolicyVersionId).Val?
    requires TextAt(row.payload, KPolicyContentHash).Val?
    requires row.KindOf() != Actuals ==> TextAt(row.payload, KReleasedByDecisionId).Val?
    ensures AuditNames(ReviewAudit(row, v), n, ReviewEvent(n.KindOf()), Val(v.reviewer))
    ensures TextAt(ReviewAudit(row, v).payload, KApprovalId) == Val(v.recordId)
    ensures TextAt(ReviewAudit(row, v).payload, KDecision) == Val(v.decision)
  {
    KeysKept(row, n);
    WordsAgree(row);
    AuditTexts(row, v);
    hide RowEvolves, TextAt, MutableKeys, ReviewAudit, WordsOf;
  }

  lemma AuditTexts(row: Row, v: Review)
    requires TextAt(row.payload, KApprovalTaskId).Val? && TextAt(row.payload, KPolicyVersionId).Val?
    requires TextAt(row.payload, KPolicyContentHash).Val?
    requires row.KindOf() != Actuals ==> TextAt(row.payload, KReleasedByDecisionId).Val?
    ensures var a, p, w := ReviewAudit(row, v), ReviewAudit(row, v).payload, WordsOf(row.basis);
            && a.aggregateType == Project && a.aggregateId == row.basis.projectId && a.eventType == w.reviewed
            && a.actorId == v.reviewer && TextAt(p, w.idKey) == Val(row.basis.id)
            && TextAt(p, KApprovalTaskId) == TextAt(row.payload, KApprovalTaskId)
            && TextAt(p, KPolicyVersionId) == TextAt(row.payload, KPolicyVersionId)
            && TextAt(p, KPolicyContentHash) == TextAt(row.payload, KPolicyContentHash)
            && (row.KindOf() != Actuals ==> TextAt(p, KReleasedByDecisionId) == TextAt(row.payload, KReleasedByDecisionId))
            && TextAt(p, KApprovalId) == Val(v.recordId) && TextAt(p, KDecision) == Val(v.decision)
  {
  }

  lemma ReviewedTexts(row: Row, v: Review)
    requires v.decision in {Approved, Rejected} && row.Status() == Val(InReview)
    requires !HasAny(row.payload, ReviewKeys(row.KindOf()))
    ensures var n := ReviewedRow(row, v);
            && n.Status() == Val(StatusFor(v.decision)) && TextAt(n.payload, KReviewDecision) == Val(v.decision)
            && TextAt(n.payload, KReviewedBy) == Val(v.reviewer) && FlagMatches(n, v.decision, v.reviewer)
  {
  }

  /** The checks of a decided row, from their parts. */
  lemma DecidedHolds(w: Db, n: Row, t: Text, r: Text)
    requires n.KeyOf() in w.rows && w.rows[n.KeyOf()] == n && n.TaskId() == Val(t) && (n.KindOf() == Actuals ==> n.current)
    requires PolicyLinked(w, n) && TaskLinked(w, n) && ReleaseLinked(w, n) && CreationAudited(w, n, w.tasks[t])
    requires RecordsOf(w, t) == {r} && r in w.records && w.records[r].decision == w.tasks[t].status && w.tasks[t].status in {Approved, Rejected}
    requires w.records[r].payload == w.tasks[t].payload
    requires var d := w.tasks[t].status;
             && n.Status() == Val(StatusFor(d)) && TextAt(n.payload, KReviewDecision) == Val(d)
             && TextAt(n.payload, KReviewedBy) == Val(w.records[r].decidedBy) && FlagMatches(n, d, w.records[r].decidedBy)
    requires n.CreatedBy() != Val(w.records[r].decidedBy) && ReviewAudited(w, n, r)
    ensures ReviewLinkHolds(w, n.KeyOf()) && TaskLinkHolds(w, t) && DecisionAgrees(w, t, w.tasks[t].status)
  {
    hide PolicyLinked, ReleaseLinked, CreationAudited, FlagMatches, ReviewAudited, TextAt, Row.Status, Row.CreatedBy, HasAny,
         RecordsOf, TaskLinked, RecordMatches, NamesRow, DecidedWith;
    OwnTaskOf(w, n);
    var d := w.tasks[t].status;
    assert RecordMatches(w, t, n, d) by { OneMatches(w, t, n, r); }
    assert DecidedWith(w, t, n, d) by { DecidedParts(w, n, t, r); }
    assert (set x | x in RecordsOf(w, t) && w.records[x].decision == d) == {r};
  }

  lemma OneMatches(w: Db, t: Text, n: Row, r: Text)
    requires RecordsOf(w, t) == {r} && r in w.records && TextAt(n.payload, KReviewedBy) == Val(w.records[r].decidedBy)
    ensures RecordMatches(w, t, n, w.records[r].decision)
  {
    hide TextAt, RecordsOf;
  }

  lemma OwnTaskOf(w: Db, n: Row)
    requires TaskLinked(w, n)
    ensures OwnTask(w, n) && NamesRow(w.tasks[n.TaskId().v].payload, n)
  {
    hide NamesRow, TextAt, Row.TaskId;
  }

  lemma DecidedParts(w: Db, n: Row, t: Text, r: Text)
    requires t in w.tasks && RecordsOf(w, t) == {r} && r in w.records && w.records[r].payload == w.tasks[t].payload
    requires RecordMatches(w, t, n, w.tasks[t].status) && NamesRow(w.tasks[t].payload, n) && ReviewAudited(w, n, r)
    requires var d := w.tasks[t].status;
             && n.Status() == Val(StatusFor(d)) && TextAt(n.payload, KReviewDecision) == Val(d)
             && TextAt(n.payload, KReviewedBy) == Val(w.records[r].decidedBy) && FlagMatches(n, d, w.records[r].decidedBy)
    requires n.CreatedBy() != Val(w.records[r].decidedBy) && (n.KindOf() == Actuals ==> n.current)
    ensures DecidedWith(w, t, n, w.tasks[t].status)
  {
    hide FlagMatches, ReviewAudited, TextAt, RecordsOf, RecordMatches, NamesRow, Row.Status, Row.CreatedBy;
  }

  lemma TextsPresent(db: Db, row: Row)
    requires PolicyLinked(db, row) && ReleaseLinked(db, row)
    ensures TextAt(row.payload, KPolicyVersionId).Val? && TextAt(row.payload, KPolicyContentHash).Val?
    ensures row.KindOf() != Actuals ==> TextAt(row.payload, KReleasedByDecisionId).Val?
  {
    hide TextAt;
  }

  lemma ReviewEvolves(db: Db, row: Row, task: Task, v: Review, c: Text)
    requires Reviewable(db, row, task, v, c)
    ensures Evolves(db, AfterReview(db, row, task, v)) && RowEvolves(row, ReviewedRow(row, v))
  {
    ReviewApplies(db, row, task, v, c);
    ReviewedColumns(row, v);
    assert WellFormed(db);
    hide Settled, CreatedOnce, ApplyAll, Reviewing, ReviewedRow, WellFormed, TaskEvolves, RowEvolves, VersionEvolves, Queued,
         Row.KeyOf;
    StatementsKeepHistory(db, Reviewing(row, task, v));
    var w := AfterReview(db, row, task, v);
    assert w.rows[row.KeyOf()] == ReviewedRow(row, v);
  }

  /** The tables after the review, read column by column. */
  lemma ReviewTables(db: Db, row: Row, task: Task, v: Review, c: Text)
    requires Reviewable(db, row, task, v, c)
    ensures var w, n, t, r := AfterReview(db, row, task, v), ReviewedRow(row, v), task.basis.id, v.recordId;
            && n.KeyOf() == row.KeyOf() && n.KeyOf() in w.rows && w.rows[n.KeyOf()] == n && n.KindOf() == row.KindOf()
            && n.current == row.current
            && t in w.tasks && w.tasks[t].basis == task.basis && w.tasks[t].payload == task.payload
            && w.tasks[t].status == v.decision && t in db.tasks && db.tasks[t] == task
            && r in w.records && w.records[r] == Record(t, v.decision, v.reviewer, task.payload) && RecordsOf(w, t) == {r}
            && row.TaskId() == Val(t) && Creator(row) != Val(v.reviewer) && v.decision in {Approved, Rejected}
  {
    PendingRow(db, row, task, v, c);
    ReviewedColumns(row, v);
    hide Settled, CreatedOnce, ReviewedRow, TaskLinked, PolicyLinked, ReleaseLinked, HasAny, Row.KeyOf, Row.TaskId, Row.Status,
         RecordsOf;
    OneRecord(db, AfterReview(db, row, task, v), task.basis.id, v.recordId, RecordOf(task, v));
  }

  lemma ReviewEvents(db: Db, row: Row, task: Task, v: Review, c: Text)
    requires Reviewable(db, row, task, v, c)
    ensures var w, a := AfterReview(db, row, task, v), v.auditId;
            && CreatedOnce(db, row, task, c) && a in w.audits && w.audits[a] == ReviewAudit(row, v)
            && (forall x :: x in db.audits ==> x in w.audits && w.audits[x] == db.audits[x])
            && (forall x :: x in w.audits && x !in db.audits ==> w.audits[x].eventType != WordsOf(row.basis).created)
            && (forall x :: x in w.audits && x != a ==> TextAt(w.audits[x].payload, KApprovalId) != Val(v.recordId))
  {
    hide Settled, CreatedOnce, ReviewAudit, TextAt, Row.KeyOf, Row.TaskId, Creator, ReviewedRow, WordsOf;
    ReviewEventType(row, v);
    EventAdded(db.audits, v.auditId, ReviewAudit(row, v), WordsOf(row.basis).created, v.recordId);
  }

  lemma ReviewEventType(row: Row, v: Review)
    ensures ReviewAudit(row, v).eventType != WordsOf(row.basis).created
  {
  }

  lemma EventAdded(audits: map<Text, Audit>, a: Text, audit: Audit, created: Text, r: Text)
    requires a !in audits && audit.eventType != created
    requires forall x :: x in audits ==> TextAt(audits[x].payload, KApprovalId) != Val(r)
    ensures var w := audits[a := audit];
            && a in w && w[a] == audit && (forall x :: x in audits ==> x in w && w[x] == audits[x])
            && (forall x :: x in w && x !in audits ==> w[x].eventType != created)
            && (forall x :: x in w && x != a ==> TextAt(w[x].payload, KApprovalId) != Val(r))
  {
    hide TextAt;
  }

  lemma ReviewHolds(db: Db, row: Row, task: Task, v: Review, c: Text)
    requires Reviewable(db, row, task, v, c)
    ensures var w := AfterReview(db, row, task, v);
            && ReviewLinkHolds(w, row.KeyOf()) && TaskLinkHolds(w, task.basis.id)
            && DecisionAgrees(w, task.basis.id, v.decision)
  {
    hide Reviewable, AfterReview, Evolves, RowEvolves, ReviewedRow, ReviewAudit, WordsOf, TaskLinked, PolicyLinked, ReleaseLinked,
         HasAny, Row.Status, Row.TaskId, Row.KeyOf, Row.KindOf, Row.CreatedBy, CreatedOnce, RecordsOf, TextAt, Creator,
         FlagMatches, CreationAudited, ReviewAudited, ReviewLinkHolds, TaskLinkHolds, DecisionAgrees, DecidedTask, StatusFor,
         ReviewKeys, Row.HasColumns;
    var w, n, t := AfterReview(db, row, task, v), ReviewedRow(row, v), task.basis.id;
    PendingRow(db, row, task, v, c);
    ReviewEvolves(db, row, task, v, c);
    ReviewTables(db, row, task, v, c);
    ReviewEvents(db, row, task, v, c);
    SameCreator(row, n);
    TextsPresent(db, row);
    PolicyStaysLinked(db, w, row, n);
    ReleaseStaysLinked(db, w, row, n);
    TaskStaysLinked(db, w, row, n);
    CreationAuditedOnce(db, w, row, n, task, w.tasks[t], c);
    ReviewAuditedOnce(w, row, n, v);
    ReviewedTexts(row, v);
    DecidedHolds(w, n, t, v.recordId);
  }

  lemma SameCreator(o: Row, n: Row)
    requires RowEvolves(o, n)
    ensures n.CreatedBy() == Creator(o) && n.TaskId() == o.TaskId() && o.TaskId() == TextAt(o.payload, KApprovalTaskId)
  {
    KeysKept(o, n);
  }

  lemma OneRecord(db: Db, w: Db, t: Text, r: Text, record: Record)
    requires RecordsOf(db, t) == {} && r !in db.records && record.taskId == t && w.records == db.records[r := record]
    ensures RecordsOf(w, t) == {r}
  {
    forall x | x in RecordsOf(w, t) ensures x == r {
      assert x != r ==> x in RecordsOf(db, t);
    }
  }

  /** A review commits, approving or rejecting, of an actual, a variance or a calibration, and leaves exactly these
      tables. */
  lemma ReviewCommits(db: Db, row: Row, task: Task, v: Review, c: Text)
    requires Reviewable(db, row, task, v, c)
    ensures Commits(db, Reviewing(row, task, v))
    ensures Transact(db, Reviewing(row, task, v)) == AfterReview(db, row, task, v)
  {
    hide ApplyAll, Reviewable, AfterReview, ReviewLinkHolds, TaskLinkHolds, DecisionAgrees, Row.KeyOf, Reviewing;
    ReviewApplies(db, row, task, v, c);
    ReviewHolds(db, row, task, v, c);
  }

  /** The review leaves the creation on record, once. */
  lemma CreatedStays(db: Db, row: Row, task: Task, v: Review, c: Text)
    requires Reviewable(db, row, task, v, c)
    ensures CreatedOnce(AfterReview(db, row, task, v), ReviewedRow(row, v), DecidedTask(task, v), c)
  {
    hide Settled, ReviewAudit, ReviewedRow, TextAt, Row.KeyOf, Row.TaskId, WordsOf, RowEvolves;
    ReviewEvolves(db, row, task, v, c);
    ReviewEvents(db, row, task, v, c);
    hide Reviewable;
    CreatedKept(db, AfterReview(db, row, task, v), row, ReviewedRow(row, v), task, DecidedTask(task, v), c);
  }

  lemma CreatedKept(db: Db, w: Db, row: Row, n: Row, task: Task, m: Task, c: Text)
    requires CreatedOnce(db, row, task, c) && RowEvolves(row, n) && m.payload == task.payload && m.basis == task.basis
    requires (forall x :: x in db.audits ==> x in w.audits && w.audits[x] == db.audits[x])
    requires forall x :: x in w.audits && x !in db.audits ==> w.audits[x].eventType != WordsOf(row.basis).created
    ensures CreatedOnce(w, n, m, c)
  {
    KeysKept(row, n);
    assert Creator(n) == Creator(row);
    hide TextAt, WordsOf, RowEvolves, Creator, MutableKeys;
  }
}
