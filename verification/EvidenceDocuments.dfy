/** What every committed state says of its rows and their documents, told by the words of the columns and payloads. */
module EvidenceDocuments {
  import opened Json
  import opened EvidenceTables
  import opened RowGuards
  import opened DeferredChecks
  import opened Transactions
  import opened EvidenceHistory
  import opened EvidenceInvariant
  import opened EvidenceTheorems
  import opened EvidenceProgress

  predicate SameText(p: Payload, q: Payload, k: Key) {
    TextAt(p, k) == TextAt(q, k)
  }

  /** What the payload of a task or a record repeats of its row: identity, policy, sources and release. */
  predicate Repeats(p: Payload, row: Row) {
    var basis, q := row.basis, row.payload;
    && TextAt(p, WordsOf(basis).idKey) == Val(basis.id)
    && SameText(p, q, KPolicyVersionId) && SameText(p, q, KPolicyContentHash)
    && (basis.ActualBasis? ==> && TextAt(p, KActualKey) == Val(basis.actualKey)
                               && TextAt(p, KSourceObservationId) == Val(basis.sourceObservationId)
                               && At(p, KSourceLeafIds) == At(q, KSourceLeafIds)
                               && At(p, KOutcomeEvidenceIds) == At(q, KOutcomeEvidenceIds))
    && (!basis.ActualBasis? ==> TextAt(p, KActualRecordId) == Val(basis.actualRecordId) && SameText(p, q, KReleasedByDecisionId))
    && (basis.CalibrationBasis? ==> TextAt(p, KVarianceRecordId) == Val(basis.varianceRecordId))
  }

  lemma RepeatsNames(p: Payload, row: Row)
    ensures Repeats(p, row) <==> NamesRow(p, row)
  {
    hide TextAt, At;
  }

  /** The task of a committed row is its own: it is about the row, in its project, asks the role the row asks, and
      repeats what it is about. */
  lemma TaskNamesItsRow(transactions: seq<seq<Statement>>, k: RowKey)
    requires k in Run(EmptyDb, transactions).rows
    ensures var db := Run(EmptyDb, transactions);
            var row, basis, words := db.rows[k], db.rows[k].basis, WordsOf(db.rows[k].basis);
            var t := TextAt(row.payload, KApprovalTaskId);
            && t.Val? && t.v in db.tasks
            && var task := db.tasks[t.v]; var p, q := task.payload, row.payload;
            && task.basis.projectId == basis.projectId && task.basis.entityId == basis.id && task.basis.required
            && task.basis.taskType == words.taskType && task.basis.entityType == words.entityType
            && Val(task.basis.assignedRole) == TextAt(q, words.roleKey) == TextAt(p, words.roleKey)
            && TextAt(p, KCreatedBy) == Creator(row) && TextAt(p, words.hashKey).Val?
            && Repeats(p, row)
  {
    var db := Run(EmptyDb, transactions);
    RunFromEmpty(transactions);
    var row := db.rows[k];
    assert RowSettled(db, row);
    hide Run, Settled, RowSettled;
    LinkedTask(db, row);
  }

  lemma LinkedTask(db: Db, row: Row)
    requires TaskLinked(db, row)
    ensures var basis, words := row.basis, WordsOf(row.basis);
            var t := TextAt(row.payload, KApprovalTaskId);
            && t.Val? && t.v in db.tasks
            && var task := db.tasks[t.v]; var p, q := task.payload, row.payload;
            && task.basis.projectId == basis.projectId && task.basis.entityId == basis.id && task.basis.required
            && task.basis.taskType == words.taskType && task.basis.entityType == words.entityType
            && Val(task.basis.assignedRole) == TextAt(q, words.roleKey) == TextAt(p, words.roleKey)
            && TextAt(p, KCreatedBy) == Creator(row) && TextAt(p, words.hashKey).Val?
            && Repeats(p, row)
  {
    WordsAgree(row);
    assert row.TaskId() == TextAt(row.payload, KApprovalTaskId) && row.CreatedBy() == Creator(row);
    var p := db.tasks[row.TaskId().v].payload;
    StringText(p, HashKey(row.KindOf()));
    RepeatsNames(p, row);
    hide Repeats, NamesRow, WordsOf, TextAt, At, IsString, Row.TaskId, Row.CreatedBy, Creator;
  }

  lemma StringText(p: Payload, k: Key)
    requires IsString(p, k)
    ensures TextAt(p, k).Val?
  {
  }

  /** The evidence a committed row points to: an approved actuals policy of the named content, and for a variance or a
      calibration a decision that released the snapshot for bid. */
  lemma RowsPointToEvidence(transactions: seq<seq<Statement>>, k: RowKey)
    requires k in Run(EmptyDb, transactions).rows
    ensures var db := Run(EmptyDb, transactions);
            var basis, p := db.rows[k].basis, db.rows[k].payload;
            var policy, release := TextAt(p, KPolicyVersionId), TextAt(p, KReleasedByDecisionId);
            && policy.Val? && policy.v in db.versions
            && var version := db.versions[policy.v];
            && version.versionKind == ActualsPolicy && version.status == Approved
            && TextAt(p, KPolicyContentHash) == Val(version.contentHash) && version.approvedBy.Val? && version.approvedAt.Val?
            && (!basis.ActualBasis? ==>
                  && release.Val? && release.v in db.releases
                  && var decision := db.releases[release.v];
                  && decision.projectId == basis.projectId && decision.allowed
                  && decision.snapshotId == Val(if basis.VarianceBasis? then basis.snapshotId else basis.featuresSnapshotId)
                  && decision.requestedState == ApprovedForBid && decision.resultingState == ApprovedForBid)
            && (basis.CalibrationBasis? ==>
                  var v := RowKey(Variances, basis.varianceRecordId);
                  && v in db.rows && db.rows[v].basis.VarianceBasis? && db.rows[v].basis.projectId == basis.projectId
                  && db.rows[v].basis.snapshotId == basis.featuresSnapshotId
                  && TextAt(db.rows[v].payload, KReleasedByDecisionId) == release)
  {
    var db := Run(EmptyDb, transactions);
    RunFromEmpty(transactions);
    assert RowSettled(db, db.rows[k]);
    hide Run, Settled, TaskLinked, InStep, TextAt;
  }

  /** Rows that a variance or a calibration refers to are there, and no other row of its table refers to them. */
  lemma ReferencesAreThere(transactions: seq<seq<Statement>>, k: RowKey, k': RowKey)
    requires var rows := Run(EmptyDb, transactions).rows; k in rows && k' in rows
    ensures var rows := Run(EmptyDb, transactions).rows;
            var b, b' := rows[k].basis, rows[k'].basis;
            && (b.VarianceBasis? || b.CalibrationBasis? ==> RowKey(Actuals, b.actualRecordId) in rows)
            && (b.CalibrationBasis? ==> RowKey(Variances, b.varianceRecordId) in rows)
            && (k != k' && b.VarianceBasis? && b'.VarianceBasis? ==> b.actualRecordId != b'.actualRecordId)
            && (k != k' && b.CalibrationBasis? && b'.CalibrationBasis? ==>
                  b.actualRecordId != b'.actualRecordId && b.varianceRecordId != b'.varianceRecordId)
  {
    var db := Run(EmptyDb, transactions);
    RunFromEmpty(transactions);
    hide Run, RowSettled, RecordSettled, TaskHasRow, Shape;
    assert ReferencesExist(db, db.rows[k]);
    if k != k' { assert Distinct(db.rows[k], db.rows[k']); }
  }

  /** The review of a committed row is all there or not there at all: a row that left review names its reviewer and the
      time, keeps flag, decision and status in agreement, and the same reviewer where it names an approver. */
  lemma ReviewsAreComplete(transactions: seq<seq<Statement>>, k: RowKey)
    requires k in Run(EmptyDb, transactions).rows
    ensures var row := Run(EmptyDb, transactions).rows[k];
            var p, b := row.payload, row.basis;
            var status := if b.VarianceBasis? then TextWithin(p, KVariance, KStatus) else TextAt(p, KReviewStatus);
            && status in {Val(InReview), Val(Verified), Val(Rejected)}
            && (status == Val(InReview) ==> !row.flag && KReviewDecision !in p && KReviewedBy !in p && KReviewedAt !in p)
            && (status != Val(InReview) ==>
                  && TextAt(p, KReviewedBy).Val? && TextAt(p, KReviewedAt).Val? && TextAt(p, KReviewedBy) != Creator(row)
                  && TextAt(p, KReviewDecision) == Val(if status == Val(Verified) then Approved else Rejected)
                  && (!b.VarianceBasis? ==> row.flag == (status == Val(Verified)))
                  && (b.ActualBasis? && row.flag ==>
                        TextAt(p, KVerifiedBy) == TextAt(p, KReviewedBy) && TextAt(p, KVerifiedAt) == TextAt(p, KReviewedAt))
                  && (b.ActualBasis? && !row.flag ==> KVerifiedBy !in p && KVerifiedAt !in p)
                  && (b.CalibrationBasis? && row.flag ==>
                        && TextAt(p, KApprovedBy) == TextAt(p, KReviewedBy) && TextAt(p, KApprovedAt) == TextAt(p, KReviewedAt)
                        && TextAt(p, KApprovalReason).Val?)
                  && (b.CalibrationBasis? && !row.flag ==>
                        KApprovedBy !in p && KApprovedAt !in p && KApprovalReason !in p))
  {
    var db := Run(EmptyDb, transactions);
    RunFromEmpty(transactions);
    var row := db.rows[k];
    assert RowSettled(db, row) && Shape(row);
    var t := row.TaskId().v;
    hide Run, Settled, TaskLinked, PolicyLinked, ReleaseLinked, RowSettled;
    ReviewFromStep(db, t, row);
    CreatorIs(row);
    if Reviewed(row) { CompleteReview(row); } else { OpenReview(row); }
  }

  lemma CreatorIs(row: Row)
    ensures row.CreatedBy() == Creator(row)
    ensures row.Status() == if row.basis.VarianceBasis? then TextWithin(row.payload, KVariance, KStatus) else TextAt(row.payload, KReviewStatus)
  {
  }

  lemma ReviewFromStep(db: Db, t: Text, row: Row)
    requires t in db.tasks && InStep(db, t, row) && Shape(row)
    ensures row.Status() in {Val(InReview), Val(Verified), Val(Rejected)} && (row.Status() == Val(InReview) <==> !Reviewed(row))
    ensures Reviewed(row) ==>
              && TextAt(row.payload, KReviewedBy) != row.CreatedBy() && row.Status().Val?
              && TextAt(row.payload, KReviewDecision) == Val(if row.Status() == Val(Verified) then Approved else Rejected)
  {
    hide FlagMatches, HasAny, RecordsOf, TextAt, TextWithin, Row.HasColumns, Complete, Row.CreatedBy;
  }

  lemma CompleteReview(row: Row)
    requires Shape(row) && Reviewed(row)
    ensures Complete(row)
  {
  }

  lemma OpenReview(row: Row)
    requires Shape(row) && !Reviewed(row)
    ensures var p := row.payload; !row.flag && KReviewDecision !in p && KReviewedBy !in p && KReviewedAt !in p
  {
  }

  const REVIEW_WORDS := {KReviewStatus, KVariance, KReviewDecision, KReviewedBy, KReviewedAt, KVerifiedBy, KVerifiedAt,
                         KApprovedBy, KApprovedAt, KApprovalReason}

  /** What a later committed state keeps of a row: its columns, every key that is not its review's, and once it has been
      reviewed or retired all of it but currency. */
  lemma RowsKeepTheirEvidence(earlier: seq<seq<Statement>>, later: seq<seq<Statement>>, k: RowKey)
    requires k in Run(EmptyDb, earlier).rows
    ensures var rows, rows' := Run(EmptyDb, earlier).rows, Run(Run(EmptyDb, earlier), later).rows;
            && k in rows'
            && var o, n := rows[k], rows'[k];
            && n.basis == o.basis && (!o.current ==> n == o)
            && (KReviewedBy in o.payload ==> n == o.(current := n.current))
            && forall key :: key !in REVIEW_WORDS ==> At(n.payload, key) == At(o.payload, key)
  {
    var db := Run(EmptyDb, earlier);
    RunFromEmpty(earlier);
    RunSettles(db, later);
    var o, n := db.rows[k], Run(db, later).rows[k];
    assert RowEvolves(o, n) && Shape(o) && Shape(n);
    hide Run, Settled, RowEvolves, Shape;
    KeptRow(o, n);
  }

  lemma KeptRow(o: Row, n: Row)
    requires RowEvolves(o, n) && Shape(o) && Shape(n)
    ensures n.basis == o.basis && (!o.current ==> n == o) && (KReviewedBy in o.payload ==> n == o.(current := n.current))
    ensures forall key :: key !in REVIEW_WORDS ==> At(n.payload, key) == At(o.payload, key)
  {
    KeysKept(o, n);
    assert MutableKeys(o.KindOf()) <= REVIEW_WORDS;
    if KReviewedBy in o.payload { ReviewedByKey(o); }
    hide Shape, MutableKeys, At, TextAt, Reviewed;
  }

  lemma ReviewedByKey(row: Row)
    requires Shape(row) && KReviewedBy in row.payload
    ensures Reviewed(row)
  {
  }

  /** Every approved calibration has exactly one record, APPROVED, by its reviewer and approver, who did not create it. */
  lemma ApprovedCalibrationHasOneApproval(transactions: seq<seq<Statement>>, k: RowKey)
    requires var db := Run(EmptyDb, transactions); k in db.rows && db.rows[k].basis.CalibrationBasis? && db.rows[k].flag
    ensures var db := Run(EmptyDb, transactions);
            var p := db.rows[k].payload;
            exists r :: r in db.records && Val(db.records[r].taskId) == TextAt(p, KApprovalTaskId)
                        && RecordsOf(db, db.records[r].taskId) == {r} && db.records[r].decision == Approved
                        && TextAt(p, KReviewedBy) == Val(db.records[r].decidedBy) == TextAt(p, KApprovedBy)
                        && TextAt(p, KCreatedBy) != Val(db.records[r].decidedBy)
  {
    var db := Run(EmptyDb, transactions);
    RunFromEmpty(transactions);
    var row := db.rows[k];
    assert RowSettled(db, row) && Shape(row);
    hide Run, Settled, RowSettled, TaskLinked, PolicyLinked, ReleaseLinked, TextAt, Complete, HasAny;
    ApprovedByOne(db, row);
  }

  lemma ApprovedByOne(db: Db, row: Row)
    requires RowSettled(db, row) && Shape(row) && row.basis.CalibrationBasis? && row.flag
    ensures var p := row.payload;
            exists r :: r in db.records && Val(db.records[r].taskId) == TextAt(p, KApprovalTaskId)
                        && RecordsOf(db, db.records[r].taskId) == {r} && db.records[r].decision == Approved
                        && TextAt(p, KReviewedBy) == Val(db.records[r].decidedBy) == TextAt(p, KApprovedBy)
                        && TextAt(p, KCreatedBy) != Val(db.records[r].decidedBy)
  {
    hide PolicyLinked, ReleaseLinked, TextAt, Complete, HasAny, RecordsOf, NamesRow;
    var t := row.TaskId().v;
    assert row.TaskId() == TextAt(row.payload, KApprovalTaskId);
    var r :| r in db.records && RecordsOf(db, t) == {r} && AgreesWith(db, row, r);
    RecordOfTask(db, r, t);
  }

  lemma RecordOfTask(db: Db, r: Text, t: Text)
    requires r in db.records && RecordsOf(db, t) == {r}
    ensures db.records[r].taskId == t
  {
    assert r in RecordsOf(db, t);
  }

  /** An event of the row's project by a named actor that names the row, its task, its policy and its release. */
  predicate TellsOf(audit: Audit, row: Row, event: Text, actor: Nullable<Text>) {
    var p, q := audit.payload, row.payload;
    && audit.aggregateType == Project && audit.aggregateId == row.basis.projectId && audit.eventType == event
    && Val(audit.actorId) == actor && TextAt(p, WordsOf(row.basis).idKey) == Val(row.basis.id)
    && TextAt(p, KApprovalTaskId).Val? && SameText(p, q, KApprovalTaskId)
    && TextAt(p, KPolicyVersionId).Val? && SameText(p, q, KPolicyVersionId)
    && TextAt(p, KPolicyContentHash).Val? && SameText(p, q, KPolicyContentHash)
    && (!row.basis.ActualBasis? ==> TextAt(p, KReleasedByDecisionId).Val? && SameText(p, q, KReleasedByDecisionId))
  }

  lemma TellsWords(audit: Audit, row: Row)
    ensures TellsOf(audit, row, WordsOf(row.basis).created, Creator(row))
       <==> AuditNames(audit, row, CreationEvent(row.KindOf()), row.CreatedBy())
    ensures forall actor :: TellsOf(audit, row, WordsOf(row.basis).reviewed, actor)
                       <==> AuditNames(audit, row, ReviewEvent(row.KindOf()), actor)
  {
    WordsAgree(row);
    CreatorIs(row);
    hide WordsOf, TextAt, Creator, Row.CreatedBy;
  }

  /** A transaction that touched a row commits only if exactly one event tells of its creation, with its submission,
      and, when it is decided, exactly one of the decision of its one record, by the one who decided. */
  lemma TouchedRowIsAudited(db: Db, statements: seq<Statement>, k: RowKey)
    requires Commits(db, statements) && ReviewLink(k) in ApplyAll(db, statements).events && k in ApplyAll(db, statements).db.rows
    ensures var w, row := ApplyAll(db, statements).db, ApplyAll(db, statements).db.rows[k];
            var t, words := TextAt(row.payload, KApprovalTaskId), WordsOf(row.basis);
            && t.Val? && t.v in w.tasks
            && |set a | a in w.audits && TellsOf(w.audits[a], row, words.created, Creator(row))
                        && TextAt(w.audits[a].payload, words.hashKey).Val?
                        && SameText(w.audits[a].payload, w.tasks[t.v].payload, words.hashKey)| == 1
            && (w.tasks[t.v].status in {Approved, Rejected} ==>
                  forall r :: r in w.records && w.records[r].taskId == t.v ==>
                    |set a | a in w.audits && TellsOf(w.audits[a], row, words.reviewed, Val(w.records[r].decidedBy))
                             && TextAt(w.audits[a].payload, KApprovalId) == Val(r)
                             && TextAt(w.audits[a].payload, KDecision) == Val(w.records[r].decision)| == 1)
  {
    var w, row := ApplyAll(db, statements).db, ApplyAll(db, statements).db.rows[k];
    QueuedHolds(w, ApplyAll(db, statements).events, ReviewLink(k));
    assert ReviewLinkHolds(w, k);
    hide ApplyAll, ReviewLinkHolds;
    AuditedRow(w, k, row);
  }

  lemma AuditedRow(w: Db, k: RowKey, row: Row)
    requires k in w.rows && w.rows[k] == row && ReviewLinkHolds(w, k)
    ensures var t, words := TextAt(row.payload, KApprovalTaskId), WordsOf(row.basis);
            && t.Val? && t.v in w.tasks
            && |set a | a in w.audits && TellsOf(w.audits[a], row, words.created, Creator(row))
                        && TextAt(w.audits[a].payload, words.hashKey).Val?
                        && SameText(w.audits[a].payload, w.tasks[t.v].payload, words.hashKey)| == 1
            && (w.tasks[t.v].status in {Approved, Rejected} ==>
                  forall r :: r in w.records && w.records[r].taskId == t.v ==>
                    |set a | a in w.audits && TellsOf(w.audits[a], row, words.reviewed, Val(w.records[r].decidedBy))
                             && TextAt(w.audits[a].payload, KApprovalId) == Val(r)
                             && TextAt(w.audits[a].payload, KDecision) == Val(w.records[r].decision)| == 1)
  {
    ReviewLinkParts(w, k, row);
    var t, words := row.TaskId().v, WordsOf(row.basis);
    CreationTold(w, row, w.tasks[t]);
    forall r | w.tasks[t].status in {Approved, Rejected} && r in w.records && w.records[r].taskId == t
      ensures |set a | a in w.audits && TellsOf(w.audits[a], row, words.reviewed, Val(w.records[r].decidedBy))
                       && TextAt(w.audits[a].payload, KApprovalId) == Val(r)
                       && TextAt(w.audits[a].payload, KDecision) == Val(w.records[r].decision)| == 1
    {
      ReviewTold(w, row, r);
    }
    hide ReviewLinkHolds, CreationAudited, ReviewAudited, TellsOf, WordsOf, TextAt;
  }

  lemma ReviewLinkParts(w: Db, k: RowKey, row: Row)
    requires k in w.rows && w.rows[k] == row && ReviewLinkHolds(w, k)
    ensures row.TaskId() == TextAt(row.payload, KApprovalTaskId) && row.TaskId().Val? && row.TaskId().v in w.tasks
    ensures CreationAudited(w, row, w.tasks[row.TaskId().v])
    ensures var t := row.TaskId().v;
            w.tasks[t].status in {Approved, Rejected} ==>
              forall r :: r in w.records && w.records[r].taskId == t ==> ReviewAudited(w, row, r)
  {
    hide PolicyLinked, ReleaseLinked, CreationAudited, ReviewAudited, FlagMatches, NamesRow, TextAt, HasAny, AllStrings,
         RecordMatches, Row.Status, Row.CreatedBy;
    var t := row.TaskId().v;
    forall r | r in w.records && w.records[r].taskId == t ensures r in RecordsOf(w, t) {
    }
  }

  lemma CreationTold(w: Db, row: Row, task: Task)
    requires CreationAudited(w, row, task)
    ensures var words := WordsOf(row.basis);
            |set a | a in w.audits && TellsOf(w.audits[a], row, words.created, Creator(row))
                     && TextAt(w.audits[a].payload, words.hashKey).Val?
                     && SameText(w.audits[a].payload, task.payload, words.hashKey)| == 1
  {
    var words := WordsOf(row.basis);
    WordsAgree(row);
    forall a | a in w.audits
      ensures TellsOf(w.audits[a], row, words.created, Creator(row))
         <==> AuditNames(w.audits[a], row, CreationEvent(row.KindOf()), row.CreatedBy())
    {
      TellsWords(w.audits[a], row);
    }
    hide TellsOf, AuditNames, WordsOf, TextAt, Creator, Row.CreatedBy, Row.KindOf;
    assert (set a | a in w.audits && TellsOf(w.audits[a], row, words.created, Creator(row))
                    && TextAt(w.audits[a].payload, words.hashKey).Val?
                    && SameText(w.audits[a].payload, task.payload, words.hashKey))
        == (set a | a in w.audits
                    && AuditNames(w.audits[a], row, CreationEvent(row.KindOf()), row.CreatedBy())
                    && SharesText(w.audits[a].payload, task.payload, HashKey(row.KindOf())));
  }

  lemma ReviewTold(w: Db, row: Row, r: Text)
    requires r in w.records && ReviewAudited(w, row, r)
    ensures var words := WordsOf(row.basis);
            |set a | a in w.audits && TellsOf(w.audits[a], row, words.reviewed, Val(w.records[r].decidedBy))
                     && TextAt(w.audits[a].payload, KApprovalId) == Val(r)
                     && TextAt(w.audits[a].payload, KDecision) == Val(w.records[r].decision)| == 1
  {
    var words, actor := WordsOf(row.basis), Val(w.records[r].decidedBy);
    forall a | a in w.audits
      ensures TellsOf(w.audits[a], row, words.reviewed, actor) <==> AuditNames(w.audits[a], row, ReviewEvent(row.KindOf()), actor)
    {
      TellsWords(w.audits[a], row);
    }
    hide TellsOf, AuditNames, WordsOf, TextAt, Row.KindOf;
    assert (set a | a in w.audits && TellsOf(w.audits[a], row, words.reviewed, actor)
                    && TextAt(w.audits[a].payload, KApprovalId) == Val(r)
                    && TextAt(w.audits[a].payload, KDecision) == Val(w.records[r].decision))
        == (set a | a in w.audits
                    && AuditNames(w.audits[a], row, ReviewEvent(row.KindOf()), actor)
                    && TextAt(w.audits[a].payload, KApprovalId) == Val(r)
                    && TextAt(w.audits[a].payload, KDecision) == Val(w.records[r].decision));
  }

  /** Such a transaction commits only if the record of the decided row was given on what the row says: it repeats the
      row and the submission of the task. */
  lemma TouchedRecordRepeatsItsRow(db: Db, statements: seq<Statement>, k: RowKey, r: Text)
    requires Commits(db, statements) && ReviewLink(k) in ApplyAll(db, statements).events && k in ApplyAll(db, statements).db.rows
    requires var w := ApplyAll(db, statements).db;
             && r in w.records && w.records[r].taskId in w.tasks && w.tasks[w.records[r].taskId].status in {Approved, Rejected}
             && Val(w.records[r].taskId) == TextAt(w.rows[k].payload, KApprovalTaskId)
    ensures var w := ApplyAll(db, statements).db; var p := w.records[r].payload;
            Repeats(p, w.rows[k]) && SameText(p, w.tasks[w.records[r].taskId].payload, WordsOf(w.rows[k].basis).hashKey)
  {
    var w := ApplyAll(db, statements).db;
    QueuedHolds(w, ApplyAll(db, statements).events, ReviewLink(k));
    assert ReviewLinkHolds(w, k);
    hide ApplyAll, ReviewLinkHolds, Repeats, WordsOf, TextAt;
    RecordRepeats(w, k, w.rows[k], r);
  }

  lemma RecordRepeats(w: Db, k: RowKey, row: Row, r: Text)
    requires k in w.rows && w.rows[k] == row && ReviewLinkHolds(w, k)
    requires r in w.records && w.records[r].taskId in w.tasks && w.tasks[w.records[r].taskId].status in {Approved, Rejected}
    requires Val(w.records[r].taskId) == TextAt(row.payload, KApprovalTaskId)
    ensures Repeats(w.records[r].payload, row)
         && SameText(w.records[r].payload, w.tasks[w.records[r].taskId].payload, WordsOf(row.basis).hashKey)
  {
    WordsAgree(row);
    RepeatsNames(w.records[r].payload, row);
    assert row.TaskId() == TextAt(row.payload, KApprovalTaskId);
    var t := w.records[r].taskId;
    assert r in RecordsOf(w, t);
    assert DecidedWith(w, t, row, w.tasks[t].status) by {
      hide PolicyLinked, ReleaseLinked, TaskLinked, CreationAudited, RecordsOf, DecidedWith, TextAt, HasAny, AllStrings, Row.Status;
    }
    hide ReviewLinkHolds, RecordsOf;
    DecidedRecord(w, t, row, r);
  }

  lemma DecidedRecord(w: Db, t: Text, row: Row, r: Text)
    requires t in w.tasks && DecidedWith(w, t, row, w.tasks[t].status) && r in RecordsOf(w, t)
    ensures r in w.records && NamesRow(w.records[r].payload, row)
    ensures TextAt(w.records[r].payload, HashKey(row.KindOf())) == TextAt(w.tasks[t].payload, HashKey(row.KindOf()))
  {
    hide NamesRow, TextAt, FlagMatches, ReviewAudited, RecordMatches, Row.Status, Row.CreatedBy;
  }

  /** A superseded review belongs to a retired actual and bears the stamp of its replacement: no document can take a
      review back. */
  lemma SupersededReviewsAreReplaced(transactions: seq<seq<Statement>>, t: Text)
    requires var tasks := Run(EmptyDb, transactions).tasks;
             && t in tasks && tasks[t].status == Superseded
             && tasks[t].basis.taskType in {ActualFactReview, VarianceClassificationReview, CalibrationExampleReview}
    ensures var db := Run(EmptyDb, transactions);
            var task, k := db.tasks[t], RowKey(Actuals, db.tasks[t].basis.entityId);
            && task.basis.taskType == ActualFactReview && k in db.rows && !db.rows[k].current
            && forall key :: key in {KSupersededAt, KSupersededByEntity, KSupersessionReason} ==>
                 key in task.payload && task.payload[key].JString?
  {
    var db := Run(EmptyDb, transactions);
    RunFromEmpty(transactions);
    assert TaskHasRow(db, t);
    var k := RowKey(KindOfType(db.tasks[t].basis.taskType), db.tasks[t].basis.entityId);
    assert RowSettled(db, db.rows[k]) && Shape(db.rows[k]);
    hide Run, Settled, PolicyLinked, ReleaseLinked, TaskLinked, Shape, Agreed, RecordsOf, Reviewed, Row.Status;
  }
}
