/** The deferred constraint triggers: what each queued event checks against the state at commit. */
module DeferredChecks {
  import opened Json
  import opened EvidenceTables
  import opened RowGuards

  datatype Event =
    | Decision(taskId: Text, value: Text)
    | TaskLink(taskId: Text)
    | ReviewLink(key: RowKey)

  /** tenderguard_validate_approval_decision, with the value captured when the event was queued. */
  predicate DecisionAgrees(db: Db, t: Text, value: Text) {
    && IsDecision(value)
    && t in db.tasks && db.tasks[t].status == value
    && |set r | r in RecordsOf(db, t) && db.records[r].decision == value| == 1
  }

  /** The one record of a decided task carries its decision and its reviewer. */
  predicate RecordMatches(db: Db, t: Text, row: Row, decision: Text) {
    && |RecordsOf(db, t)| == 1
    && forall r :: r in RecordsOf(db, t) ==>
         db.records[r].decision == decision && TextAt(row.payload, KReviewedBy) == Val(db.records[r].decidedBy)
  }

  /** A superseded task keeps its row retired, and a record only for a row that was reviewed. */
  predicate RetiredWith(db: Db, t: Text, row: Row) {
    && !row.current
    && ((row.Status() == Val(InReview) && |RecordsOf(db, t)| == 0)
        || (row.Status() in {Val(Verified), Val(Rejected)} && |RecordsOf(db, t)| == 1))
  }

  /** tenderguard_validate_actuals_task_link */
  predicate TaskLinkHolds(db: Db, t: Text) {
    t in db.tasks && IsReviewType(db.tasks[t].basis.taskType) ==>
      var task := db.tasks[t];
      var key := RowKey(KindOfType(task.basis.taskType), task.basis.entityId);
      && key in db.rows && db.rows[key].TaskId() == Val(t)
      && var row := db.rows[key];
      match task.status
      case Pending => row.Status() == Val(InReview) && |RecordsOf(db, t)| == 0
      case Approved => row.Status() == Val(Verified) && TextAt(row.payload, KReviewDecision) == Val(Approved)
                       && RecordMatches(db, t, row, Approved)
      case Rejected => row.Status() == Val(Rejected) && TextAt(row.payload, KReviewDecision) == Val(Rejected)
                       && RecordMatches(db, t, row, Rejected)
      case Superseded => key.kind == Actuals && RetiredWith(db, t, row)
      case _ => false
  }

  /** The approved actuals policy the row names, with the content hash it names. */
  predicate PolicyLinked(db: Db, row: Row) {
    && var id := TextAt(row.payload, KPolicyVersionId);
    && id.Val? && id.v in db.versions
    && var version := db.versions[id.v];
    && version.versionKind == ActualsPolicy && version.status == Approved
    && Val(version.contentHash) == TextAt(row.payload, KPolicyContentHash)
    && version.approvedBy.Val? && version.approvedAt.Val?
  }

  /** The release decision that allowed the compared forecast for bid, on the named snapshot. */
  predicate ReleaseAllows(db: Db, id: Nullable<Text>, projectId: Text, snapshotId: Text) {
    && id.Val? && id.v in db.releases
    && var release := db.releases[id.v];
    && release.projectId == projectId && release.snapshotId == Val(snapshotId) && release.allowed
    && release.requestedState == ApprovedForBid && release.resultingState == ApprovedForBid
  }

  predicate ReleaseLinked(db: Db, row: Row) {
    var id := TextAt(row.payload, KReleasedByDecisionId);
    match row.KindOf()
    case Actuals => true
    case Variances => ReleaseAllows(db, id, row.basis.projectId, row.basis.snapshotId)
    case Calibrations =>
      && ReleaseAllows(db, id, row.basis.projectId, row.basis.featuresSnapshotId)
      && var key := RowKey(Variances, row.basis.varianceRecordId);
      && key in db.rows && db.rows[key].basis.VarianceBasis?
      && db.rows[key].basis.projectId == row.basis.projectId
      && db.rows[key].basis.snapshotId == row.basis.featuresSnapshotId
      && TextAt(db.rows[key].payload, KReleasedByDecisionId) == id
  }

  /** Texts that a payload shares with a reviewed row. */
  predicate SameTexts(p: Payload, row: Row, keys: set<Key>) {
    forall k :: k in keys ==> TextAt(p, k) == TextAt(row.payload, k)
  }

  /** The identity of a row as the payload of its task or of its record repeats it. */
  predicate NamesRow(p: Payload, row: Row) {
    && TextAt(p, IdKey(row.KindOf())) == Val(row.basis.id)
    && SameTexts(p, row, {KPolicyVersionId, KPolicyContentHash})
    && match row.KindOf()
       case Actuals =>
         && TextAt(p, KActualKey) == Val(row.basis.actualKey)
         && TextAt(p, KSourceObservationId) == Val(row.basis.sourceObservationId)
         && At(p, KSourceLeafIds) == At(row.payload, KSourceLeafIds)
         && At(p, KOutcomeEvidenceIds) == At(row.payload, KOutcomeEvidenceIds)
       case Variances =>
         TextAt(p, KActualRecordId) == Val(row.basis.actualRecordId) && SameTexts(p, row, {KReleasedByDecisionId})
       case Calibrations =>
         && TextAt(p, KActualRecordId) == Val(row.basis.actualRecordId)
         && TextAt(p, KVarianceRecordId) == Val(row.basis.varianceRecordId)
         && SameTexts(p, row, {KReleasedByDecisionId})
  }

  /** The task a row names is its own review task. */
  predicate TaskLinked(db: Db, row: Row) {
    && row.TaskId().Val? && row.TaskId().v in db.tasks
    && var task := db.tasks[row.TaskId().v];
    && task.basis.projectId == row.basis.projectId && task.basis.entityId == row.basis.id
    && Val(task.basis.assignedRole) == row.Role() && task.basis.required
    && TextAt(task.payload, KCreatedBy) == row.CreatedBy()
    && IsString(task.payload, HashKey(row.KindOf()))
    && task.basis.taskType == TaskTypeOf(row.KindOf()) && task.basis.entityType == EntityTypeOf(row.KindOf())
    && TextAt(task.payload, RoleKey(row.KindOf())) == row.Role()
    && NamesRow(task.payload, row)
  }

  /** Both payloads hold the same text: `=` is not true of nulls. */
  predicate SharesText(p: Payload, q: Payload, k: Key) {
    TextAt(p, k).Val? && TextAt(p, k) == TextAt(q, k)
  }

  /** An audit event of the row's project that names the row, its task and its policy. */
  predicate AuditNames(audit: Audit, row: Row, eventType: Text, actor: Nullable<Text>) {
    && audit.aggregateType == Project && audit.aggregateId == row.basis.projectId
    && audit.eventType == eventType && Val(audit.actorId) == actor
    && TextAt(audit.payload, IdKey(row.KindOf())) == Val(row.basis.id)
    && SharesText(audit.payload, row.payload, KApprovalTaskId)
    && SharesText(audit.payload, row.payload, KPolicyVersionId)
    && SharesText(audit.payload, row.payload, KPolicyContentHash)
    && (row.KindOf() != Actuals ==> SharesText(audit.payload, row.payload, KReleasedByDecisionId))
  }

  /** Exactly one event records the row's creation. */
  predicate CreationAudited(db: Db, row: Row, task: Task) {
    |set a | a in db.audits
          && AuditNames(db.audits[a], row, CreationEvent(row.KindOf()), row.CreatedBy())
          && SharesText(db.audits[a].payload, task.payload, HashKey(row.KindOf()))| == 1
  }

  /** Exactly one event records the decision r of the row's review. */
  predicate ReviewAudited(db: Db, row: Row, r: Text)
    requires r in db.records
  {
    |set a | a in db.audits
          && AuditNames(db.audits[a], row, ReviewEvent(row.KindOf()), Val(db.records[r].decidedBy))
          && TextAt(db.audits[a].payload, KApprovalId) == Val(r)
          && TextAt(db.audits[a].payload, KDecision) == Val(db.records[r].decision)| == 1
  }

  /** The flag and the approver a decided row keeps outside the common review keys. */
  predicate FlagMatches(row: Row, decision: Text, decidedBy: Text) {
    match row.KindOf()
    case Actuals => row.flag == (decision == Approved)
                    && (decision == Approved ==> TextAt(row.payload, KVerifiedBy) == Val(decidedBy))
    case Variances => true
    case Calibrations => row.flag == (decision == Approved)
                         && (decision == Approved ==> TextAt(row.payload, KApprovedBy) == Val(decidedBy))
  }

  predicate DecidedWith(db: Db, t: Text, row: Row, decision: Text)
    requires t in db.tasks
  {
    && (row.KindOf() == Actuals ==> row.current)
    && TextAt(row.payload, KReviewDecision) == Val(decision)
    && row.Status() == Val(StatusFor(decision))
    && RecordMatches(db, t, row, decision)
    && TextAt(row.payload, KReviewedBy) != row.CreatedBy()
    && forall r :: r in RecordsOf(db, t) ==>
         && FlagMatches(row, decision, db.records[r].decidedBy)
         && NamesRow(db.records[r].payload, row)
         && TextAt(db.records[r].payload, HashKey(row.KindOf())) == TextAt(db.tasks[t].payload, HashKey(row.KindOf()))
         && ReviewAudited(db, row, r)
  }

  /** tenderguard_validate_actuals_review_link */
  predicate ReviewLinkHolds(db: Db, key: RowKey) {
    key in db.rows ==>
      var row := db.rows[key];
      && PolicyLinked(db, row) && TaskLinked(db, row) && ReleaseLinked(db, row)
      && var t := row.TaskId().v; var task := db.tasks[t];
      CreationAudited(db, row, task) &&
      match task.status
      case Pending =>
        && row.Status() == Val(InReview) && |RecordsOf(db, t)| == 0
        && !HasAny(row.payload, {KReviewDecision, KReviewedBy, KReviewedAt})
        && !row.flag && row.current
      case Approved => DecidedWith(db, t, row, Approved)
      case Rejected => DecidedWith(db, t, row, Rejected)
      case Superseded =>
        && key.kind == Actuals && !row.current
        && (row.Status() == Val(InReview) ==> |RecordsOf(db, t)| == 0)
        && (row.Status() in {Val(Verified), Val(Rejected)} ==> |RecordsOf(db, t)| == 1)
        && row.Status() in {Null, Val(InReview), Val(Verified), Val(Rejected)}
        && AllStrings(task.payload, {KSupersededAt, KSupersededByEntity, KSupersessionReason})
      case _ => false
  }

  predicate EventHolds(db: Db, event: Event) {
    match event
    case Decision(t, value) => DecisionAgrees(db, t, value)
    case TaskLink(t) => TaskLinkHolds(db, t)
    case ReviewLink(key) => ReviewLinkHolds(db, key)
  }
}
