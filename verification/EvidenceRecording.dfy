/** Recording an actual, a variance or a calibration: in any settled state a properly documented entry commits, and the
    row it leaves can be reviewed either way. */
module EvidenceRecording {
  import opened Json
  import opened EvidenceTables
  import opened RowGuards
  import opened DeferredChecks
  import opened Transactions
  import opened EvidenceHistory
  import opened EvidenceInvariant
  import opened EvidenceProgress

  datatype Entry = Entry(
    taskId: Text, auditId: Text, author: Text, role: Text, policy: Text, hash: Text, submission: Text, release: Text, at: int)

  function Author(basis: Basis, e: Entry): Text {
    if basis.VarianceBasis? then basis.classifiedBy else e.author
  }

  /** What the task and the event say of every row. */
  function Common(basis: Basis, e: Entry): Payload {
    map[WordsOf(basis).idKey := JString(basis.id), WordsOf(basis).hashKey := JString(e.submission),
        KPolicyVersionId := JString(e.policy), KPolicyContentHash := JString(e.hash)]
  }

  function EntryTask(basis: Basis, e: Entry): Task {
    var w := WordsOf(basis);
    var p := Common(basis, e)[KCreatedBy := JString(Author(basis, e))][w.roleKey := JString(e.role)];
    Task(TaskBasis(e.taskId, basis.projectId, w.taskType, w.entityType, basis.id, e.role, true, e.at), Pending,
         match basis
         case ActualBasis(_, _, key, _, _, _, _, _, observation, _, _, _) =>
           p[KActualKey := JString(key)][KSourceObservationId := JString(observation)]
         case VarianceBasis(_, _, actual, _, _, _, _, _, _, _) =>
           p[KActualRecordId := JString(actual)][KReleasedByDecisionId := JString(e.release)]
         case CalibrationBasis(_, _, actual, variance, _, _, _, _, _) =>
           p[KActualRecordId := JString(actual)][KVarianceRecordId := JString(variance)][
             KReleasedByDecisionId := JString(e.release)],
         e.at)
  }

  function EntryRow(basis: Basis, e: Entry): Row {
    var p := map[KApprovalTaskId := JString(e.taskId), KPolicyVersionId := JString(e.policy),
                 KPolicyContentHash := JString(e.hash), WordsOf(basis).roleKey := JString(e.role)];
    Row(basis, false, true,
        match basis
        case ActualBasis(_, _, _, _, _, _, _, _, _, _, _, _) =>
          p[KReviewStatus := JString(InReview)][KCreatedBy := JString(e.author)]
        case VarianceBasis(_, _, _, _, _, _, _, _, _, _) =>
          p[KVariance := JObject(map[KStatus := JString(InReview)])][KReleasedByDecisionId := JString(e.release)]
        case CalibrationBasis(_, _, _, _, _, _, _, _, _) =>
          p[KReviewStatus := JString(InReview)][KCreatedBy := JString(e.author)][KReleasedByDecisionId := JString(e.release)])
  }

  function EntryAudit(basis: Basis, e: Entry): Audit {
    var p := Common(basis, e)[KApprovalTaskId := JString(e.taskId)];
    Audit(Project, basis.projectId, WordsOf(basis).created, Author(basis, e),
          if basis.ActualBasis? then p else p[KReleasedByDecisionId := JString(e.release)])
  }

  function Recording(basis: Basis, e: Entry): seq<Statement> {
    [InsertTask(EntryTask(basis, e)), InsertRow(EntryRow(basis, e)), InsertAudit(e.auditId, EntryAudit(basis, e))]
  }

  function KeyOfBasis(basis: Basis): RowKey {
    RowKey(if basis.ActualBasis? then Actuals else if basis.VarianceBasis? then Variances else Calibrations, basis.id)
  }

  function AfterRecording(db: Db, basis: Basis, e: Entry): Db {
    db.(tasks := db.tasks[e.taskId := EntryTask(basis, e)],
        rows := db.rows[KeyOfBasis(basis) := EntryRow(basis, e)],
        audits := db.audits[e.auditId := EntryAudit(basis, e)])
  }

  predicate Released(db: Db, e: Entry, projectId: Text, snapshotId: Text) {
    && e.release in db.releases
    && var release := db.releases[e.release];
    && release.projectId == projectId && release.snapshotId == Val(snapshotId) && release.allowed
    && release.requestedState == ApprovedForBid && release.resultingState == ApprovedForBid
  }

  /** Nothing else claims the place of the new row, and what it is about is there. */
  predicate HasPlace(db: Db, basis: Basis, e: Entry) {
    match basis
    case ActualBasis(_, project, key, _, _, _, _, _, _, _, _, _) =>
      forall k :: k in db.rows && db.rows[k].basis.ActualBasis? && db.rows[k].current ==>
        db.rows[k].basis.projectId != project || db.rows[k].basis.actualKey != key
    case VarianceBasis(_, project, actual, snapshot, _, _, _, _, _, _) =>
      && RowKey(Actuals, actual) in db.rows && Released(db, e, project, snapshot)
      && forall k :: k in db.rows && db.rows[k].basis.VarianceBasis? ==> db.rows[k].basis.actualRecordId != actual
    case CalibrationBasis(_, project, actual, variance, snapshot, _, _, _, _) =>
      && RowKey(Actuals, actual) in db.rows && RowKey(Variances, variance) in db.rows && Released(db, e, project, snapshot)
      && var compared := db.rows[RowKey(Variances, variance)];
      && compared.basis.VarianceBasis? && compared.basis.projectId == project && compared.basis.snapshotId == snapshot
      && TextAt(compared.payload, KReleasedByDecisionId) == Val(e.release)
      && forall k :: k in db.rows && db.rows[k].basis.CalibrationBasis? ==>
           db.rows[k].basis.actualRecordId != actual && db.rows[k].basis.varianceRecordId != variance
  }

  ghost predicate Recordable(db: Db, basis: Basis, e: Entry) {
    && Settled(db) && e.taskId !in db.tasks && e.auditId !in db.audits && KeyOfBasis(basis) !in db.rows
    && e.policy in db.versions
    && var policy := db.versions[e.policy];
    && policy.versionKind == ActualsPolicy && policy.status == Approved && policy.contentHash == e.hash
    && policy.approvedBy.Val? && policy.approvedAt.Val? && HasPlace(db, basis, e)
    && forall x :: x in db.audits ==>
         db.audits[x].eventType != WordsOf(basis).created || TextAt(db.audits[x].payload, WordsOf(basis).idKey) != Val(basis.id)
  }

  // ----- the documents -----

  lemma EntryTexts(basis: Basis, e: Entry)
    ensures var row, task, audit, w := EntryRow(basis, e), EntryTask(basis, e), EntryAudit(basis, e), WordsOf(basis);
            && TextAt(row.payload, KApprovalTaskId) == Val(e.taskId) && row.TaskId() == Val(e.taskId)
            && TextAt(row.payload, KPolicyVersionId) == Val(e.policy) && TextAt(row.payload, KPolicyContentHash) == Val(e.hash)
            && row.Role() == Val(e.role) && row.CreatedBy() == Val(Author(basis, e)) && Creator(row) == Val(Author(basis, e))
            && row.Status() == Val(InReview) && row.KeyOf() == KeyOfBasis(basis) && row.HasColumns()
            && !HasAny(row.payload, ReviewKeys(row.KindOf()))
            && (!basis.ActualBasis? ==> TextAt(row.payload, KReleasedByDecisionId) == Val(e.release))
            && TextAt(task.payload, KCreatedBy) == Val(Author(basis, e)) && IsString(task.payload, w.hashKey)
            && TextAt(task.payload, w.hashKey) == Val(e.submission) && TextAt(task.payload, w.roleKey) == Val(e.role)
            && TextAt(task.payload, w.idKey) == Val(basis.id)
  {
    EntryTaskTexts(basis, e);
    hide EntryTask, EntryAudit;
  }

  lemma EntryTaskTexts(basis: Basis, e: Entry)
    ensures var task, w := EntryTask(basis, e), WordsOf(basis);
            && TextAt(task.payload, KCreatedBy) == Val(Author(basis, e)) && IsString(task.payload, w.hashKey)
            && TextAt(task.payload, w.hashKey) == Val(e.submission) && TextAt(task.payload, w.roleKey) == Val(e.role)
            && TextAt(task.payload, w.idKey) == Val(basis.id)
  {
  }

  lemma AuditEntryTexts(basis: Basis, e: Entry)
    ensures var audit, w := EntryAudit(basis, e), WordsOf(basis);
            && audit.aggregateType == Project && audit.aggregateId == basis.projectId && audit.eventType == w.created
            && audit.actorId == Author(basis, e) && TextAt(audit.payload, w.idKey) == Val(basis.id)
            && TextAt(audit.payload, KApprovalTaskId) == Val(e.taskId)
            && TextAt(audit.payload, KPolicyVersionId) == Val(e.policy) && TextAt(audit.payload, KPolicyContentHash) == Val(e.hash)
            && TextAt(audit.payload, w.hashKey) == Val(e.submission)
            && (!basis.ActualBasis? ==> TextAt(audit.payload, KReleasedByDecisionId) == Val(e.release))
  {
  }

  lemma EntryNamesRow(basis: Basis, e: Entry)
    ensures NamesRow(EntryTask(basis, e).payload, EntryRow(basis, e))
  {
  }

  lemma EntryEnters(basis: Basis, e: Entry)
    ensures TaskEnters(EntryTask(basis, e)) && EntersInReview(EntryRow(basis, e))
  {
    TaskEntryEnters(basis, e);
    RowEntryEnters(basis, e);
    hide TaskEnters, EntersInReview;
  }

  lemma EntryTaskParts(basis: Basis, e: Entry)
    ensures var task, w := EntryTask(basis, e), WordsOf(basis);
            && task.status == Pending && task.basis.required && task.basis.taskType == w.taskType
            && task.basis.entityType == w.entityType && task.basis.entityId == basis.id && task.basis.assignedRole == e.role
            && IsString(task.payload, KCreatedBy) && EntryRow(basis, e).basis == basis
  {
  }

  lemma TaskEntryEnters(basis: Basis, e: Entry)
    ensures TaskEnters(EntryTask(basis, e))
  {
    hide EntryTask, EntryRow, TextAt, IsString, Row.TaskId, Row.Role, Row.CreatedBy, Row.Status, HasAny, Row.KeyOf, Creator;
    EntryTexts(basis, e);
    EntryTaskParts(basis, e);
    WordsAgree(EntryRow(basis, e));
    hide WordsOf;
  }

  lemma RowEntryEnters(basis: Basis, e: Entry)
    ensures EntersInReview(EntryRow(basis, e))
  {
    hide TextAt;
    EntryTexts(basis, e);
  }

  // ----- the statements -----

  lemma PlaceIsUnique(db: Db, basis: Basis, e: Entry)
    requires WellFormed(db) && HasPlace(db, basis, e) && KeyOfBasis(basis) !in db.rows
    ensures UniqueIn(db, EntryRow(basis, e)) && ReferencesExist(db, EntryRow(basis, e))
  {
    hide Shape;
    var row := EntryRow(basis, e);
    assert row.basis == basis;
    hide EntryRow, Released;
    forall k | k in db.rows && k != row.KeyOf() ensures Distinct(row, db.rows[k]) {
    }
  }

  lemma RecordingParts(db: Db, basis: Basis, e: Entry)
    requires Recordable(db, basis, e)
    ensures WellFormed(db) && HasPlace(db, basis, e) && RecordsOf(db, e.taskId) == {}
    ensures e.taskId !in db.tasks && e.auditId !in db.audits && KeyOfBasis(basis) !in db.rows
  {
    hide RowSettled, RecordSettled, TaskHasRow, HasPlace, TextAt, WordsOf;
    forall r | r in db.records ensures db.records[r].taskId != e.taskId {
    }
  }

  lemma ThreeStatements(db: Db, s: seq<Statement>, d1: Db, e1: seq<Event>, d2: Db, e2: seq<Event>, d3: Db, e3: seq<Event>)
    requires |s| == 3
    requires Apply(db, s[0]) == Done(d1, e1) && Apply(d1, s[1]) == Done(d2, e2) && Apply(d2, s[2]) == Done(d3, e3)
    ensures ApplyAll(db, s) == Done(d3, e1 + e2 + e3)
  {
    hide Apply;
    assert s[..3] == s && s[..0] == [];
    assert ApplyAll(db, s[..0]) == Done(db, []);
    OneMore(db, s, 0, db, [], d1, e1);
    assert [] + e1 == e1;
    OneMore(db, s, 1, d1, e1, d2, e2);
    OneMore(db, s, 2, d2, e1 + e2, d3, e3);
  }

  lemma TaskEntry(db: Db, task: Task)
    requires task.basis.id !in db.tasks && TaskEnters(task)
    ensures Apply(db, InsertTask(task)) == Done(db.(tasks := db.tasks[task.basis.id := task]), [TaskLink(task.basis.id)])
  {
    hide TaskEnters;
  }

  lemma RowEntry(db: Db, row: Row)
    requires row.KeyOf() !in db.rows && row.HasColumns() && EntersInReview(row) && ReferencesExist(db, row) && UniqueIn(db, row)
    ensures Apply(db, InsertRow(row)) == Done(db.(rows := db.rows[row.KeyOf() := row]), [ReviewLink(row.KeyOf())])
  {
    hide EntersInReview, ReferencesExist, UniqueIn, Row.KeyOf, Row.HasColumns;
  }

  lemma RecordingApplies(db: Db, basis: Basis, e: Entry)
    requires Recordable(db, basis, e)
    ensures ApplyAll(db, Recording(basis, e))
         == Done(AfterRecording(db, basis, e), [TaskLink(e.taskId)] + [ReviewLink(KeyOfBasis(basis))] + [])
  {
    var task, row := EntryTask(basis, e), EntryRow(basis, e);
    assert task.basis.id == e.taskId;
    hide Recordable, EntryTask, EntryRow, EntryAudit, TaskEnters, EntersInReview, ReferencesExist, UniqueIn, Row.KeyOf,
         Row.HasColumns, Row.KindOf, Apply, WellFormed, HasPlace, TextAt, HasAny, WordsOf, Row.Status, Row.CreatedBy, Row.Role,
         Row.TaskId, Creator, ReviewKeys, RecordsOf;
    RecordingParts(db, basis, e);
    EntryTexts(basis, e);
    EntryEnters(basis, e);
    PlaceIsUnique(db, basis, e);
    var d1 := db.(tasks := db.tasks[e.taskId := task]);
    var d2 := d1.(rows := db.rows[KeyOfBasis(basis) := row]);
    UniqueDepends(db, d1, row);
    ReferencesDepend(db);
    TaskEntry(db, task);
    RowEntry(d1, row);
    AuditStep(d2, e.auditId, EntryAudit(basis, e));
    ThreeStatements(db, Recording(basis, e), d1, [TaskLink(e.taskId)], d2, [ReviewLink(KeyOfBasis(basis))],
                    AfterRecording(db, basis, e), []);
  }

  // ----- the deferred checks -----

  lemma EntryTaskLinked(w: Db, basis: Basis, e: Entry)
    requires e.taskId in w.tasks && w.tasks[e.taskId] == EntryTask(basis, e)
    ensures TaskLinked(w, EntryRow(basis, e))
  {
    var row, task := EntryRow(basis, e), EntryTask(basis, e);
    EntryTexts(basis, e);
    EntryNamesRow(basis, e);
    WordsAgree(row);
    assert row.basis == basis && task.basis.id == e.taskId && task.basis.projectId == basis.projectId
           && task.basis.entityId == basis.id && task.basis.assignedRole == e.role && task.basis.required
           && task.basis.taskType == WordsOf(basis).taskType && task.basis.entityType == WordsOf(basis).entityType;
    hide EntryRow, EntryTask, WordsOf, NamesRow, TextAt, IsString, Row.TaskId, Row.Role, Row.CreatedBy, Row.Status, Row.KindOf, HasAny;
  }

  lemma EntryLinks(db: Db, w: Db, basis: Basis, e: Entry)
    requires Recordable(db, basis, e) && w == AfterRecording(db, basis, e)
    ensures PolicyLinked(w, EntryRow(basis, e)) && ReleaseLinked(w, EntryRow(basis, e))
  {
    var row := EntryRow(basis, e);
    assert row.basis == basis;
    assert w.versions == db.versions && w.releases == db.releases;
    assert KeyOfBasis(basis) !in db.rows by { hide Settled, HasPlace, TextAt, WordsOf; }
    assert forall k :: k in db.rows ==> k in w.rows && w.rows[k] == db.rows[k];
    hide AfterRecording, Settled, EntryRow, EntryTask, EntryAudit, WordsOf, TextAt, Row.TaskId, Row.Role, Row.CreatedBy,
         Row.Status, Row.KeyOf, Row.KindOf, HasAny, Creator, ReviewKeys, Recordable, PolicyLinked, ReleaseLinked, HasPlace, WellFormed,
         RecordsOf, KeyOfBasis, IsString, Row.HasColumns;
    RecordingParts(db, basis, e);
    EntryTexts(basis, e);
    EntryPolicy(db, w, row, e);
    PlaceIsReleased(db, w, row, e);
  }

  lemma EntryPolicy(db: Db, w: Db, row: Row, e: Entry)
    requires Recordable(db, row.basis, e) && w.versions == db.versions
    requires TextAt(row.payload, KPolicyVersionId) == Val(e.policy) && TextAt(row.payload, KPolicyContentHash) == Val(e.hash)
    ensures PolicyLinked(w, row)
  {
    hide TextAt, Settled, HasPlace, WordsOf, KeyOfBasis;
  }

  lemma PlaceIsReleased(db: Db, w: Db, row: Row, e: Entry)
    requires HasPlace(db, row.basis, e) && w.releases == db.releases
    requires forall k :: k in db.rows ==> k in w.rows && w.rows[k] == db.rows[k]
    requires !row.basis.ActualBasis? ==> TextAt(row.payload, KReleasedByDecisionId) == Val(e.release)
    ensures ReleaseLinked(w, row)
  {
    hide TextAt;
  }

  /** The checks of a new row, from their parts. */
  lemma PendingHolds(w: Db, n: Row, t: Text)
    requires n.KeyOf() in w.rows && w.rows[n.KeyOf()] == n && n.TaskId() == Val(t) && n.current && !n.flag
    requires PolicyLinked(w, n) && TaskLinked(w, n) && ReleaseLinked(w, n) && CreationAudited(w, n, w.tasks[t])
    requires w.tasks[t].status == Pending && RecordsOf(w, t) == {}
    requires n.Status() == Val(InReview) && !HasAny(n.payload, {KReviewDecision, KReviewedBy, KReviewedAt})
    ensures ReviewLinkHolds(w, n.KeyOf()) && TaskLinkHolds(w, t)
  {
    hide PolicyLinked, ReleaseLinked, CreationAudited, TextAt, Row.Status, HasAny, RecordsOf, TaskLinked, NamesRow;
    OwnTaskOf(w, n);
  }

  lemma NoReviewKeys(row: Row)
    requires !HasAny(row.payload, ReviewKeys(row.KindOf()))
    ensures !HasAny(row.payload, {KReviewDecision, KReviewedBy, KReviewedAt})
  {
  }

  /** The new row's creation is on record, once. */
  lemma CreationRecorded(db: Db, basis: Basis, e: Entry)
    requires Recordable(db, basis, e)
    ensures CreatedOnce(AfterRecording(db, basis, e), EntryRow(basis, e), EntryTask(basis, e), e.auditId)
  {
    hide Settled, HasPlace, TextAt, WordsOf, EntryAudit, EntryRow, EntryTask, KeyOfBasis, CreatedOnce;
    OthersStay(db.audits, e.auditId, EntryAudit(basis, e), WordsOf(basis).created, WordsOf(basis).idKey, basis.id);
    CreatedByEntry(AfterRecording(db, basis, e), basis, e);
  }

  lemma OthersStay(audits: map<Text, Audit>, a: Text, audit: Audit, created: Text, key: Key, id: Text)
    requires forall x :: x in audits ==> audits[x].eventType != created || TextAt(audits[x].payload, key) != Val(id)
    ensures var w := audits[a := audit];
            forall x :: x in w && x != a ==> w[x].eventType != created || TextAt(w[x].payload, key) != Val(id)
  {
    hide TextAt;
  }

  lemma CreatedByEntry(w: Db, basis: Basis, e: Entry)
    requires e.auditId in w.audits && w.audits[e.auditId] == EntryAudit(basis, e)
    requires forall x :: x in w.audits && x != e.auditId ==>
      w.audits[x].eventType != WordsOf(basis).created || TextAt(w.audits[x].payload, WordsOf(basis).idKey) != Val(basis.id)
    ensures CreatedOnce(w, EntryRow(basis, e), EntryTask(basis, e), e.auditId)
  {
    assert EntryRow(basis, e).basis == basis && EntryTask(basis, e).basis.id == e.taskId;
    hide EntryRow, EntryTask, EntryAudit, TextAt, Row.TaskId, Row.Role, Row.CreatedBy, Row.Status, Row.KeyOf, HasAny, WordsOf,
         Creator, ReviewKeys, IsString;
    EntryTexts(basis, e);
    AuditEntryTexts(basis, e);
  }

  lemma EntryAudited(w: Db, basis: Basis, e: Entry)
    requires CreatedOnce(w, EntryRow(basis, e), EntryTask(basis, e), e.auditId)
    ensures CreationAudited(w, EntryRow(basis, e), EntryTask(basis, e))
  {
    var row, task := EntryRow(basis, e), EntryTask(basis, e);
    assert RowEvolves(row, row);
    assert row.TaskId() == Val(task.basis.id) by { EntryTexts(basis, e); }
    hide CreatedOnce, EntryRow, EntryTask, RowEvolves, WordsOf, Row.TaskId, CreationAudited;
    CreationAuditedOnce(w, w, row, row, task, task, e.auditId);
  }

  lemma RecordedTables(db: Db, basis: Basis, e: Entry)
    requires Recordable(db, basis, e)
    ensures var w, n, t := AfterRecording(db, basis, e), EntryRow(basis, e), e.taskId;
            && n.KeyOf() == KeyOfBasis(basis) && n.KeyOf() in w.rows && w.rows[n.KeyOf()] == n
            && n.TaskId() == Val(t) && n.current && !n.flag && n.basis == basis && n.Status() == Val(InReview)
            && t in w.tasks && w.tasks[t] == EntryTask(basis, e) && EntryTask(basis, e).status == Pending
            && EntryTask(basis, e).basis.id == t && EntryTask(basis, e).updatedAt == e.at
            && RecordsOf(w, t) == {} && w.records == db.records
            && !HasAny(n.payload, {KReviewDecision, KReviewedBy, KReviewedAt}) && Creator(n) == Val(Author(basis, e))
  {
    RecordingParts(db, basis, e);
    EntryTexts(basis, e);
    var n := EntryRow(basis, e);
    assert n.current && !n.flag && n.basis == basis;
    hide Recordable, EntryRow, TextAt, Row.TaskId, Row.Role, Row.CreatedBy, Row.Status, HasAny, WordsOf, ReviewKeys, Creator,
         Row.KeyOf, Row.KindOf, WellFormed, HasPlace;
    NoReviewKeys(n);
    RecordsDepend(db, AfterRecording(db, basis, e), e.taskId);
  }

  /** Recording commits, and leaves exactly these tables. */
  lemma RecordingCommits(db: Db, basis: Basis, e: Entry)
    requires Recordable(db, basis, e)
    ensures Commits(db, Recording(basis, e))
    ensures Transact(db, Recording(basis, e)) == AfterRecording(db, basis, e)
  {
    hide ApplyAll, Recordable, AfterRecording, ReviewLinkHolds, TaskLinkHolds, DecisionAgrees, Row.KeyOf, Recording, CreatedOnce,
         EntryRow, EntryTask, KeyOfBasis, PolicyLinked, ReleaseLinked, TaskLinked, CreationAudited, HasAny, RecordsOf, Row.TaskId,
         Row.Status, Creator;
    var w, n := AfterRecording(db, basis, e), EntryRow(basis, e);
    RecordingApplies(db, basis, e);
    RecordedTables(db, basis, e);
    EntryLinks(db, w, basis, e);
    EntryTaskLinked(w, basis, e);
    CreationRecorded(db, basis, e);
    EntryAudited(w, basis, e);
    PendingHolds(w, n, e.taskId);
  }

  /** After that the row can be reviewed by anybody but its author, under new ids. */
  lemma RecordedIsReviewable(db: Db, basis: Basis, e: Entry, v: Review)
    requires Recordable(db, basis, e) && v.decision in {Approved, Rejected} && v.updatedAt > e.at
    requires v.reviewer != Author(basis, e) && v.recordId !in db.records && v.auditId !in db.audits && v.auditId != e.auditId
    requires forall x :: x in db.audits ==> TextAt(db.audits[x].payload, KApprovalId) != Val(v.recordId)
    ensures Reviewable(AfterRecording(db, basis, e), EntryRow(basis, e), EntryTask(basis, e), v, e.auditId)
  {
    hide Settled, CreatedOnce, EntryRow, EntryTask, EntryAudit, Commits, Transact, TextAt, Row.KeyOf, Row.TaskId, Row.Status,
         HasAny, RecordsOf, Creator, Evolves, KeyOfBasis, HasPlace, WordsOf;
    assert Settled(db);
    var w := AfterRecording(db, basis, e);
    assert w.audits == db.audits[e.auditId := EntryAudit(basis, e)];
    hide AfterRecording;
    RecordingCommits(db, basis, e);
    TransactSettles(db, Recording(basis, e));
    RecordedTables(db, basis, e);
    CreationRecorded(db, basis, e);
    NoApprovalId(basis, e);
    hide Recordable;
  }

  lemma NoApprovalId(basis: Basis, e: Entry)
    ensures TextAt(EntryAudit(basis, e).payload, KApprovalId) == Null
  {
  }

  /** Recorded and then reviewed, approving or rejecting: both transactions commit, in any settled state. */
  lemma RecordedAndReviewed(db: Db, basis: Basis, e: Entry, v: Review)
    requires Recordable(db, basis, e) && v.decision in {Approved, Rejected} && v.updatedAt > e.at
    requires v.reviewer != Author(basis, e) && v.recordId !in db.records && v.auditId !in db.audits && v.auditId != e.auditId
    requires forall x :: x in db.audits ==> TextAt(db.audits[x].payload, KApprovalId) != Val(v.recordId)
    ensures var recorded, row, task := AfterRecording(db, basis, e), EntryRow(basis, e), EntryTask(basis, e);
            && Transact(db, Recording(basis, e)) == recorded && Commits(db, Recording(basis, e))
            && Commits(recorded, Reviewing(row, task, v))
            && Transact(recorded, Reviewing(row, task, v)) == AfterReview(recorded, row, task, v)
  {
    hide Recordable, Reviewable, AfterRecording, AfterReview, EntryRow, EntryTask, Recording, Reviewing, Commits, Transact, TextAt;
    RecordingCommits(db, basis, e);
    RecordedIsReviewable(db, basis, e, v);
    ReviewCommits(AfterRecording(db, basis, e), EntryRow(basis, e), EntryTask(basis, e), v, e.auditId);
  }

  // ----- what enters -----

  predicate Strings(p: Payload, keys: set<Key>) {
    forall k :: k in keys ==> k in p && p[k].JString?
  }

  predicate EntersAs(n: Task, entityType: Text, idKey: Key, roleKey: Key, hashKey: Key) {
    && n.status == Pending && n.basis.required && n.basis.entityType == entityType
    && TextAt(n.payload, idKey) == Val(n.basis.entityId) && TextAt(n.payload, roleKey) == Val(n.basis.assignedRole)
    && Strings(n.payload, {KCreatedBy, hashKey})
  }

  /** A task enters under a new id; a review of the three tables only pending, required and naming its row. */
  lemma TaskEntryOutcome(db: Db, n: Task)
    ensures Apply(db, InsertTask(n)).Done? <==>
              && n.basis.id !in db.tasks
              && (n.basis.taskType == ActualFactReview ==>
                    EntersAs(n, ActualRecord, KActualId, KReviewRole, KActualSubmissionHash))
              && (n.basis.taskType == VarianceClassificationReview ==>
                    EntersAs(n, VarianceRecord, KVarianceRecordId, KReviewRole, KVarianceSubmissionHash))
              && (n.basis.taskType == CalibrationExampleReview ==>
                    EntersAs(n, CalibrationExample, KCalibrationExampleId, KApprovalRole, KCalibrationSubmissionHash))
  {
    hide TextAt;
  }

  /** A row enters in review, under a new id, with its documents named and no word of a review; it claims nobody's
      place. */
  lemma RowEntryTells(db: Db, n: Row)
    requires Apply(db, InsertRow(n)).Done?
    ensures var p, b := n.payload, n.basis;
            && n.KeyOf() !in db.rows && Strings(p, {KApprovalTaskId, KPolicyVersionId, KPolicyContentHash})
            && KReviewDecision !in p && KReviewedBy !in p && KReviewedAt !in p
            && (!b.VarianceBasis? ==> TextAt(p, KReviewStatus) == Val(InReview) && !n.flag && KCreatedBy in p && p[KCreatedBy].JString?)
            && (!b.CalibrationBasis? ==> KReviewRole in p && p[KReviewRole].JString?)
            && (b.ActualBasis? ==> n.current && KVerifiedBy !in p && KVerifiedAt !in p)
            && (b.VarianceBasis? ==> && KVariance in p && p[KVariance].JObject? && TextWithin(p, KVariance, KStatus) == Val(InReview)
                                     && (KReviewedBy in p[KVariance].fields ==> p[KVariance].fields[KReviewedBy] == JNull)
                                     && Strings(p, {KReleasedByDecisionId}) && RowKey(Actuals, b.actualRecordId) in db.rows)
            && (b.CalibrationBasis? ==> && KApprovedBy !in p && KApprovedAt !in p && KApprovalReason !in p
                                        && Strings(p, {KApprovalRole, KReleasedByDecisionId})
                                        && RowKey(Actuals, b.actualRecordId) in db.rows
                                        && RowKey(Variances, b.varianceRecordId) in db.rows)
  {
    hide TextAt, TextWithin, UniqueIn;
  }
}
