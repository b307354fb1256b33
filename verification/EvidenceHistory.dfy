/** What every accepted statement keeps, and how far the tables can move in any number of them. */
module EvidenceHistory {
  import opened Json
  import opened EvidenceTables
  import opened RowGuards
  import opened DeferredChecks
  import opened Transactions

  /** A row that has left review. A reviewed variance may have lost its nested status within a
      transaction, so its reviewer is what tells. */
  predicate Reviewed(row: Row) {
    if row.KindOf() == Variances then KReviewedBy in row.payload else row.Status() != Val(InReview)
  }

  /** The keys that only a review writes. */
  function ReviewKeys(kind: Kind): set<Key> {
    match kind
    case Actuals => ACTUAL_REVIEW_KEYS
    case Variances => {KReviewDecision, KReviewedBy, KReviewedAt}
    case Calibrations => CALIBRATION_REVIEW_KEYS
  }

  /** A review is complete: it names its reviewer and time, and for an actual or a calibration the decision in every
      place that tells of it. */
  ghost predicate Complete(row: Row) {
    var p := row.payload;
    && TextAt(p, KReviewedBy).Val? && TextAt(p, KReviewedAt).Val?
    && match row.KindOf()
       case Variances => true
       case Actuals =>
         && TextAt(p, KReviewDecision) == Val(if row.flag then Approved else Rejected)
         && row.Status() == Val(if row.flag then Verified else Rejected)
         && (row.flag ==> TextAt(p, KVerifiedBy) == TextAt(p, KReviewedBy) && TextAt(p, KVerifiedAt) == TextAt(p, KReviewedAt))
         && (!row.flag ==> KVerifiedBy !in p && KVerifiedAt !in p)
       case Calibrations =>
         && TextAt(p, KReviewDecision) == Val(if row.flag then Approved else Rejected)
         && row.Status() == Val(if row.flag then Verified else Rejected)
         && (row.flag ==> && TextAt(p, KApprovedBy) == TextAt(p, KReviewedBy) && TextAt(p, KApprovedAt) == TextAt(p, KReviewedAt)
                          && TextAt(p, KApprovalReason).Val?)
         && (!row.flag ==> !HasAny(p, {KApprovedBy, KApprovedAt, KApprovalReason}))
  }

  ghost predicate Shape(row: Row) {
    && row.HasColumns()
    && (row.KindOf() != Variances ==> row.Status().Val?)
    && (!Reviewed(row) ==> !row.flag && row.Status() == Val(InReview) && !HasAny(row.payload, ReviewKeys(row.KindOf())))
    && (Reviewed(row) ==> Complete(row))
  }

  ghost predicate WellFormed(db: Db) {
    && (forall t :: t in db.tasks ==> db.tasks[t].basis.id == t)
    && (forall r :: r in db.records ==> db.records[r].taskId in db.tasks)
    && (forall r, r' :: r in db.records && r' in db.records && db.records[r].taskId == db.records[r'].taskId ==> r == r')
    && (forall k :: k in db.rows ==> db.rows[k].KeyOf() == k && Shape(db.rows[k]))
    && (forall k, k' :: k in db.rows && k' in db.rows && k != k' ==> Distinct(db.rows[k], db.rows[k']))
    && (forall k :: k in db.rows ==> ReferencesExist(db, db.rows[k]))
  }

  // ----- relations between an earlier and a later value of one row -----

  ghost predicate StringsKept(o: Payload, n: Payload) {
    forall k :: IsString(o, k) ==> k in n && n[k] == o[k]
  }

  /** A task waits, then is decided or superseded; a decided task can only be superseded; a superseded
      task never changes. */
  ghost predicate TaskEvolves(o: Task, n: Task) {
    && n.basis == o.basis && StringsKept(o.payload, n.payload)
    && (n == o
        || (&& o.status != Superseded && (n.status == Superseded || IsDecision(n.status))
            && (o.status != Pending ==> n.status == Superseded)))
  }

  function MutableKeys(kind: Kind): set<Key> {
    match kind
    case Actuals => ACTUAL_REVIEW_KEYS + {KReviewStatus}
    case Variances => VARIANCE_REVIEW_KEYS
    case Calibrations => CALIBRATION_REVIEW_KEYS + {KReviewStatus}
  }

  /** A row keeps its basis and every key outside its review; once reviewed it keeps its whole payload
      and flag; once retired it never changes. */
  ghost predicate RowEvolves(o: Row, n: Row) {
    && n.basis == o.basis
    && n.payload - MutableKeys(o.KindOf()) == o.payload - MutableKeys(o.KindOf())
    && (Reviewed(o) ==> n.payload == o.payload && n.flag == o.flag)
    && (!o.current ==> n == o)
  }

  ghost predicate VersionEvolves(o: Version, n: Version) {
    && n.versionKind == o.versionKind && n.contentHash == o.contentHash
    && (n == o || (o.status == Draft && n.status == Approved))
  }

  /** Everything a later state owes to an earlier one: nothing disappears, and rows only evolve. */
  ghost predicate Evolves(a: Db, b: Db) {
    && (forall t :: t in a.tasks ==> t in b.tasks && TaskEvolves(a.tasks[t], b.tasks[t]))
    && (forall r :: r in a.records ==> r in b.records && b.records[r] == a.records[r])
    && (forall k :: k in a.rows ==> k in b.rows && RowEvolves(a.rows[k], b.rows[k]))
    && (forall v :: v in a.versions ==> v in b.versions && VersionEvolves(a.versions[v], b.versions[v]))
    && (forall r :: r in a.releases ==> r in b.releases && b.releases[r] == a.releases[r])
    && (forall x :: x in a.audits ==> x in b.audits && b.audits[x] == a.audits[x])
  }

  /** Every change between two states has queued its deferred checks. */
  ghost predicate Queued(a: Db, b: Db, events: seq<Event>) {
    && (forall t :: t in b.tasks ==> (t in a.tasks && b.tasks[t] == a.tasks[t]) || TaskLink(t) in events)
    && (forall r :: r in b.records ==>
          r in a.records || (var x := b.records[r]; Decision(x.taskId, x.decision) in events && TaskLink(x.taskId) in events))
    && (forall k :: k in b.rows ==> (k in a.rows && b.rows[k] == a.rows[k]) || ReviewLink(k) in events)
  }

  // ----- reflexivity and composition -----

  lemma EvolvesReflexive(a: Db)
    ensures Evolves(a, a) && Queued(a, a, [])
  {
  }

  lemma RowEvolvesTransitive(a: Row, b: Row, c: Row)
    requires RowEvolves(a, b) && RowEvolves(b, c)
    ensures RowEvolves(a, c)
  {
  }

  lemma TaskEvolvesTransitive(a: Task, b: Task, c: Task)
    requires TaskEvolves(a, b) && TaskEvolves(b, c)
    ensures TaskEvolves(a, c)
  {
  }

  lemma EvolvesTransitive(a: Db, b: Db, c: Db)
    requires Evolves(a, b) && Evolves(b, c)
    ensures Evolves(a, c)
  {
    forall t | t in a.tasks ensures TaskEvolves(a.tasks[t], c.tasks[t]) {
      TaskEvolvesTransitive(a.tasks[t], b.tasks[t], c.tasks[t]);
    }
    forall k | k in a.rows ensures RowEvolves(a.rows[k], c.rows[k]) {
      RowEvolvesTransitive(a.rows[k], b.rows[k], c.rows[k]);
    }
  }

  lemma QueuedComposes(a: Db, b: Db, c: Db, p: seq<Event>, q: seq<Event>)
    requires Evolves(a, b) && Evolves(b, c) && Queued(a, b, p) && Queued(b, c, q)
    ensures Queued(a, c, p + q)
  {
  }

  // ----- one statement -----

  lemma ContainmentKeepsStrings(n: Payload, o: Payload)
    requires PayloadContains(n, o)
    ensures StringsKept(o, n)
  {
  }

  lemma TransitionEvolves(o: Task, n: Task)
    requires TaskTransition(o, n)
    ensures TaskEvolves(o, n) && n.status != Pending && n != o
  {
    if Supersedes(o, n) {
      ContainmentKeepsStrings(n.payload, o.payload);
    }
  }

  lemma ReplacedKeepsRest(p: Payload, k: Key, t: Text, n: Payload, keys: set<Key>)
    requires n - keys == Replaced(p, k, t)
    ensures n - (keys + {k}) == p - (keys + {k})
  {
    assert n - (keys + {k}) == (n - keys) - (keys + {k});
    assert Replaced(p, k, t) - (keys + {k}) == p - (keys + {k});
  }

  lemma StatusAfterReview(p: Payload, n: Payload, t: Text, keys: set<Key>)
    requires KReviewStatus in p && KReviewStatus !in keys && n - keys == Replaced(p, KReviewStatus, t)
    ensures TextAt(n, KReviewStatus) == Val(t)
  {
    assert KReviewStatus in n - keys;
  }

  lemma ActualUpdate(o: Row, n: Row)
    requires o.KindOf() == Actuals && Shape(o) && n.HasColumns() && ActualTransition(o, n)
    ensures RowEvolves(o, n) && Shape(n)
  {
    if ReviewsActual(o, n) {
      var target := StatusFor(TextAt(n.payload, KReviewDecision).v);
      ReplacedKeepsRest(o.payload, KReviewStatus, target, n.payload, ACTUAL_REVIEW_KEYS);
      StatusAfterReview(o.payload, n.payload, target, ACTUAL_REVIEW_KEYS);
    }
  }

  lemma CalibrationUpdate(o: Row, n: Row)
    requires o.KindOf() == Calibrations && Shape(o) && n.HasColumns() && CalibrationTransition(o, n)
    ensures RowEvolves(o, n) && Shape(n)
  {
    var target := StatusFor(TextAt(n.payload, KReviewDecision).v);
    ReplacedKeepsRest(o.payload, KReviewStatus, target, n.payload, CALIBRATION_REVIEW_KEYS);
    StatusAfterReview(o.payload, n.payload, target, CALIBRATION_REVIEW_KEYS);
  }

  /** The guard strips the reviewer's keys from the new payload but not from the old one, so a variance
      that already carries a reviewer accepts no update at all, whatever became of its status. */
  lemma ReviewedVarianceRefused(o: Row, n: Row)
    requires KReviewedBy in o.payload
    ensures !ReviewsVariance(o, n)
  {
    assert KReviewedBy in o.payload - {KVariance};
    assert KReviewedBy !in n.payload - VARIANCE_REVIEW_KEYS;
  }

  lemma VarianceUpdate(o: Row, n: Row)
    requires o.KindOf() == Variances && Shape(o) && n.HasColumns() && VarianceTransition(o, n)
    ensures RowEvolves(o, n) && Shape(n)
  {
    if Reviewed(o) {
      ReviewedVarianceRefused(o, n);
    }
    assert o.payload - VARIANCE_REVIEW_KEYS == (o.payload - {KVariance}) - VARIANCE_REVIEW_KEYS;
  }

  lemma UpdateKeepsShape(o: Row, n: Row)
    requires Shape(o) && n.HasColumns() && RowTransition(o, n)
    ensures RowEvolves(o, n) && Shape(n)
  {
    match o.KindOf()
    case Actuals => ActualUpdate(o, n);
    case Variances => VarianceUpdate(o, n);
    case Calibrations => CalibrationUpdate(o, n);
  }

  lemma EntryHasShape(n: Row)
    requires n.HasColumns() && EntersInReview(n)
    ensures Shape(n)
  {
  }

  ghost predicate KeepsHistory(db: Db, effect: Effect)
    requires effect.Done?
  {
    WellFormed(effect.db) && Evolves(db, effect.db) && Queued(db, effect.db, effect.events)
  }

  lemma TaskPutWellFormed(db: Db, task: Task)
    requires WellFormed(db)
    ensures WellFormed(db.(tasks := db.tasks[task.basis.id := task]))
  {
    ReferencesDepend(db);
    hide Shape, Distinct, ReferencesExist;
  }

  lemma TaskPut(db: Db, task: Task, events: seq<Event>)
    requires WellFormed(db) && TaskLink(task.basis.id) in events
    requires task.basis.id in db.tasks ==> TaskEvolves(db.tasks[task.basis.id], task)
    ensures KeepsHistory(db, Done(db.(tasks := db.tasks[task.basis.id := task]), events))
  {
    TaskPutWellFormed(db, task);
    EvolvesReflexive(db);
    hide RowEvolves, TaskEvolves, VersionEvolves, WellFormed;
  }

  lemma ReferencesDepend(a: Db)
    ensures forall b: Db, row: Row :: b.rows == a.rows ==> (ReferencesExist(a, row) <==> ReferencesExist(b, row))
  {
  }

  lemma ReferencesStay(a: Db, b: Db)
    requires forall k :: k in a.rows ==> k in b.rows
    ensures forall row :: ReferencesExist(a, row) ==> ReferencesExist(b, row)
  {
  }

  lemma RowPutWellFormed(db: Db, row: Row)
    requires WellFormed(db) && Shape(row) && UniqueIn(db, row) && ReferencesExist(db, row)
    ensures WellFormed(db.(rows := db.rows[row.KeyOf() := row]))
  {
    hide Shape, ReferencesExist, Distinct, UniqueIn;
    ReferencesStay(db, db.(rows := db.rows[row.KeyOf() := row]));
    DistinctSymmetric(db, row);
  }

  lemma RowPut(db: Db, row: Row)
    requires WellFormed(db) && Shape(row) && UniqueIn(db, row) && ReferencesExist(db, row)
    requires row.KeyOf() in db.rows ==> RowEvolves(db.rows[row.KeyOf()], row)
    ensures KeepsHistory(db, Done(db.(rows := db.rows[row.KeyOf() := row]), [ReviewLink(row.KeyOf())]))
  {
    RowPutWellFormed(db, row);
    EvolvesReflexive(db);
    hide WellFormed, RowEvolves, TaskEvolves, VersionEvolves, Shape, ReferencesExist, Distinct, UniqueIn;
  }

  lemma RecordPutWellFormed(db: Db, id: Text, record: Record)
    requires WellFormed(db) && id !in db.records && record.taskId in db.tasks && RecordsOf(db, record.taskId) == {}
    ensures WellFormed(db.(records := db.records[id := record]))
  {
    ReferencesDepend(db);
    hide Shape, Distinct, ReferencesExist;
    RecordsOfEmpty(db, record.taskId);
  }

  lemma RecordPut(db: Db, id: Text, record: Record)
    requires WellFormed(db) && id !in db.records && record.taskId in db.tasks && RecordsOf(db, record.taskId) == {}
    ensures KeepsHistory(db, Done(db.(records := db.records[id := record]),
                                  [Decision(record.taskId, record.decision), TaskLink(record.taskId)]))
  {
    RecordPutWellFormed(db, id, record);
    EvolvesReflexive(db);
    hide RowEvolves, TaskEvolves, VersionEvolves, WellFormed;
  }

  lemma VersionPut(db: Db, id: Text, version: Version)
    requires WellFormed(db)
    requires id in db.versions ==> VersionEvolves(db.versions[id], version)
    ensures KeepsHistory(db, Done(db.(versions := db.versions[id := version]), []))
  {
    ReferencesDepend(db);
    hide RowEvolves, TaskEvolves, VersionEvolves, Shape, Distinct, ReferencesExist;
    EvolvesReflexive(db);
  }

  lemma ReleasePut(db: Db, id: Text, release: Release)
    requires WellFormed(db) && id !in db.releases
    ensures KeepsHistory(db, Done(db.(releases := db.releases[id := release]), []))
  {
    ReferencesDepend(db);
    hide RowEvolves, TaskEvolves, VersionEvolves, Shape, Distinct, ReferencesExist;
    EvolvesReflexive(db);
  }

  lemma AuditPut(db: Db, id: Text, audit: Audit)
    requires WellFormed(db) && id !in db.audits
    ensures KeepsHistory(db, Done(db.(audits := db.audits[id := audit]), []))
  {
    ReferencesDepend(db);
    hide RowEvolves, TaskEvolves, VersionEvolves, Shape, Distinct, ReferencesExist;
    EvolvesReflexive(db);
  }

  lemma NothingPut(db: Db)
    requires WellFormed(db)
    ensures KeepsHistory(db, Done(db, []))
  {
    EvolvesReflexive(db);
  }

  lemma StepKeepsHistory(db: Db, s: Statement)
    requires WellFormed(db) && Apply(db, s).Done?
    ensures KeepsHistory(db, Apply(db, s))
  {
    hide KeepsHistory, Shape, RowEvolves, TaskEvolves, RowTransition, EntersInReview, TaskTransition, TaskEnters;
    var events := Apply(db, s).events;
    match s
    case InsertTask(task) =>
      TaskPut(db, task, events);
    case UpdateTask(task) =>
      NothingPut(db);
      if task.basis.id in db.tasks {
        TransitionEvolves(db.tasks[task.basis.id], task);
        TaskPut(db, task, events);
      }
    case InsertRecord(id, record) =>
      RecordPut(db, id, record);
    case InsertRow(row) =>
      EntryHasShape(row);
      RowPut(db, row);
    case UpdateRow(row) =>
      NothingPut(db);
      if row.KeyOf() in db.rows {
        UpdateKeepsShape(db.rows[row.KeyOf()], row);
        RowPut(db, row);
      }
    case InsertVersion(id, version) =>
      VersionPut(db, id, version);
    case UpdateVersion(id, version) =>
      NothingPut(db);
      if id in db.versions {
        VersionPut(db, id, version);
      }
    case InsertRelease(id, release) =>
      ReleasePut(db, id, release);
    case InsertAudit(id, audit) =>
      AuditPut(db, id, audit);
  }

  lemma RecordsOfEmpty(db: Db, t: Text)
    requires RecordsOf(db, t) == {}
    ensures forall r :: r in db.records ==> db.records[r].taskId != t
  {
    forall r | r in db.records ensures db.records[r].taskId != t {
      assert db.records[r].taskId == t ==> r in RecordsOf(db, t);
    }
  }

  lemma DistinctSymmetric(db: Db, row: Row)
    requires UniqueIn(db, row)
    ensures forall k :: k in db.rows && k != row.KeyOf() ==> Distinct(row, db.rows[k]) && Distinct(db.rows[k], row)
  {
  }

  // ----- any number of statements -----

  lemma {:induction false} StatementsKeepHistory(db: Db, statements: seq<Statement>)
    requires WellFormed(db) && ApplyAll(db, statements).Done?
    ensures KeepsHistory(db, ApplyAll(db, statements))
  {
    if statements == [] {
      EvolvesReflexive(db);
    } else {
      var n := |statements| - 1;
      StatementsKeepHistory(db, statements[..n]);
      var middle := ApplyAll(db, statements[..n]);
      StepKeepsHistory(middle.db, statements[n]);
      var last := Apply(middle.db, statements[n]);
      EvolvesTransitive(db, middle.db, last.db);
      QueuedComposes(db, middle.db, last.db, middle.events, last.events);
    }
  }
}
