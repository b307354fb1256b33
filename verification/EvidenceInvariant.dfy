/** What every committed state satisfies, although no single trigger checks it. */
module EvidenceInvariant {
  import opened Json
  import opened EvidenceTables
  import opened RowGuards
  import opened DeferredChecks
  import opened Transactions
  import opened EvidenceHistory

  /** The one record of a reviewed row: it holds the row's decision, and its author is the row's
      reviewer and approver, and not the row's creator. */
  ghost predicate AgreesWith(db: Db, row: Row, r: Text)
    requires r in db.records
  {
    var record := db.records[r];
    && record.decision in {Approved, Rejected}
    && row.Status() == Val(StatusFor(record.decision))
    && TextAt(row.payload, KReviewDecision) == Val(record.decision)
    && TextAt(row.payload, KReviewedBy) == Val(record.decidedBy)
    && row.CreatedBy() != Val(record.decidedBy)
    && FlagMatches(row, record.decision, record.decidedBy)
  }

  ghost predicate Agreed(db: Db, t: Text, row: Row) {
    exists r :: r in db.records && RecordsOf(db, t) == {r} && AgreesWith(db, row, r)
  }

  /** The state of a row and of its review task, together. */
  ghost predicate InStep(db: Db, t: Text, row: Row)
    requires t in db.tasks
  {
    match db.tasks[t].status
    case Pending => row.Status() == Val(InReview) && !Reviewed(row) && row.current && RecordsOf(db, t) == {}
    case Approved => row.current && Agreed(db, t, row) && row.Status() == Val(Verified)
    case Rejected => row.current && Agreed(db, t, row) && row.Status() == Val(Rejected)
    case Superseded => && row.KindOf() == Actuals && !row.current
                       && AllStrings(db.tasks[t].payload, {KSupersededAt, KSupersededByEntity, KSupersessionReason})
                       && ((row.Status() == Val(InReview) && RecordsOf(db, t) == {}) || Agreed(db, t, row))
    case _ => false
  }

  /** What a linked task is first of all: the row's own, of its table's type. */
  ghost predicate OwnTask(db: Db, row: Row) {
    && row.TaskId().Val? && row.TaskId().v in db.tasks
    && var task := db.tasks[row.TaskId().v];
    && task.basis.entityId == row.basis.id && task.basis.taskType == TaskTypeOf(row.KindOf())
  }

  ghost predicate RowSettled(db: Db, row: Row) {
    PolicyLinked(db, row) && ReleaseLinked(db, row) && TaskLinked(db, row) && InStep(db, row.TaskId().v, row)
  }

  ghost predicate TaskHasRow(db: Db, t: Text)
    requires t in db.tasks
  {
    IsReviewType(db.tasks[t].basis.taskType) ==>
      var key := RowKey(KindOfType(db.tasks[t].basis.taskType), db.tasks[t].basis.entityId);
      key in db.rows && db.rows[key].TaskId() == Val(t)
  }

  ghost predicate RecordSettled(db: Db, r: Text)
    requires r in db.records
  {
    var record := db.records[r];
    IsDecision(record.decision) && record.taskId in db.tasks && db.tasks[record.taskId].status in {record.decision, Superseded}
  }

  ghost predicate Settled(db: Db) {
    && WellFormed(db)
    && (forall r :: r in db.records ==> RecordSettled(db, r))
    && (forall t :: t in db.tasks ==> TaskHasRow(db, t))
    && (forall k :: k in db.rows ==> RowSettled(db, db.rows[k]))
  }

  // ----- what a commit has established about one row, task or record -----

  /** A transaction about to commit: its start was settled, and its queued checks all hold. */
  ghost predicate Committing(c: Db, w: Db, events: seq<Event>) {
    Settled(c) && WellFormed(w) && Evolves(c, w) && Queued(c, w, events) && AllHold(w, events)
  }

  lemma QueuedHolds(w: Db, events: seq<Event>, event: Event)
    requires AllHold(w, events) && event in events
    ensures EventHolds(w, event)
  {
  }

  lemma One<T>(s: set<T>) returns (x: T)
    requires |s| == 1
    ensures s == {x}
  {
    x :| x in s;
    assert |s - {x}| == 0;
  }

  lemma NoRecords(db: Db, t: Text)
    requires |RecordsOf(db, t)| == 0
    ensures RecordsOf(db, t) == {}
  {
  }

  /** A record inserted by this transaction leaves its task in the state it decided. */
  lemma NewRecordDecides(c: Db, w: Db, events: seq<Event>, r: Text)
    requires Committing(c, w, events) && r in w.records && r !in c.records
    ensures w.records[r].taskId in w.tasks
    ensures IsDecision(w.records[r].decision) && w.tasks[w.records[r].taskId].status == w.records[r].decision
    ensures TaskLinkHolds(w, w.records[r].taskId)
  {
    QueuedHolds(w, events, Decision(w.records[r].taskId, w.records[r].decision));
    QueuedHolds(w, events, TaskLink(w.records[r].taskId));
  }

  lemma RecordStaysSettled(c: Db, w: Db, events: seq<Event>, r: Text)
    requires Committing(c, w, events) && r in w.records
    ensures RecordSettled(w, r)
  {
    hide AllHold, RowSettled, TaskHasRow, Queued, RowEvolves, VersionEvolves, Shape;
    if r in c.records {
      assert RecordSettled(c, r);
    } else {
      NewRecordDecides(c, w, events, r);
    }
  }

  lemma TaskStaysMatched(c: Db, w: Db, events: seq<Event>, t: Text)
    requires Committing(c, w, events) && t in w.tasks
    ensures TaskHasRow(w, t)
  {
    hide AllHold;
    if TaskLink(t) in events {
      QueuedHolds(w, events, TaskLink(t));
    } else {
      OldTaskStaysMatched(c, w, t);
    }
  }

  lemma OldTaskStaysMatched(c: Db, w: Db, t: Text)
    requires Settled(c) && Evolves(c, w) && t in c.tasks && t in w.tasks && w.tasks[t] == c.tasks[t]
    ensures TaskHasRow(w, t)
  {
    hide RowSettled, RecordSettled, Shape, TaskEvolves, RowEvolves;
    if IsReviewType(w.tasks[t].basis.taskType) {
      var key := RowKey(KindOfType(w.tasks[t].basis.taskType), w.tasks[t].basis.entityId);
      assert TaskHasRow(c, t);
      ImmutableKeys(c.rows[key].KindOf());
      KeyKept(c.rows[key], w.rows[key], KApprovalTaskId);
    }
  }

  lemma KeyKept(o: Row, n: Row, k: Key)
    requires RowEvolves(o, n) && k !in MutableKeys(o.KindOf())
    ensures At(n.payload, k) == At(o.payload, k) && TextAt(n.payload, k) == TextAt(o.payload, k)
  {
    assert k in o.payload <==> k in o.payload - MutableKeys(o.KindOf());
    assert k in n.payload <==> k in n.payload - MutableKeys(o.KindOf());
    if k in o.payload {
      assert (o.payload - MutableKeys(o.KindOf()))[k] == (n.payload - MutableKeys(o.KindOf()))[k];
    }
  }

  lemma ImmutableKeys(kind: Kind)
    ensures KApprovalTaskId !in MutableKeys(kind) && KCreatedBy !in MutableKeys(kind)
    ensures KPolicyVersionId !in MutableKeys(kind) && KPolicyContentHash !in MutableKeys(kind)
    ensures KReleasedByDecisionId !in MutableKeys(kind)
  {
  }

  // ----- links to immutable evidence -----

  /** A policy link, once checked, survives any later change of the tables. */
  lemma PolicyStaysLinked(a: Db, b: Db, o: Row, n: Row)
    requires Evolves(a, b) && RowEvolves(o, n) && PolicyLinked(a, o)
    ensures PolicyLinked(b, n)
    ensures TextAt(n.payload, KPolicyVersionId) == TextAt(o.payload, KPolicyVersionId)
    ensures b.versions[TextAt(n.payload, KPolicyVersionId).v] == a.versions[TextAt(o.payload, KPolicyVersionId).v]
  {
    ImmutableKeys(o.KindOf());
    KeyKept(o, n, KPolicyVersionId);
    KeyKept(o, n, KPolicyContentHash);
    assert VersionEvolves(a.versions[TextAt(o.payload, KPolicyVersionId).v], b.versions[TextAt(o.payload, KPolicyVersionId).v]);
  }

  /** A release link too, through the variance row for a calibration. */
  lemma ReleaseStaysLinked(a: Db, b: Db, o: Row, n: Row)
    requires Evolves(a, b) && RowEvolves(o, n) && ReleaseLinked(a, o)
    ensures ReleaseLinked(b, n)
    ensures TextAt(n.payload, KReleasedByDecisionId) == TextAt(o.payload, KReleasedByDecisionId)
  {
    ImmutableKeys(o.KindOf());
    KeyKept(o, n, KReleasedByDecisionId);
    if o.KindOf() == Calibrations {
      var key := RowKey(Variances, o.basis.varianceRecordId);
      assert RowEvolves(a.rows[key], b.rows[key]);
      ImmutableKeys(a.rows[key].KindOf());
      KeyKept(a.rows[key], b.rows[key], KReleasedByDecisionId);
    }
  }

  // ----- the row and its task stay in step -----

  /** The record of a reviewed row goes on agreeing with it: records are append-only and one per task,
      and a reviewed row keeps its payload and flag. */
  lemma AgreementLasts(a: Db, b: Db, t: Text, o: Row, n: Row)
    requires WellFormed(a) && WellFormed(b) && Evolves(a, b) && RowEvolves(o, n) && Shape(o) && Agreed(a, t, o)
    ensures Agreed(b, t, n)
  {
    var r :| r in a.records && RecordsOf(a, t) == {r} && AgreesWith(a, o, r);
    OnlyRecord(a, b, t, r);
    assert Reviewed(o) by { AgreedIsReviewed(a, o, r); }
    assert AgreesWith(b, n, r);
  }

  lemma AgreedIsReviewed(a: Db, o: Row, r: Text)
    requires r in a.records && AgreesWith(a, o, r) && Shape(o)
    ensures Reviewed(o)
  {
  }

  lemma OnlyRecord(a: Db, b: Db, t: Text, r: Text)
    requires WellFormed(b) && Evolves(a, b) && RecordsOf(a, t) == {r}
    ensures r in b.records && b.records[r] == a.records[r] && RecordsOf(b, t) == {r}
  {
    assert r in RecordsOf(a, t);
    forall x | x in RecordsOf(b, t) ensures x == r {
    }
  }

  /** A check that a decided task and its row agree, as a fact about the one record. */
  lemma DecidedAgrees(w: Db, t: Text, row: Row, decision: Text)
    requires t in w.tasks && decision in {Approved, Rejected} && DecidedWith(w, t, row, decision)
    ensures Agreed(w, t, row) && row.Status() == Val(StatusFor(decision))
    ensures row.KindOf() == Actuals ==> row.current
  {
    var r := One(RecordsOf(w, t));
    assert r in RecordsOf(w, t);
    assert AgreesWith(w, row, r);
  }

  /** A row this transaction touched has passed the review-link check. A superseded one is where that
      check is weakest: it counts the record without reading it. The record must be old, since a new
      one would have to match its task's status, so the review it closed was checked when it
      committed. */
  lemma TouchedRowInStep(c: Db, w: Db, events: seq<Event>, k: RowKey)
    requires Committing(c, w, events) && k in w.rows && ReviewLink(k) in events
    ensures RowSettled(w, w.rows[k])
  {
    hide AllHold, Queued, Evolves, RecordSettled, TaskHasRow, Agreed, CreationAudited, DecidedWith, NamesRow, PolicyLinked,
         ReleaseLinked, AllStrings, HasAny;
    QueuedHolds(w, events, ReviewLink(k));
    var row := w.rows[k];
    assert Shape(row) && row.KeyOf() == k;
    var t := row.TaskId().v;
    match w.tasks[t].status {
      case Pending =>
        NoRecords(w, t);
        NotReviewed(row);
      case Approved => DecidedAgrees(w, t, row, Approved);
      case Rejected => DecidedAgrees(w, t, row, Rejected);
      case Superseded =>
        if row.Status() == Val(InReview) {
          NoRecords(w, t);
        } else {
          SupersededAgrees(c, w, events, k);
        }
      case _ =>
    }
  }

  lemma NotReviewed(row: Row)
    ensures row.Status() == Val(InReview) && !HasAny(row.payload, {KReviewDecision, KReviewedBy, KReviewedAt}) ==> !Reviewed(row)
  {
  }

  lemma SupersededAgrees(c: Db, w: Db, events: seq<Event>, k: RowKey)
    requires Committing(c, w, events) && k in w.rows && k.kind == Actuals && OwnTask(w, w.rows[k])
    requires w.tasks[w.rows[k].TaskId().v].status == Superseded && |RecordsOf(w, w.rows[k].TaskId().v)| == 1
    ensures Agreed(w, w.rows[k].TaskId().v, w.rows[k])
  {
    var row := w.rows[k];
    var t := row.TaskId().v;
    var r := One(RecordsOf(w, t));
    assert r in RecordsOf(w, t);
    if r !in c.records {
      NewRecordDecides(c, w, events, r);
    }
    assert r in RecordsOf(c, t);
    assert TaskEvolves(c.tasks[t], w.tasks[t]);
    assert TaskHasRow(c, t) && row.KeyOf() == k;
    assert RowSettled(c, c.rows[k]) && c.rows[k].TaskId() == Val(t);
    assert Agreed(c, t, c.rows[k]);
    AgreementLasts(c, w, t, c.rows[k], row);
  }

  /** A row this transaction did not touch: its task did not change either, because the task's own
      check would then have found the row in the wrong state. */
  lemma UntouchedRowInStep(c: Db, w: Db, events: seq<Event>, k: RowKey)
    requires Committing(c, w, events) && k in w.rows && k in c.rows && w.rows[k] == c.rows[k]
    ensures RowSettled(w, w.rows[k])
  {
    hide AllHold, Queued, InStep, PolicyLinked, ReleaseLinked, Shape, TaskEvolves, RecordSettled, TaskHasRow;
    var row := w.rows[k];
    assert RowSettled(c, row);
    var t := row.TaskId().v;
    assert RowEvolves(row, row);
    PolicyStaysLinked(c, w, row, row);
    ReleaseStaysLinked(c, w, row, row);
    TaskUnchanged(c, w, events, k);
    UntouchedStaysInStep(c, w, events, k);
  }

  lemma UntouchedStaysInStep(c: Db, w: Db, events: seq<Event>, k: RowKey)
    requires Committing(c, w, events) && k in w.rows && k in c.rows && w.rows[k] == c.rows[k]
    requires OwnTask(c, c.rows[k])
    requires var t := c.rows[k].TaskId().v; t in w.tasks && w.tasks[t] == c.tasks[t] && InStep(c, t, c.rows[k])
    ensures InStep(w, c.rows[k].TaskId().v, c.rows[k])
  {
    hide Agreed, AllHold, Queued, RowSettled, RecordSettled, TaskHasRow;
    var row := c.rows[k];
    var t := row.TaskId().v;
    if Agreed(c, t, row) {
      AgreementLasts(c, w, t, row, row);
    }
    if RecordsOf(c, t) == {} {
      NoNewRecord(c, w, events, k);
    }
  }

  /** A task that moved while its row stood still fails its own check. */
  lemma StaleRowRefused(c: Db, w: Db, t: Text, row: Row)
    requires t in c.tasks && t in w.tasks && TaskEvolves(c.tasks[t], w.tasks[t]) && w.tasks[t] != c.tasks[t]
    requires OwnTask(c, row) && row.TaskId() == Val(t) && InStep(c, t, row)
    requires row.KeyOf() in w.rows && w.rows[row.KeyOf()] == row
    ensures !TaskLinkHolds(w, t)
  {
    hide Agreed, RecordMatches;
    assert KindOfType(w.tasks[t].basis.taskType) == row.KindOf();
    assert RowKey(row.KindOf(), w.tasks[t].basis.entityId) == row.KeyOf();
  }

  lemma TaskUnchanged(c: Db, w: Db, events: seq<Event>, k: RowKey)
    requires Committing(c, w, events) && k in w.rows && k in c.rows && w.rows[k] == c.rows[k]
    ensures c.rows[k].TaskId().Val? && c.rows[k].TaskId().v in c.tasks && c.rows[k].TaskId().v in w.tasks
    ensures w.tasks[c.rows[k].TaskId().v] == c.tasks[c.rows[k].TaskId().v]
  {
    hide AllHold, TaskLinkHolds, InStep, TaskEvolves, Shape, PolicyLinked, ReleaseLinked, RecordSettled, TaskHasRow;
    var row := c.rows[k];
    assert RowSettled(c, row) && row.KeyOf() == k;
    var t := row.TaskId().v;
    assert TaskEvolves(c.tasks[t], w.tasks[t]);
    if w.tasks[t] != c.tasks[t] {
      QueuedHolds(w, events, TaskLink(t));
      StaleRowRefused(c, w, t, row);
    }
  }

  lemma NoNewRecord(c: Db, w: Db, events: seq<Event>, k: RowKey)
    requires Committing(c, w, events) && k in w.rows && k in c.rows && w.rows[k] == c.rows[k]
    requires c.rows[k].TaskId().Val? && RecordsOf(c, c.rows[k].TaskId().v) == {}
    ensures RecordsOf(w, c.rows[k].TaskId().v) == {}
  {
    hide AllHold;
    var row := c.rows[k];
    assert RowSettled(c, row);
    var t := row.TaskId().v;
    TaskUnchanged(c, w, events, k);
    forall r | r in w.records ensures w.records[r].taskId != t {
      assert r in c.records && w.records[r].taskId == t ==> r in RecordsOf(c, t);
      if r !in c.records {
        NewRecordDecides(c, w, events, r);
      }
    }
  }

  // ----- commits and runs -----

  /** A commit takes a settled state to a settled state. */
  lemma CommitSettles(c: Db, w: Db, events: seq<Event>)
    requires Committing(c, w, events)
    ensures Settled(w)
  {
    hide AllHold, Evolves;
    forall r | r in w.records ensures RecordSettled(w, r) {
      RecordStaysSettled(c, w, events, r);
    }
    forall t | t in w.tasks ensures TaskHasRow(w, t) {
      TaskStaysMatched(c, w, events, t);
    }
    forall k | k in w.rows ensures RowSettled(w, w.rows[k]) {
      if ReviewLink(k) in events {
        TouchedRowInStep(c, w, events, k);
      } else {
        UntouchedRowInStep(c, w, events, k);
      }
    }
  }

  lemma TransactSettles(db: Db, statements: seq<Statement>)
    requires Settled(db)
    ensures Settled(Transact(db, statements)) && Evolves(db, Transact(db, statements))
  {
    if Commits(db, statements) {
      StatementsKeepHistory(db, statements);
      CommitSettles(db, ApplyAll(db, statements).db, ApplyAll(db, statements).events);
    } else {
      EvolvesReflexive(db);
    }
  }

  /** Every committed state of every run is settled, and every later state evolves from it. */
  lemma {:induction false} RunSettles(db: Db, transactions: seq<seq<Statement>>)
    requires Settled(db)
    ensures Settled(Run(db, transactions)) && Evolves(db, Run(db, transactions))
  {
    if transactions == [] {
      EvolvesReflexive(db);
    } else {
      var n := |transactions| - 1;
      RunSettles(db, transactions[..n]);
      var middle := Run(db, transactions[..n]);
      TransactSettles(middle, transactions[n]);
      EvolvesTransitive(db, middle, Transact(middle, transactions[n]));
    }
  }
}
