/** The promises of the evidence store, over every run of transactions. */
module EvidenceTheorems {
  import opened Json
  import opened EvidenceTables
  import opened RowGuards
  import opened DeferredChecks
  import opened Transactions
  import opened EvidenceHistory
  import opened EvidenceInvariant

  lemma RunFromEmpty(transactions: seq<seq<Statement>>)
    ensures Settled(Run(EmptyDb, transactions))
  {
    RunSettles(EmptyDb, transactions);
  }

  // ----- actuals -----

  /** The one approval of a verified actual: decided by the row's reviewer and verifier, who is not
      its creator. */
  ghost predicate ApprovedBy(db: Db, row: Row, r: Text)
    requires r in db.records
  {
    var record := db.records[r];
    && row.TaskId() == Val(record.taskId) && RecordsOf(db, record.taskId) == {r}
    && record.decision == Approved
    && TextAt(row.payload, KReviewedBy) == Val(record.decidedBy)
    && TextAt(row.payload, KVerifiedBy) == Val(record.decidedBy)
    && TextAt(row.payload, KCreatedBy) != Val(record.decidedBy)
  }

  lemma SettledApproval(db: Db, k: RowKey)
    requires Settled(db) && k in db.rows && k.kind == Actuals && db.rows[k].flag
    ensures exists r :: r in db.records && ApprovedBy(db, db.rows[k], r)
  {
    hide PolicyLinked, ReleaseLinked, RecordSettled, TaskHasRow;
    var row := db.rows[k];
    assert RowSettled(db, row) && Shape(row) && row.KeyOf() == k;
    var t := row.TaskId().v;
    assert Agreed(db, t, row);
    var r :| r in db.records && RecordsOf(db, t) == {r} && AgreesWith(db, row, r);
    assert r in RecordsOf(db, t);
    assert ApprovedBy(db, row, r);
  }

  /** In every committed state of every run a verified actual has exactly one approval record. */
  lemma VerifiedActualHasOneApproval(transactions: seq<seq<Statement>>, k: RowKey)
    requires k in Run(EmptyDb, transactions).rows && k.kind == Actuals && Run(EmptyDb, transactions).rows[k].flag
    ensures var db := Run(EmptyDb, transactions);
            exists r :: r in db.records && ApprovedBy(db, db.rows[k], r)
  {
    RunFromEmpty(transactions);
    SettledApproval(Run(EmptyDb, transactions), k);
  }

  /** That approval survives everything that can come later, retirement and supersession included:
      the row stays verified with the same payload, and the same record is still its only one. */
  lemma ApprovalSurvives(earlier: seq<seq<Statement>>, later: seq<seq<Statement>>, k: RowKey, r: Text)
    requires var db := Run(EmptyDb, earlier);
             && k in db.rows && k.kind == Actuals && db.rows[k].flag
             && r in db.records && ApprovedBy(db, db.rows[k], r)
    ensures var db, after := Run(EmptyDb, earlier), Run(Run(EmptyDb, earlier), later);
            && k in after.rows && after.rows[k].flag && after.rows[k].payload == db.rows[k].payload
            && r in after.records && after.records[r] == db.records[r] && ApprovedBy(after, after.rows[k], r)
  {
    var db := Run(EmptyDb, earlier);
    RunFromEmpty(earlier);
    RunSettles(db, later);
    var after := Run(db, later);
    assert Shape(db.rows[k]) && db.rows[k].KeyOf() == k;
    assert RowEvolves(db.rows[k], after.rows[k]);
    OnlyRecord(db, after, db.records[r].taskId, r);
  }

  /** Task and row states agree in every committed state: an actual is current exactly while its review
      task is not superseded, no review task asks for changes, and only an actual's can be superseded. */
  lemma ReviewTasksMatchRows(transactions: seq<seq<Statement>>, t: Text)
    requires var db := Run(EmptyDb, transactions); t in db.tasks && IsReviewType(db.tasks[t].basis.taskType)
    ensures var db := Run(EmptyDb, transactions);
            var task := db.tasks[t];
            var key := RowKey(KindOfType(task.basis.taskType), task.basis.entityId);
            && key in db.rows && db.rows[key].TaskId() == Val(t)
            && task.status in {Pending, Approved, Rejected, Superseded}
            && (task.status == Superseded ==> key.kind == Actuals)
            && (db.rows[key].current <==> task.status != Superseded)
  {
    var db := Run(EmptyDb, transactions);
    RunFromEmpty(transactions);
    assert TaskHasRow(db, t);
    var key := RowKey(KindOfType(db.tasks[t].basis.taskType), db.tasks[t].basis.entityId);
    assert RowSettled(db, db.rows[key]) && Shape(db.rows[key]);
  }

  /** Every committed row has its own review task, and is current exactly while that task is not superseded. */
  lemma RowsMatchReviewTasks(transactions: seq<seq<Statement>>, k: RowKey)
    requires k in Run(EmptyDb, transactions).rows
    ensures var db := Run(EmptyDb, transactions);
            var row := db.rows[k];
            && row.TaskId().Val? && row.TaskId().v in db.tasks
            && var task := db.tasks[row.TaskId().v];
            && task.basis.taskType == TaskTypeOf(k.kind) && task.basis.entityId == k.id
            && task.status in {Pending, Approved, Rejected, Superseded}
            && (task.status == Superseded ==> k.kind == Actuals)
            && (row.current <==> task.status != Superseded)
  {
    var db := Run(EmptyDb, transactions);
    RunFromEmpty(transactions);
    assert RowSettled(db, db.rows[k]) && Shape(db.rows[k]) && db.rows[k].KeyOf() == k;
  }

  /** Of two actuals of one project and key, in every committed state, at most one is current: the task of
      another has been superseded. */
  lemma OneCurrentActual(transactions: seq<seq<Statement>>, k: RowKey, k': RowKey)
    requires var db := Run(EmptyDb, transactions);
             && k in db.rows && k' in db.rows && k != k' && k.kind == k'.kind == Actuals
             && db.rows[k].basis.ActualBasis? && db.rows[k'].basis.ActualBasis?
             && db.rows[k].basis.projectId == db.rows[k'].basis.projectId
             && db.rows[k].basis.actualKey == db.rows[k'].basis.actualKey
    ensures var db := Run(EmptyDb, transactions);
            && !(db.rows[k].current && db.rows[k'].current)
            && var t, t' := db.rows[k].TaskId(), db.rows[k'].TaskId();
            && t.Val? && t.v in db.tasks && t'.Val? && t'.v in db.tasks
            && (db.tasks[t.v].status == Superseded || db.tasks[t'.v].status == Superseded)
  {
    RunFromEmpty(transactions);
    RowsMatchReviewTasks(transactions, k);
    RowsMatchReviewTasks(transactions, k');
    hide RowSettled, RecordSettled, TaskHasRow, Shape;
    assert Distinct(Run(EmptyDb, transactions).rows[k], Run(EmptyDb, transactions).rows[k']);
  }

  // ----- variances -----

  /** A committed variance that left review carries its decision, equal to its task's status and to the
      decision of its one record. */
  lemma ReviewedVarianceIsDecided(transactions: seq<seq<Statement>>, k: RowKey)
    requires var db := Run(EmptyDb, transactions);
             k in db.rows && k.kind == Variances && db.rows[k].Status() != Val(InReview)
    ensures var db := Run(EmptyDb, transactions);
            var row := db.rows[k];
            && row.TaskId().Val? && row.TaskId().v in db.tasks
            && var decision := db.tasks[row.TaskId().v].status;
            && decision in {Approved, Rejected}
            && TextAt(row.payload, KReviewDecision) == Val(decision)
            && row.Status() == Val(StatusFor(decision))
            && exists r :: r in db.records && RecordsOf(db, row.TaskId().v) == {r} && db.records[r].decision == decision
  {
    var db := Run(EmptyDb, transactions);
    RunFromEmpty(transactions);
    var row := db.rows[k];
    assert RowSettled(db, row) && Shape(row) && row.KeyOf() == k;
    var t := row.TaskId().v;
    var r :| r in db.records && RecordsOf(db, t) == {r} && AgreesWith(db, row, r);
    assert db.records[r].decision == db.tasks[t].status;
  }

  const REVIEWER := JString(Plain("reviewer"))

  const OPEN_VARIANCE := Row(
    VarianceBasis(Plain("v"), Plain("p"), Plain("a"), Plain("s"), Plain("m"), Plain("r"), 0.0, Null, Plain("c"), 0),
    false, true,
    map[KVariance := JObject(map[KStatus := JString(InReview)]), KApprovalTaskId := JString(Plain("task")),
        KPolicyVersionId := JString(Plain("policy")), KPolicyContentHash := JString(Plain("hash")),
        KReviewRole := JString(Plain("role")), KReleasedByDecisionId := JString(Plain("release"))])

  /** The same variance turned REJECTED by a reviewer who records no decision. */
  const UNDECIDED := OPEN_VARIANCE.(payload := OPEN_VARIANCE.payload[
    KVariance := JObject(map[KStatus := JString(Rejected), KReviewedBy := REVIEWER])][
    KReviewedBy := REVIEWER][KReviewedAt := JString(Plain("now"))])

  lemma UndecidedPasses()
    ensures EntersInReview(OPEN_VARIANCE) && VarianceTransition(OPEN_VARIANCE, UNDECIDED)
    ensures UNDECIDED.Status() == Val(Rejected) && TextAt(UNDECIDED.payload, KReviewDecision) == Null
  {
    var o, n := OPEN_VARIANCE.payload, UNDECIDED.payload;
    assert n - VARIANCE_REVIEW_KEYS == o - {KVariance};
    assert TextAt(n, KReviewDecision) == Null && TextAt(n, KReviewedBy) == Val(Plain("reviewer"));
    assert ReviewedVariance(map[KStatus := JString(InReview)], Rejected, Plain("reviewer")) == n[KVariance];
  }

  /** The update guard alone does not ensure this: with no decision in the new payload its test `NOT IN` is null
      and does not fire, so the update of a properly entered variance goes through in any state that holds it. It
      is the deferred check that refuses it, in whatever state the transaction would commit. */
  lemma AbsentDecisionPassesTheGuard(db: Db, w: Db)
    requires WellFormed(db) && OPEN_VARIANCE.KeyOf() in db.rows && db.rows[OPEN_VARIANCE.KeyOf()] == OPEN_VARIANCE
    requires UNDECIDED.KeyOf() in w.rows && w.rows[UNDECIDED.KeyOf()] == UNDECIDED
    ensures EntersInReview(OPEN_VARIANCE)
    ensures UNDECIDED.Status() == Val(Rejected) && TextAt(UNDECIDED.payload, KReviewDecision) == Null
    ensures Apply(db, UpdateRow(UNDECIDED)).Done?
    ensures !ReviewLinkHolds(w, UNDECIDED.KeyOf())
  {
    hide Apply, ReviewLinkHolds, VarianceTransition, EntersInReview, WellFormed, TextAt, Row.Status, Row.KeyOf;
    UndecidedPasses();
    UndecidedApplies(db);
    UndecidedRefused(w);
  }

  lemma UndecidedApplies(db: Db)
    requires WellFormed(db) && OPEN_VARIANCE.KeyOf() in db.rows && db.rows[OPEN_VARIANCE.KeyOf()] == OPEN_VARIANCE
    ensures Apply(db, UpdateRow(UNDECIDED)).Done?
  {
    UndecidedPasses();
    hide VarianceTransition, EntersInReview, Shape, TextAt;
    assert OPEN_VARIANCE.KindOf() == Variances && UNDECIDED.HasColumns() && RowTransition(OPEN_VARIANCE, UNDECIDED);
    assert UniqueIn(db, UNDECIDED) by { SameUniqueness(db, OPEN_VARIANCE, UNDECIDED); }
    hide UniqueIn, RowTransition, WellFormed;
    assert UNDECIDED.KeyOf() == OPEN_VARIANCE.KeyOf();
  }

  /** Unless it is an actual, a row with the same identity meets the same unique constraints. */
  lemma SameUniqueness(db: Db, o: Row, n: Row)
    requires WellFormed(db) && o.KeyOf() in db.rows && db.rows[o.KeyOf()] == o && n.basis == o.basis
    requires o.KindOf() != Actuals
    ensures UniqueIn(db, n)
  {
    hide Shape;
    forall k | k in db.rows && k != n.KeyOf() ensures Distinct(n, db.rows[k]) {
      assert Distinct(o, db.rows[k]);
    }
  }

  lemma UndecidedRefused(w: Db)
    requires UNDECIDED.KeyOf() in w.rows && w.rows[UNDECIDED.KeyOf()] == UNDECIDED
    ensures !ReviewLinkHolds(w, UNDECIDED.KeyOf())
  {
    UndecidedPasses();
    hide VarianceTransition, EntersInReview, PolicyLinked, TaskLinked, ReleaseLinked, CreationAudited, TextAt, RecordMatches;
  }

  // ----- links -----

  /** Evidence a committed row refers to stays as it was checked: the same approved policy version with
      the same content hash, the same release decision, still allowed for bid, and for a calibration the
      same release and snapshot as its variance. */
  lemma LinksArePermanent(earlier: seq<seq<Statement>>, later: seq<seq<Statement>>, k: RowKey)
    requires k in Run(EmptyDb, earlier).rows
    ensures var db, after := Run(EmptyDb, earlier), Run(Run(EmptyDb, earlier), later);
            && k in after.rows
            && var row, row' := db.rows[k], after.rows[k];
            && PolicyLinked(db, row) && PolicyLinked(after, row')
            && TextAt(row'.payload, KPolicyVersionId) == TextAt(row.payload, KPolicyVersionId)
            && after.versions[TextAt(row'.payload, KPolicyVersionId).v] == db.versions[TextAt(row.payload, KPolicyVersionId).v]
            && ReleaseLinked(db, row) && ReleaseLinked(after, row')
            && TextAt(row'.payload, KReleasedByDecisionId) == TextAt(row.payload, KReleasedByDecisionId)
  {
    var db := Run(EmptyDb, earlier);
    RunFromEmpty(earlier);
    RunSettles(db, later);
    var after := Run(db, later);
    assert RowSettled(db, db.rows[k]);
    assert RowEvolves(db.rows[k], after.rows[k]);
    PolicyStaysLinked(db, after, db.rows[k], after.rows[k]);
    ReleaseStaysLinked(db, after, db.rows[k], after.rows[k]);
  }

  // ----- tasks and records of every type -----

  /** Each record's task has its decision, or was superseded since. */
  lemma RecordsMatchTasks(transactions: seq<seq<Statement>>, r: Text)
    requires r in Run(EmptyDb, transactions).records
    ensures var db := Run(EmptyDb, transactions);
            var record := db.records[r];
            && record.decision in {Approved, Rejected, ChangesRequested} && record.taskId in db.tasks
            && db.tasks[record.taskId].status in {record.decision, Superseded}
            && RecordsOf(db, record.taskId) == {r}
  {
    var db := Run(EmptyDb, transactions);
    RunFromEmpty(transactions);
    assert RecordSettled(db, r);
    assert r in RecordsOf(db, db.records[r].taskId);
  }

  // ----- how often a task changes -----

  /** Each accepted update moves a task up this scale. */
  function Rank(status: Text): nat {
    if status == Pending then 0 else if status == Superseded then 2 else 1
  }

  /** The statement updates a task that is there. */
  predicate UpdatesTask(db: Db, s: Statement, t: Text) {
    s.UpdateTask? && s.task.basis.id == t && t in db.tasks
  }

  function UpdatesIn(db: Db, statements: seq<Statement>, t: Text): nat {
    if statements == [] then 0
    else
      var n := |statements| - 1;
      var before := ApplyAll(db, statements[..n]);
      UpdatesIn(db, statements[..n], t) + (if before.Done? && UpdatesTask(before.db, statements[n], t) then 1 else 0)
  }

  /** The updates of a task that a run has committed. */
  function CommittedUpdates(db: Db, transactions: seq<seq<Statement>>, t: Text): nat {
    if transactions == [] then 0
    else
      var n := |transactions| - 1;
      CommittedUpdates(db, transactions[..n], t)
      + (if Commits(Run(db, transactions[..n]), transactions[n]) then UpdatesIn(Run(db, transactions[..n]), transactions[n], t) else 0)
  }

  function RankOf(db: Db, t: Text): nat {
    if t in db.tasks then Rank(db.tasks[t].status) else 0
  }

  lemma StatementRaisesRank(db: Db, s: Statement, t: Text)
    requires Apply(db, s).Done?
    ensures RankOf(db, t) + (if UpdatesTask(db, s, t) then 1 else 0) <= RankOf(Apply(db, s).db, t)
  {
    hide RowTransition, EntersInReview, TaskEnters, UniqueIn, TaskTransition, Rank;
    if UpdatesTask(db, s, t) {
      TransitionRaisesRank(db.tasks[t], s.task);
    }
  }

  lemma TransitionRaisesRank(o: Task, n: Task)
    requires TaskTransition(o, n)
    ensures Rank(o.status) < Rank(n.status)
  {
  }

  lemma {:induction false} StatementsRaiseRank(db: Db, statements: seq<Statement>, t: Text)
    requires ApplyAll(db, statements).Done?
    ensures RankOf(db, t) + UpdatesIn(db, statements, t) <= RankOf(ApplyAll(db, statements).db, t)
  {
    if statements != [] {
      var n := |statements| - 1;
      StatementsRaiseRank(db, statements[..n], t);
      StatementRaisesRank(ApplyAll(db, statements[..n]).db, statements[n], t);
    }
  }

  lemma {:induction false} RunRaisesRank(db: Db, transactions: seq<seq<Statement>>, t: Text)
    ensures RankOf(db, t) + CommittedUpdates(db, transactions, t) <= RankOf(Run(db, transactions), t)
  {
    if transactions != [] {
      var n := |transactions| - 1;
      RunRaisesRank(db, transactions[..n], t);
      if Commits(Run(db, transactions[..n]), transactions[n]) {
        StatementsRaiseRank(Run(db, transactions[..n]), transactions[n], t);
      }
    }
  }

  /** No task, of any type, is ever updated more than twice. */
  lemma AtMostTwoUpdates(transactions: seq<seq<Statement>>, t: Text)
    ensures CommittedUpdates(EmptyDb, transactions, t) <= 2
  {
    RunRaisesRank(EmptyDb, transactions, t);
  }

  // ----- a decision and a supersession never share a transaction -----

  /** What the first statements of a transaction did is still there at its end. */
  lemma {:induction false} PrefixPersists(db: Db, statements: seq<Statement>, i: nat)
    requires WellFormed(db) && i <= |statements| && ApplyAll(db, statements).Done?
    ensures var part, whole := ApplyAll(db, statements[..i]), ApplyAll(db, statements);
            && part.Done? && WellFormed(part.db) && Evolves(part.db, whole.db) && part.events <= whole.events
  {
    var n := |statements|;
    if i == n {
      assert statements[..i] == statements;
      StatementsKeepHistory(db, statements);
      EvolvesReflexive(ApplyAll(db, statements).db);
    } else {
      PrefixPersists(db, statements[..n - 1], i);
      assert statements[..n - 1][..i] == statements[..i];
      var middle := ApplyAll(db, statements[..n - 1]);
      StatementsKeepHistory(db, statements[..n - 1]);
      StepKeepsHistory(middle.db, statements[n - 1]);
      EvolvesTransitive(ApplyAll(db, statements[..i]).db, middle.db, ApplyAll(db, statements).db);
    }
  }

  /** The i-th statement updates a task that is there by then. */
  predicate UpdatesAt(db: Db, statements: seq<Statement>, i: nat, t: Text)
    requires i < |statements|
  {
    var before := ApplyAll(db, statements[..i]);
    before.Done? && UpdatesTask(before.db, statements[i], t)
  }

  /** An update of the i-th statement: its deferred decision check is queued, and its row evolves into
      the final one. */
  lemma UpdateReachesCommit(db: Db, statements: seq<Statement>, i: nat)
    requires WellFormed(db) && Commits(db, statements) && i < |statements| && statements[i].UpdateTask?
    requires UpdatesAt(db, statements, i, statements[i].task.basis.id)
    ensures var task, w := statements[i].task, ApplyAll(db, statements).db;
            && task.basis.id in w.tasks && TaskEvolves(task, w.tasks[task.basis.id])
            && (IsDecision(task.status) ==> w.tasks[task.basis.id].status == task.status)
  {
    var w, events := ApplyAll(db, statements).db, ApplyAll(db, statements).events;
    var task := statements[i].task;
    PrefixPersists(db, statements, i + 1);
    var part := ApplyAll(db, statements[..i + 1]);
    assert statements[..i + 1][..i] == statements[..i];
    assert task.basis.id in part.db.tasks && part.db.tasks[task.basis.id] == task;
    if IsDecision(task.status) {
      assert Decision(task.basis.id, task.status) in part.events;
      QueuedHolds(w, events, Decision(task.basis.id, task.status));
    }
  }

  lemma NoDecisionWithSupersession(db: Db, statements: seq<Statement>, i: nat, j: nat, t: Text)
    requires WellFormed(db) && Commits(db, statements) && i < |statements| && j < |statements|
    requires UpdatesAt(db, statements, i, t) && UpdatesAt(db, statements, j, t)
    requires IsDecision(statements[i].task.status)
    ensures statements[j].task.status != Superseded
  {
    UpdateReachesCommit(db, statements, i);
    UpdateReachesCommit(db, statements, j);
  }
}
