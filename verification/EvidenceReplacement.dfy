/** Replacing a document set: one transaction invalidates every open task of the project. What the guard of a single
    task allows, the deferred checks of the reviews may take back. */
module EvidenceReplacement {
  import opened Json
  import opened EvidenceTables
  import opened RowGuards
  import opened DeferredChecks
  import opened Transactions
  import opened EvidenceHistory
  import opened EvidenceInvariant
  import opened EvidenceTheorems
  import opened EvidenceProgress
  import opened EvidenceRecording
  import opened EvidenceTasks
  import opened EvidenceExample

  const REVIEW_TYPES := {ActualFactReview, VarianceClassificationReview, CalibrationExampleReview}
  const MARKS := {KInvalidatedAt, KInvalidatedByRevision, KInvalidatedSetRevision}

  /** Each task is there once, not superseded, older than the replacement and without its marks. */
  predicate Open(db: Db, ids: seq<Text>, i: Invalidation) {
    && (forall a, b :: 0 <= a < b < |ids| ==> ids[a] != ids[b])
    && forall t :: t in ids ==>
         && t in db.tasks && db.tasks[t].basis.id == t && db.tasks[t].status != Superseded
         && i.updatedAt > db.tasks[t].updatedAt && forall k :: k in MARKS ==> k !in db.tasks[t].payload
  }

  function Replacement(db: Db, ids: seq<Text>, i: Invalidation): seq<Statement>
    requires forall t :: t in ids ==> t in db.tasks
  {
    seq(|ids|, k requires 0 <= k < |ids| => UpdateTask(Invalidated(db.tasks[ids[k]], i)))
  }

  function AfterReplacement(db: Db, ids: seq<Text>, i: Invalidation): Db {
    db.(tasks := map t | t in db.tasks :: if t in ids then Invalidated(db.tasks[t], i) else db.tasks[t])
  }

  function Links(ids: seq<Text>): seq<Event> {
    seq(|ids|, k requires 0 <= k < |ids| => TaskLink(ids[k]))
  }

  lemma OneTaskMore(db: Db, ids: seq<Text>, i: Invalidation, n: nat)
    requires Open(db, ids, i) && n < |ids|
    ensures var middle, t := AfterReplacement(db, ids[..n], i), ids[n];
            && t in db.tasks && t in middle.tasks && middle.tasks[t] == db.tasks[t]
            && AfterReplacement(db, ids[..n + 1], i) == middle.(tasks := middle.tasks[t := Invalidated(db.tasks[t], i)])
  {
    hide Invalidated;
    var middle, t := AfterReplacement(db, ids[..n], i), ids[n];
    assert t in ids;
    assert t !in ids[..n];
    assert ids[..n + 1] == ids[..n] + [t];
    assert AfterReplacement(db, ids[..n + 1], i).tasks == middle.tasks[t := Invalidated(db.tasks[t], i)];
  }

  lemma TaskApplies(db: Db, ids: seq<Text>, i: Invalidation, n: nat)
    requires Open(db, ids, i) && n < |ids|
    ensures Apply(AfterReplacement(db, ids[..n], i), Replacement(db, ids, i)[n])
         == Done(AfterReplacement(db, ids[..n + 1], i), [TaskLink(ids[n])])
  {
    hide Apply, Invalidated, AfterReplacement;
    OneTaskMore(db, ids, i, n);
    assert ids[n] in ids;
    InvalidationApplies(AfterReplacement(db, ids[..n], i), ids[n], i);
  }

  lemma LinksExtend(ids: seq<Text>, n: nat)
    requires n < |ids|
    ensures Links(ids[..n + 1]) == Links(ids[..n]) + [TaskLink(ids[n])]
  {
  }

  lemma NothingReplaced(db: Db, i: Invalidation)
    ensures ApplyAll(db, []) == Done(AfterReplacement(db, [], i), Links([]))
  {
    assert AfterReplacement(db, [], i).tasks == db.tasks;
  }

  /** Statement by statement every invalidation takes effect. */
  lemma {:induction false} ReplacementApplies(db: Db, ids: seq<Text>, i: Invalidation, n: nat)
    requires Open(db, ids, i) && n <= |ids|
    ensures ApplyAll(db, Replacement(db, ids, i)[..n]) == Done(AfterReplacement(db, ids[..n], i), Links(ids[..n]))
  {
    hide Apply, Invalidated, AfterReplacement, ApplyAll, Links;
    var s := Replacement(db, ids, i);
    assert |s| == |ids|;
    if n == 0 {
      NothingReplaced(db, i);
      assert s[..0] == [] && ids[..0] == [];
    } else {
      ReplacementApplies(db, ids, i, n - 1);
      TaskApplies(db, ids, i, n - 1);
      LinksExtend(ids, n - 1);
      hide Replacement, Open;
      OneMore(db, s, n - 1, AfterReplacement(db, ids[..n - 1], i), Links(ids[..n - 1]), AfterReplacement(db, ids[..n], i),
              [TaskLink(ids[n - 1])]);
    }
  }

  /** A review task under a row that was not retired with it fails its check. */
  lemma CurrentRowBlocks(w: Db, t: Text)
    requires t in w.tasks && w.tasks[t].basis.taskType in REVIEW_TYPES && w.tasks[t].status == Superseded
    requires var k := RowKey(KindOfType(w.tasks[t].basis.taskType), w.tasks[t].basis.entityId); k in w.rows ==> w.rows[k].current
    ensures !TaskLinkHolds(w, t)
  {
    hide RecordsOf, RecordMatches, Row.Status, Row.TaskId, TextAt;
  }

  lemma ReviewTaskBlocks(db: Db, ids: seq<Text>, i: Invalidation, t: Text)
    requires Settled(db) && Open(db, ids, i) && t in ids && db.tasks[t].basis.taskType in REVIEW_TYPES
    ensures !TaskLinkHolds(AfterReplacement(db, ids, i), t)
  {
    hide Settled, TaskLinkHolds, KindOfType;
    OpenTaskHasRow(db, t);
    CurrentRowBlocks(AfterReplacement(db, ids, i), t);
  }

  lemma OtherTaskPasses(db: Db, ids: seq<Text>, i: Invalidation, t: Text)
    requires t in db.tasks && db.tasks[t].basis.taskType !in REVIEW_TYPES
    ensures TaskLinkHolds(AfterReplacement(db, ids, i), t)
  {
  }

  /** The replacement commits exactly when none of the open tasks is a review of an actual, a variance or a calibration;
      then it invalidates them all, otherwise nothing changes. */
  lemma ReplacementCommitsIff(db: Db, ids: seq<Text>, i: Invalidation)
    requires Settled(db) && Open(db, ids, i)
    ensures var s := Replacement(db, ids, i);
            && (Commits(db, s) <==> forall t :: t in ids ==> db.tasks[t].basis.taskType !in REVIEW_TYPES)
            && Transact(db, s) == if Commits(db, s) then AfterReplacement(db, ids, i) else db
  {
    var w := AfterReplacement(db, ids, i);
    ReplacementApplies(db, ids, i, |ids|);
    assert ids[..|ids|] == ids && Replacement(db, ids, i)[..|ids|] == Replacement(db, ids, i);
    hide Settled, TaskLinkHolds, AfterReplacement, Replacement;
    forall k | 0 <= k < |ids| ensures EventHolds(w, Links(ids)[k]) <==> db.tasks[ids[k]].basis.taskType !in REVIEW_TYPES {
      if db.tasks[ids[k]].basis.taskType in REVIEW_TYPES {
        ReviewTaskBlocks(db, ids, i, ids[k]);
      } else {
        OtherTaskPasses(db, ids, i, ids[k]);
      }
    }
    if t :| t in ids && db.tasks[t].basis.taskType in REVIEW_TYPES {
      var k :| 0 <= k < |ids| && ids[k] == t;
      assert !EventHolds(w, Links(ids)[k]);
    }
  }

  /** The ids of all tasks of a project that are not superseded. */
  ghost predicate AllOpen(db: Db, project: Text, ids: seq<Text>) {
    forall t :: t in ids <==> t in db.tasks && db.tasks[t].basis.projectId == project && db.tasks[t].status != Superseded
  }

  ghost predicate Reviewless(db: Db, project: Text) {
    forall k :: k in db.rows && db.rows[k].basis.projectId == project ==> db.rows[k].basis.ActualBasis? && !db.rows[k].current
  }

  /** So all open tasks of a project can be invalidated exactly as long as it has no variance, no calibration and no
      current actual. */
  lemma ReplaceableIff(db: Db, project: Text, ids: seq<Text>, i: Invalidation)
    requires Settled(db) && AllOpen(db, project, ids) && Open(db, ids, i)
    ensures Commits(db, Replacement(db, ids, i)) <==> Reviewless(db, project)
  {
    ReplacementCommitsIff(db, ids, i);
    hide Commits, Replacement, Settled, Open;
    if Reviewless(db, project) {
      NoOpenReview(db, project, ids);
    } else {
      OpenReviewThere(db, project, ids);
    }
  }

  lemma NoOpenReview(db: Db, project: Text, ids: seq<Text>)
    requires Settled(db) && AllOpen(db, project, ids) && Reviewless(db, project)
    ensures forall t :: t in ids ==> db.tasks[t].basis.taskType !in REVIEW_TYPES
  {
    hide Settled, KindOfType;
    forall t | t in ids && db.tasks[t].basis.taskType in REVIEW_TYPES ensures false {
      OpenTaskHasRow(db, t);
    }
  }

  lemma OpenReviewThere(db: Db, project: Text, ids: seq<Text>)
    requires Settled(db) && AllOpen(db, project, ids) && !Reviewless(db, project)
    ensures exists t :: t in ids && t in db.tasks && db.tasks[t].basis.taskType in REVIEW_TYPES
  {
    hide Settled, Row.TaskId;
    var k :| k in db.rows && db.rows[k].basis.projectId == project && !(db.rows[k].basis.ActualBasis? && !db.rows[k].current);
    RowHasOpenTask(db, k);
    assert db.rows[k].TaskId().v in ids;
  }

  lemma RowHasOpenTask(db: Db, k: RowKey)
    requires Settled(db) && k in db.rows && !(db.rows[k].basis.ActualBasis? && !db.rows[k].current)
    ensures var row := db.rows[k];
            && row.TaskId().Val? && row.TaskId().v in db.tasks
            && var task := db.tasks[row.TaskId().v];
            task.basis.projectId == row.basis.projectId && task.status != Superseded && task.basis.taskType in REVIEW_TYPES
  {
    var row := db.rows[k];
    assert RowSettled(db, row);
    TypeIsReview(row);
    hide Settled, TaskTypeOf, PolicyLinked, ReleaseLinked, Reviewed, Agreed, RecordsOf, NamesRow, TextAt, Row.TaskId, Row.Status, Row.Role,
         Row.CreatedBy;
  }

  lemma TypeIsReview(row: Row)
    ensures TaskTypeOf(row.KindOf()) in REVIEW_TYPES && (row.KindOf() == Actuals <==> row.basis.ActualBasis?)
  {
  }

  lemma OpenTaskHasRow(db: Db, t: Text)
    requires Settled(db) && t in db.tasks && db.tasks[t].basis.taskType in REVIEW_TYPES && db.tasks[t].status != Superseded
    ensures var k := RowKey(KindOfType(db.tasks[t].basis.taskType), db.tasks[t].basis.entityId);
            && k in db.rows && db.rows[k].basis.projectId == db.tasks[t].basis.projectId && db.rows[k].current
  {
    var k := RowKey(KindOfType(db.tasks[t].basis.taskType), db.tasks[t].basis.entityId);
    assert TaskHasRow(db, t) && RowSettled(db, db.rows[k]);
    hide Settled, PolicyLinked, ReleaseLinked, Reviewed, Agreed, RecordsOf, NamesRow, TextAt;
  }

  /** It happens: after one reviewed actual the replacement is taken back. */
  lemma ReplacementMayFail(d: Text, i: Invalidation)
    requires d in {Approved, Rejected} && i.updatedAt > 1
    ensures var run := SETUP + Documents(ACTUAL, E1, V1(d));
            var db := Run(EmptyDb, run);
            && Plain("task-1") in db.tasks
            && Run(EmptyDb, run + [Replacement(db, [Plain("task-1")], i)]) == db
  {
    var run := SETUP + Documents(ACTUAL, E1, V1(d));
    var db, ids := WithActual(d), [Plain("task-1")];
    SetupRuns();
    ActualReachable(d);
    RunAppends(EmptyDb, SETUP, Documents(ACTUAL, E1, V1(d)));
    ReviewedTaskIsOpen(d, i);
    hide WithActual, Run, Replacement, Documents, Settled, Open, Transact;
    ReplacementCommitsIff(db, ids, i);
    RunOneMore(run, Replacement(db, ids, i));
    assert Plain("task-1") in ids;
  }

  lemma ReviewedTaskIsOpen(d: Text, i: Invalidation)
    requires d in {Approved, Rejected} && i.updatedAt > 1
    ensures var db := WithActual(d); Open(db, [Plain("task-1")], i) && db.tasks[Plain("task-1")].basis.taskType == ActualFactReview
  {
    hide EntryAudit, ReviewAudit, EntryRow, ReviewedRow, RecordOf;
    DocumentedTables(START, ACTUAL, E1, V1(d));
    hide Recorded;
    assert WithActual(d).tasks[Plain("task-1")] == DecidedTask(EntryTask(ACTUAL, E1), V1(d));
  }
}
