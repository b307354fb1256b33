/** Superseding an actual: the store does not only refuse what is wrong, it lets a proper supersession commit. */
module EvidenceSupersession {
  import opened Json
  import opened EvidenceTables
  import opened RowGuards
  import opened DeferredChecks
  import opened Transactions
  import opened EvidenceHistory
  import opened EvidenceInvariant
  import opened EvidenceProgress

  datatype Stamp = Stamp(at: Text, replacement: Text, reason: Text, updatedAt: int)

  const STAMP_KEYS := {KSupersededAt, KSupersededByEntity, KSupersessionReason}

  function Stamped(p: Payload, stamp: Stamp): Payload {
    p[KSupersededAt := JString(stamp.at)][KSupersededByEntity := JString(stamp.replacement)][
      KSupersessionReason := JString(stamp.reason)]
  }

  function SupersededTask(task: Task, stamp: Stamp): Task {
    task.(status := Superseded, payload := Stamped(task.payload, stamp), updatedAt := stamp.updatedAt)
  }

  function RetiredRow(row: Row): Row {
    row.(current := false)
  }

  function Superseding(row: Row, task: Task, stamp: Stamp): seq<Statement> {
    [UpdateRow(RetiredRow(row)), UpdateTask(SupersededTask(task, stamp))]
  }

  function After(db: Db, row: Row, task: Task, stamp: Stamp): Db {
    db.(rows := db.rows[row.KeyOf() := RetiredRow(row)],
        tasks := db.tasks[task.basis.id := SupersededTask(task, stamp)])
  }

  /** A current actual with its task, created once, whose task bears no stamp yet. */
  ghost predicate Supersedable(db: Db, row: Row, task: Task, stamp: Stamp, c: Text) {
    && Settled(db) && row.basis.ActualBasis? && row.KeyOf() in db.rows && db.rows[row.KeyOf()] == row && row.current
    && row.TaskId() == Val(task.basis.id) && task.basis.id in db.tasks && db.tasks[task.basis.id] == task
    && CreatedOnce(db, row, task, c)
    && stamp.updatedAt > task.updatedAt && forall k :: k in STAMP_KEYS ==> k !in task.payload
  }

  lemma StampKeeps(p: Payload, stamp: Stamp, k: Key)
    requires k !in STAMP_KEYS
    ensures At(Stamped(p, stamp), k) == At(p, k) && TextAt(Stamped(p, stamp), k) == TextAt(p, k)
    ensures IsString(Stamped(p, stamp), k) <==> IsString(p, k)
  {
  }

  lemma StampTransition(task: Task, stamp: Stamp)
    requires task.status != Superseded && stamp.updatedAt > task.updatedAt
    requires forall k :: k in STAMP_KEYS ==> k !in task.payload
    ensures TaskTransition(task, SupersededTask(task, stamp))
    ensures AllStrings(Stamped(task.payload, stamp), STAMP_KEYS)
  {
    var p, n := task.payload, Stamped(task.payload, stamp);
    forall k | k in p ensures k in n && Contains(n[k], p[k]) {
      ContainsItself(p[k]);
    }
  }

  lemma StampKeepsAll(p: Payload, stamp: Stamp)
    ensures forall k :: k !in STAMP_KEYS ==> At(Stamped(p, stamp), k) == At(p, k)
    ensures forall k :: k !in STAMP_KEYS ==> TextAt(Stamped(p, stamp), k) == TextAt(p, k)
    ensures forall k :: k !in STAMP_KEYS ==> (IsString(Stamped(p, stamp), k) <==> IsString(p, k))
  {
    forall k | k !in STAMP_KEYS
      ensures At(Stamped(p, stamp), k) == At(p, k) && TextAt(Stamped(p, stamp), k) == TextAt(p, k)
      ensures IsString(Stamped(p, stamp), k) <==> IsString(p, k)
    {
      StampKeeps(p, stamp, k);
    }
  }

  lemma StampKeepsNames(p: Payload, row: Row, stamp: Stamp)
    requires NamesRow(p, row) && row.KindOf() == Actuals
    ensures NamesRow(Stamped(p, stamp), RetiredRow(row))
  {
    StampKeepsAll(p, stamp);
    hide Stamped, TextAt, At, IsString;
  }

  lemma StampedTaskLinked(db: Db, w: Db, row: Row, task: Task, stamp: Stamp)
    requires TaskLinked(db, row) && row.KindOf() == Actuals && row.TaskId() == Val(task.basis.id)
    requires db.tasks[task.basis.id] == task
    requires task.basis.id in w.tasks && w.tasks[task.basis.id] == SupersededTask(task, stamp)
    ensures TaskLinked(w, RetiredRow(row))
  {
    StampKeepsAll(task.payload, stamp);
    StampKeepsNames(task.payload, row, stamp);
    var n, m := RetiredRow(row), SupersededTask(task, stamp);
    assert n.TaskId() == row.TaskId() && n.Role() == row.Role() && n.CreatedBy() == row.CreatedBy();
    assert n.KindOf() == Actuals && n.basis == row.basis && n.payload == row.payload;
    assert m.basis == task.basis && m.payload == Stamped(task.payload, stamp);
    hide Stamped, TextAt, At, IsString, RetiredRow, SupersededTask, NamesRow, Row.TaskId, Row.Role, Row.CreatedBy;
  }

  lemma CreationStaysAudited(db: Db, w: Db, row: Row, task: Task, stamp: Stamp)
    requires CreationAudited(db, row, task) && w.audits == db.audits && row.KindOf() == Actuals
    ensures CreationAudited(w, RetiredRow(row), SupersededTask(task, stamp))
  {
    var n, m := RetiredRow(row), SupersededTask(task, stamp);
    StampKeeps(task.payload, stamp, KActualSubmissionHash);
    forall a | a in db.audits
      ensures AuditNames(db.audits[a], n, CreationEvent(n.KindOf()), n.CreatedBy())
         <==> AuditNames(db.audits[a], row, CreationEvent(row.KindOf()), row.CreatedBy())
      ensures SharesText(db.audits[a].payload, m.payload, HashKey(n.KindOf()))
         <==> SharesText(db.audits[a].payload, task.payload, HashKey(row.KindOf()))
    {
    }
    hide AuditNames, SharesText;
    assert (set a | a in w.audits
            && AuditNames(w.audits[a], n, CreationEvent(n.KindOf()), n.CreatedBy())
            && SharesText(w.audits[a].payload, m.payload, HashKey(n.KindOf())))
        == (set a | a in db.audits
            && AuditNames(db.audits[a], row, CreationEvent(row.KindOf()), row.CreatedBy())
            && SharesText(db.audits[a].payload, task.payload, HashKey(row.KindOf())));
  }

  /** What being settled says of a current actual. */
  lemma ReviewState(db: Db, row: Row, task: Task, stamp: Stamp, c: Text)
    requires Supersedable(db, row, task, stamp, c)
    ensures PolicyLinked(db, row) && TaskLinked(db, row) && CreationAudited(db, row, task) && WellFormed(db)
    ensures task.status in {Pending, Approved, Rejected} && row.KindOf() == Actuals
    ensures if task.status == Pending then row.Status() == Val(InReview) && |RecordsOf(db, task.basis.id)| == 0
            else row.Status() == Val(StatusFor(task.status)) && |RecordsOf(db, task.basis.id)| == 1
  {
    hide PolicyLinked, TaskLinked, ReleaseLinked, CreationAudited, FlagMatches, TextAt, RecordSettled, TaskHasRow, CreatedOnce,
         RowEvolves, Row.KeyOf, Row.Status;
    assert RowSettled(db, row);
    assert RowEvolves(row, row) by { Unchanged(row); }
    CreationAuditedOnce(db, db, row, row, task, task, c);
  }

  lemma Unchanged(row: Row)
    ensures RowEvolves(row, row)
  {
  }

  /** The checks of a superseded actual, from their parts. */
  lemma SupersededHolds(w: Db, n: Row, t: Text)
    requires n.KeyOf() in w.rows && w.rows[n.KeyOf()] == n && n.KindOf() == Actuals && !n.current
    requires n.TaskId() == Val(t) && PolicyLinked(w, n) && TaskLinked(w, n) && CreationAudited(w, n, w.tasks[t])
    requires w.tasks[t].status == Superseded && AllStrings(w.tasks[t].payload, STAMP_KEYS)
    requires || (n.Status() == Val(InReview) && |RecordsOf(w, t)| == 0)
             || (n.Status() in {Val(Verified), Val(Rejected)} && |RecordsOf(w, t)| == 1)
    ensures ReviewLinkHolds(w, n.KeyOf()) && TaskLinkHolds(w, t)
  {
    hide PolicyLinked, CreationAudited, DecidedWith, RecordMatches, NamesRow, TextAt, HasAny, AllStrings, Row.Status;
  }

  /** What the supersession leaves as it was, and what it sets. */
  lemma AfterParts(db: Db, row: Row, task: Task, stamp: Stamp, c: Text)
    requires Supersedable(db, row, task, stamp, c)
    ensures var w, n, t := After(db, row, task, stamp), RetiredRow(row), task.basis.id;
            && n.KeyOf() == row.KeyOf() && n.KeyOf() in w.rows && w.rows[n.KeyOf()] == n
            && n.KindOf() == Actuals && !n.current && n.TaskId() == Val(t) && n.Status() == row.Status()
            && t in w.tasks && w.tasks[t] == SupersededTask(task, stamp) && db.tasks[t] == task
            && w.tasks[t].status == Superseded && w.tasks[t].payload == Stamped(task.payload, stamp)
            && w.audits == db.audits && RecordsOf(w, t) == RecordsOf(db, t)
            && (PolicyLinked(db, row) ==> PolicyLinked(w, n))
  {
    RetiredParts(row);
    var w, n := After(db, row, task, stamp), RetiredRow(row);
    assert PolicyLinked(db, row) ==> PolicyLinked(w, n) by { hide Supersedable, TextAt, Stamped, SupersededTask, Row.KeyOf; }
    hide Settled, CreatedOnce, Stamped, TextAt, PolicyLinked, RecordsOf, RetiredRow, Row.KeyOf, Row.KindOf, Row.TaskId, Row.Status;
    RecordsDepend(db, w, task.basis.id);
    assert row.KindOf() == Actuals by { ActualKind(row); }
  }

  lemma ActualKind(row: Row)
    ensures row.basis.ActualBasis? <==> row.KindOf() == Actuals
  {
  }

  lemma RetiredParts(row: Row)
    ensures var n := RetiredRow(row);
            && n.KeyOf() == row.KeyOf() && n.KindOf() == row.KindOf() && n.TaskId() == row.TaskId() && n.Status() == row.Status()
            && !n.current && n.payload == row.payload
  {
  }

  lemma SupersessionHolds(db: Db, row: Row, task: Task, stamp: Stamp, c: Text)
    requires Supersedable(db, row, task, stamp, c)
    ensures var w := After(db, row, task, stamp);
            ReviewLinkHolds(w, row.KeyOf()) && TaskLinkHolds(w, task.basis.id)
  {
    var w, n := After(db, row, task, stamp), RetiredRow(row);
    assert row.KindOf() == Actuals && row.TaskId() == Val(task.basis.id);
    assert stamp.updatedAt > task.updatedAt && forall k :: k in STAMP_KEYS ==> k !in task.payload;
    hide After, RetiredRow, SupersededTask, Stamped, PolicyLinked, TaskLinked, CreationAudited, RecordsOf, ReviewLinkHolds,
         TaskLinkHolds, TaskTransition, Row.Status, Row.TaskId, Row.KeyOf, Row.KindOf, AllStrings, Supersedable;
    ReviewState(db, row, task, stamp, c);
    AfterParts(db, row, task, stamp, c);
    StampedTaskLinked(db, w, row, task, stamp);
    CreationStaysAudited(db, w, row, task, stamp);
    StampTransition(task, stamp);
    SupersededHolds(w, n, task.basis.id);
  }

  lemma RetirementApplies(db: Db, row: Row)
    requires row.KindOf() == Actuals && row.KeyOf() in db.rows && db.rows[row.KeyOf()] == row && row.current
    ensures Apply(db, UpdateRow(RetiredRow(row)))
         == Done(db.(rows := db.rows[row.KeyOf() := RetiredRow(row)]), [ReviewLink(row.KeyOf())])
  {
    var n := RetiredRow(row);
    assert n.KeyOf() == row.KeyOf() && n.HasColumns();
    assert RowTransition(row, n) by { assert Retires(row, n); }
    assert UniqueIn(db, n) by { hide RowTransition; }
    hide RowTransition, UniqueIn, RetiredRow;
  }

  lemma StampApplies(db: Db, task: Task, stamp: Stamp)
    requires task.basis.id in db.tasks && db.tasks[task.basis.id] == task && task.status != Superseded
    requires stamp.updatedAt > task.updatedAt && forall k :: k in STAMP_KEYS ==> k !in task.payload
    ensures Apply(db, UpdateTask(SupersededTask(task, stamp)))
         == Done(db.(tasks := db.tasks[task.basis.id := SupersededTask(task, stamp)]), [TaskLink(task.basis.id)])
  {
    StampTransition(task, stamp);
    hide TaskTransition, Stamped;
    assert [] + [TaskLink(task.basis.id)] == [TaskLink(task.basis.id)];
  }

  lemma SupersessionApplies(db: Db, row: Row, task: Task, stamp: Stamp, c: Text)
    requires Supersedable(db, row, task, stamp, c)
    ensures ApplyAll(db, Superseding(row, task, stamp))
         == Done(After(db, row, task, stamp), [ReviewLink(row.KeyOf()), TaskLink(task.basis.id)])
  {
    hide ReviewLinkHolds, Stamped, RetiredRow, SupersededTask, Apply, PolicyLinked, TaskLinked, CreationAudited, RecordsOf,
         Row.Status, Row.TaskId, Row.KeyOf, Row.KindOf;
    ReviewState(db, row, task, stamp, c);
    RetirementApplies(db, row);
    var s := Superseding(row, task, stamp);
    var middle := db.(rows := db.rows[row.KeyOf() := RetiredRow(row)]);
    StampApplies(middle, task, stamp);
    TwoStatements(db, s[0], s[1], middle, ReviewLink(row.KeyOf()), After(db, row, task, stamp), TaskLink(task.basis.id));
  }

  lemma TwoStatements(db: Db, a: Statement, b: Statement, middle: Db, first: Event, after: Db, second: Event)
    requires Apply(db, a) == Done(middle, [first]) && Apply(middle, b) == Done(after, [second])
    ensures ApplyAll(db, [a, b]) == Done(after, [first, second])
  {
    hide Apply;
    assert [a, b][..1] == [a] && [a][..0] == [];
    assert ApplyAll(db, []) == Done(db, []);
    assert [] + [first] == [first];
    assert ApplyAll(db, [a]) == Done(middle, [first]);
  }

  /** Retiring a current actual and superseding its task, with a full stamp, commits, whether it is still in review,
      verified or rejected. */
  lemma SupersessionCommits(db: Db, row: Row, task: Task, stamp: Stamp, c: Text)
    requires Supersedable(db, row, task, stamp, c)
    ensures Commits(db, Superseding(row, task, stamp))
    ensures Transact(db, Superseding(row, task, stamp)) == After(db, row, task, stamp)
  {
    hide ApplyAll, Supersedable, After, ReviewLinkHolds, TaskLinkHolds, Row.KeyOf, Superseding;
    SupersessionApplies(db, row, task, stamp, c);
    SupersessionHolds(db, row, task, stamp, c);
  }

  /** So a reviewed actual can be superseded, whatever the decision. */
  lemma ReviewedIsSupersedable(db: Db, row: Row, task: Task, v: Review, c: Text, stamp: Stamp)
    requires Reviewable(db, row, task, v, c) && row.basis.ActualBasis?
    requires stamp.updatedAt > v.updatedAt && forall k :: k in STAMP_KEYS ==> k !in task.payload
    ensures Supersedable(AfterReview(db, row, task, v), ReviewedRow(row, v), DecidedTask(task, v), stamp, c)
  {
    hide AfterReview, DecidedTask, ReviewedRow, Settled, CreatedOnce, TextAt, Row.KeyOf, Row.TaskId, RowEvolves, Evolves, Commits,
         Transact, Creator, TaskLinked, PolicyLinked, ReleaseLinked, RecordsOf, HasAny, Row.Status, ReviewKeys, Row.KindOf,
         Row.HasColumns, Reviewable, WordsOf;
    ReviewedTask(db, row, task, v, c);
    PendingRow(db, row, task, v, c);
    ReviewCommits(db, row, task, v, c);
    TransactSettles(db, Reviewing(row, task, v));
    CreatedStays(db, row, task, v, c);
    ReviewTables(db, row, task, v, c);
    ReviewEvolves(db, row, task, v, c);
    SameCreator(row, ReviewedRow(row, v));
    ReviewedColumns(row, v);
  }

  lemma ReviewedTask(db: Db, row: Row, task: Task, v: Review, c: Text)
    requires Reviewable(db, row, task, v, c)
    ensures var w, m := AfterReview(db, row, task, v), DecidedTask(task, v);
            && Settled(db) && task.basis.id in w.tasks && w.tasks[task.basis.id] == m
            && m.basis == task.basis && m.payload == task.payload && m.updatedAt == v.updatedAt
  {
    hide Settled, CreatedOnce, TextAt, ReviewedRow, ReviewAudit, Creator, Row.KeyOf, Row.TaskId;
  }
}
