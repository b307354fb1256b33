/** Which decided tasks have a record, for tasks of every type and over every run. */
module EvidenceDecisions {
  import opened Json
  import opened EvidenceTables
  import opened RowGuards
  import opened DeferredChecks
  import opened Transactions
  import opened EvidenceHistory
  import opened EvidenceInvariant
  import opened EvidenceTheorems

  predicate InsertsTask(s: Statement, t: Text) {
    s.InsertTask? && s.task.basis.id == t
  }

  predicate InsertsRecord(s: Statement, t: Text) {
    s.InsertRecord? && s.record.taskId == t
  }

  predicate CommitsAt(transactions: seq<seq<Statement>>, i: nat) {
    i < |transactions| && Commits(Run(EmptyDb, transactions[..i]), transactions[i])
  }

  /** A committed statement of the run inserted the task, and as PENDING. */
  ghost predicate EnteredPending(transactions: seq<seq<Statement>>, t: Text) {
    exists i: nat, j: nat :: CommitsAt(transactions, i) && j < |transactions[i]|
                             && InsertsTask(transactions[i][j], t) && transactions[i][j].task.status == Pending
  }

  /** A committed statement of the run inserted a record of the task. */
  ghost predicate RecordCommitted(transactions: seq<seq<Statement>>, t: Text) {
    exists i: nat, j: nat :: CommitsAt(transactions, i) && j < |transactions[i]| && InsertsRecord(transactions[i][j], t)
  }

  /** The task has exactly one record, with its own decision. */
  ghost predicate HasItsRecord(db: Db, t: Text)
    requires t in db.tasks
  {
    exists r :: r in db.records && RecordsOf(db, t) == {r} && db.records[r].decision == db.tasks[t].status
  }

  ghost predicate DecisionRecorded(db: Db, t: Text) {
    t in db.tasks && IsDecision(db.tasks[t].status) ==> HasItsRecord(db, t)
  }

  // ----- one transaction -----

  predicate OnlyPending(statements: seq<Statement>, t: Text) {
    forall j :: 0 <= j < |statements| && InsertsTask(statements[j], t) ==> statements[j].task.status == Pending
  }

  ghost predicate DecisionQueued(a: Db, b: Db, events: seq<Event>, t: Text) {
    t in b.tasks && IsDecision(b.tasks[t].status) ==>
      (t in a.tasks && a.tasks[t] == b.tasks[t]) || Decision(t, b.tasks[t].status) in events
  }

  lemma StatementQueuesDecision(db: Db, s: Statement, t: Text)
    requires Apply(db, s).Done? && (InsertsTask(s, t) ==> s.task.status == Pending)
    ensures DecisionQueued(db, Apply(db, s).db, Apply(db, s).events, t)
  {
    hide RowTransition, EntersInReview, TaskTransition, TaskEnters, UniqueIn;
  }

  /** A task that enters only as PENDING ends a transaction decided with its decision check queued, or as it began it. */
  lemma {:induction false} StatementsQueueDecision(db: Db, statements: seq<Statement>, t: Text)
    requires OnlyPending(statements, t) && ApplyAll(db, statements).Done?
    ensures DecisionQueued(db, ApplyAll(db, statements).db, ApplyAll(db, statements).events, t)
  {
    if statements != [] {
      var n := |statements| - 1;
      StatementsQueueDecision(db, statements[..n], t);
      var middle := ApplyAll(db, statements[..n]);
      var last := Apply(middle.db, statements[n]);
      StatementQueuesDecision(middle.db, statements[n], t);
      hide Apply;
      if t in last.db.tasks && IsDecision(last.db.tasks[t].status) {
        var d := Decision(t, last.db.tasks[t].status);
        assert d in middle.events || d in last.events ==> d in middle.events + last.events;
      }
    }
  }

  lemma DecisionHasRecord(w: Db, t: Text)
    requires WellFormed(w) && t in w.tasks && DecisionAgrees(w, t, w.tasks[t].status)
    ensures HasItsRecord(w, t)
  {
    var value := w.tasks[t].status;
    var r := One(set r | r in RecordsOf(w, t) && w.records[r].decision == value);
    assert r in (set x | x in RecordsOf(w, t) && w.records[x].decision == value);
    assert RecordsOf(w, t) == {r};
  }

  lemma CommitRecordsDecision(db: Db, statements: seq<Statement>, t: Text)
    requires Settled(db) && DecisionRecorded(db, t) && OnlyPending(statements, t)
    ensures DecisionRecorded(Transact(db, statements), t)
  {
    if Commits(db, statements) {
      StatementsKeepHistory(db, statements);
      StatementsQueueDecision(db, statements, t);
      var w, events := ApplyAll(db, statements).db, ApplyAll(db, statements).events;
      hide ApplyAll, TaskHasRow, RowSettled, RecordSettled, DecisionAgrees, RecordsOf;
      if t in w.tasks && IsDecision(w.tasks[t].status) {
        if Decision(t, w.tasks[t].status) in events {
          QueuedHolds(w, events, Decision(t, w.tasks[t].status));
          DecisionHasRecord(w, t);
        } else {
          var r :| r in db.records && RecordsOf(db, t) == {r} && db.records[r].decision == db.tasks[t].status;
          OnlyRecord(db, w, t, r);
        }
      }
    }
  }

  /** A task is inserted when it is not there yet, and from then on it is. */
  lemma InsertIsFresh(db: Db, statements: seq<Statement>, j: nat, t: Text)
    requires WellFormed(db) && ApplyAll(db, statements).Done? && j < |statements| && InsertsTask(statements[j], t)
    ensures t !in db.tasks && t in ApplyAll(db, statements).db.tasks
    ensures var before := ApplyAll(db, statements[..j]);
            before.Done? && t !in before.db.tasks
  {
    hide Apply, Evolves, WellFormed;
    PrefixPersists(db, statements, j);
    PrefixPersists(db, statements, j + 1);
    StatementsEvolve(db, statements[..j]);
    assert statements[..j + 1][..j] == statements[..j];
    var before, part := ApplyAll(db, statements[..j]), ApplyAll(db, statements[..j + 1]);
    StepInsertsTask(before.db, statements[j], t);
    TaskKept(part.db, ApplyAll(db, statements).db, t);
    if t in db.tasks { TaskKept(db, before.db, t); }
  }

  lemma StatementsEvolve(db: Db, statements: seq<Statement>)
    requires WellFormed(db) && ApplyAll(db, statements).Done?
    ensures Evolves(db, ApplyAll(db, statements).db)
  {
    hide ApplyAll;
    StatementsKeepHistory(db, statements);
    hide Evolves, WellFormed, Queued;
  }

  lemma StepEvolves(db: Db, statements: seq<Statement>)
    requires WellFormed(db) && statements != [] && ApplyAll(db, statements).Done?
    ensures ApplyAll(db, statements[..|statements| - 1]).Done?
    ensures Evolves(ApplyAll(db, statements[..|statements| - 1]).db, ApplyAll(db, statements).db)
  {
    hide Apply;
    PrefixPersists(db, statements, |statements| - 1);
    hide Evolves, WellFormed;
  }

  lemma TaskKept(a: Db, b: Db, t: Text)
    requires Evolves(a, b) && t in a.tasks
    ensures t in b.tasks && b.tasks[t].basis == a.tasks[t].basis
  {
    assert TaskEvolves(a.tasks[t], b.tasks[t]);
  }

  lemma RecordKept(a: Db, b: Db, r: Text)
    requires Evolves(a, b) && r in a.records
    ensures r in b.records && b.records[r] == a.records[r]
  {
  }

  /** So it is inserted once. */
  lemma InsertedOnce(db: Db, statements: seq<Statement>, j: nat, k: nat, t: Text)
    requires WellFormed(db) && ApplyAll(db, statements).Done? && j < |statements| && k < |statements|
    requires InsertsTask(statements[j], t) && InsertsTask(statements[k], t)
    ensures j == k
  {
    if j != k {
      var low, high := if j < k then j else k, if j < k then k else j;
      InsertIsFresh(db, statements, high, t);
      assert statements[..high][low] == statements[low];
      InsertIsFresh(db, statements[..high], low, t);
    }
  }

  lemma StepAddsTask(db: Db, s: Statement, t: Text)
    requires Apply(db, s).Done? && t !in db.tasks && t in Apply(db, s).db.tasks
    ensures InsertsTask(s, t) && TaskEnters(s.task) && s.task.basis == Apply(db, s).db.tasks[t].basis
  {
    hide TaskEnters, TaskTransition, RowTransition, EntersInReview, UniqueIn;
  }

  lemma StepAddsRecord(db: Db, s: Statement, r: Text)
    requires Apply(db, s).Done? && r !in db.records && r in Apply(db, s).db.records
    ensures InsertsRecord(s, Apply(db, s).db.records[r].taskId)
  {
    hide TaskEnters, TaskTransition, RowTransition, EntersInReview, UniqueIn;
  }

  lemma StepInsertsTask(db: Db, s: Statement, t: Text)
    requires Apply(db, s).Done? && InsertsTask(s, t)
    ensures t !in db.tasks && t in Apply(db, s).db.tasks
  {
  }

  lemma StepInsertsRecord(db: Db, s: Statement, t: Text)
    requires Apply(db, s).Done? && InsertsRecord(s, t)
    ensures s.id in Apply(db, s).db.records && Apply(db, s).db.records[s.id].taskId == t
  {
  }

  lemma HasRecord(db: Db, r: Text)
    requires r in db.records
    ensures r in RecordsOf(db, db.records[r].taskId)
  {
  }

  /** What a transaction has added was inserted by one of its statements. */
  lemma {:induction false} NewTaskInserted(db: Db, statements: seq<Statement>, t: Text)
    requires WellFormed(db) && ApplyAll(db, statements).Done? && t !in db.tasks && t in ApplyAll(db, statements).db.tasks
    ensures exists j :: 0 <= j < |statements| && InsertsTask(statements[j], t) && TaskEnters(statements[j].task)
                        && statements[j].task.basis == ApplyAll(db, statements).db.tasks[t].basis
  {
    hide Apply, TaskEnters, WellFormed, Evolves;
    var n := |statements| - 1;
    var middle := ApplyAll(db, statements[..n]);
    if t in middle.db.tasks {
      NewTaskInserted(db, statements[..n], t);
      StepEvolves(db, statements);
      TaskKept(middle.db, ApplyAll(db, statements).db, t);
      var j :| 0 <= j < n && InsertsTask(statements[..n][j], t) && TaskEnters(statements[..n][j].task)
               && statements[..n][j].task.basis == middle.db.tasks[t].basis;
      assert statements[j] == statements[..n][j];
    } else {
      StepAddsTask(middle.db, statements[n], t);
    }
  }

  lemma {:induction false} NewRecordInserted(db: Db, statements: seq<Statement>, r: Text)
    requires WellFormed(db) && ApplyAll(db, statements).Done? && r !in db.records
    requires r in ApplyAll(db, statements).db.records
    ensures SomeInsertsRecord(statements, ApplyAll(db, statements).db.records[r].taskId)
  {
    hide Apply, WellFormed, Evolves;
    var n := |statements| - 1;
    var middle := ApplyAll(db, statements[..n]);
    if r in middle.db.records {
      NewRecordInserted(db, statements[..n], r);
      StepEvolves(db, statements);
      RecordKept(middle.db, ApplyAll(db, statements).db, r);
      var j: nat :| j < n && InsertsRecord(statements[..n][j], middle.db.records[r].taskId);
      assert statements[j] == statements[..n][j];
    } else {
      StepAddsRecord(middle.db, statements[n], r);
    }
  }

  lemma InsertedRecordStays(db: Db, statements: seq<Statement>, j: nat, t: Text)
    requires WellFormed(db) && ApplyAll(db, statements).Done? && j < |statements| && InsertsRecord(statements[j], t)
    ensures RecordsOf(ApplyAll(db, statements).db, t) != {}
  {
    hide Apply, WellFormed, Evolves, RecordsOf;
    PrefixPersists(db, statements, j);
    PrefixPersists(db, statements, j + 1);
    var before, part := ApplyAll(db, statements[..j]), ApplyAll(db, statements[..j + 1]);
    assert statements[..j + 1][..j] == statements[..j];
    StepInsertsRecord(before.db, statements[j], t);
    RecordKept(part.db, ApplyAll(db, statements).db, statements[j].id);
    HasRecord(ApplyAll(db, statements).db, statements[j].id);
  }

  // ----- runs -----

  lemma EarlierCommit(transactions: seq<seq<Statement>>, n: nat, i: nat)
    requires i < n <= |transactions|
    ensures CommitsAt(transactions[..n], i) <==> CommitsAt(transactions, i)
  {
    hide Commits;
    assert transactions[..n][..i] == transactions[..i];
  }

  lemma LastCommit(transactions: seq<seq<Statement>>)
    requires transactions != []
    ensures var n := |transactions| - 1;
            var before := Run(EmptyDb, transactions[..n]);
            && Settled(before) && Evolves(before, Run(EmptyDb, transactions))
            && (CommitsAt(transactions, n) ==>
                  && ApplyAll(before, transactions[n]).Done?
                  && Run(EmptyDb, transactions) == ApplyAll(before, transactions[n]).db)
            && (!CommitsAt(transactions, n) ==> Run(EmptyDb, transactions) == before)
  {
    var n := |transactions| - 1;
    RunFromEmpty(transactions[..n]);
    TransactSettles(Run(EmptyDb, transactions[..n]), transactions[n]);
    hide Settled, ApplyAll, Evolves;
  }

  lemma SettledIsWellFormed(db: Db)
    requires Settled(db)
    ensures WellFormed(db)
  {
  }

  /** A task that entered PENDING is recorded when it is decided, whatever else the run does. */
  lemma {:induction false} PendingIsRecorded(transactions: seq<seq<Statement>>, t: Text)
    requires EnteredPending(transactions, t)
    ensures t in Run(EmptyDb, transactions).tasks && DecisionRecorded(Run(EmptyDb, transactions), t)
  {
    hide Commits, ApplyAll, Settled, Evolves, WellFormed, DecisionRecorded, OnlyPending;
    var i: nat, j: nat :| CommitsAt(transactions, i) && j < |transactions[i]|
                          && InsertsTask(transactions[i][j], t) && transactions[i][j].task.status == Pending;
    var n := |transactions| - 1;
    var before, last := Run(EmptyDb, transactions[..n]), transactions[n];
    LastCommit(transactions);
    SettledIsWellFormed(before);
    if i < n {
      EarlierCommit(transactions, n, i);
      assert EnteredPending(transactions[..n], t) by { assert InsertsTask(transactions[..n][i][j], t); }
      PendingIsRecorded(transactions[..n], t);
      TaskKept(before, Run(EmptyDb, transactions), t);
      if CommitsAt(transactions, n) {
        NoInsertOfPresent(before, last, t);
        CommitRecordsDecision(before, last, t);
      }
    } else {
      InsertIsFresh(before, last, j, t);
      OnlyThisInsert(before, last, j, t);
      assert DecisionRecorded(before, t) by { AbsentIsRecorded(before, t); }
      CommitRecordsDecision(before, last, t);
    }
  }

  lemma AbsentIsRecorded(db: Db, t: Text)
    requires t !in db.tasks
    ensures DecisionRecorded(db, t)
  {
  }

  lemma NoInsertOfPresent(db: Db, statements: seq<Statement>, t: Text)
    requires WellFormed(db) && ApplyAll(db, statements).Done? && t in db.tasks
    ensures OnlyPending(statements, t)
  {
    hide ApplyAll, WellFormed;
    forall k | 0 <= k < |statements| ensures !InsertsTask(statements[k], t) {
      if InsertsTask(statements[k], t) {
        InsertIsFresh(db, statements, k, t);
      }
    }
  }

  lemma OnlyThisInsert(db: Db, statements: seq<Statement>, j: nat, t: Text)
    requires WellFormed(db) && ApplyAll(db, statements).Done? && j < |statements| && InsertsTask(statements[j], t)
    requires statements[j].task.status == Pending
    ensures OnlyPending(statements, t)
  {
    hide ApplyAll, WellFormed;
    forall k | 0 <= k < |statements| && InsertsTask(statements[k], t) ensures statements[k].task.status == Pending {
      InsertedOnce(db, statements, j, k, t);
    }
  }

  /** Every task of a committed state was inserted by a committed statement, past the insert guard. */
  lemma {:induction false} TaskWasInserted(transactions: seq<seq<Statement>>, t: Text)
    requires t in Run(EmptyDb, transactions).tasks
    ensures exists i: nat, j: nat :: CommitsAt(transactions, i) && j < |transactions[i]|
                                     && InsertsTask(transactions[i][j], t) && TaskEnters(transactions[i][j].task)
                                     && transactions[i][j].task.basis == Run(EmptyDb, transactions).tasks[t].basis
  {
    hide Commits, TaskHasRow, RowSettled, RecordSettled, TaskEnters;
    var n := |transactions| - 1;
    var before, after := Run(EmptyDb, transactions[..n]), Run(EmptyDb, transactions);
    LastCommit(transactions);
    if t in before.tasks {
      TaskWasInserted(transactions[..n], t);
      var i: nat, j: nat :| CommitsAt(transactions[..n], i) && j < |transactions[..n][i]|
                            && InsertsTask(transactions[..n][i][j], t) && TaskEnters(transactions[..n][i][j].task)
                            && transactions[..n][i][j].task.basis == before.tasks[t].basis;
      EarlierCommit(transactions, n, i);
      assert TaskEvolves(before.tasks[t], after.tasks[t]);
      assert InsertsTask(transactions[i][j], t);
    } else {
      NewTaskInserted(before, transactions[n], t);
    }
  }

  ghost predicate SomeInsertsRecord(statements: seq<Statement>, t: Text) {
    exists j: nat :: j < |statements| && InsertsRecord(statements[j], t)
  }

  lemma RecordCommittedLast(transactions: seq<seq<Statement>>, t: Text)
    requires transactions != []
    ensures var n := |transactions| - 1;
            RecordCommitted(transactions, t)
            <==> RecordCommitted(transactions[..n], t) || (CommitsAt(transactions, n) && SomeInsertsRecord(transactions[n], t))
  {
    hide Commits, Run;
    var n := |transactions| - 1;
    if RecordCommitted(transactions, t) {
      var i: nat, j: nat :| CommitsAt(transactions, i) && j < |transactions[i]| && InsertsRecord(transactions[i][j], t);
      if i < n {
        EarlierCommit(transactions, n, i);
        assert InsertsRecord(transactions[..n][i][j], t);
      }
    }
    if RecordCommitted(transactions[..n], t) {
      var i: nat, j: nat :| CommitsAt(transactions[..n], i) && j < |transactions[..n][i]|
                            && InsertsRecord(transactions[..n][i][j], t);
      EarlierCommit(transactions, n, i);
      assert InsertsRecord(transactions[i][j], t);
    }
  }

  /** A task has a record exactly when a committed statement inserted one. */
  lemma {:induction false} RecordWasInserted(transactions: seq<seq<Statement>>, t: Text)
    ensures RecordsOf(Run(EmptyDb, transactions), t) != {} <==> RecordCommitted(transactions, t)
  {
    if transactions != [] {
      hide Commits, TaskHasRow, RowSettled, RecordSettled, TaskEvolves, RowEvolves, VersionEvolves, RecordCommitted;
      var n := |transactions| - 1;
      var before, after := Run(EmptyDb, transactions[..n]), Run(EmptyDb, transactions);
      LastCommit(transactions);
      RecordWasInserted(transactions[..n], t);
      RecordCommittedLast(transactions, t);
      RecordsGrow(before, after, t);
      if CommitsAt(transactions, n) {
        NewRecordsInserted(before, transactions[n], t);
      }
    }
  }

  /** A transaction gives a task its first record exactly by inserting one. */
  lemma NewRecordsInserted(db: Db, statements: seq<Statement>, t: Text)
    requires WellFormed(db) && ApplyAll(db, statements).Done?
    ensures var after := ApplyAll(db, statements).db;
            RecordsOf(after, t) != {} <==> RecordsOf(db, t) != {} || SomeInsertsRecord(statements, t)
  {
    hide ApplyAll, WellFormed, Evolves, InsertsRecord, RecordsOf;
    var after := ApplyAll(db, statements).db;
    StatementsEvolve(db, statements);
    RecordsGrow(db, after, t);
    if SomeInsertsRecord(statements, t) {
      var j: nat :| j < |statements| && InsertsRecord(statements[j], t);
      InsertedRecordStays(db, statements, j, t);
    }
    if RecordsOf(after, t) != {} && RecordsOf(db, t) == {} {
      var r :| r in RecordsOf(after, t);
      RecordOf(after, r, t);
      RecordAbsent(db, after, r, t);
      NewRecordInserted(db, statements, r);
    }
  }

  lemma RecordOf(db: Db, r: Text, t: Text)
    ensures r in RecordsOf(db, t) <==> r in db.records && db.records[r].taskId == t
  {
  }

  lemma RecordAbsent(a: Db, b: Db, r: Text, t: Text)
    requires Evolves(a, b) && RecordsOf(a, t) == {} && r in RecordsOf(b, t)
    ensures r !in a.records
  {
    if r in a.records {
      RecordKept(a, b, r);
      RecordOf(a, r, t);
    }
  }

  lemma RecordsGrow(a: Db, b: Db, t: Text)
    requires Evolves(a, b)
    ensures RecordsOf(a, t) <= RecordsOf(b, t)
  {
  }

  /** A decided task has exactly one record, with its decision, if and only if it entered PENDING or a committed
      statement inserted a record of it. */
  lemma DecidedTaskHasOneRecord(transactions: seq<seq<Statement>>, t: Text)
    requires var db := Run(EmptyDb, transactions); t in db.tasks && IsDecision(db.tasks[t].status)
    ensures HasItsRecord(Run(EmptyDb, transactions), t)
       <==> EnteredPending(transactions, t) || RecordCommitted(transactions, t)
  {
    var db := Run(EmptyDb, transactions);
    hide Run;
    RecordWasInserted(transactions, t);
    if EnteredPending(transactions, t) {
      PendingIsRecorded(transactions, t);
    }
    if RecordsOf(db, t) != {} {
      var r :| r in RecordsOf(db, t);
      RecordsMatchTasks(transactions, r);
      assert HasItsRecord(db, t);
    }
    hide EnteredPending, RecordCommitted, RecordsOf;
  }

  /** If nothing inserts the task as anything but PENDING, a decision of it is recorded: other tasks may enter as
      they like. */
  lemma NeverEnteredDecided(transactions: seq<seq<Statement>>, t: Text)
    requires var db := Run(EmptyDb, transactions); t in db.tasks && IsDecision(db.tasks[t].status)
    requires forall i :: 0 <= i < |transactions| ==> OnlyPending(transactions[i], t)
    ensures HasItsRecord(Run(EmptyDb, transactions), t)
  {
    hide Run;
    TaskWasInserted(transactions, t);
    PendingIsRecorded(transactions, t);
  }

  /** A decided review task has its one record in every run: the database makes it enter PENDING. */
  lemma DecidedReviewTaskHasOneRecord(transactions: seq<seq<Statement>>, t: Text)
    requires var db := Run(EmptyDb, transactions);
             t in db.tasks && IsReviewType(db.tasks[t].basis.taskType) && IsDecision(db.tasks[t].status)
    ensures HasItsRecord(Run(EmptyDb, transactions), t)
  {
    hide Run;
    TaskWasInserted(transactions, t);
    PendingIsRecorded(transactions, t);
  }

  const GENERIC_TASK := Task(
    TaskBasis(Plain("task"), Plain("project"), Plain("QUANTITY_REVIEW"), Plain("QUANTITY"), Plain("quantity"), Plain("role"),
              true, 0),
    Approved, map[], 0)

  /** The other case occurs: a task of any other than the three review types may enter already decided, with no
      record at all. */
  lemma GenericTaskMayEnterDecided()
    ensures var db := Run(EmptyDb, [[InsertTask(GENERIC_TASK)]]);
            && Plain("task") in db.tasks && db.tasks[Plain("task")].status == Approved
            && RecordsOf(db, Plain("task")) == {}
  {
    var s := InsertTask(GENERIC_TASK);
    var after := EmptyDb.(tasks := map[Plain("task") := GENERIC_TASK]);
    assert Apply(EmptyDb, s) == Done(after, [TaskLink(Plain("task"))]) by {
      assert TaskEnters(GENERIC_TASK);
    }
    assert TaskLinkHolds(after, Plain("task"));
    hide Apply, TaskLinkHolds;
    assert [s][..0] == [];
    assert ApplyAll(EmptyDb, []) == Done(EmptyDb, []);
    assert ApplyAll(EmptyDb, [s]) == Done(after, [] + [TaskLink(Plain("task"))]);
    assert [] + [TaskLink(Plain("task"))] == [TaskLink(Plain("task"))];
    assert EventHolds(after, TaskLink(Plain("task")));
    assert Commits(EmptyDb, [s]);
    assert [[s]][..0] == [];
    assert Run(EmptyDb, []) == EmptyDb;
    assert Run(EmptyDb, [[s]]) == after;
    assert RecordsOf(after, Plain("task")) == {};
  }
}
