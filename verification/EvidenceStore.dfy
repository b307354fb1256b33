/** The store itself: tables updated in place by one session, and its commit. */
module EvidenceStore {
  import opened Json
  import opened EvidenceTables
  import opened RowGuards
  import opened DeferredChecks
  import opened Transactions
  import opened EvidenceHistory
  import opened EvidenceInvariant

  lemma AppendStatement(db: Db, log: seq<Statement>, s: Statement)
    ensures ApplyAll(db, log + [s])
            == match ApplyAll(db, log)
               case Raised => Raised
               case Done(middle, events) =>
                 match Apply(middle, s)
                 case Raised => Raised
                 case Done(after, more) => Done(after, events + more)
  {
    hide Apply;
    assert (log + [s])[..|log|] == log;
  }

  class Store {
    var tasks: map<Text, Task>
    var records: map<Text, Record>
    var rows: map<RowKey, Row>
    var versions: map<Text, Version>
    var releases: map<Text, Release>
    var audits: map<Text, Audit>
    var queue: seq<Event>
    var aborted: bool
    var committed: Db
    ghost var log: seq<Statement>  // the statements of the open transaction

    function Tables(): Db
      reads this
    {
      Db(tasks, records, rows, versions, releases, audits)
    }

    /** The open transaction is what its statements make of the committed state, and that state keeps
        every promise of the store. */
    ghost predicate Valid()
      reads this
    {
      && Settled(committed)
      && ApplyAll(committed, log) == if aborted then Raised else Done(Tables(), queue)
    }

    constructor ()
      ensures Valid() && committed == EmptyDb && log == []
    {
      tasks, records, rows, versions, releases, audits := map[], map[], map[], map[], map[], map[];
      queue, aborted, committed, log := [], false, EmptyDb, [];
    }

    /** The update triggers of the three reviewed tables. */
    method ProtectRow(o: Row, n: Row) returns (accepted: bool)
      ensures accepted == RowTransition(o, n)
    {
      match o.KindOf() {
        case Actuals => accepted := ProtectActualRecord(o, n);
        case Variances => accepted := ProtectVarianceRecord(o, n);
        case Calibrations => accepted := ProtectCalibrationExample(o, n);
      }
    }

    method PutTask(s: Statement) returns (raised: bool)
      requires s.InsertTask? || s.UpdateTask?
      modifies this`tasks, this`queue
      ensures if raised then Tables() == old(Tables()) && queue == old(queue) else old(queue) <= queue
      ensures Apply(old(Tables()), s) == if raised then Raised else Done(Tables(), queue[|old(queue)|..])
    {
      var id := s.task.basis.id;
      if s.InsertTask? {
        if id in tasks || !TaskEnters(s.task) {
          return true;
        }
      } else {
        if id !in tasks {
          return false;
        }
        var accepted := ProtectApprovalTask(tasks[id], s.task);
        if !accepted {
          return true;
        }
        if IsDecision(s.task.status) {
          queue := queue + [Decision(id, s.task.status)];
        }
      }
      tasks := tasks[id := s.task];
      queue := queue + [TaskLink(id)];
      return false;
    }

    method PutRow(s: Statement) returns (raised: bool)
      requires s.InsertRow? || s.UpdateRow?
      modifies this`rows, this`queue
      ensures if raised then Tables() == old(Tables()) && queue == old(queue) else old(queue) <= queue
      ensures Apply(old(Tables()), s) == if raised then Raised else Done(Tables(), queue[|old(queue)|..])
    {
      var row := s.row;
      var key := row.KeyOf();
      if s.UpdateRow? && key !in rows {
        return false;
      }
      if !row.HasColumns() || !UniqueIn(Tables(), row) {
        return true;
      }
      if s.InsertRow? {
        if key in rows || !EntersInReview(row) || !ReferencesExist(Tables(), row) {
          return true;
        }
      } else {
        var accepted := ProtectRow(rows[key], row);
        if !accepted {
          return true;
        }
      }
      rows := rows[key := row];
      queue := queue + [ReviewLink(key)];
      return false;
    }

    /** Records, versions, releases and audit events. */
    method PutEvidence(s: Statement) returns (raised: bool)
      requires !s.InsertTask? && !s.UpdateTask? && !s.InsertRow? && !s.UpdateRow?
      modifies this`records, this`versions, this`releases, this`audits, this`queue
      ensures if raised then Tables() == old(Tables()) && queue == old(queue) else old(queue) <= queue
      ensures Apply(old(Tables()), s) == if raised then Raised else Done(Tables(), queue[|old(queue)|..])
    {
      hide VersionEnters, VersionTransition;
      match s {
        case InsertRecord(id, record) =>
          if id in records || record.taskId !in tasks || RecordsOf(Tables(), record.taskId) != {} {
            return true;
          }
          records := records[id := record];
          queue := queue + [Decision(record.taskId, record.decision), TaskLink(record.taskId)];
        case InsertVersion(id, version) =>
          if id in versions || !VersionEnters(version) {
            return true;
          }
          versions := versions[id := version];
        case UpdateVersion(id, version) =>
          if id in versions {
            if !VersionTransition(versions[id], version) {
              return true;
            }
            versions := versions[id := version];
          }
        case InsertRelease(id, release) =>
          if id in releases {
            return true;
          }
          releases := releases[id := release];
        case InsertAudit(id, audit) =>
          if id in audits {
            return true;
          }
          audits := audits[id := audit];
      }
      return false;
    }

    /** Executes one statement. A statement that raises aborts the transaction, and an aborted
        transaction ignores what follows. */
    method Execute(s: Statement)
      requires Valid()
      modifies this
      ensures Valid() && committed == old(committed) && log == old(log) + [s]
      ensures aborted <==> old(aborted) || Apply(old(Tables()), s).Raised?
    {
      hide Settled, ApplyAll, Apply;
      AppendStatement(committed, log, s);
      log := log + [s];
      if aborted {
        return;
      }
      ghost var before := queue;
      if s.InsertTask? || s.UpdateTask? {
        aborted := PutTask(s);
      } else if s.InsertRow? || s.UpdateRow? {
        aborted := PutRow(s);
      } else {
        aborted := PutEvidence(s);
      }
      assert !aborted ==> queue == before + queue[|before|..];
    }

    /** Runs the deferred checks in the order they were queued, and keeps the transaction only if all
        of them hold; either way the promises of the store hold of the committed state. */
    method Commit() returns (kept: bool)
      requires Valid()
      modifies this
      ensures Valid() && log == [] && !aborted && Tables() == committed
      ensures committed == Transact(old(committed), old(log))
      ensures kept <==> Commits(old(committed), old(log))
      ensures Evolves(old(committed), committed)
    {
      hide Settled, EventHolds, Apply;
      kept := !aborted;
      var i := 0;
      while kept && i < |queue|
        invariant 0 <= i <= |queue| && unchanged(this)
        invariant kept ==> !aborted && forall j :: 0 <= j < i ==> EventHolds(Tables(), queue[j])
        invariant !kept ==> aborted || exists j :: 0 <= j < |queue| && !EventHolds(Tables(), queue[j])
      {
        kept := EventHolds(Tables(), queue[i]);
        i := i + 1;
      }
      assert kept <==> Commits(committed, log);
      TransactSettles(committed, log);
      if kept {
        committed := Tables();
      } else {
        tasks, records, rows := committed.tasks, committed.records, committed.rows;
        versions, releases, audits := committed.versions, committed.releases, committed.audits;
      }
      queue, aborted, log := [], false, [];
    }
  }
}
