/** Transactions over the guarded tables: statements checked one by one, events checked at commit. */
module Transactions {
  import opened Json
  import opened EvidenceTables
  import opened RowGuards
  import opened DeferredChecks

  /** One row-level statement. The protected tables refuse every DELETE, and approval records, release
      decisions and audit events every UPDATE, so no other statement can take effect. An update names its row
      by its id, which no guard lets change; where there is no such row it changes nothing. */
  datatype Statement =
    | InsertTask(task: Task)
    | UpdateTask(task: Task)
    | InsertRecord(id: Text, record: Record)
    | InsertRow(row: Row)
    | UpdateRow(row: Row)
    | InsertVersion(id: Text, version: Version)
    | UpdateVersion(id: Text, version: Version)
    | InsertRelease(id: Text, release: Release)
    | InsertAudit(id: Text, audit: Audit)

  datatype Effect = Raised | Done(db: Db, events: seq<Event>)

  /** Foreign keys between the reviewed tables. */
  predicate ReferencesExist(db: Db, row: Row) {
    match row.KindOf()
    case Actuals => true
    case Variances => RowKey(Actuals, row.basis.actualRecordId) in db.rows
    case Calibrations => && RowKey(Actuals, row.basis.actualRecordId) in db.rows
                         && RowKey(Variances, row.basis.varianceRecordId) in db.rows
  }

  /** The unique constraints of the reviewed tables, between two rows of one table. */
  predicate Distinct(x: Row, y: Row) {
    x.KindOf() == y.KindOf() ==>
      match x.KindOf()
      case Actuals => !(x.current && y.current && x.basis.projectId == y.basis.projectId
                        && x.basis.actualKey == y.basis.actualKey)
      case Variances => x.basis.actualRecordId != y.basis.actualRecordId
      case Calibrations => && x.basis.actualRecordId != y.basis.actualRecordId
                           && x.basis.varianceRecordId != y.basis.varianceRecordId
  }

  predicate UniqueIn(db: Db, row: Row) {
    forall k :: k in db.rows && k != row.KeyOf() ==> Distinct(row, db.rows[k])
  }

  function Apply(db: Db, s: Statement): Effect {
    match s
    case InsertTask(task) =>
      if task.basis.id in db.tasks || !TaskEnters(task) then Raised
      else Done(db.(tasks := db.tasks[task.basis.id := task]), [TaskLink(task.basis.id)])
    case UpdateTask(task) =>
      var id := task.basis.id;
      if id !in db.tasks then Done(db, [])
      else if !TaskTransition(db.tasks[id], task) then Raised
      else Done(db.(tasks := db.tasks[id := task]),
                (if IsDecision(task.status) then [Decision(id, task.status)] else []) + [TaskLink(id)])
    case InsertRecord(id, record) =>
      if id in db.records || record.taskId !in db.tasks || RecordsOf(db, record.taskId) != {} then Raised
      else Done(db.(records := db.records[id := record]),
                [Decision(record.taskId, record.decision), TaskLink(record.taskId)])
    case InsertRow(row) =>
      if row.KeyOf() in db.rows || !row.HasColumns() || !EntersInReview(row) || !ReferencesExist(db, row) || !UniqueIn(db, row)
      then Raised
      else Done(db.(rows := db.rows[row.KeyOf() := row]), [ReviewLink(row.KeyOf())])
    case UpdateRow(row) =>
      if row.KeyOf() !in db.rows then Done(db, [])
      else if !row.HasColumns() || !RowTransition(db.rows[row.KeyOf()], row) || !UniqueIn(db, row) then Raised
      else Done(db.(rows := db.rows[row.KeyOf() := row]), [ReviewLink(row.KeyOf())])
    case InsertVersion(id, version) =>
      if id in db.versions || !VersionEnters(version) then Raised
      else Done(db.(versions := db.versions[id := version]), [])
    case UpdateVersion(id, version) =>
      if id !in db.versions then Done(db, [])
      else if !VersionTransition(db.versions[id], version) then Raised
      else Done(db.(versions := db.versions[id := version]), [])
    case InsertRelease(id, release) =>
      if id in db.releases then Raised else Done(db.(releases := db.releases[id := release]), [])
    case InsertAudit(id, audit) =>
      if id in db.audits then Raised else Done(db.(audits := db.audits[id := audit]), [])
  }

  /** The statements of one transaction in order; the first that raises ends it. */
  function ApplyAll(db: Db, statements: seq<Statement>): Effect {
    if statements == [] then Done(db, [])
    else
      var n := |statements| - 1;
      match ApplyAll(db, statements[..n])
      case Raised => Raised
      case Done(middle, events) =>
        match Apply(middle, statements[n])
        case Raised => Raised
        case Done(after, more) => Done(after, events + more)
  }

  predicate AllHold(db: Db, events: seq<Event>) {
    forall i :: 0 <= i < |events| ==> EventHolds(db, events[i])
  }

  /** Whether a transaction commits. */
  predicate Commits(db: Db, statements: seq<Statement>) {
    var effect := ApplyAll(db, statements);
    effect.Done? && AllHold(effect.db, effect.events)
  }

  /** The committed state after a transaction: its own, or the old one when it rolls back. */
  function Transact(db: Db, statements: seq<Statement>): Db {
    if Commits(db, statements) then ApplyAll(db, statements).db else db
  }

  /** The committed state after a run of transactions. */
  function Run(db: Db, transactions: seq<seq<Statement>>): Db {
    if transactions == [] then db
    else Transact(Run(db, transactions[..|transactions| - 1]), transactions[|transactions| - 1])
  }
}
