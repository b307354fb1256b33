/** The guarded tables, as one state value. */
module EvidenceTables {
  import opened Json

  /** The columns no update may change. */
  datatype TaskBasis = TaskBasis(
    id: Text, projectId: Text, taskType: Text, entityType: Text, entityId: Text, assignedRole: Text,
    required: bool, createdAt: int)

  datatype Task = Task(basis: TaskBasis, status: Text, payload: Payload, updatedAt: int)

  datatype Record = Record(taskId: Text, decision: Text, decidedBy: Text, payload: Payload)

  /** The three reviewed tables. */
  datatype Kind = Actuals | Variances | Calibrations

  datatype Basis =
    | ActualBasis(id: Text, projectId: Text, actualKey: Text, entityType: Text, entityId: Text, metric: Text,
                  value: real, unit: Text, sourceObservationId: Text, occurredOn: int,
                  supersedesActualId: Nullable<Text>, createdAt: int)
    | VarianceBasis(id: Text, projectId: Text, actualRecordId: Text, snapshotId: Text, metric: Text, reason: Text,
                    absoluteVariance: real, relativeVariance: Nullable<real>, classifiedBy: Text, createdAt: int)
    | CalibrationBasis(id: Text, projectId: Text, actualRecordId: Text, varianceRecordId: Text,
                       featuresSnapshotId: Text, metric: Text, targetValue: real, unit: Text, createdAt: int)
  {
    function KindOf(): Kind {
      if ActualBasis? then Actuals else if VarianceBasis? then Variances else Calibrations
    }
  }

  datatype RowKey = RowKey(kind: Kind, id: Text)

  /** A reviewed row: `flag` is the column `verified` of an actual and `approved` of a calibration,
      `current` the column `is_current` of an actual. A table without the column keeps the constant
      that HasColumns fixes. */
  datatype Row = Row(basis: Basis, flag: bool, current: bool, payload: Payload) {
    function KindOf(): Kind {
      basis.KindOf()
    }

    function KeyOf(): RowKey {
      RowKey(KindOf(), basis.id)
    }

    predicate HasColumns() {
      && (KindOf() == Variances ==> !flag)
      && (KindOf() != Actuals ==> current)
    }

    /** The review status, from where its table keeps it. */
    function Status(): Nullable<Text> {
      if KindOf() == Variances then TextWithin(payload, KVariance, KStatus) else TextAt(payload, KReviewStatus)
    }

    function CreatedBy(): Nullable<Text> {
      if basis.VarianceBasis? then Val(basis.classifiedBy) else TextAt(payload, KCreatedBy)
    }

    function Role(): Nullable<Text> {
      TextAt(payload, RoleKey(KindOf()))
    }

    function TaskId(): Nullable<Text> {
      TextAt(payload, KApprovalTaskId)
    }
  }

  datatype Version = Version(
    versionKind: Text, versionLabel: Text, contentHash: Text, payload: Payload, status: Text,
    approvedBy: Nullable<Text>, approvedAt: Nullable<int>)

  datatype Release = Release(
    projectId: Text, snapshotId: Nullable<Text>, allowed: bool, requestedState: Text, resultingState: Text)

  datatype Audit = Audit(aggregateType: Text, aggregateId: Text, eventType: Text, actorId: Text, payload: Payload)

  datatype Db = Db(
    tasks: map<Text, Task>, records: map<Text, Record>, rows: map<RowKey, Row>,
    versions: map<Text, Version>, releases: map<Text, Release>, audits: map<Text, Audit>)

  const EmptyDb := Db(map[], map[], map[], map[], map[], map[])

  // ----- what the shared triggers select by table name -----

  function TaskTypeOf(kind: Kind): Text {
    match kind case Actuals => ActualFactReview case Variances => VarianceClassificationReview
               case Calibrations => CalibrationExampleReview
  }

  function EntityTypeOf(kind: Kind): Text {
    match kind case Actuals => ActualRecord case Variances => VarianceRecord case Calibrations => CalibrationExample
  }

  function IdKey(kind: Kind): Key {
    match kind case Actuals => KActualId case Variances => KVarianceRecordId case Calibrations => KCalibrationExampleId
  }

  function RoleKey(kind: Kind): Key {
    if kind == Calibrations then KApprovalRole else KReviewRole
  }

  function HashKey(kind: Kind): Key {
    match kind case Actuals => KActualSubmissionHash case Variances => KVarianceSubmissionHash
               case Calibrations => KCalibrationSubmissionHash
  }

  function CreationEvent(kind: Kind): Text {
    match kind case Actuals => ActualFactRecorded case Variances => ForecastActualVarianceClassified
               case Calibrations => CalibrationExampleCreated
  }

  function ReviewEvent(kind: Kind): Text {
    match kind case Actuals => ActualFactVerified case Variances => VarianceReviewDecided
               case Calibrations => CalibrationExampleReviewDecided
  }

  predicate IsReviewType(taskType: Text) {
    taskType in {ActualFactReview, VarianceClassificationReview, CalibrationExampleReview}
  }

  function KindOfType(taskType: Text): Kind
    requires IsReviewType(taskType)
  {
    if taskType == ActualFactReview then Actuals
    else if taskType == VarianceClassificationReview then Variances else Calibrations
  }

  predicate IsDecision(status: Text) {
    status in {Approved, Rejected, ChangesRequested}
  }

  function StatusFor(decision: Text): Text {
    if decision == Approved then Verified else Rejected
  }

  /** The records of one task: what `count(*) ... WHERE task_id = t` counts. */
  function RecordsOf(db: Db, t: Text): set<Text> {
    set r | r in db.records && db.records[r].taskId == t
  }
}
