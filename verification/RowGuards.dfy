/** The BEFORE UPDATE guards: each method takes the branches of its PL/pgSQL function in order, under
    three-valued logic, and is proved against a two-valued statement of the updates it accepts. */
module RowGuards {
  import opened Json
  import opened EvidenceTables

  // ----- approval tasks -----

  /** A decision leaves everything but the status and the timestamp. */
  predicate Decides(o: Task, n: Task) {
    o.status == Pending && IsDecision(n.status) && n.payload == o.payload
  }

  /** A supersession adds one of two complete stamps to the payload. */
  predicate Supersedes(o: Task, n: Task) {
    && o.status != Superseded && n.status == Superseded && PayloadContains(n.payload, o.payload)
    && (AllStrings(n.payload, {KInvalidatedAt, KInvalidatedByRevision, KInvalidatedSetRevision})
        || AllStrings(n.payload, {KSupersededAt, KSupersededByEntity, KSupersessionReason}))
  }

  predicate TaskTransition(o: Task, n: Task) {
    n.basis == o.basis && n.updatedAt > o.updatedAt && (Decides(o, n) || Supersedes(o, n))
  }

  /** tenderguard_protect_approval_task, with both supersession routes. */
  method ProtectApprovalTask(o: Task, n: Task) returns (accepted: bool)
    ensures accepted == TaskTransition(o, n)
  {
    if n.basis != o.basis || n.updatedAt <= o.updatedAt {
      return false;
    }
    if o.status == Pending && n.status in {Approved, Rejected, ChangesRequested} && n.payload == o.payload {
      return true;
    }
    if o.status != Superseded && n.status == Superseded && PayloadContains(n.payload, o.payload) {
      var invalidated := IsString(n.payload, KInvalidatedAt) && IsString(n.payload, KInvalidatedByRevision)
                         && IsString(n.payload, KInvalidatedSetRevision);
      var replaced := IsString(n.payload, KSupersededAt) && IsString(n.payload, KSupersededByEntity)
                      && IsString(n.payload, KSupersessionReason);
      if invalidated || replaced {
        return true;
      }
    }
    return false;
  }

  // ----- actual records -----

  const ACTUAL_REVIEW_KEYS := {KReviewDecision, KReviewedBy, KReviewedAt, KVerifiedBy, KVerifiedAt}

  /** Retirement changes `is_current` and nothing else. */
  predicate Retires(o: Row, n: Row) {
    o.current && n == o.(current := false)
  }

  /** jsonb_set(payload, '{key}', text, false) */
  function Replaced(p: Payload, k: Key, t: Text): Payload {
    if k in p then p[k := JString(t)] else p
  }

  /** A review moves an unverified row out of review and adds exactly the reviewer's keys. */
  predicate ReviewsActual(o: Row, n: Row) {
    && o.current && n.current && !o.flag && TextAt(o.payload, KReviewStatus) == Val(InReview)
    && (TextAt(n.payload, KReviewDecision) == Val(Approved) || TextAt(n.payload, KReviewDecision) == Val(Rejected))
    && var decision := TextAt(n.payload, KReviewDecision).v;
    && n.flag == (decision == Approved)
    && n.payload - ACTUAL_REVIEW_KEYS == Replaced(o.payload, KReviewStatus, StatusFor(decision))
    && TextAt(n.payload, KReviewedBy).Val? && TextAt(n.payload, KReviewedAt).Val?
    && (decision == Approved ==> && TextAt(n.payload, KVerifiedBy) == TextAt(n.payload, KReviewedBy)
                                 && TextAt(n.payload, KVerifiedAt) == TextAt(n.payload, KReviewedAt))
    && (decision == Rejected ==> KVerifiedBy !in n.payload && KVerifiedAt !in n.payload)
  }

  predicate ActualTransition(o: Row, n: Row) {
    n.basis == o.basis && o.current && (Retires(o, n) || ReviewsActual(o, n))
  }

  /** tenderguard_protect_actual_record */
  method ProtectActualRecord(o: Row, n: Row) returns (accepted: bool)
    ensures accepted == ActualTransition(o, n)
  {
    if n.basis != o.basis {
      return false;
    }
    if !o.current {
      return false;
    }
    if o.current && !n.current && n.flag == o.flag && n.payload == o.payload {
      assert n == o.(current := false);
      return true;
    }
    var decision := TextAt(n.payload, KReviewDecision);
    var target := if Fires(Eq3(decision, Val(Approved))) then Verified else Rejected;
    var approval := And3(And3(Bool3(n.flag), Eq3(decision, Val(Approved))),
                         And3(Eq3(TextAt(n.payload, KVerifiedBy), TextAt(n.payload, KReviewedBy)),
                              Eq3(TextAt(n.payload, KVerifiedAt), TextAt(n.payload, KReviewedAt))));
    var rejection := And3(And3(Bool3(!n.flag), Eq3(decision, Val(Rejected))),
                          Bool3(KVerifiedBy !in n.payload && KVerifiedAt !in n.payload));
    var condition :=
      And3(And3(Bool3(o.current && n.current && !o.flag), Eq3(TextAt(o.payload, KReviewStatus), Val(InReview))),
           And3(And3(InPair3(decision, Approved, Rejected),
                     Bool3(TextAt(n.payload, KReviewedBy).Val? && TextAt(n.payload, KReviewedAt).Val?)),
                And3(Bool3(n.payload - ACTUAL_REVIEW_KEYS == Replaced(o.payload, KReviewStatus, target)),
                     Or3(approval, rejection))));
    return Fires(condition);
  }

  // ----- variance records -----

  const VARIANCE_REVIEW_KEYS := {KVariance, KReviewDecision, KReviewedBy, KReviewedAt}

  /** The reviewed form of the nested variance object. */
  function ReviewedVariance(fields: Payload, target: Text, reviewer: Text): Value {
    JObject(Replaced(fields, KStatus, target)[KReviewedBy := JString(reviewer)])
  }

  /** Where a compared value is null the guard lets the update pass: an absent decision counts as a
      rejection, and a dropped variance object is not compared at all. */
  predicate ReviewsVariance(o: Row, n: Row) {
    && (o.Status().Null? || o.Status() == Val(InReview))
    && TextAt(n.payload, KReviewDecision) in {Null, Val(Approved), Val(Rejected)}
    && TextAt(n.payload, KReviewedBy).Val? && TextAt(n.payload, KReviewedAt).Val?
    && n.payload - VARIANCE_REVIEW_KEYS == o.payload - {KVariance}
    && (KVariance in o.payload ==>
          && o.payload[KVariance].JObject?
          && (KVariance in n.payload ==>
                var target := if TextAt(n.payload, KReviewDecision) == Val(Approved) then Verified else Rejected;
                n.payload[KVariance]
                == ReviewedVariance(o.payload[KVariance].fields, target, TextAt(n.payload, KReviewedBy).v)))
  }

  predicate VarianceTransition(o: Row, n: Row) {
    n.basis == o.basis && ReviewsVariance(o, n)
  }

  /** tenderguard_protect_variance_record; `jsonb_set` on anything but an object raises. */
  method ProtectVarianceRecord(o: Row, n: Row) returns (accepted: bool)
    requires o.KindOf() == Variances
    ensures accepted == VarianceTransition(o, n)
  {
    if n.basis != o.basis {
      return false;
    }
    var decision := TextAt(n.payload, KReviewDecision);
    var illegal := Or3(Not3(Eq3(TextWithin(o.payload, KVariance, KStatus), Val(InReview))),
                       Not3(InPair3(decision, Approved, Rejected)));
    if Fires(illegal) {
      return false;
    }
    var target := if Fires(Eq3(decision, Val(Approved))) then Verified else Rejected;
    var reviewer := TextAt(n.payload, KReviewedBy);
    if n.payload - VARIANCE_REVIEW_KEYS != o.payload - {KVariance} || reviewer.Null?
       || TextAt(n.payload, KReviewedAt).Null? {
      return false;
    }
    if KVariance in o.payload && !o.payload[KVariance].JObject? {
      return false;
    }
    var expected := if KVariance in o.payload
                    then Val(ReviewedVariance(o.payload[KVariance].fields, target, reviewer.v)) else Null;
    if Fires(Not3(Eq3(At(n.payload, KVariance), expected))) {
      return false;
    }
    return true;
  }

  // ----- calibration examples -----

  const CALIBRATION_REVIEW_KEYS :=
    {KReviewDecision, KReviewedBy, KReviewedAt, KApprovedBy, KApprovedAt, KApprovalReason}

  predicate ReviewsCalibration(o: Row, n: Row) {
    && (TextAt(o.payload, KReviewStatus).Null? || TextAt(o.payload, KReviewStatus) == Val(InReview))
    && (TextAt(n.payload, KReviewDecision) == Val(Approved) || TextAt(n.payload, KReviewDecision) == Val(Rejected))
    && var decision := TextAt(n.payload, KReviewDecision).v;
    && n.flag == (decision == Approved)
    && n.payload - CALIBRATION_REVIEW_KEYS == Replaced(o.payload, KReviewStatus, StatusFor(decision))
    && TextAt(n.payload, KReviewedBy).Val? && TextAt(n.payload, KReviewedAt).Val?
    && (decision == Approved ==> && TextAt(n.payload, KApprovedBy) == TextAt(n.payload, KReviewedBy)
                                 && TextAt(n.payload, KApprovedAt) == TextAt(n.payload, KReviewedAt)
                                 && TextAt(n.payload, KApprovalReason).Val?)
    && (decision == Rejected ==> !HasAny(n.payload, {KApprovedBy, KApprovedAt, KApprovalReason}))
  }

  predicate CalibrationTransition(o: Row, n: Row) {
    n.basis == o.basis && ReviewsCalibration(o, n)
  }

  /** tenderguard_protect_calibration_example */
  method ProtectCalibrationExample(o: Row, n: Row) returns (accepted: bool)
    ensures accepted == CalibrationTransition(o, n)
  {
    var decision := TextAt(n.payload, KReviewDecision);
    var target := if Fires(Eq3(decision, Val(Approved))) then Verified else Rejected;
    var approval := And3(And3(Bool3(n.flag), Eq3(decision, Val(Approved))),
                         And3(And3(Eq3(TextAt(n.payload, KApprovedBy), TextAt(n.payload, KReviewedBy)),
                                   Eq3(TextAt(n.payload, KApprovedAt), TextAt(n.payload, KReviewedAt))),
                              Bool3(TextAt(n.payload, KApprovalReason).Val?)));
    var rejection := And3(And3(Bool3(!n.flag), Eq3(decision, Val(Rejected))),
                          Bool3(KApprovedBy !in n.payload && KApprovedAt !in n.payload && KApprovalReason !in n.payload));
    var reviewed := Or3(approval, rejection);
    var refused :=
      Or3(Or3(Bool3(n.basis != o.basis), Not3(Eq3(TextAt(o.payload, KReviewStatus), Val(InReview)))),
          Or3(Or3(Not3(InPair3(decision, Approved, Rejected)),
                  Bool3(TextAt(n.payload, KReviewedBy).Null? || TextAt(n.payload, KReviewedAt).Null?)),
              Or3(Bool3(n.payload - CALIBRATION_REVIEW_KEYS != Replaced(o.payload, KReviewStatus, target)),
                  Bool3(reviewed != Yes))));
    return !Fires(refused);
  }

  // ----- any reviewed row -----

  predicate RowTransition(o: Row, n: Row) {
    match o.KindOf()
    case Actuals => ActualTransition(o, n)
    case Variances => VarianceTransition(o, n)
    case Calibrations => CalibrationTransition(o, n)
  }

  // ----- controlled versions -----

  predicate HasText(t: Text) {
    match t
    case Plain(s) => |s| > 0 && s[0] != ' ' && s[|s| - 1] != ' '
    case _ => true
  }

  predicate VersionEnters(n: Version) {
    n.status == Draft && n.approvedBy.Null? && n.approvedAt.Null?
  }

  /** tenderguard_protect_controlled_version: a draft is approved once, by a named approver. */
  predicate VersionTransition(o: Version, n: Version) {
    && n.versionKind == o.versionKind && n.versionLabel == o.versionLabel
    && n.contentHash == o.contentHash && n.payload == o.payload
    && o.status == Draft && n.status == Approved && o.approvedBy.Null? && o.approvedAt.Null?
    && n.approvedBy.Val? && HasText(n.approvedBy.v) && n.approvedAt.Val?
  }

  // ----- BEFORE INSERT guards -----

  /** tenderguard_validate_actuals_initial_state */
  predicate EntersInReview(n: Row) {
    match n.KindOf()
    case Actuals =>
      && !n.flag && n.current && TextAt(n.payload, KReviewStatus) == Val(InReview)
      && AllStrings(n.payload, {KApprovalTaskId, KCreatedBy, KPolicyVersionId, KPolicyContentHash, KReviewRole})
      && !HasAny(n.payload, ACTUAL_REVIEW_KEYS)
    case Variances =>
      && KVariance in n.payload && n.payload[KVariance].JObject?
      && TextWithin(n.payload, KVariance, KStatus) == Val(InReview)
      && At(n.payload[KVariance].fields, KReviewedBy) in {Null, Val(JNull)}
      && AllStrings(n.payload, {KApprovalTaskId, KPolicyVersionId, KPolicyContentHash, KReviewRole, KReleasedByDecisionId})
      && !HasAny(n.payload, {KReviewDecision, KReviewedBy, KReviewedAt})
    case Calibrations =>
      && !n.flag && TextAt(n.payload, KReviewStatus) == Val(InReview)
      && AllStrings(n.payload, {KApprovalTaskId, KCreatedBy, KPolicyVersionId, KPolicyContentHash, KApprovalRole,
                                KReleasedByDecisionId})
      && !HasAny(n.payload, CALIBRATION_REVIEW_KEYS)
  }

  /** tenderguard_validate_actuals_task_initial_state; other task types enter unchecked. */
  predicate TaskEnters(n: Task) {
    IsReviewType(n.basis.taskType) ==>
      var kind := KindOfType(n.basis.taskType);
      && n.status == Pending && n.basis.required && IsString(n.payload, KCreatedBy)
      && n.basis.entityType == EntityTypeOf(kind)
      && TextAt(n.payload, IdKey(kind)) == Val(n.basis.entityId)
      && TextAt(n.payload, RoleKey(kind)) == Val(n.basis.assignedRole)
      && IsString(n.payload, HashKey(kind))
  }
}
