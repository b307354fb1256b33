/** Risk items: the guard on one row, and what any run of accepted updates can do to it. */
module RiskHistory {
  import opened Json

  datatype RiskBasis = RiskBasis(
    id: Text, projectId: Text, riskKey: Text, currency: Text, expectedImpact: Nullable<real>,
    supersedesRiskId: Nullable<Text>, createdAt: int)

  datatype Risk = Risk(basis: RiskBasis, status: Text, payload: Payload, current: bool, updatedAt: int)

  const REVIEW_KEYS := {KRisk, KVerifiedBy, KVerifiedAt, KReviewedBy, KReviewedAt, KReviewDecision}
  const INVALIDATION_KEYS := {KRisk, KInvalidatedByRevision, KInvalidatedSetRevision, KInvalidatedAt}

  /** The nested risk object with another status, all else unchanged. */
  predicate RiskRestated(o: Payload, n: Payload, status: Text) {
    && KRisk in o && o[KRisk].JObject? && KRisk in n
    && n[KRisk] == JObject(if KStatus in o[KRisk].fields then o[KRisk].fields[KStatus := JString(status)] else o[KRisk].fields)
  }

  predicate Retires(o: Risk, n: Risk) {
    o.current && !n.current && n.status == o.status && n.payload == o.payload
  }

  predicate Reviews(o: Risk, n: Risk) {
    && o.current && n.current && o.status == InReview && n.status in {Verified, Rejected}
    && RiskRestated(o.payload, n.payload, n.status)
    && n.payload - REVIEW_KEYS == o.payload - {KRisk}
    && TextAt(n.payload, KReviewDecision) == Val(if n.status == Verified then Approved else Rejected)
    && AllStrings(n.payload, {KReviewedBy, KReviewedAt})
    && (n.status == Verified ==> AllStrings(n.payload, {KVerifiedBy, KVerifiedAt}))
  }

  predicate Invalidates(o: Risk, n: Risk) {
    && o.current && n.current && n.status == InReview
    && RiskRestated(o.payload, n.payload, InReview)
    && n.payload - INVALIDATION_KEYS == o.payload - {KRisk}
    && AllStrings(n.payload, {KInvalidatedByRevision, KInvalidatedSetRevision, KInvalidatedAt})
  }

  predicate RiskTransition(o: Risk, n: Risk) {
    && n.basis == o.basis && n.updatedAt > o.updatedAt && o.current
    && (Retires(o, n) || Reviews(o, n) || Invalidates(o, n))
  }

  /** `payload -> 'risk' = jsonb_set(old -> 'risk', '{status}', status, false)`; Unknown stands for a
      null operand and for the error `jsonb_set` raises on anything but an object: neither lets the
      update pass. */
  function RiskEquals3(o: Payload, n: Payload, status: Text): Tri {
    var expected := if KRisk in o && o[KRisk].JObject?
                    then Val(JObject(if KStatus in o[KRisk].fields then o[KRisk].fields[KStatus := JString(status)]
                                     else o[KRisk].fields)) else Null;
    Eq3(At(n, KRisk), expected)
  }

  /** A risk item of the table, updated in place. */
  class RiskItem {
    const basis: RiskBasis
    var status: Text
    var payload: Payload
    var current: bool
    var updatedAt: int
    ghost var history: seq<Risk>  // the row as inserted and after every accepted update

    function Row(): Risk
      reads this
    {
      Risk(basis, status, payload, current, updatedAt)
    }

    ghost predicate Valid()
      reads this
    {
      IsRun(history) && history[|history| - 1] == Row()
    }

    constructor (row: Risk)
      ensures Valid() && Row() == row && history == [row]
    {
      basis, status, payload, current, updatedAt := row.basis, row.status, row.payload, row.current, row.updatedAt;
      history := [row];
    }

    /** An accepted update replaces the row. */
    method Update(n: Risk) returns (accepted: bool)
      requires Valid()
      modifies this
      ensures Valid() && accepted == RiskTransition(old(Row()), n)
      ensures Row() == (if accepted then n else old(Row()))
      ensures history == (if accepted then old(history) + [n] else old(history))
    {
      accepted := GuardAccepts(n);
      if accepted {
        status, payload, current, updatedAt := n.status, n.payload, n.current, n.updatedAt;
        history := history + [n];
      }
    }

    /** tenderguard_protect_risk_item, branch by branch. */
    method GuardAccepts(n: Risk) returns (accepted: bool)
      ensures accepted == RiskTransition(Row(), n)
    {
      accepted := false;
      if n.basis != basis || n.updatedAt <= updatedAt {
        return;
      }
      if !current {
        return;
      }
      var retired := current && !n.current && n.status == status && n.payload == payload;
      var decision := TextAt(n.payload, KReviewDecision);
      var decided := Or3(And3(Bool3(n.status == Verified), Eq3(decision, Val(Approved))),
                         And3(Bool3(n.status == Rejected), Eq3(decision, Val(Rejected))));
      var reviewed := And3(
        And3(Bool3(current && n.current && status == InReview && n.status in {Verified, Rejected}),
             RiskEquals3(payload, n.payload, n.status)),
        And3(And3(Bool3(n.payload - REVIEW_KEYS == payload - {KRisk}), decided),
             And3(Bool3(IsString(n.payload, KReviewedBy) && IsString(n.payload, KReviewedAt)),
                  Bool3(n.status == Rejected || (IsString(n.payload, KVerifiedBy) && IsString(n.payload, KVerifiedAt))))));
      var invalidated := And3(
        And3(Bool3(current && n.current && n.status == InReview), RiskEquals3(payload, n.payload, InReview)),
        Bool3(n.payload - INVALIDATION_KEYS == payload - {KRisk} && IsString(n.payload, KInvalidatedByRevision)
              && IsString(n.payload, KInvalidatedSetRevision) && IsString(n.payload, KInvalidatedAt)));
      accepted := retired || Fires(reviewed) || Fires(invalidated);
    }
  }

  // ----- runs -----

  /** A run of one row: each update is accepted on the state the one before left. */
  ghost predicate IsRun(rows: seq<Risk>) {
    rows != [] && forall i :: 0 < i < |rows| ==> RiskTransition(rows[i - 1], rows[i])
  }

  lemma KeyTravels(o: Payload, n: Payload, stripped: set<Key>, k: Key)
    requires n - stripped == o - {KRisk} && k != KRisk && k in o
    ensures k in n && n[k] == o[k] && k !in stripped
  {
    assert k in o - {KRisk};
    assert (n - stripped)[k] == (o - {KRisk})[k];
  }

  /** Every update keeps a reviewer's name and an invalidation stamp that are already there. */
  lemma StampsTravel(o: Risk, n: Risk, k: Key)
    requires RiskTransition(o, n) && k in {KReviewedBy, KInvalidatedAt} && k in o.payload
    ensures k in n.payload && n.payload[k] == o.payload[k]
  {
    if Reviews(o, n) {
      KeyTravels(o.payload, n.payload, REVIEW_KEYS, k);
    } else if Invalidates(o, n) {
      KeyTravels(o.payload, n.payload, INVALIDATION_KEYS, k);
    }
  }

  /** A payload equation strips its keys from the new side only, so it fails where the old side has one. */
  lemma ReviewedOnce(o: Risk, n: Risk)
    requires KReviewedBy in o.payload
    ensures !Reviews(o, n)
  {
    if Reviews(o, n) {
      KeyTravels(o.payload, n.payload, REVIEW_KEYS, KReviewedBy);
    }
  }

  lemma InvalidatedOnce(o: Risk, n: Risk)
    requires KInvalidatedAt in o.payload
    ensures !Invalidates(o, n)
  {
    if Invalidates(o, n) {
      KeyTravels(o.payload, n.payload, INVALIDATION_KEYS, KInvalidatedAt);
    }
  }

  lemma {:induction false} StampStays(rows: seq<Risk>, i: nat, j: nat, k: Key)
    requires IsRun(rows) && i <= j < |rows| && k in {KReviewedBy, KInvalidatedAt} && k in rows[i].payload
    ensures k in rows[j].payload && rows[j].payload[k] == rows[i].payload[k]
  {
    if i < j {
      StampStays(rows, i, j - 1, k);
      StampsTravel(rows[j - 1], rows[j], k);
    }
  }

  /** In its whole life a risk item is reviewed at most once, invalidated at most once and retired at
      most once: no two steps of a run are of the same kind. */
  lemma EachStepAtMostOnce(rows: seq<Risk>, i: nat, j: nat)
    requires IsRun(rows) && i < j && j + 1 < |rows|
    ensures !(Reviews(rows[i], rows[i + 1]) && Reviews(rows[j], rows[j + 1]))
    ensures !(Invalidates(rows[i], rows[i + 1]) && Invalidates(rows[j], rows[j + 1]))
    ensures !Retires(rows[i], rows[i + 1])
  {
    assert RiskTransition(rows[j], rows[j + 1]);
    if Reviews(rows[i], rows[i + 1]) {
      StampStays(rows, i + 1, j, KReviewedBy);
      ReviewedOnce(rows[j], rows[j + 1]);
    }
    if Invalidates(rows[i], rows[i + 1]) {
      StampStays(rows, i + 1, j, KInvalidatedAt);
      InvalidatedOnce(rows[j], rows[j + 1]);
    }
    assert RiskTransition(rows[i + 1], rows[i + 2]);
  }

  /** So no run is longer than three updates. */
  lemma AtMostThreeUpdates(rows: seq<Risk>)
    requires IsRun(rows)
    ensures |rows| <= 4
  {
    if |rows| > 4 {
      assert RiskTransition(rows[0], rows[1]) && RiskTransition(rows[1], rows[2]) && RiskTransition(rows[2], rows[3]);
      EachStepAtMostOnce(rows, 0, 1);
      EachStepAtMostOnce(rows, 0, 2);
      EachStepAtMostOnce(rows, 1, 2);
      EachStepAtMostOnce(rows, 2, 3);
    }
  }

  /** An item that a document change sent back to IN_REVIEW after its review is never reviewed again:
      all that is left to it is retirement. */
  lemma InvalidatedReviewIsFinal(rows: seq<Risk>, i: nat, j: nat, k: nat)
    requires IsRun(rows) && i < j < k && k + 1 < |rows|
    requires Reviews(rows[i], rows[i + 1]) && Invalidates(rows[j], rows[j + 1])
    ensures rows[j + 1].status == InReview && Retires(rows[k], rows[k + 1])
  {
    EachStepAtMostOnce(rows, i, k);
    EachStepAtMostOnce(rows, j, k);
    assert RiskTransition(rows[k], rows[k + 1]);
  }

  /** Everything in the payload outside the review's and the invalidation's own keys, and the nested
      risk object apart from its status, is what it was at the start; a row without such an object keeps its
      whole payload, since only retirement is open to it. */
  lemma {:induction false} EvidenceKept(rows: seq<Risk>, j: nat)
    requires IsRun(rows) && j < |rows|
    ensures rows[j].basis == rows[0].basis
    ensures rows[j].payload - (REVIEW_KEYS + INVALIDATION_KEYS) == rows[0].payload - (REVIEW_KEYS + INVALIDATION_KEYS)
    ensures KRisk in rows[0].payload && rows[0].payload[KRisk].JObject? ==>
              && KRisk in rows[j].payload && rows[j].payload[KRisk].JObject?
              && rows[j].payload[KRisk].fields - {KStatus} == rows[0].payload[KRisk].fields - {KStatus}
    ensures !(KRisk in rows[0].payload && rows[0].payload[KRisk].JObject?) ==>
              rows[j].payload == rows[0].payload && rows[j].status == rows[0].status
  {
    if j > 0 {
      EvidenceKept(rows, j - 1);
      var o, n := rows[j - 1], rows[j];
      assert RiskTransition(o, n);
      var keys := REVIEW_KEYS + INVALIDATION_KEYS;
      if Reviews(o, n) {
        assert n.payload - keys == (n.payload - REVIEW_KEYS) - keys;
      } else if Invalidates(o, n) {
        assert n.payload - keys == (n.payload - INVALIDATION_KEYS) - keys;
      }
      assert o.payload - keys == (o.payload - {KRisk}) - keys;
    }
  }

  // ----- the updates as edits -----

  /** The nested risk object under another status. */
  function Restated(fields: Payload, status: Text): Value {
    JObject(fields[KStatus := JString(status)])
  }

  /** An accepted review verifies with the decision APPROVED or rejects with REJECTED, and says by whom and when; an
      accepted invalidation says by which revision; a retirement changes nothing but currency. */
  lemma AcceptedUpdateTells(o: Risk, n: Risk)
    requires RiskTransition(o, n)
    ensures n.basis == o.basis && n.updatedAt > o.updatedAt && o.current
    ensures !n.current ==> n.status == o.status && n.payload == o.payload
    ensures n.current && n.status == Verified ==>
              && o.status == InReview && TextAt(n.payload, KReviewDecision) == Val(Approved)
              && (forall k :: k in {KReviewedBy, KReviewedAt, KVerifiedBy, KVerifiedAt} ==> k in n.payload && n.payload[k].JString?)
    ensures n.current && n.status == Rejected ==>
              && o.status == InReview && TextAt(n.payload, KReviewDecision) == Val(Rejected)
              && (forall k :: k in {KReviewedBy, KReviewedAt} ==> k in n.payload && n.payload[k].JString?)
    ensures n.current && n.status !in {Verified, Rejected} ==>
              && n.status == InReview
              && forall k :: k in {KInvalidatedByRevision, KInvalidatedSetRevision, KInvalidatedAt} ==>
                   k in n.payload && n.payload[k].JString?
  {
  }

  datatype Signature = Signature(actor: Text, at: Text, updatedAt: int)

  function Verification(o: Risk, fields: Payload, s: Signature): Risk {
    o.(status := Verified, updatedAt := s.updatedAt,
       payload := o.payload[KRisk := Restated(fields, Verified)][KReviewDecision := JString(Approved)][
         KReviewedBy := JString(s.actor)][KReviewedAt := JString(s.at)][KVerifiedBy := JString(s.actor)][
         KVerifiedAt := JString(s.at)])
  }

  function Rejection(o: Risk, fields: Payload, s: Signature): Risk {
    o.(status := Rejected, updatedAt := s.updatedAt,
       payload := o.payload[KRisk := Restated(fields, Rejected)][KReviewDecision := JString(Rejected)][
         KReviewedBy := JString(s.actor)][KReviewedAt := JString(s.at)])
  }

  function DocumentInvalidation(o: Risk, fields: Payload, revision: Text, documents: Text, s: Signature): Risk {
    o.(status := InReview, updatedAt := s.updatedAt,
       payload := o.payload[KRisk := Restated(fields, InReview)][KInvalidatedByRevision := JString(revision)][
         KInvalidatedSetRevision := JString(documents)][KInvalidatedAt := JString(s.at)])
  }

  /** A current item takes each step that is still open to it: it can be verified or rejected while it is in review and
      bears no key of a review, */
  lemma ReviewAccepted(o: Risk, fields: Payload, s: Signature)
    requires o.current && KRisk in o.payload && o.payload[KRisk] == JObject(fields) && KStatus in fields
    requires s.updatedAt > o.updatedAt && o.status == InReview
    requires forall k :: k in {KReviewDecision, KReviewedBy, KReviewedAt, KVerifiedBy, KVerifiedAt} ==> k !in o.payload
    ensures RiskTransition(o, Verification(o, fields, s)) && RiskTransition(o, Rejection(o, fields, s))
  {
    VerificationAccepted(o, fields, s);
    var r := Rejection(o, fields, s);
    hide Verification;
    assert r.payload - REVIEW_KEYS == o.payload - {KRisk};
    assert Reviews(o, r);
  }

  lemma VerificationAccepted(o: Risk, fields: Payload, s: Signature)
    requires o.current && KRisk in o.payload && o.payload[KRisk] == JObject(fields) && KStatus in fields
    requires s.updatedAt > o.updatedAt && o.status == InReview
    requires forall k :: k in {KReviewDecision, KReviewedBy, KReviewedAt, KVerifiedBy, KVerifiedAt} ==> k !in o.payload
    ensures RiskTransition(o, Verification(o, fields, s))
  {
    var v := Verification(o, fields, s);
    assert v.payload - REVIEW_KEYS == o.payload - {KRisk};
    assert Reviews(o, v);
  }

  /** invalidated while it bears no key of an invalidation, */
  lemma InvalidationAccepted(o: Risk, fields: Payload, revision: Text, documents: Text, s: Signature)
    requires o.current && KRisk in o.payload && o.payload[KRisk] == JObject(fields) && KStatus in fields
    requires s.updatedAt > o.updatedAt
    requires forall k :: k in {KInvalidatedByRevision, KInvalidatedSetRevision, KInvalidatedAt} ==> k !in o.payload
    ensures RiskTransition(o, DocumentInvalidation(o, fields, revision, documents, s))
  {
    var d := DocumentInvalidation(o, fields, revision, documents, s);
    assert d.payload - INVALIDATION_KEYS == o.payload - {KRisk};
    assert Invalidates(o, d);
  }

  /** and retired at any time. */
  lemma RetirementAccepted(o: Risk, updatedAt: int)
    requires o.current && updatedAt > o.updatedAt
    ensures RiskTransition(o, o.(current := false, updatedAt := updatedAt))
  {
  }
}
