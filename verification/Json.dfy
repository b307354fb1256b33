/** The SQL values the guards compute with: JSON payloads, nullable values, three-valued conditions. */
module Json {

  /** A text. Every word a guard compares with is a constructor; Plain is any other text, and Printed
      the text that PostgreSQL prints for a composite JSON value. */
  datatype Text =
    | Pending | Approved | Rejected | ChangesRequested | Superseded
    | InReview | Verified
    | Draft | ApprovedForBid | ActualsPolicy
    | ActualFactReview | VarianceClassificationReview | CalibrationExampleReview
    | ActualRecord | VarianceRecord | CalibrationExample | Project
    | ActualFactRecorded | ForecastActualVarianceClassified | CalibrationExampleCreated
    | ActualFactVerified | VarianceReviewDecided | CalibrationExampleReviewDecided
    | Plain(characters: string)
    | Printed(composite: Value)

  /** A key of a JSON object; KOther is any key no guard names. */
  datatype Key =
    | KReviewStatus | KReviewDecision | KReviewedBy | KReviewedAt
    | KVerifiedBy | KVerifiedAt | KApprovedBy | KApprovedAt | KApprovalReason
    | KVariance | KRisk | KStatus
    | KApprovalTaskId | KCreatedBy | KPolicyVersionId | KPolicyContentHash
    | KReviewRole | KApprovalRole | KReleasedByDecisionId
    | KActualId | KVarianceRecordId | KCalibrationExampleId | KActualRecordId
    | KActualKey | KSourceObservationId | KSourceLeafIds | KOutcomeEvidenceIds
    | KActualSubmissionHash | KVarianceSubmissionHash | KCalibrationSubmissionHash
    | KInvalidatedAt | KInvalidatedByRevision | KInvalidatedSetRevision
    | KSupersededAt | KSupersededByEntity | KSupersessionReason
    | KApprovalId | KDecision
    | KCostImpact | KCostImpactApprovalId | KCostImpactFinalizedAt
    | KOther(characters: string)

  /** A jsonb value; JScalar is a number or a boolean, by its printed form. */
  datatype Value =
    | JNull
    | JScalar(printed: string)
    | JString(text: Text)
    | JArray(items: seq<Value>)
    | JObject(fields: Payload)

  type Payload = map<Key, Value>

  datatype Nullable<+T> = Null | Val(v: T)

  /** payload -> key */
  function At(p: Payload, k: Key): Nullable<Value> {
    if k in p then Val(p[k]) else Null
  }

  /** value ->> key of a value that is already text-extractable */
  function TextOf(v: Value): Nullable<Text> {
    match v
    case JNull => Null
    case JScalar(s) => Val(Plain(s))
    case JString(t) => Val(t)
    case JArray(_) => Val(Printed(v))
    case JObject(_) => Val(Printed(v))
  }

  /** payload ->> key */
  function TextAt(p: Payload, k: Key): Nullable<Text> {
    if k in p then TextOf(p[k]) else Null
  }

  /** payload -> outer ->> inner; null unless the outer value is an object. */
  function TextWithin(p: Payload, outer: Key, inner: Key): Nullable<Text> {
    if outer in p && p[outer].JObject? then TextAt(p[outer].fields, inner) else Null
  }

  /** jsonb_typeof(payload -> key) = 'string', false where it is null. */
  predicate IsString(p: Payload, k: Key) {
    k in p && p[k].JString?
  }

  predicate AllStrings(p: Payload, keys: set<Key>) {
    forall k :: k in keys ==> IsString(p, k)
  }

  /** payload ?| keys */
  predicate HasAny(p: Payload, keys: set<Key>) {
    exists k :: k in keys && k in p
  }

  /** left @> right */
  predicate Contains(left: Value, right: Value)
    decreases right, 0
  {
    match right
    case JArray(items) =>
      left.JArray? && forall j :: 0 <= j < |items| ==> OneContains(left.items, items[j])
    case JObject(fields) =>
      left.JObject? && forall k :: k in fields ==> k in left.fields && Contains(left.fields[k], fields[k])
    case _ => left == right
  }

  predicate OneContains(items: seq<Value>, v: Value)
    decreases v, 1
  {
    exists i :: 0 <= i < |items| && Contains(items[i], v)
  }

  /** `->>` gives the text of a string as it is, nothing for a JSON null or a missing key, and the printed form of
      anything else. */
  lemma TextCases(p: Payload, k: Key, inner: Key, t: Text, s: string)
    ensures k !in p ==> TextAt(p, k) == Null
    ensures TextAt(p[k := JNull], k) == Null && TextAt(p[k := JString(t)], k) == Val(t)
    ensures TextAt(p[k := JScalar(s)], k) == Val(Plain(s))
    ensures TextWithin(p[k := JObject(map[inner := JString(t)])], k, inner) == Val(t)
    ensures TextWithin(p[k := JString(t)], k, inner) == Null
  {
  }

  /** `@>`: an object contains another that has some of its entries, not one that has more; a text contains itself
      alone, and no object. */
  lemma ContainmentCases(p: Payload, k: Key, v: Value, x: Text, y: Text)
    requires k !in p
    ensures Contains(JObject(p[k := v]), JObject(p)) && !Contains(JObject(p), JObject(p[k := v]))
    ensures Contains(JString(x), JString(y)) <==> x == y
    ensures !Contains(JString(x), JObject(p)) && !Contains(JObject(p), JString(x)) && !Contains(JNull, JString(x))
  {
    forall key | key in p ensures Contains(p[k := v][key], p[key]) { ContainsItself(p[key]); }
    assert k in p[k := v];
  }

  /** An array contains another whose items it has, whatever their order and number. */
  lemma ArrayContainment(xs: seq<Value>, ys: seq<Value>)
    ensures (forall y :: y in ys ==> y in xs) ==> Contains(JArray(xs), JArray(ys))
  {
    if forall y :: y in ys ==> y in xs {
      forall j | 0 <= j < |ys| ensures OneContains(xs, ys[j]) {
        assert ys[j] in ys;
        var i :| 0 <= i < |xs| && xs[i] == ys[j];
        ContainsItself(ys[j]);
      }
    }
  }

  predicate PayloadContains(left: Payload, right: Payload) {
    forall k :: k in right ==> k in left && Contains(left[k], right[k])
  }

  lemma {:induction false} ContainsItself(v: Value)
    ensures Contains(v, v)
    decreases v
  {
    match v
    case JArray(items) =>
      forall j | 0 <= j < |items| ensures OneContains(items, items[j]) { ContainsItself(items[j]); }
    case JObject(fields) =>
      forall k | k in fields ensures Contains(fields[k], fields[k]) { ContainsItself(fields[k]); }
    case _ =>
  }

  lemma {:induction false} ContainsThrough(a: Value, b: Value, c: Value)
    requires Contains(a, b) && Contains(b, c)
    ensures Contains(a, c)
    decreases c
  {
    match c
    case JArray(items) =>
      forall j | 0 <= j < |items| ensures OneContains(a.items, items[j]) {
        assert OneContains(b.items, items[j]);
        var m :| 0 <= m < |b.items| && Contains(b.items[m], items[j]);
        assert OneContains(a.items, b.items[m]);
        var i :| 0 <= i < |a.items| && Contains(a.items[i], b.items[m]);
        ContainsThrough(a.items[i], b.items[m], items[j]);
      }
    case JObject(fields) =>
      forall k | k in fields ensures Contains(a.fields[k], fields[k]) {
        ContainsThrough(a.fields[k], b.fields[k], fields[k]);
      }
    case _ =>
  }

  lemma PayloadGrows(a: Payload, b: Payload, c: Payload)
    requires PayloadContains(b, a) && PayloadContains(c, b)
    ensures PayloadContains(c, a)
  {
    forall k | k in a ensures k in c && Contains(c[k], a[k]) { ContainsThrough(c[k], b[k], a[k]); }
  }

  lemma PayloadContainsItself(p: Payload)
    ensures PayloadContains(p, p)
  {
    forall k | k in p ensures Contains(p[k], p[k]) { ContainsItself(p[k]); }
  }

  // ----- three-valued logic -----

  datatype Tri = Yes | No | Unknown

  function Bool3(b: bool): Tri {
    if b then Yes else No
  }

  function And3(a: Tri, b: Tri): Tri {
    if a == No || b == No then No else if a == Yes && b == Yes then Yes else Unknown
  }

  function Or3(a: Tri, b: Tri): Tri {
    if a == Yes || b == Yes then Yes else if a == No && b == No then No else Unknown
  }

  function Not3(a: Tri): Tri {
    if a == Yes then No else if a == No then Yes else Unknown
  }

  /** a = b, null when either side is. */
  function Eq3<T(==)>(a: Nullable<T>, b: Nullable<T>): Tri {
    if a.Null? || b.Null? then Unknown else Bool3(a.v == b.v)
  }

  /** a IN (b, c) */
  function InPair3(a: Nullable<Text>, b: Text, c: Text): Tri {
    Or3(Eq3(a, Val(b)), Eq3(a, Val(c)))
  }

  /** An IF takes its branch only on a condition that is true, not on one that is null. */
  predicate Fires(condition: Tri) {
    condition == Yes
  }
}
