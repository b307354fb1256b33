/** Contract terms: review, resolution of the cost impact, invalidation and retirement. */
module ContractTerms {
  import opened Options
  import opened Json
  import opened GuardedTables

  datatype Basis = Basis(id: string, projectId: string, kind: string, supersedes: Nullable<string>, createdAt: int)

  datatype Term = Term(basis: Basis, current: bool, verified: bool, resolved: bool, payload: Payload, updatedAt: int)

  const REVIEW_KEYS := {KReviewDecision, KReviewedBy, KReviewedAt}
  const RESOLUTION_KEYS := {KCostImpactApprovalId, KCostImpactFinalizedAt}
  const INVALIDATION_KEYS := {KInvalidatedByRevision, KInvalidatedSetRevision, KInvalidatedAt}

  predicate Retires(o: Term, n: Term) {
    !n.current && n.verified == o.verified && n.resolved == o.resolved && n.payload == o.payload
  }

  predicate Reviews(o: Term, n: Term) {
    && n.current && !o.verified && n.resolved == o.resolved
    && PayloadContains(n.payload, o.payload) && AllStrings(n.payload, REVIEW_KEYS)
  }

  predicate Resolves(o: Term, n: Term) {
    && n.current && o.verified && n.verified && !o.resolved && n.resolved
    && PayloadContains(n.payload, o.payload) && AllStrings(n.payload, RESOLUTION_KEYS)
    && KCostImpact in n.payload && n.payload[KCostImpact].JObject?
  }

  predicate Invalidates(o: Term, n: Term) {
    && n.current && !n.verified && !n.resolved
    && PayloadContains(n.payload, o.payload) && AllStrings(n.payload, INVALIDATION_KEYS)
  }

  predicate MayBecome(o: Term, n: Term) {
    && n.basis == o.basis && n.updatedAt > o.updatedAt && o.current
    && (Retires(o, n) || Reviews(o, n) || Resolves(o, n) || Invalidates(o, n))
  }

  /** tenderguard_protect_contract_term on update; deletes always raise. */
  method ProtectContractTerm(o: Term, n: Term) returns (accepted: bool)
    ensures accepted == MayBecome(o, n)
  {
    if n.basis != o.basis || n.updatedAt <= o.updatedAt {
      return false;
    }
    if !o.current {
      return false;
    }
    if o.current && !n.current && n.verified == o.verified && n.resolved == o.resolved && n.payload == o.payload {
      return true;
    }
    var grown := PayloadContains(n.payload, o.payload);
    if o.current && n.current && !o.verified && n.resolved == o.resolved && grown
       && IsString(n.payload, KReviewDecision) && IsString(n.payload, KReviewedBy) && IsString(n.payload, KReviewedAt) {
      return true;
    }
    if o.current && n.current && o.verified && n.verified && !o.resolved && n.resolved && grown
       && KCostImpact in n.payload && n.payload[KCostImpact].JObject?
       && IsString(n.payload, KCostImpactApprovalId) && IsString(n.payload, KCostImpactFinalizedAt) {
      return true;
    }
    if o.current && n.current && !n.verified && !n.resolved && grown
       && IsString(n.payload, KInvalidatedByRevision) && IsString(n.payload, KInvalidatedSetRevision)
       && IsString(n.payload, KInvalidatedAt) {
      return true;
    }
    return false;
  }

  function CurrentKey(t: Term): Option<UniqueKey> {
    if t.current then Some(UniqueKey([t.basis.projectId, t.basis.kind], 0)) else None
  }

  /** A resolved cost impact belongs to a verified term. */
  predicate ResolvedIsVerified(t: Term) {
    t.resolved ==> t.verified
  }

  const TERMS: Rules<Term> := Rules((t: Term) => t.basis.id, _ => true, MayBecome, [CurrentKey])

  // ----- over all runs -----

  lemma TableConsistent(transactions: seq<seq<Statement<Term>>>)
    ensures Consistent(TERMS, Run(TERMS, [], transactions))
  {
    RunConsistent(TERMS, [], transactions);
  }

  /** If the statement inserts the term, then not as resolved and unverified. */
  predicate KeepsRule(s: Statement<Term>, id: string) {
    s.Insert? && s.row.basis.id == id ==> ResolvedIsVerified(s.row)
  }

  /** The insert is not guarded. A term whose every insert keeps a resolved cost impact to verified terms keeps it
      in every reachable state, however other terms are entered. */
  lemma ResolvedImpliesVerified(transactions: seq<seq<Statement<Term>>>, i: nat)
    requires i < |Run(TERMS, [], transactions)|
    requires var id := Run(TERMS, [], transactions)[i].basis.id;
             forall n, m :: 0 <= n < |transactions| && 0 <= m < |transactions[n]| ==> KeepsRule(transactions[n][m], id)
    ensures ResolvedIsVerified(Run(TERMS, [], transactions)[i])
  {
    var id := Run(TERMS, [], transactions)[i].basis.id;
    var holds := (t: Term) => t.basis.id == id ==> ResolvedIsVerified(t);
    assert IsRowInvariant(TERMS, holds);
    RunKeeps(TERMS, [], transactions, holds);
  }

  /** In a committed state a term will have this property at every later moment of every run if and only if it has
      it now: no update ever breaks it. */
  lemma ResolvedIsVerifiedForGood(earlier: seq<seq<Statement<Term>>>, i: nat)
    requires i < |Run(TERMS, [], earlier)|
    ensures var rows := Run(TERMS, [], earlier);
            ResolvedIsVerified(rows[i])
            <==> forall later :: i < |Run(TERMS, rows, later)| && ResolvedIsVerified(Run(TERMS, rows, later)[i])
  {
    var rows := Run(TERMS, [], earlier);
    TableConsistent(earlier);
    ContinuesIsHistory();
    forall later ensures i < |Run(TERMS, rows, later)| && Continues(rows[i], Run(TERMS, rows, later)[i]) {
      RunRelates(TERMS, rows, later, Continues);
    }
    assert Run(TERMS, rows, []) == rows;
  }

  const UNVERIFIED := Term(Basis("term", "project", "kind", Null, 0), true, false, true, map[], 0)

  /** The condition on inserts is needed: nothing stops a term from being entered resolved and unverified. */
  lemma TermMayEnterUnverified()
    ensures var rows := Run(TERMS, [], [[Insert(UNVERIFIED)]]);
            rows == [UNVERIFIED] && !ResolvedIsVerified(rows[0])
  {
    var s := Insert(UNVERIFIED);
    var none: seq<Term> := [];
    assert none + [UNVERIFIED] == [UNVERIFIED];
    assert Apply(TERMS, [], s) == Some([UNVERIFIED]);
    hide Apply;
    assert [s][1..] == [];
    assert ApplyAll(TERMS, [UNVERIFIED], []) == Some([UNVERIFIED]);
    assert [[s]][1..] == [];
    assert Transact(TERMS, [], [s]) == [UNVERIFIED];
    assert Run(TERMS, [UNVERIFIED], []) == [UNVERIFIED];
  }

  /** A project has at most one current term of a kind. */
  lemma OneCurrentTerm(transactions: seq<seq<Statement<Term>>>, i: nat, j: nat)
    requires i < j < |Run(TERMS, [], transactions)|
    ensures var rows := Run(TERMS, [], transactions);
            rows[i].basis.projectId == rows[j].basis.projectId && rows[i].basis.kind == rows[j].basis.kind ==>
              !rows[i].current || !rows[j].current
  {
    TableConsistent(transactions);
    var rows := Run(TERMS, [], transactions);
    hide Run;
    assert !Conflict(TERMS, rows[i], rows[j]);
    assert TERMS.keys[0] == CurrentKey;
    assert TERMS.keys[0](rows[i]) == CurrentKey(rows[i]) && TERMS.keys[0](rows[j]) == CurrentKey(rows[j]);
  }

  /** Time moves on with every update, a retired term is frozen, the payload only grows, and a resolved cost impact
      that belongs to a verified term goes on doing so. */
  ghost predicate Continues(o: Term, n: Term) {
    && n.basis == o.basis && n.updatedAt >= o.updatedAt && (n.updatedAt == o.updatedAt ==> n == o)
    && (!o.current ==> n == o) && PayloadContains(n.payload, o.payload)
    && (ResolvedIsVerified(o) ==> ResolvedIsVerified(n))
  }

  lemma ContinuesIsHistory()
    ensures IsHistoryRelation(TERMS, Continues)
  {
    forall a ensures Continues(a, a) { PayloadContainsItself(a.payload); }
    forall a, b | MayBecome(a, b) ensures Continues(a, b) { PayloadContainsItself(a.payload); }
    forall a, b, c | Continues(a, b) && Continues(b, c) ensures Continues(a, c) {
      PayloadGrows(a.payload, b.payload, c.payload);
    }
  }

  /** A text once recorded in a term is never changed: the decision of its first review, and the approval that
      resolved its cost impact, survive invalidation, a second review and a second resolution. */
  lemma RecordedTextStays(earlier: seq<seq<Statement<Term>>>, later: seq<seq<Statement<Term>>>, i: nat, key: Key)
    requires i < |Run(TERMS, [], earlier)|
    ensures var before := Run(TERMS, [], earlier);
            var after := Run(TERMS, before, later);
            && i < |after| && Continues(before[i], after[i])
            && (IsString(before[i].payload, key) ==>
                  key in after[i].payload && after[i].payload[key] == before[i].payload[key])
  {
    TableConsistent(earlier);
    ContinuesIsHistory();
    RunRelates(TERMS, Run(TERMS, [], earlier), later, Continues);
  }

  // ----- the updates as edits -----

  datatype Signature = Signature(actor: Text, at: Text, updatedAt: int)

  function Reviewed(o: Term, decision: Text, verified: bool, s: Signature): Term {
    o.(verified := verified, updatedAt := s.updatedAt,
       payload := o.payload[KReviewDecision := JString(decision)][KReviewedBy := JString(s.actor)][KReviewedAt := JString(s.at)])
  }

  function Resolved(o: Term, impact: Payload, approval: Text, s: Signature): Term {
    o.(resolved := true, updatedAt := s.updatedAt,
       payload := o.payload[KCostImpact := JObject(impact)][KCostImpactApprovalId := JString(approval)][
         KCostImpactFinalizedAt := JString(s.at)])
  }

  function Invalidated(o: Term, revision: Text, documents: Text, s: Signature): Term {
    o.(verified := false, resolved := false, updatedAt := s.updatedAt,
       payload := o.payload[KInvalidatedByRevision := JString(revision)][KInvalidatedSetRevision := JString(documents)][
         KInvalidatedAt := JString(s.at)])
  }

  lemma AddsThree(p: Payload, a: Key, x: Value, b: Key, y: Value, c: Key, z: Value)
    requires a !in p && b !in p && c !in p
    ensures PayloadContains(p[a := x][b := y][c := z], p)
  {
    forall k | k in p ensures k in p[a := x][b := y][c := z] && Contains(p[a := x][b := y][c := z][k], p[k]) {
      ContainsItself(p[k]);
    }
  }

  /** The steps a current term takes, each writing its own keys: an unverified term is reviewed either way, */
  lemma ReviewAccepted(o: Term, decision: Text, verified: bool, s: Signature)
    requires o.current && !o.verified && s.updatedAt > o.updatedAt
    requires KReviewDecision !in o.payload && KReviewedBy !in o.payload && KReviewedAt !in o.payload
    ensures MayBecome(o, Reviewed(o, decision, verified, s))
  {
    AddsThree(o.payload, KReviewDecision, JString(decision), KReviewedBy, JString(s.actor), KReviewedAt, JString(s.at));
    hide PayloadContains;
  }

  /** a verified one has its cost impact resolved, */
  lemma ResolutionAccepted(o: Term, impact: Payload, approval: Text, s: Signature)
    requires o.current && o.verified && !o.resolved && s.updatedAt > o.updatedAt
    requires KCostImpact !in o.payload && KCostImpactApprovalId !in o.payload && KCostImpactFinalizedAt !in o.payload
    ensures MayBecome(o, Resolved(o, impact, approval, s))
  {
    AddsThree(o.payload, KCostImpact, JObject(impact), KCostImpactApprovalId, JString(approval), KCostImpactFinalizedAt,
              JString(s.at));
    hide PayloadContains;
  }

  /** any is invalidated by a document revision, */
  lemma InvalidationAccepted(o: Term, revision: Text, documents: Text, s: Signature)
    requires o.current && s.updatedAt > o.updatedAt
    requires KInvalidatedByRevision !in o.payload && KInvalidatedSetRevision !in o.payload && KInvalidatedAt !in o.payload
    ensures MayBecome(o, Invalidated(o, revision, documents, s))
  {
    AddsThree(o.payload, KInvalidatedByRevision, JString(revision), KInvalidatedSetRevision, JString(documents), KInvalidatedAt,
              JString(s.at));
    hide PayloadContains;
  }

  /** and any is retired. */
  lemma RetirementAccepted(o: Term, updatedAt: int)
    requires o.current && updatedAt > o.updatedAt
    ensures MayBecome(o, o.(current := false, updatedAt := updatedAt))
  {
  }

  /** What an accepted update says for itself: each change of a flag comes with the keys that account for it. */
  lemma AcceptedUpdateTells(o: Term, n: Term)
    requires MayBecome(o, n)
    ensures n.basis == o.basis && n.updatedAt > o.updatedAt && o.current
    ensures !n.current ==> n == o.(current := false, updatedAt := n.updatedAt)
    ensures n.verified && !o.verified ==>
              forall k :: k in {KReviewDecision, KReviewedBy, KReviewedAt} ==> k in n.payload && n.payload[k].JString?
    ensures n.resolved && !o.resolved ==>
              && o.verified && n.verified && KCostImpact in n.payload && n.payload[KCostImpact].JObject?
              && forall k :: k in {KCostImpactApprovalId, KCostImpactFinalizedAt} ==> k in n.payload && n.payload[k].JString?
    ensures (o.verified && !n.verified) || (o.resolved && !n.resolved) ==>
              && !n.verified && !n.resolved
              && forall k :: k in {KInvalidatedByRevision, KInvalidatedSetRevision, KInvalidatedAt} ==>
                   k in n.payload && n.payload[k].JString?
    ensures n.current ==>
              && (forall k :: k in o.payload ==> k in n.payload && Contains(n.payload[k], o.payload[k]))
              && ((forall k :: k in {KReviewDecision, KReviewedBy, KReviewedAt} ==> k in n.payload && n.payload[k].JString?)
                  || (o.verified && n.verified && n.resolved && !o.resolved)
                  || (!n.verified && !n.resolved
                      && forall k :: k in {KInvalidatedByRevision, KInvalidatedSetRevision, KInvalidatedAt} ==>
                           k in n.payload && n.payload[k].JString?))
  {
  }
}
