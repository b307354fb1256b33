/** Commercial cost models: at most one current model for each target, and how one replaces another. */
module CostModels {
  import opened Options
  import opened Json
  import opened GuardedTables

  datatype Status = BLOCKED | REVIEW_REQUIRED | VALIDATED | Unknown(name: string)

  datatype Basis = Basis(
    id: string, projectId: string, kind: string, targetLine: string, targetKey: string, category: string,
    policyVersionId: string, documentSetRevisionId: string, currency: string, total: real, independentTotal: real,
    inputHash: string, outputHash: string, payload: string, approvalTaskIds: string,
    supersedes: Nullable<string>, createdBy: string, createdAt: int)

  datatype Finalization = Finalization(
    approvalRecordIds: Nullable<string>, finalizedBy: Nullable<string>, finalizedAt: Nullable<int>)

  datatype Model = Model(basis: Basis, status: Status, current: bool, finalization: Finalization)

  predicate Finalized(f: Finalization) {
    f.approvalRecordIds.Val? && f.finalizedBy.Val? && f.finalizedAt.Val?
  }

  predicate NotFinalized(f: Finalization) {
    f.approvalRecordIds.Null? && f.finalizedBy.Null? && f.finalizedAt.Null?
  }

  predicate Check(m: Model) {
    && m.basis.kind in {"LOGISTICS", "MOBILISATION", "CONTRACT_FINANCE"}
    && m.status in {BLOCKED, REVIEW_REQUIRED, VALIDATED}
    && m.basis.total >= 0.0 && m.basis.independentTotal >= 0.0
    && ((m.status == VALIDATED && Finalized(m.finalization))
        || (m.status != VALIDATED && NotFinalized(m.finalization) && !m.current))
  }

  predicate Promotes(o: Model, n: Model) {
    && o.status == REVIEW_REQUIRED && n.status == VALIDATED && !o.current && n.current
    && NotFinalized(o.finalization) && Finalized(n.finalization)
  }

  predicate Blocks(o: Model, n: Model) {
    && o.status == REVIEW_REQUIRED && n.status == BLOCKED && !o.current && !n.current
    && NotFinalized(o.finalization) && NotFinalized(n.finalization)
  }

  predicate Retires(o: Model, n: Model) {
    o.status == VALIDATED && n.status == VALIDATED && o.current && !n.current && n.finalization == o.finalization
  }

  predicate MayBecome(o: Model, n: Model) {
    n.basis == o.basis && (Promotes(o, n) || Blocks(o, n) || Retires(o, n))
  }

  /** tenderguard_protect_commercial_cost_model on update; deletes always raise. */
  method ProtectCostModel(o: Model, n: Model) returns (accepted: bool)
    ensures accepted == MayBecome(o, n)
  {
    if o.basis != n.basis {
      return false;
    }
    var was, now := o.finalization, n.finalization;
    if o.status == REVIEW_REQUIRED && n.status == VALIDATED && !o.current && n.current
       && was.approvalRecordIds.Null? && now.approvalRecordIds.Val?
       && was.finalizedBy.Null? && now.finalizedBy.Val? && was.finalizedAt.Null? && now.finalizedAt.Val? {
      return true;
    }
    if o.status == REVIEW_REQUIRED && n.status == BLOCKED && !o.current && !n.current
       && was.approvalRecordIds.Null? && now.approvalRecordIds.Null?
       && was.finalizedBy.Null? && now.finalizedBy.Null? && was.finalizedAt.Null? && now.finalizedAt.Null? {
      return true;
    }
    if o.status == VALIDATED && n.status == VALIDATED && o.current && !n.current
       && was.approvalRecordIds == now.approvalRecordIds && was.finalizedBy == now.finalizedBy
       && was.finalizedAt == now.finalizedAt {
      return true;
    }
    return false;
  }

  function CurrentKey(m: Model): Option<UniqueKey> {
    if m.current then Some(UniqueKey([m.basis.projectId, m.basis.targetLine, m.basis.targetKey], 0)) else None
  }

  predicate SameTarget(a: Model, b: Model) {
    && a.basis.projectId == b.basis.projectId && a.basis.targetLine == b.basis.targetLine
    && a.basis.targetKey == b.basis.targetKey
  }

  const MODELS: Rules<Model> := Rules((m: Model) => m.basis.id, Check, MayBecome, [CurrentKey])

  lemma CurrentConflict(a: Model, b: Model)
    ensures Conflict(MODELS, a, b) <==> a.current && b.current && SameTarget(a, b)
  {
    var keys := MODELS.keys;
    assert |keys| == 1 && keys[0] == CurrentKey;
    assert keys[0](a) == CurrentKey(a) && keys[0](b) == CurrentKey(b);
    var x := [a.basis.projectId, a.basis.targetLine, a.basis.targetKey];
    var y := [b.basis.projectId, b.basis.targetLine, b.basis.targetKey];
    assert x == y ==> x[0] == y[0] && x[1] == y[1] && x[2] == y[2];
  }

  lemma TableConsistent(transactions: seq<seq<Statement<Model>>>)
    ensures Consistent(MODELS, Run(MODELS, [], transactions))
  {
    RunConsistent(MODELS, [], transactions);
  }

  /** In every reachable state a target has at most one current model, and a current model is validated. */
  lemma OneCurrentModel(transactions: seq<seq<Statement<Model>>>, i: nat, j: nat)
    requires i < j < |Run(MODELS, [], transactions)|
    ensures var rows := Run(MODELS, [], transactions);
            && (rows[i].current ==> rows[i].status == VALIDATED && Finalized(rows[i].finalization))
            && (SameTarget(rows[i], rows[j]) ==> !rows[i].current || !rows[j].current)
  {
    TableConsistent(transactions);
    var rows := Run(MODELS, [], transactions);
    CurrentConflict(rows[i], rows[j]);
    assert Check(rows[i]);
    hide Run, Conflict;
  }

  /** Inputs and results never change, a finalization never changes, and a model that is blocked or was
      retired is frozen: it never becomes current again. */
  ghost predicate Continues(o: Model, n: Model) {
    && n.basis == o.basis
    && (o.status == VALIDATED ==> n.status == VALIDATED && n.finalization == o.finalization)
    && (o.status == BLOCKED || (o.status == VALIDATED && !o.current) ==> n == o)
  }

  lemma ModelsContinue(earlier: seq<seq<Statement<Model>>>, later: seq<seq<Statement<Model>>>, i: nat)
    requires i < |Run(MODELS, [], earlier)|
    ensures var before := Run(MODELS, [], earlier);
            var after := Run(MODELS, before, later);
            i < |after| && Continues(before[i], after[i])
  {
    TableConsistent(earlier);
    assert IsHistoryRelation(MODELS, Continues);
    RunRelates(MODELS, Run(MODELS, [], earlier), later, Continues);
  }

  lemma {:induction false} FindAt(rows: seq<Model>, i: nat)
    requires i < |rows| && forall j :: 0 <= j < |rows| && j != i ==> rows[j].basis.id != rows[i].basis.id
    ensures Find(MODELS, rows, rows[i].basis.id) == Some(i)
  {
    var n := |rows| - 1;
    if i < n {
      FindAt(rows[..n], i);
    }
  }

  lemma TwoStatements(rows: seq<Model>, a: Statement<Model>, b: Statement<Model>)
    ensures var first := Apply(MODELS, rows, a);
            ApplyAll(MODELS, rows, [a, b]) == if first.None? then None else Apply(MODELS, first.value, b)
  {
    hide Apply;
    assert [a, b][1..] == [b];
    var first := Apply(MODELS, rows, a);
    if first.Some? {
      var second := Apply(MODELS, first.value, b);
      assert [b][1..] == [];
      assert ApplyAll(MODELS, first.value, [b]) == if second.None? then None else Some(second.value);
    }
  }

  /** A replacement has to retire the current model of its target before it promotes the new one: in the other
      order the transaction is refused, in this order both updates go through. */
  lemma ReplacementRetiresFirst(rows: seq<Model>, i: nat, j: nat, retired: Model, promoted: Model)
    requires Consistent(MODELS, rows) && i < |rows| && j < |rows| && i != j
    requires rows[i].current && Retires(rows[i], retired) && retired.basis == rows[i].basis
    requires Promotes(rows[j], promoted) && promoted.basis == rows[j].basis && SameTarget(rows[i], rows[j])
    ensures var retire, promote := Update(rows[i].basis.id, retired), Update(rows[j].basis.id, promoted);
            && Transact(MODELS, rows, [promote, retire]) == rows
            && Transact(MODELS, rows, [retire, promote]) == rows[i := retired][j := promoted]
  {
    var retire, promote := Update(rows[i].basis.id, retired), Update(rows[j].basis.id, promoted);
    IdsDiffer(rows, i);
    IdsDiffer(rows, j);
    FindAt(rows, i);
    FindAt(rows, j);
    assert Apply(MODELS, rows, promote) == None by {
      CurrentConflict(rows[i], promoted);
    }
    var middle := rows[i := retired];
    assert Apply(MODELS, rows, retire) == Some(middle) by {
      assert Check(rows[i]);
      forall k | 0 <= k < |rows| ensures !Conflict(MODELS, rows[k], retired) { CurrentConflict(rows[k], retired); }
    }
    FindAt(middle, j);
    assert Apply(MODELS, middle, promote) == Some(middle[j := promoted]) by {
      assert Check(rows[j]);
      forall k | 0 <= k < |rows| && k != j ensures !Conflict(MODELS, middle[k], promoted) {
        CurrentConflict(middle[k], promoted);
        CurrentConflict(rows[i], rows[k]);
      }
    }
    hide Apply, Consistent;
    TwoStatements(rows, retire, promote);
    TwoStatements(rows, promote, retire);
  }

  lemma IdsDiffer(rows: seq<Model>, i: nat)
    requires Consistent(MODELS, rows) && i < |rows|
    ensures forall j :: 0 <= j < |rows| && j != i ==> rows[j].basis.id != rows[i].basis.id
  {
    forall j | 0 <= j < |rows| && j != i ensures rows[j].basis.id != rows[i].basis.id {
      assert MODELS.id(rows[if i < j then i else j]) != MODELS.id(rows[if i < j then j else i]);
    }
  }

  // ----- the updates as edits -----

  function Promoted(o: Model, records: string, actor: string, at: int): Model {
    o.(status := VALIDATED, current := true, finalization := Finalization(Val(records), Val(actor), Val(at)))
  }

  /** A model takes these edits and no other: a model in review is promoted with its three finalization columns or
      blocked, and a current one is retired. */
  lemma AcceptedEdits(o: Model, n: Model)
    requires Check(o)
    ensures MayBecome(o, n) && Check(n) <==>
              || (o.status == REVIEW_REQUIRED && n == o.(status := BLOCKED))
              || (o.status == REVIEW_REQUIRED
                  && exists records, actor, at :: n == Promoted(o, records, actor, at))
              || (o.status == VALIDATED && o.current && n == o.(current := false))
  {
    if MayBecome(o, n) && Check(n) && n.status == VALIDATED && o.status == REVIEW_REQUIRED {
      var f := n.finalization;
      assert n == Promoted(o, f.approvalRecordIds.v, f.finalizedBy.v, f.finalizedAt.v);
    }
  }

  /** The CHECKs, by the words of the columns. */
  lemma CheckedModel(m: Model)
    ensures Check(m) <==>
              && m.basis.kind in {"LOGISTICS", "MOBILISATION", "CONTRACT_FINANCE"}
              && m.basis.total >= 0.0 && m.basis.independentTotal >= 0.0
              && var f := m.finalization;
                 match m.status
                 case VALIDATED => f.approvalRecordIds != Null && f.finalizedBy != Null && f.finalizedAt != Null
                 case BLOCKED => f == Finalization(Null, Null, Null) && !m.current
                 case REVIEW_REQUIRED => f == Finalization(Null, Null, Null) && !m.current
                 case Unknown(_) => false
  {
  }
}
