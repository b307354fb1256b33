/** Tables whose rows are guarded one by one: a CHECK, an update trigger and unique indexes. Deletes are refused
    by every guard modelled on this and are no statement here. */
module GuardedTables {
  import opened Options

  datatype UniqueKey = UniqueKey(words: seq<string>, number: int)

  /** Each of `keys` is a unique index that covers the rows it gives a key. */
  datatype Rules<!R> = Rules(
    id: R -> string, check: R -> bool, allows: (R, R) -> bool, keys: seq<R -> Option<UniqueKey>>)

  datatype Statement<R> = Insert(row: R) | Update(target: string, row: R)

  predicate Conflict<R>(rules: Rules<R>, a: R, b: R) {
    exists k :: 0 <= k < |rules.keys| && rules.keys[k](a).Some? && rules.keys[k](a) == rules.keys[k](b)
  }

  function Find<R>(rules: Rules<R>, rows: seq<R>, target: string): (r: Option<nat>)
    ensures r.Some? ==> r.value < |rows| && rules.id(rows[r.value]) == target
    ensures r.None? ==> forall i :: 0 <= i < |rows| ==> rules.id(rows[i]) != target
  {
    if rows == [] then None
    else if rules.id(rows[|rows| - 1]) == target then Some(|rows| - 1)
    else Find(rules, rows[..|rows| - 1], target)
  }

  /** The table after a statement, or nothing when the statement is refused. */
  function Apply<R(==)>(rules: Rules<R>, rows: seq<R>, s: Statement<R>): Option<seq<R>> {
    match s
    case Insert(row) =>
      if rules.check(row) && Find(rules, rows, rules.id(row)).None?
         && forall j :: 0 <= j < |rows| ==> !Conflict(rules, rows[j], row)
      then Some(rows + [row]) else None
    case Update(target, row) =>
      var i := Find(rules, rows, target);
      if i.None? then Some(rows)
      else if rules.allows(rows[i.value], row) && rules.check(row)
              && forall j :: 0 <= j < |rows| && j != i.value ==> !Conflict(rules, rows[j], row)
      then Some(rows[i.value := row]) else None
  }

  function ApplyAll<R(==)>(rules: Rules<R>, rows: seq<R>, statements: seq<Statement<R>>): Option<seq<R>>
    decreases |statements|
  {
    if statements == [] then Some(rows)
    else
      var next := Apply(rules, rows, statements[0]);
      if next.None? then None else ApplyAll(rules, next.value, statements[1..])
  }

  /** One refused statement takes back the whole transaction. */
  function Transact<R(==)>(rules: Rules<R>, rows: seq<R>, statements: seq<Statement<R>>): seq<R> {
    var after := ApplyAll(rules, rows, statements);
    if after.Some? then after.value else rows
  }

  function Run<R(==)>(rules: Rules<R>, rows: seq<R>, transactions: seq<seq<Statement<R>>>): seq<R>
    decreases |transactions|
  {
    if transactions == [] then rows else Run(rules, Transact(rules, rows, transactions[0]), transactions[1..])
  }

  class GuardedTable<R(!new, ==)> {
    const rules: Rules<R>
    var rows: seq<R>

    constructor (rules: Rules<R>)
      ensures this.rules == rules && rows == []
    {
      this.rules := rules;
      rows := [];
    }

    method Commit(statements: seq<Statement<R>>) returns (committed: bool)
      modifies this
      ensures committed == ApplyAll(rules, old(rows), statements).Some?
      ensures rows == Transact(rules, old(rows), statements)
    {
      var before := rows;
      for n := 0 to |statements|
        invariant ApplyAll(rules, before, statements) == ApplyAll(rules, rows, statements[n..])
      {
        var next := Apply(rules, rows, statements[n]);
        if next.None? {
          rows := before;
          return false;
        }
        rows := next.value;
        assert statements[n..][1..] == statements[n + 1..];
      }
      committed := true;
    }
  }

  // ----- what every run keeps -----

  ghost predicate KeepsIds<R(!new)>(rules: Rules<R>) {
    forall a, b :: rules.allows(a, b) ==> rules.id(a) == rules.id(b)
  }

  /** Every row passes its CHECK and no two rows share an id or a unique key. */
  ghost predicate Consistent<R>(rules: Rules<R>, rows: seq<R>) {
    && (forall i :: 0 <= i < |rows| ==> rules.check(rows[i]))
    && (forall i, j :: 0 <= i < j < |rows| ==> rules.id(rows[i]) != rules.id(rows[j]))
    && (forall i, j :: 0 <= i < |rows| && 0 <= j < |rows| && i != j ==> !Conflict(rules, rows[i], rows[j]))
  }

  lemma ConflictSymmetric<R(!new)>(rules: Rules<R>, a: R, b: R)
    ensures Conflict(rules, a, b) <==> Conflict(rules, b, a)
  {
  }

  lemma StepConsistent<R(!new)>(rules: Rules<R>, rows: seq<R>, s: Statement<R>)
    requires KeepsIds(rules) && Consistent(rules, rows)
    ensures var next := Apply(rules, rows, s);
            next.Some? ==> Consistent(rules, next.value)
  {
    var next := Apply(rules, rows, s);
    if next.Some? {
      hide Conflict;
      forall i, j | 0 <= i < |next.value| && 0 <= j < |next.value| && i != j
        ensures !Conflict(rules, next.value[i], next.value[j])
      {
        ConflictSymmetric(rules, next.value[i], next.value[j]);
      }
    }
  }

  lemma {:induction false} StatementsConsistent<R(!new)>(rules: Rules<R>, rows: seq<R>, statements: seq<Statement<R>>)
    requires KeepsIds(rules) && Consistent(rules, rows)
    ensures Consistent(rules, Transact(rules, rows, statements))
    decreases |statements|
  {
    if statements != [] {
      StepConsistent(rules, rows, statements[0]);
      var next := Apply(rules, rows, statements[0]);
      hide Consistent, KeepsIds, Apply;
      if next.Some? { StatementsConsistent(rules, next.value, statements[1..]); }
    }
  }

  lemma {:induction false} RunConsistent<R(!new)>(rules: Rules<R>, rows: seq<R>, transactions: seq<seq<Statement<R>>>)
    requires KeepsIds(rules) && Consistent(rules, rows)
    ensures Consistent(rules, Run(rules, rows, transactions))
    decreases |transactions|
  {
    hide Consistent, KeepsIds;
    if transactions != [] {
      StatementsConsistent(rules, rows, transactions[0]);
      RunConsistent(rules, Transact(rules, rows, transactions[0]), transactions[1..]);
    }
  }

  /** A relation between an earlier and a later row that holds of an unchanged row, holds across an allowed
      update, and composes. */
  ghost predicate IsHistoryRelation<R(!new)>(rules: Rules<R>, related: (R, R) -> bool) {
    && (forall a :: related(a, a))
    && (forall a, b :: rules.check(a) && rules.check(b) && rules.allows(a, b) ==> related(a, b))
    && (forall a, b, c :: related(a, b) && related(b, c) ==> related(a, c))
  }

  ghost predicate RowsRelate<R>(before: seq<R>, after: seq<R>, related: (R, R) -> bool) {
    |before| <= |after| && forall i :: 0 <= i < |before| ==> related(before[i], after[i])
  }

  lemma RelateTwice<R(!new)>(rules: Rules<R>, a: seq<R>, b: seq<R>, c: seq<R>, related: (R, R) -> bool)
    requires IsHistoryRelation(rules, related) && RowsRelate(a, b, related) && RowsRelate(b, c, related)
    ensures RowsRelate(a, c, related)
  {
  }

  lemma {:induction false} StatementsRelate<R(!new)>(
    rules: Rules<R>, rows: seq<R>, statements: seq<Statement<R>>, related: (R, R) -> bool)
    requires KeepsIds(rules) && Consistent(rules, rows) && IsHistoryRelation(rules, related)
    ensures RowsRelate(rows, Transact(rules, rows, statements), related)
    decreases |statements|
  {
    if statements != [] {
      var next := Apply(rules, rows, statements[0]);
      if next.Some? {
        StepConsistent(rules, rows, statements[0]);
        assert RowsRelate(rows, next.value, related);
        hide Consistent, Apply, KeepsIds, RowsRelate, IsHistoryRelation;
        StatementsRelate(rules, next.value, statements[1..], related);
        if ApplyAll(rules, next.value, statements[1..]).Some? {
          RelateTwice(rules, rows, next.value, Transact(rules, rows, statements), related);
        } else {
          assert Transact(rules, rows, statements) == rows;
          UnchangedRelates(rules, rows, related);
        }
      }
    }
  }

  lemma UnchangedRelates<R(!new)>(rules: Rules<R>, rows: seq<R>, related: (R, R) -> bool)
    requires IsHistoryRelation(rules, related)
    ensures RowsRelate(rows, rows, related)
  {
  }

  /** Over any run every row keeps its place and stays related to what it was. */
  lemma {:induction false} RunRelates<R(!new)>(
    rules: Rules<R>, rows: seq<R>, transactions: seq<seq<Statement<R>>>, related: (R, R) -> bool)
    requires KeepsIds(rules) && Consistent(rules, rows) && IsHistoryRelation(rules, related)
    ensures RowsRelate(rows, Run(rules, rows, transactions), related)
    decreases |transactions|
  {
    UnchangedRelates(rules, rows, related);
    hide Consistent, KeepsIds, RowsRelate, IsHistoryRelation;
    if transactions != [] {
      var next := Transact(rules, rows, transactions[0]);
      StatementsConsistent(rules, rows, transactions[0]);
      StatementsRelate(rules, rows, transactions[0], related);
      RunRelates(rules, next, transactions[1..], related);
      RelateTwice(rules, rows, next, Run(rules, next, transactions[1..]), related);
    }
  }

  /** A condition on rows that allowed updates keep. */
  ghost predicate IsRowInvariant<R(!new)>(rules: Rules<R>, holds: R -> bool) {
    forall a, b :: holds(a) && rules.check(a) && rules.check(b) && rules.allows(a, b) ==> holds(b)
  }

  ghost predicate EveryRow<R>(rows: seq<R>, holds: R -> bool) {
    forall i :: 0 <= i < |rows| ==> holds(rows[i])
  }

  ghost predicate EveryInsert<R>(statements: seq<Statement<R>>, holds: R -> bool) {
    forall i :: 0 <= i < |statements| && statements[i].Insert? ==> holds(statements[i].row)
  }

  lemma StepKeeps<R(!new)>(rules: Rules<R>, rows: seq<R>, s: Statement<R>, holds: R -> bool)
    requires Consistent(rules, rows) && IsRowInvariant(rules, holds) && EveryRow(rows, holds)
    requires s.Insert? ==> holds(s.row)
    ensures var next := Apply(rules, rows, s);
            next.Some? ==> EveryRow(next.value, holds)
  {
    hide Conflict;
  }

  lemma {:induction false} StatementsKeep<R(!new)>(
    rules: Rules<R>, rows: seq<R>, statements: seq<Statement<R>>, holds: R -> bool)
    requires KeepsIds(rules) && Consistent(rules, rows) && IsRowInvariant(rules, holds) && EveryRow(rows, holds)
    requires EveryInsert(statements, holds)
    ensures EveryRow(Transact(rules, rows, statements), holds)
    decreases |statements|
  {
    if statements != [] {
      var next := Apply(rules, rows, statements[0]);
      StepConsistent(rules, rows, statements[0]);
      StepKeeps(rules, rows, statements[0], holds);
      hide Consistent, Apply, KeepsIds, EveryRow, IsRowInvariant;
      if next.Some? {
        StatementsKeep(rules, next.value, statements[1..], holds);
      }
    }
  }

  /** What all rows meet and every insert brings is met after any run. */
  lemma {:induction false} RunKeeps<R(!new)>(
    rules: Rules<R>, rows: seq<R>, transactions: seq<seq<Statement<R>>>, holds: R -> bool)
    requires KeepsIds(rules) && Consistent(rules, rows) && IsRowInvariant(rules, holds) && EveryRow(rows, holds)
    requires forall i :: 0 <= i < |transactions| ==> EveryInsert(transactions[i], holds)
    ensures EveryRow(Run(rules, rows, transactions), holds)
    decreases |transactions|
  {
    hide Consistent, KeepsIds, EveryRow, IsRowInvariant, EveryInsert;
    if transactions != [] {
      StatementsConsistent(rules, rows, transactions[0]);
      StatementsKeep(rules, rows, transactions[0], holds);
      RunKeeps(rules, Transact(rules, rows, transactions[0]), transactions[1..], holds);
    }
  }
}
