/** The quantity-change form: its draft of the current submission, and the validation of a draft. */
module QuantityChange {
  import opened Orders
  import opened Options
  import opened Decimals
  import opened CanonicalForm
  import opened IdentifierLists

  type Entries = seq<(string, string)>

  datatype Operation = SUM | PRODUCT | RECTANGULAR_VOLUME | CYLINDER_VOLUME

  datatype Formula = Formula(
    id: string, version: string, operation: Operation, inputs: Entries, outputUnit: string, display: string)

  datatype Quantity = Quantity(
    value: string, unit: string, sources: seq<string>, priority: int, scale: int, wasteFactor: string,
    alternatives: seq<string>, manualChange: Option<string>)

  datatype Submission = Submission(quantity: Quantity, formula: Option<Formula>, evidence: Entries)

  datatype Context = Context(unit: string, rulesVersion: Option<string>, current: Submission)

  /** A text of the form that should be JSON: what JSON.parse makes of it, if anything, and whether it is `{}` but
      for white space around it. */
  datatype JsonText = JsonText(parsed: Option<JsValue>, emptyBraces: bool)

  /** What JSON.stringify prints of a value. */
  function Printed(v: JsValue): JsonText {
    JsonText(Some(v), v == Obj([]))
  }

  datatype Draft = Draft(
    value: string, sources: string, priority: string, scale: string, wasteFactor: string, alternatives: string,
    formulaEnabled: bool, formulaId: string, operation: Operation, display: string, inputs: JsonText,
    evidence: JsonText, reason: string, projectCode: string, acknowledged: bool)

  datatype RecordProblem = NotJson | NotAnObject | BadEntries

  /** The two records of a formula. */
  datatype FormulaPart = Inputs | Evidence

  datatype Problem =
    | BadValue | BadWasteFactor | BadPriority | BadScale | PriorityOutOfRange | ScaleOutOfRange
    | NoSources | DuplicateSources | DuplicateAlternatives
    | NoFormulaRules | NoFormulaName | BadRecord(part: FormulaPart, why: RecordProblem)
    | InputNotDecimal | InputsWithoutEvidence | EvidenceOutsideSources | InputMissing | EvidenceWithoutFormula
    | Identical | NoReason | ReasonTooLong | WrongProjectCode | NotAcknowledged

  datatype Checked<+T> = Pass(value: T) | Fail(problem: Problem) {
    predicate IsFailure() {
      Fail?
    }

    function PropagateFailure<U>(): Checked<U>
      requires Fail?
    {
      Fail(problem)
    }

    function Extract(): T
      requires Pass?
    {
      value
    }
  }


  // ----- reading the fields -----

  /** `^-?(?:0|[1-9]\d*)(?:\.\d+)?$` */
  predicate IsDecimal(s: string) {
    && s != "" && s[0] != '+' && Match(s).Ok?
    && var whole := Match(s).value.whole;
       |whole| == 1 || (whole != "" && whole[0] != '0')
  }

  predicate StartsWithMinus(s: string) {
    s != "" && s[0] == '-'
  }

  predicate IsDigits(s: string) {
    s != "" && AllDigits(s)
  }

  function ReadNumbers(draft: Draft): Checked<(int, int)> {
    if !IsDigits(Trim(draft.priority)) then Fail(BadPriority)
    else if !IsDigits(Trim(draft.scale)) then Fail(BadScale)
    else
      var priority, scale := DigitsValue(Trim(draft.priority)), DigitsValue(Trim(draft.scale));
      if priority > MAX_SAFE_INTEGER then Fail(PriorityOutOfRange)
      else if scale > 12 then Fail(ScaleOutOfRange)
      else Pass((priority, scale))
  }

  function ReadLists(draft: Draft): Checked<(seq<string>, seq<string>)> {
    var sources := IdentifierList(draft.sources);
    var alternatives := IdentifierList(draft.alternatives);
    if sources == [] then Fail(NoSources)
    else if !Distinct(sources) then Fail(DuplicateSources)
    else if !Distinct(alternatives) then Fail(DuplicateAlternatives)
    else Pass((sources, alternatives))
  }

  predicate IsStringEntry(entry: (string, JsValue)) {
    Trim(entry.0) != "" && entry.1.Str? && Trim(entry.1.s) != ""
  }

  /** stringRecord: keys and values trimmed, keys in order. */
  function StringRecord(text: JsonText, less: (string, string) -> bool, part: FormulaPart): Checked<Entries> {
    if text.parsed.None? then Fail(BadRecord(part, NotJson))
    else if !text.parsed.value.Obj? then Fail(BadRecord(part, NotAnObject))
    else if text.parsed.value.entries == [] || exists i :: 0 <= i < |text.parsed.value.entries| && !IsStringEntry(text.parsed.value.entries[i])
    then Fail(BadRecord(part, BadEntries))
    else Pass(SortedObject(TrimmedEntries(text.parsed.value.entries), less))
  }

  function TrimmedEntries(entries: seq<(string, JsValue)>): Entries
    requires forall i :: 0 <= i < |entries| ==> IsStringEntry(entries[i])
  {
    seq(|entries|, i requires 0 <= i < |entries| =>
      (assert IsStringEntry(entries[i]); (Trim(entries[i].0), Trim(entries[i].1.s))))
  }

  function RequiredKeys(operation: Operation): set<string> {
    match operation
    case RECTANGULAR_VOLUME => {"length", "width", "height"}
    case CYLINDER_VOLUME => {"diameter", "length", "pi"}
    case _ => {}
  }

  function ReadFormula(draft: Draft, context: Context, sources: seq<string>, less: (string, string) -> bool)
    : Checked<(Option<Formula>, Entries)>
  {
    if draft.formulaEnabled then
      if context.rulesVersion.None? then Fail(NoFormulaRules)
      else if Trim(draft.formulaId) == "" || Trim(draft.display) == "" then Fail(NoFormulaName)
      else
        var inputs :- StringRecord(draft.inputs, less, Inputs);
        var evidence :- StringRecord(draft.evidence, less, Evidence);
        if exists i :: 0 <= i < |inputs| && !IsDecimal(inputs[i].1) then Fail(InputNotDecimal)
        else if Keys(inputs) != Keys(evidence) then Fail(InputsWithoutEvidence)
        else if exists i :: 0 <= i < |evidence| && evidence[i].1 !in sources then Fail(EvidenceOutsideSources)
        else if !(RequiredKeys(draft.operation) <= Keys(inputs)) then Fail(InputMissing)
        else
          Pass((Some(Formula(Trim(draft.formulaId), context.rulesVersion.value, draft.operation, inputs, context.unit,
                             Trim(draft.display))),
                evidence))
    else if !draft.evidence.emptyBraces then Fail(EvidenceWithoutFormula)
    else Pass((None, []))
  }

  /** The submission a draft stands for. */
  function Read(draft: Draft, context: Context, less: (string, string) -> bool): Checked<Submission> {
    var value, wasteFactor := Trim(draft.value), Trim(draft.wasteFactor);
    if !IsDecimal(value) then Fail(BadValue)
    else if !IsDecimal(wasteFactor) || StartsWithMinus(wasteFactor) then Fail(BadWasteFactor)
    else
      var (priority, scale) :- ReadNumbers(draft);
      var (sources, alternatives) :- ReadLists(draft);
      var (formula, evidence) :- ReadFormula(draft, context, sources, less);
      Pass(Submission(
             Quantity(value, context.unit, sources, priority, scale, wasteFactor, alternatives, None),
             formula, evidence))
  }

  // ----- comparing submissions -----

  function PrintInt(n: int): string {
    if n < 0 then "-" + PrintNat(-n) else PrintNat(n)
  }

  function StringsValue(xs: seq<string>): JsValue {
    Arr(seq(|xs|, i requires 0 <= i < |xs| => Str(xs[i])))
  }

  function RecordEntries(entries: Entries): seq<(string, JsValue)> {
    seq(|entries|, i requires 0 <= i < |entries| => (entries[i].0, Str(entries[i].1)))
  }

  function RecordValue(entries: Entries): JsValue {
    Obj(RecordEntries(entries))
  }

  function OperationName(operation: Operation): string {
    match operation
    case SUM => "SUM"
    case PRODUCT => "PRODUCT"
    case RECTANGULAR_VOLUME => "RECTANGULAR_VOLUME"
    case CYLINDER_VOLUME => "CYLINDER_VOLUME"
  }

  function QuantityValue(q: Quantity): JsValue {
    Obj([("value", Str(q.value)), ("unit", Str(q.unit)), ("source_observation_ids", StringsValue(q.sources)),
         ("source_priority", Number(PrintInt(q.priority))), ("rounding_scale", Number(PrintInt(q.scale))),
         ("waste_factor", Str(q.wasteFactor)), ("alternative_quantity_ids", StringsValue(q.alternatives)),
         ("manual_change_id", if q.manualChange.None? then Null else Str(q.manualChange.value))])
  }

  function FormulaValue(f: Formula): JsValue {
    Obj([("formula_id", Str(f.id)), ("formula_version", Str(f.version)), ("operation", Str(OperationName(f.operation))),
         ("inputs", RecordValue(f.inputs)), ("output_unit", Str(f.outputUnit)), ("display_formula", Str(f.display))])
  }

  function OptionalFormula(f: Option<Formula>): JsValue {
    if f.None? then Null else FormulaValue(f.value)
  }

  function SubmissionValue(s: Submission): JsValue {
    Obj([("draft", QuantityValue(s.quantity)),
         ("formula", OptionalFormula(s.formula)),
         ("formula_input_observation_ids", RecordValue(s.evidence))])
  }

  /** Equal in every field, records compared by their properties whatever their order. */
  ghost predicate Agree(a: Submission, b: Submission) {
    a.quantity == b.quantity && FormulasAgree(a.formula, b.formula) && ToSet(a.evidence) == ToSet(b.evidence)
  }

  ghost predicate FormulasAgree(a: Option<Formula>, b: Option<Formula>) {
    if a.Some? && b.Some?
    then a.value.(inputs := []) == b.value.(inputs := []) && ToSet(a.value.inputs) == ToSet(b.value.inputs)
    else a.None? && b.None?
  }

  ghost predicate HasRecords(s: Submission) {
    UniqueKeys(s.evidence) && (s.formula.Some? ==> UniqueKeys(s.formula.value.inputs))
  }

  // ----- validation -----

  function Validation(draft: Draft, context: Context, projectCode: string, less: (string, string) -> bool)
    : Checked<Submission>
  {
    var submission :- Read(draft, context, less);
    if SameSubmission(SubmissionValue(submission), SubmissionValue(context.current), less) then Fail(Identical)
    else if Trim(draft.reason) == "" then Fail(NoReason)
    else if |draft.reason| > 2000 then Fail(ReasonTooLong)
    else if Trim(draft.projectCode) != projectCode then Fail(WrongProjectCode)
    else if !draft.acknowledged then Fail(NotAcknowledged)
    else Pass(submission)
  }

  /** The form filled in from the current submission. */
  function DraftFrom(context: Context): Draft {
    var current := context.current;
    var q := current.quantity;
    var formula := current.formula;
    Draft(q.value, Join(q.sources), PrintInt(q.priority), PrintInt(q.scale), q.wasteFactor, Join(q.alternatives),
          formula.Some?,
          if formula.Some? then formula.value.id else "",
          if formula.Some? then formula.value.operation else PRODUCT,
          if formula.Some? then formula.value.display else "",
          Printed(if formula.Some? then RecordValue(formula.value.inputs) else Obj([])),
          Printed(RecordValue(current.evidence)), "", "", false)
  }

  /** validateQuantityChangeDraft as written, one check after the other, the formula and its evidence filled in
      by the branch that reads them. */
  method ValidateQuantityChangeDraft(
    draft: Draft, context: Context, projectCode: string, less: (string, string) -> bool)
    returns (outcome: Checked<Submission>)
    ensures outcome == Validation(draft, context, projectCode, less)
  {
    hide IsDecimal, IdentifierList, StringRecord, SameSubmission, SubmissionValue, Keys, RequiredKeys, Trim, AllDigits, Distinct;
    var value, wasteFactor := Trim(draft.value), Trim(draft.wasteFactor);
    if !IsDecimal(value) {
      return Fail(BadValue);
    }
    if !IsDecimal(wasteFactor) || StartsWithMinus(wasteFactor) {
      return Fail(BadWasteFactor);
    }
    if !IsDigits(Trim(draft.priority)) {
      return Fail(BadPriority);
    }
    if !IsDigits(Trim(draft.scale)) {
      return Fail(BadScale);
    }
    var priority, scale := DigitsValue(Trim(draft.priority)), DigitsValue(Trim(draft.scale));
    if priority > MAX_SAFE_INTEGER {
      return Fail(PriorityOutOfRange);
    }
    if scale > 12 {
      return Fail(ScaleOutOfRange);
    }
    var sources := IdentifierList(draft.sources);
    if sources == [] {
      return Fail(NoSources);
    }
    if !Distinct(sources) {
      return Fail(DuplicateSources);
    }
    var alternatives := IdentifierList(draft.alternatives);
    if !Distinct(alternatives) {
      return Fail(DuplicateAlternatives);
    }
    var formula: Option<Formula> := None;
    var formulaEvidence: Entries := [];
    if draft.formulaEnabled {
      if context.rulesVersion.None? {
        return Fail(NoFormulaRules);
      }
      if Trim(draft.formulaId) == "" || Trim(draft.display) == "" {
        return Fail(NoFormulaName);
      }
      var inputs := StringRecord(draft.inputs, less, Inputs);
      if inputs.Fail? {
        return Fail(inputs.problem);
      }
      var evidence := StringRecord(draft.evidence, less, Evidence);
      if evidence.Fail? {
        return Fail(evidence.problem);
      }
      formulaEvidence := evidence.value;
      if exists i :: 0 <= i < |inputs.value| && !IsDecimal(inputs.value[i].1) {
        return Fail(InputNotDecimal);
      }
      if Keys(inputs.value) != Keys(formulaEvidence) {
        return Fail(InputsWithoutEvidence);
      }
      if exists i :: 0 <= i < |formulaEvidence| && formulaEvidence[i].1 !in sources {
        return Fail(EvidenceOutsideSources);
      }
      if !(RequiredKeys(draft.operation) <= Keys(inputs.value)) {
        return Fail(InputMissing);
      }
      formula := Some(Formula(Trim(draft.formulaId), context.rulesVersion.value, draft.operation, inputs.value,
                              context.unit, Trim(draft.display)));
    } else if !draft.evidence.emptyBraces {
      return Fail(EvidenceWithoutFormula);
    }
    var submission := Submission(
      Quantity(value, context.unit, sources, priority, scale, wasteFactor, alternatives, None), formula, formulaEvidence);
    assert ReadFormula(draft, context, sources, less) == Pass((formula, formulaEvidence));
    assert Read(draft, context, less) == Pass(submission);
    hide Read, ReadFormula, ReadLists, ReadNumbers;
    if SameSubmission(SubmissionValue(submission), SubmissionValue(context.current), less) {
      return Fail(Identical);
    }
    if Trim(draft.reason) == "" {
      return Fail(NoReason);
    }
    if |draft.reason| > 2000 {
      return Fail(ReasonTooLong);
    }
    if Trim(draft.projectCode) != projectCode {
      return Fail(WrongProjectCode);
    }
    if !draft.acknowledged {
      return Fail(NotAcknowledged);
    }
    return Pass(submission);
  }

  // ----- comparison -----

  /** Objects with the same keys in the same places are the same when their values are. */
  lemma SameFields(a: seq<(string, JsValue)>, b: seq<(string, JsValue)>)
    requires UniqueKeys(a) && |a| == |b| && forall i :: 0 <= i < |a| ==> a[i].0 == b[i].0
    ensures Same(Obj(a), Obj(b)) <==> forall i :: 0 <= i < |a| ==> Same(a[i].1, b[i].1)
  {
    forall k ensures k in Keys(a) <==> k in Keys(b) {
      if k in Keys(a) {
        var i :| 0 <= i < |a| && a[i].0 == k;
        assert b[i].0 == k;
      }
      if k in Keys(b) {
        var i :| 0 <= i < |b| && b[i].0 == k;
        assert a[i].0 == k;
      }
    }
    forall i, j | 0 <= i < |a| && 0 <= j < |b| && a[i].0 == b[j].0 ensures i == j {
      assert a[j].0 == b[j].0;
    }
  }

  lemma SameStrings(a: seq<string>, b: seq<string>)
    ensures Keyed(StringsValue(a)) && (Same(StringsValue(a), StringsValue(b)) <==> a == b)
  {
    var x, y := StringsValue(a).items, StringsValue(b).items;
    if Same(StringsValue(a), StringsValue(b)) {
      forall i | 0 <= i < |a| ensures a[i] == b[i] {
        assert Same(x[i], y[i]);
      }
    }
  }

  lemma SameRecords(a: Entries, b: Entries)
    requires UniqueKeys(a) && UniqueKeys(b)
    ensures Keyed(RecordValue(a)) && (Same(RecordValue(a), RecordValue(b)) <==> ToSet(a) == ToSet(b))
  {
    var x, y := RecordEntries(a), RecordEntries(b);
    if Same(Obj(x), Obj(y)) {
      RecordIncluded(a, b);
      RecordIncluded(b, a) by {
        forall i, j | 0 <= i < |b| && 0 <= j < |a| && b[i].0 == a[j].0 ensures b[i].1 == a[j].1 {
          assert x[j].0 == y[i].0;
        }
      }
    }
    if ToSet(a) == ToSet(b) {
      forall k ensures k in Keys(x) <==> k in Keys(y) {
        RecordKeys(a, b, k);
        RecordKeys(b, a, k);
      }
      forall i, j | 0 <= i < |x| && 0 <= j < |y| && x[i].0 == y[j].0 ensures Same(x[i].1, y[j].1) {
        assert a[i] in ToSet(b);
        var n :| 0 <= n < |b| && b[n] == a[i];
        assert b[n].0 == b[j].0;
      }
    }
  }

  lemma RecordKeys(a: Entries, b: Entries, k: string)
    requires ToSet(a) == ToSet(b)
    ensures k in Keys(RecordEntries(a)) ==> k in Keys(RecordEntries(b))
  {
    var x, y := RecordEntries(a), RecordEntries(b);
    if k in Keys(x) {
      var i :| 0 <= i < |x| && x[i].0 == k;
      assert a[i] in ToSet(b);
      var j :| 0 <= j < |b| && b[j] == a[i];
      assert y[j].0 == k;
    }
  }

  lemma RecordIncluded(a: Entries, b: Entries)
    requires Keys(RecordEntries(a)) == Keys(RecordEntries(b))
    requires forall i, j :: 0 <= i < |a| && 0 <= j < |b| && a[i].0 == b[j].0 ==>
               Same(RecordEntries(a)[i].1, RecordEntries(b)[j].1)
    ensures ToSet(a) <= ToSet(b)
  {
    var x, y := RecordEntries(a), RecordEntries(b);
    forall i | 0 <= i < |a| ensures a[i] in b {
      KeyAt(x, i);
      var j :| 0 <= j < |y| && y[j].0 == x[i].0;
      assert Same(x[i].1, y[j].1);
      assert a[i] == b[j];
    }
  }

  lemma PrintIntInjective(a: int, b: int)
    ensures PrintInt(a) == PrintInt(b) <==> a == b
  {
    PrintNatValue(if a < 0 then -a else a);
    PrintNatValue(if b < 0 then -b else b);
    assert PrintInt(a)[0] == '-' <==> a < 0;
    assert PrintInt(b)[0] == '-' <==> b < 0;
    if a < 0 && b < 0 && PrintInt(a) == PrintInt(b) {
      assert PrintInt(a)[1..] == PrintNat(-a) && PrintInt(b)[1..] == PrintNat(-b);
    }
  }

  lemma SameLeaf(a: JsValue, b: JsValue)
    requires !a.Obj? && !a.Arr?
    ensures Keyed(a) && (Same(a, b) <==> a == b)
  {
  }

  /** Keyed and Same of an object with fixed keys, from its fields. */
  lemma KeyedFields(a: seq<(string, JsValue)>)
    requires UniqueKeys(a) && forall i :: 0 <= i < |a| ==> Keyed(a[i].1)
    ensures Keyed(Obj(a))
  {
  }

  lemma KeyedQuantity(q: Quantity)
    ensures Keyed(QuantityValue(q))
  {
    SameStrings(q.sources, q.sources);
    SameStrings(q.alternatives, q.alternatives);
    QuantityKeys(q);
    hide PrintInt, StringsValue, Same, Keyed, UniqueKeys;
    var x := QuantityValue(q).entries;
    forall i | i in {0, 1, 3, 4, 5, 7} ensures Keyed(x[i].1) {
      SameLeaf(x[i].1, x[i].1);
    }
    KeyedFields(x);
  }

  lemma SameQuantityFields(a: Quantity, b: Quantity)
    ensures var x, y := QuantityValue(a).entries, QuantityValue(b).entries;
            Same(QuantityValue(a), QuantityValue(b)) <==> forall i :: 0 <= i < 8 ==> Same(x[i].1, y[i].1)
  {
    QuantityKeys(a);
    hide PrintInt, StringsValue, Same, UniqueKeys;
    SameFields(QuantityValue(a).entries, QuantityValue(b).entries);
  }

  lemma SameQuantity(a: Quantity, b: Quantity)
    ensures Same(QuantityValue(a), QuantityValue(b)) <==> a == b
  {
    SameStrings(a.sources, b.sources);
    SameStrings(a.alternatives, b.alternatives);
    PrintIntInjective(a.priority, b.priority);
    PrintIntInjective(a.scale, b.scale);
    hide PrintInt, StringsValue, Same, Keyed;
    SameQuantityFields(a, b);
    var x, y := QuantityValue(a).entries, QuantityValue(b).entries;
    forall i | i in {0, 1, 3, 4, 5, 7} ensures Same(x[i].1, y[i].1) <==> x[i].1 == y[i].1 {
      SameLeaf(x[i].1, y[i].1);
    }
    assert Same(QuantityValue(a), QuantityValue(b)) <==>
           && Same(x[0].1, y[0].1) && Same(x[1].1, y[1].1) && Same(x[2].1, y[2].1) && Same(x[3].1, y[3].1)
           && Same(x[4].1, y[4].1) && Same(x[5].1, y[5].1) && Same(x[6].1, y[6].1) && Same(x[7].1, y[7].1);
  }

  lemma QuantityKeys(q: Quantity)
    ensures UniqueKeys(QuantityValue(q).entries)
  {
    hide PrintInt, StringsValue;
    var keys := seq(8, i requires 0 <= i < 8 => QuantityValue(q).entries[i].0);
    assert |keys[0]| == 5 && |keys[1]| == 4 && |keys[2]| == 22 && |keys[3]| == 15 && |keys[4]| == 14 && |keys[5]| == 12;
    assert |keys[6]| == 24 && |keys[7]| == 16;
  }

  lemma SameFormula(a: Formula, b: Formula)
    requires UniqueKeys(a.inputs) && UniqueKeys(b.inputs)
    ensures Keyed(FormulaValue(a))
    ensures Same(FormulaValue(a), FormulaValue(b))
       <==> a.(inputs := []) == b.(inputs := []) && ToSet(a.inputs) == ToSet(b.inputs)
  {
    SameRecords(a.inputs, b.inputs);
    FormulaKeys(a);
    OperationNames(a.operation, b.operation);
    hide RecordValue, Same, Keyed, UniqueKeys, OperationName;
    var x, y := FormulaValue(a).entries, FormulaValue(b).entries;
    forall i | i in {0, 1, 2, 4, 5} ensures Keyed(x[i].1) && (Same(x[i].1, y[i].1) <==> x[i].1 == y[i].1) {
      SameLeaf(x[i].1, y[i].1);
    }
    KeyedFields(x);
    SameFields(x, y);
    assert |x| == 6;
    assert Same(Obj(x), Obj(y)) <==> && Same(x[0].1, y[0].1) && Same(x[1].1, y[1].1) && Same(x[2].1, y[2].1)
                                     && Same(x[3].1, y[3].1) && Same(x[4].1, y[4].1) && Same(x[5].1, y[5].1);
  }

  lemma OperationNames(a: Operation, b: Operation)
    ensures OperationName(a) == OperationName(b) <==> a == b
  {
    assert |OperationName(a)| == |OperationName(b)| <==> a == b;
  }

  lemma FormulaKeys(f: Formula)
    ensures UniqueKeys(FormulaValue(f).entries)
  {
    hide RecordValue;
    var keys := seq(6, i requires 0 <= i < 6 => FormulaValue(f).entries[i].0);
    assert |keys[0]| == 10 && |keys[1]| == 15 && |keys[2]| == 9 && |keys[3]| == 6 && |keys[4]| == 11 && |keys[5]| == 15;
    assert keys[1][0] == 'f' && keys[5][0] == 'd';
  }

  lemma SubmissionKeys(s: Submission)
    ensures UniqueKeys(SubmissionValue(s).entries)
  {
    hide RecordValue, FormulaValue, QuantityValue;
    var keys := seq(3, i requires 0 <= i < 3 => SubmissionValue(s).entries[i].0);
    assert |keys[0]| == 5 && |keys[1]| == 7 && |keys[2]| == 29;
  }

  lemma SameOptionalFormula(a: Option<Formula>, b: Option<Formula>)
    requires a.Some? ==> UniqueKeys(a.value.inputs)
    requires b.Some? ==> UniqueKeys(b.value.inputs)
    ensures Keyed(OptionalFormula(a))
    ensures Same(OptionalFormula(a), OptionalFormula(b)) <==> FormulasAgree(a, b)
  {
    if a.Some? {
      SameFormula(a.value, if b.Some? then b.value else a.value);
    }
    hide Keyed, RecordValue;
  }

  /** Comparing canonical forms compares submissions. */
  lemma SameSubmissionIffAgree(a: Submission, b: Submission, less: (string, string) -> bool)
    requires HasRecords(a) && HasRecords(b) && IsTotalOrder(less)
    ensures SameSubmission(SubmissionValue(a), SubmissionValue(b), less) <==> Agree(a, b)
  {
    SubmissionFields(a, b);
    SubmissionFields(b, a);
    StableIffSame(SubmissionValue(a), SubmissionValue(b), less);
  }

  lemma SubmissionFields(a: Submission, b: Submission)
    requires HasRecords(a) && HasRecords(b)
    ensures Keyed(SubmissionValue(a)) && (Same(SubmissionValue(a), SubmissionValue(b)) <==> Agree(a, b))
  {
    KeyedQuantity(a.quantity);
    SameQuantity(a.quantity, b.quantity);
    SameRecords(a.evidence, b.evidence);
    SameOptionalFormula(a.formula, b.formula);
    SubmissionKeys(a);
    hide RecordValue, QuantityValue, OptionalFormula, FormulasAgree, Same, Keyed, UniqueKeys;
    var x, y := SubmissionValue(a).entries, SubmissionValue(b).entries;
    KeyedFields(x);
    SameFields(x, y);
    assert |x| == 3;
    assert Same(Obj(x), Obj(y)) <==> Same(x[0].1, y[0].1) && Same(x[1].1, y[1].1) && Same(x[2].1, y[2].1);
  }
}
