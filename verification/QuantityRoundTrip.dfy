/** What the quantity form accepts, and when it recognises an unedited draft. */
module QuantityRoundTrip {
  import opened Orders
  import opened Options
  import opened Decimals
  import opened CanonicalForm
  import opened IdentifierLists
  import opened QuantityChange

  predicate IsText(s: string) {
    s != "" && Trim(s) == s
  }

  /** Properties the form reads back as they were written. */
  ghost predicate IsRecord(entries: Entries) {
    entries != [] && UniqueKeys(entries) && forall e :: e in entries ==> IsText(e.0) && IsText(e.1)
  }

  /** A formula the form could have read: of the project's rules, in its unit, each input an exact decimal
      backed by one of the sources. */
  ghost predicate IsNormalFormula(f: Formula, evidence: Entries, context: Context, sources: seq<string>) {
    && context.rulesVersion == Some(f.version) && f.outputUnit == context.unit
    && IsText(f.id) && IsText(f.display) && IsRecord(f.inputs) && IsRecord(evidence)
    && (forall e :: e in f.inputs ==> IsDecimal(e.1))
    && Keys(f.inputs) == Keys(evidence) && (forall e :: e in evidence ==> e.1 in sources)
    && (f.operation == RECTANGULAR_VOLUME ==> {"length", "width", "height"} <= Keys(f.inputs))
    && (f.operation == CYLINDER_VOLUME ==> {"diameter", "length", "pi"} <= Keys(f.inputs))
  }

  ghost predicate IsNormalQuantity(q: Quantity, unit: string) {
    && Trim(q.value) == q.value && IsDecimal(q.value)
    && Trim(q.wasteFactor) == q.wasteFactor && IsDecimal(q.wasteFactor) && q.wasteFactor[0] != '-'
    && 0 <= q.priority <= 9_007_199_254_740_991 && 0 <= q.scale <= 12
    && q.sources != [] && IsIdentifierList(q.sources) && IsIdentifierList(q.alternatives)
    && q.unit == unit && q.manualChange.None?
  }

  ghost predicate IsNormal(s: Submission, context: Context) {
    && IsNormalQuantity(s.quantity, context.unit)
    && if s.formula.Some? then IsNormalFormula(s.formula.value, s.evidence, context, s.quantity.sources)
       else s.evidence == []
  }

  // ----- what is read is normal -----

  lemma RecordRead(text: JsonText, less: (string, string) -> bool, part: FormulaPart)
    ensures var r := StringRecord(text, less, part);
            r.Pass? ==> IsRecord(r.value)
  {
    var r := StringRecord(text, less, part);
    if r.Pass? {
      var trimmed := TrimmedEntries(text.parsed.value.entries);
      SortedObjectIsObject(trimmed, less);
      hide SortedObject;
      forall e | e in r.value ensures IsText(e.0) && IsText(e.1) {
        assert e in ToSet(r.value);
        var i :| 0 <= i < |trimmed| && trimmed[i] == e;
        assert IsStringEntry(text.parsed.value.entries[i]);
        TrimTwice(text.parsed.value.entries[i].0);
        TrimTwice(text.parsed.value.entries[i].1.s);
      }
    }
  }

  lemma FormulaRead(draft: Draft, context: Context, sources: seq<string>, less: (string, string) -> bool)
    ensures var r := ReadFormula(draft, context, sources, less);
            r.Pass? ==> if r.value.0.Some? then IsNormalFormula(r.value.0.value, r.value.1, context, sources)
                        else r.value.1 == []
  {
    hide StringRecord, IsDecimal;
    RecordRead(draft.inputs, less, Inputs);
    RecordRead(draft.evidence, less, Evidence);
    TrimTwice(draft.formulaId);
    TrimTwice(draft.display);
    hide IsRecord;
  }

  lemma RecordsOf(draft: Draft, context: Context, sources: seq<string>, less: (string, string) -> bool)
    ensures var r := ReadFormula(draft, context, sources, less);
            r.Pass? ==> UniqueKeys(r.value.1) && (r.value.0.Some? ==> UniqueKeys(r.value.0.value.inputs))
  {
    FormulaRead(draft, context, sources, less);
    hide ReadFormula, IsDecimal;
  }

  /** Whatever the form reads is normal, and stays so when it has become the current submission. */
  lemma ReadIsNormal(draft: Draft, context: Context, less: (string, string) -> bool)
    ensures var r := Read(draft, context, less);
            r.Pass? ==> IsNormal(r.value, context) && HasRecords(r.value)
  {
    hide Trim, IsDecimal, StartsWithMinus, ReadNumbers, ReadLists, ReadFormula, IsNormalQuantity, IsNormalFormula, UniqueKeys;
    var numbers, lists := ReadNumbers(draft), ReadLists(draft);
    if numbers.Pass? && lists.Pass? {
      QuantityRead(draft, context.unit);
      FormulaRead(draft, context, lists.value.0, less);
      RecordsOf(draft, context, lists.value.0, less);
    }
  }

  lemma QuantityRead(draft: Draft, unit: string)
    requires ReadNumbers(draft).Pass? && ReadLists(draft).Pass?
    ensures var value, waste, numbers, lists := Trim(draft.value), Trim(draft.wasteFactor), ReadNumbers(draft).value, ReadLists(draft).value;
            IsDecimal(value) && IsDecimal(waste) && !StartsWithMinus(waste) ==>
              IsNormalQuantity(Quantity(value, unit, lists.0, numbers.0, numbers.1, waste, lists.1, None), unit)
  {
    TrimTwice(draft.value);
    TrimTwice(draft.wasteFactor);
    NumbersRange(draft);
    ListsInOrder(draft);
    assert IsDecimal(Trim(draft.wasteFactor)) ==> Trim(draft.wasteFactor) != "";
    hide Trim, IsDecimal, ReadNumbers, ReadLists, IsIdentifierList;
  }

  lemma NumbersRange(draft: Draft)
    ensures var r := ReadNumbers(draft);
            r.Pass? ==> 0 <= r.value.0 <= 9_007_199_254_740_991 && 0 <= r.value.1 <= 12
  {
    hide Trim, AllDigits;
  }

  lemma ListsInOrder(draft: Draft)
    ensures var r := ReadLists(draft);
            r.Pass? ==> r.value.0 != [] && IsIdentifierList(r.value.0) && IsIdentifierList(r.value.1)
  {
    ReadInOrder(draft.sources);
    ReadInOrder(draft.alternatives);
    hide NoDescent, IsIdentifier, IdentifierList, IsIdentifierList, Distinct;
  }

  // ----- what is normal is read back -----

  lemma NumberWritten(n: int)
    ensures Trim(PrintInt(n)) == PrintInt(n) && (IsDigits(PrintInt(n)) <==> n >= 0)
    ensures n >= 0 ==> DigitsValue(PrintInt(n)) == n
  {
    hide PrintNat, DigitsValue;
    if n >= 0 {
      PrintNatValue(n);
    } else {
      assert PrintInt(n)[|PrintInt(n)| - 1] == PrintNat(-n)[|PrintNat(-n)| - 1];
    }
  }

  lemma RecordWritten(entries: Entries, less: (string, string) -> bool, part: FormulaPart)
    requires IsRecord(entries) && IsTotalOrder(less)
    ensures var r := StringRecord(Printed(RecordValue(entries)), less, part);
            r.Pass? && UniqueKeys(r.value) && ToSet(r.value) == ToSet(entries)
  {
    var written := RecordEntries(entries);
    forall i | 0 <= i < |written| ensures IsStringEntry(written[i]) {
      assert entries[i] in entries;
    }
    var trimmed := TrimmedEntries(written);
    forall i | 0 <= i < |trimmed| ensures trimmed[i] == entries[i] {
      assert entries[i] in entries;
    }
    assert trimmed == entries;
    SortedObjectKeeps(entries, less);
  }

  lemma SameKeys(a: Entries, b: Entries)
    requires ToSet(a) == ToSet(b)
    ensures Keys(a) == Keys(b) && (forall e :: e in a <==> e in b) && (a == [] <==> b == [])
  {
    forall k ensures k in Keys(a) <==> k in Keys(b) {
      if k in Keys(a) { KeysFromSet(a, b, k); }
      if k in Keys(b) { KeysFromSet(b, a, k); }
    }
    forall e ensures e in a <==> e in b {
      assert e in ToSet(a) <==> e in ToSet(b);
    }
    assert a == [] || a[0] in a;
    assert b == [] || b[0] in b;
  }

  /** The draft of a formula whose records are read back in some order is that formula. */
  lemma FormulaRebuilt(draft: Draft, context: Context, f: Formula, inputs: Entries, evidence: Entries,
                       sources: seq<string>, less: (string, string) -> bool)
    requires draft.formulaEnabled && draft.formulaId == f.id && draft.display == f.display && draft.operation == f.operation
    requires StringRecord(draft.inputs, less, Inputs) == Pass(inputs)
    requires StringRecord(draft.evidence, less, Evidence) == Pass(evidence)
    requires IsNormalFormula(f.(inputs := inputs), evidence, context, sources)
    ensures ReadFormula(draft, context, sources, less) == Pass((Some(f.(inputs := inputs)), evidence))
  {
    RequiredInputs(f.operation);
    hide StringRecord, IsDecimal, Keys, IsRecord, RequiredKeys;
    forall i | 0 <= i < |inputs| ensures IsDecimal(inputs[i].1) {
      assert inputs[i] in inputs;
    }
    forall i | 0 <= i < |evidence| ensures evidence[i].1 in sources {
      assert evidence[i] in evidence;
    }
  }

  /** A formula stays normal when its records are put in another order. */
  lemma NormalFormulaUpToOrder(f: Formula, evidence: Entries, inputs: Entries, others: Entries, context: Context,
                               sources: seq<string>)
    requires IsNormalFormula(f, evidence, context, sources)
    requires ToSet(f.inputs) == ToSet(inputs) && ToSet(evidence) == ToSet(others) && UniqueKeys(inputs) && UniqueKeys(others)
    ensures IsNormalFormula(f.(inputs := inputs), others, context, sources)
  {
    SameKeys(f.inputs, inputs);
    SameKeys(evidence, others);
    hide IsDecimal, Keys, UniqueKeys, RequiredKeys;
  }

  lemma FormulaWritten(context: Context, f: Formula, less: (string, string) -> bool)
    requires context.current.formula == Some(f) && IsTotalOrder(less)
    requires IsNormalFormula(f, context.current.evidence, context, context.current.quantity.sources)
    ensures var r := ReadFormula(DraftFrom(context), context, context.current.quantity.sources, less);
            r.Pass? && r.value.0.Some? && FormulaAndEvidence(r.value.0.value, r.value.1, f, context.current.evidence)
  {
    var current, draft := context.current, DraftFrom(context);
    RecordWritten(f.inputs, less, Inputs);
    RecordWritten(current.evidence, less, Evidence);
    hide StringRecord, RecordValue, IsRecord;
    var inputs := StringRecord(draft.inputs, less, Inputs).value;
    var evidence := StringRecord(draft.evidence, less, Evidence).value;
    hide DraftFrom, UniqueKeys;
    NormalFormulaUpToOrder(f, current.evidence, inputs, evidence, context, current.quantity.sources);
    hide IsNormalFormula;
    FormulaRebuilt(draft, context, f, inputs, evidence, current.quantity.sources, less) by {
      hide *;
      DraftFields(context, f);
    }
    hide ReadFormula;
  }

  lemma DraftFields(context: Context, f: Formula)
    requires context.current.formula == Some(f)
    ensures var draft := DraftFrom(context);
            && draft.formulaEnabled && draft.formulaId == f.id && draft.display == f.display
            && draft.operation == f.operation
  {
  }

  ghost predicate FormulaAndEvidence(a: Formula, aEvidence: Entries, b: Formula, bEvidence: Entries) {
    && FormulasAgree(Some(a), Some(b)) && ToSet(aEvidence) == ToSet(bEvidence)
    && UniqueKeys(aEvidence) && UniqueKeys(a.inputs)
  }

  lemma NormalIsRead(context: Context, less: (string, string) -> bool)
    requires IsNormal(context.current, context) && HasRecords(context.current) && IsTotalOrder(less)
    ensures var r := Read(DraftFrom(context), context, less);
            r.Pass? && HasRecords(r.value) && Agree(r.value, context.current)
  {
    var q := context.current.quantity;
    NumberWritten(q.priority);
    NumberWritten(q.scale);
    ListWritten(q.sources);
    ListWritten(q.alternatives);
    var formula := context.current.formula;
    if formula.Some? {
      FormulaWritten(context, formula.value, less);
    } else {
      assert RecordEntries([]) == [];
    }
    assert StartsWithMinus(q.wasteFactor) <==> q.wasteFactor[0] == '-';
    hide StartsWithMinus, IsDecimal, IdentifierList, IsIdentifierList, FormulasAgree, UniqueKeys, PrintInt, Join, Distinct, IsNormalFormula;
    assert ReadLists(DraftFrom(context)) == Pass((q.sources, q.alternatives));
    assert ReadNumbers(DraftFrom(context)) == Pass((q.priority, q.scale));
    hide ReadLists, ReadNumbers;
    if formula.Some? {
      hide ReadFormula;
    }
  }

  // ----- results -----

  /** Being normal does not depend on the order of properties. */
  lemma NormalUpToOrder(a: Submission, b: Submission, context: Context)
    requires IsNormal(a, context) && Agree(a, b) && HasRecords(b)
    ensures IsNormal(b, context)
  {
    hide IsNormalQuantity, UniqueKeys, IsNormalFormula;
    if a.formula.Some? {
      NormalFormulaUpToOrder(a.formula.value, a.evidence, b.formula.value.inputs, b.evidence, context, a.quantity.sources);
    } else {
      SameKeys(a.evidence, b.evidence);
    }
  }

  /** The form answers an unedited draft with "identical" exactly when the current submission is one the
      form could have read itself. */
  lemma UneditedDraftIsIdentical(context: Context, projectCode: string, less: (string, string) -> bool)
    requires HasRecords(context.current) && IsTotalOrder(less)
    ensures Validation(DraftFrom(context), context, projectCode, less) == Fail(Identical)
       <==> IsNormal(context.current, context)
  {
    var draft := DraftFrom(context);
    var r := Read(draft, context, less);
    ReadIsNormal(draft, context, less);
    if IsNormal(context.current, context) {
      NormalIsRead(context, less);
    }
    ReadFailsOtherwise(draft, context, less);
    if r.Pass? {
      SameSubmissionIffAgree(r.value, context.current, less);
      hide Agree, IsNormal, SameSubmission, HasRecords;
      if Agree(r.value, context.current) {
        NormalUpToOrder(r.value, context.current, context);
      }
    }
    hide Read, SameSubmission, IsNormal;
  }

  lemma ReadFailsOtherwise(draft: Draft, context: Context, less: (string, string) -> bool)
    ensures Read(draft, context, less) != Fail(Identical)
  {
    hide IsDecimal, IdentifierList, Distinct, SortedObject;
  }

  lemma NormalWhenCurrent(s: Submission, context: Context)
    ensures IsNormal(s, context) <==> IsNormal(s, context.(current := s))
  {
    hide IsNormalQuantity, IsRecord, IsDecimal;
  }

  lemma PassedIsRead(draft: Draft, context: Context, projectCode: string, less: (string, string) -> bool)
    ensures var r := Validation(draft, context, projectCode, less);
            r.Pass? ==> Read(draft, context, less) == r
  {
    hide Read, SameSubmission;
  }

  /** Once an accepted submission has become the current one, its unedited draft is recognised as identical. */
  lemma AcceptedThenIdentical(draft: Draft, context: Context, projectCode: string, code: string,
                              less: (string, string) -> bool)
    requires IsTotalOrder(less) && Validation(draft, context, projectCode, less).Pass?
    ensures var next := context.(current := Validation(draft, context, projectCode, less).value);
            Validation(DraftFrom(next), next, code, less) == Fail(Identical)
  {
    var submission := Validation(draft, context, projectCode, less).value;
    PassedIsRead(draft, context, projectCode, less);
    hide Validation, Read, IsNormal, HasRecords, DraftFrom, IsTotalOrder;
    ReadIsNormal(draft, context, less);
    var next := context.(current := submission);
    NormalWhenCurrent(submission, context);
    UneditedDraftIsIdentical(next, code, less);
  }

  /** A draft is accepted exactly when it reads as a submission other than the current one and comes with a reason,
      the project code and the acknowledgement; what is accepted is normal. */
  lemma AcceptedIff(draft: Draft, context: Context, projectCode: string, less: (string, string) -> bool)
    requires IsTotalOrder(less) && HasRecords(context.current)
    ensures var r, s := Validation(draft, context, projectCode, less), Read(draft, context, less);
            && (r.Pass? <==> && s.Pass? && !Agree(s.value, context.current)
                             && draft.acknowledged && Trim(draft.projectCode) == projectCode
                             && Trim(draft.reason) != "" && |draft.reason| <= 2000)
            && (r.Pass? ==> r == s && IsNormal(s.value, context) && HasRecords(s.value))
  {
    hide Read, IsNormal, Agree, SameSubmission, HasRecords;
    var s := Read(draft, context, less);
    if s.Pass? {
      ReadIsNormal(draft, context, less);
      SameSubmissionIffAgree(s.value, context.current, less);
    }
  }

  /** The draft that the form would show of a submission, completed with a reason, the code and the acknowledgement. */
  function DraftOf(s: Submission, context: Context, reason: string, projectCode: string): Draft {
    DraftFrom(context.(current := s)).(reason := reason, projectCode := projectCode, acknowledged := true)
  }

  /** Every normal submission can be entered: its draft is accepted, as that submission, exactly when it is not the
      current one already. */
  lemma NormalCanBeEntered(s: Submission, context: Context, reason: string, projectCode: string,
                           less: (string, string) -> bool)
    requires IsTotalOrder(less) && HasRecords(context.current) && HasRecords(s) && IsNormal(s, context)
    requires Trim(reason) != "" && |reason| <= 2000 && Trim(projectCode) == projectCode
    ensures var r := Validation(DraftOf(s, context, reason, projectCode), context, projectCode, less);
            && (r.Pass? <==> !Agree(s, context.current))
            && (r.Pass? ==> Agree(r.value, s))
            && (!r.Pass? ==> r == Fail(Identical))
  {
    var next, draft := context.(current := s), DraftOf(s, context, reason, projectCode);
    NormalWhenCurrent(s, context);
    NormalIsRead(next, less);
    assert Read(draft, context, less) == Read(DraftFrom(next), next, less) by { ReadIgnoresRest(draft, context, s, less); }
    var read := Read(draft, context, less);
    AcceptedIff(draft, context, projectCode, less);
    SameSubmissionIffAgree(read.value, context.current, less);
    AgreeThrough(read.value, s, context.current);
    hide Read, IsNormal, Agree, SameSubmission, HasRecords, DraftFrom;
  }

  /** Reading a draft looks at no reason, code or acknowledgement, and of the context only at unit and rules. */
  lemma ReadIgnoresRest(draft: Draft, context: Context, s: Submission, less: (string, string) -> bool)
    requires draft == DraftOf(s, context, draft.reason, draft.projectCode)
    ensures Read(draft, context, less) == Read(DraftFrom(context.(current := s)), context.(current := s), less)
  {
    hide IsDecimal, IdentifierList, StringRecord, PrintInt, Join, RecordValue;
  }

  lemma AgreeThrough(a: Submission, b: Submission, c: Submission)
    requires Agree(a, b)
    ensures Agree(a, c) <==> Agree(b, c)
  {
  }

  // ----- what can be typed -----

  /** The decimals of the form: an optional minus, digits without a needless leading zero, and an optional fraction. */
  lemma DecimalIsSpelled(s: string)
    requires IsDecimal(s)
    ensures exists sign: string, whole: string, fraction: string ::
              && sign in {"", "-"} && whole != "" && AllDigits(whole) && AllDigits(fraction)
              && (whole == "0" || whole[0] != '0') && s == Spell(sign, whole, fraction)
  {
    hide Match, Spell;
    MatchOnlySpellings(s);
    var sign: string, whole: string, fraction: string :| IsSpelling(sign, whole, fraction) && s == Spell(sign, whole, fraction);
    MatchSpelling(sign, whole, fraction);
    SpellSigned(sign, whole, fraction);
    if |whole| == 1 && whole[0] == '0' { assert whole == "0"; }
    assert sign in {"", "-"} && AllDigits(whole) && AllDigits(fraction) && (whole == "0" || whole[0] != '0');
  }

  lemma SpelledIsDecimal(sign: string, whole: string, fraction: string)
    requires sign in {"", "-"} && whole != "" && AllDigits(whole) && AllDigits(fraction) && (whole == "0" || whole[0] != '0')
    ensures IsDecimal(Spell(sign, whole, fraction)) && (StartsWithMinus(Spell(sign, whole, fraction)) <==> sign == "-")
  {
    hide Match, Spell;
    MatchSpelling(sign, whole, fraction);
    SpellSigned(sign, whole, fraction);
  }

  /** Priority and scale are typed as digits, with any white space around them: the priority up to the largest safe
      integer, the scale up to 12. */
  lemma NumbersTyped(draft: Draft, before: string, priority: string, after: string, left: string, scale: string, right: string)
    requires AllSpace(before) && AllSpace(after) && AllSpace(left) && AllSpace(right)
    requires priority != "" && AllDigits(priority) && scale != "" && AllDigits(scale)
    requires draft.priority == before + priority + after && draft.scale == left + scale + right
    ensures ReadNumbers(draft)
         == if DigitsValue(priority) > 9_007_199_254_740_991 then Fail(PriorityOutOfRange)
            else if DigitsValue(scale) > 12 then Fail(ScaleOutOfRange)
            else Pass((DigitsValue(priority), DigitsValue(scale)))
  {
    assert IsDigit(priority[0]) && IsDigit(priority[|priority| - 1]) && IsDigit(scale[0]) && IsDigit(scale[|scale| - 1]);
    TrimPadded(before, priority, after);
    TrimPadded(left, scale, right);
    hide Trim, DigitsValue;
  }

  /** Which inputs an operation cannot do without. */
  lemma RequiredInputs(operation: Operation)
    ensures RequiredKeys(operation) == match operation
                                       case RECTANGULAR_VOLUME => {"width", "height", "length"}
                                       case CYLINDER_VOLUME => {"pi", "length", "diameter"}
                                       case SUM => {}
                                       case PRODUCT => {}
  {
  }

  /** A record of the form: an object that is not empty, of texts that are not blank under keys that are not. */
  predicate RecordReads(text: JsonText) {
    && text.parsed.Some? && text.parsed.value.Obj? && text.parsed.value.entries != []
    && forall i :: 0 <= i < |text.parsed.value.entries| ==>
         var entry := text.parsed.value.entries[i];
         Trim(entry.0) != "" && entry.1.Str? && Trim(entry.1.s) != ""
  }

  lemma RecordOutcome(text: JsonText, less: (string, string) -> bool, part: FormulaPart)
    ensures StringRecord(text, less, part).Pass? <==> RecordReads(text)
  {
    hide SortedObject;
    if text.parsed.Some? && text.parsed.value.Obj? {
      forall i | 0 <= i < |text.parsed.value.entries|
        ensures IsStringEntry(text.parsed.value.entries[i])
           <==> var entry := text.parsed.value.entries[i]; Trim(entry.0) != "" && entry.1.Str? && Trim(entry.1.s) != ""
      {
      }
    }
  }

  /** Exactly which drafts can be read: with proper numbers, at least one source and no identifier twice; with a formula,
      rules, names, decimal inputs, each backed by one of the sources, and every input its operation needs; without one,
      no evidence. */
  lemma ReadOutcome(draft: Draft, context: Context, less: (string, string) -> bool)
    ensures var sources, alternatives := IdentifierList(draft.sources), IdentifierList(draft.alternatives);
            var inputs, evidence := StringRecord(draft.inputs, less, Inputs), StringRecord(draft.evidence, less, Evidence);
            Read(draft, context, less).Pass? <==>
              && IsDecimal(Trim(draft.value)) && IsDecimal(Trim(draft.wasteFactor)) && Trim(draft.wasteFactor)[0] != '-'
              && ReadNumbers(draft).Pass? && sources != [] && Distinct(sources) && Distinct(alternatives)
              && (!draft.formulaEnabled ==> draft.evidence.emptyBraces)
              && (draft.formulaEnabled ==>
                    && context.rulesVersion.Some? && Trim(draft.formulaId) != "" && Trim(draft.display) != ""
                    && RecordReads(draft.inputs) && RecordReads(draft.evidence) && inputs.Pass? && evidence.Pass?
                    && (forall i :: 0 <= i < |inputs.value| ==> IsDecimal(inputs.value[i].1))
                    && Keys(inputs.value) == Keys(evidence.value)
                    && (forall i :: 0 <= i < |evidence.value| ==> evidence.value[i].1 in sources)
                    && (draft.operation == RECTANGULAR_VOLUME ==> {"length", "width", "height"} <= Keys(inputs.value))
                    && (draft.operation == CYLINDER_VOLUME ==> {"diameter", "length", "pi"} <= Keys(inputs.value)))
  {
    RecordOutcome(draft.inputs, less, Inputs);
    RecordOutcome(draft.evidence, less, Evidence);
    RequiredInputs(draft.operation);
    hide StringRecord, IdentifierList, Trim, ReadNumbers, RecordReads, RequiredKeys, Distinct;
  }
}
