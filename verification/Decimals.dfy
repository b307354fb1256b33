/** Decimal text read into scaled integers, and kopecks printed as decimal text. */
module Decimals {

  datatype Result<+T> = Ok(value: T) | Err(error: Error) {
    predicate IsFailure() {
      Err?
    }

    function PropagateFailure<U>(): Result<U>
      requires Err?
    {
      Err(error)
    }

    function Extract(): T
      requires Ok?
    {
      value
    }
  }

  /** Every exception the commercial scenario throws. */
  datatype Error =
    | InvalidDecimal
    | TooManyDigits
    | DenominatorNotPositive
    | BadBasisPoints
    | WeightsDoNotTotal
    | NegativePrice
    | NegativeQuantity
    | GrossNotPositive
    | NoPositiveShare

  /** Number.MAX_SAFE_INTEGER */
  const MAX_SAFE_INTEGER := 9_007_199_254_740_991

  function Pow10(n: nat): (p: nat)
    ensures p > 0
  {
    if n == 0 then 1 else 10 * Pow10(n - 1)
  }

  lemma {:induction false} Pow10Sum(m: nat, n: nat)
    ensures Pow10(m + n) == Pow10(m) * Pow10(n)
  {
    if m > 0 {
      Pow10Sum(m - 1, n);
      TenTimes(Pow10(m - 1), Pow10(n), 0);
    }
  }

  lemma TenTimes(a: int, b: int, c: int)
    ensures 10 * (a * b + c) == (10 * a) * b + 10 * c == a * (10 * b) + 10 * c
  {
  }

  predicate IsDigit(c: char) {
    '0' <= c <= '9'
  }

  predicate AllDigits(s: string) {
    forall i :: 0 <= i < |s| ==> IsDigit(s[i])
  }

  /** The white space and line terminators that String.prototype.trim removes. */
  predicate IsSpace(c: char) {
    || '\U{0009}' <= c <= '\U{000D}'
    || c in {' ', '\U{00A0}', '\U{1680}', '\U{2028}', '\U{2029}', '\U{202F}', '\U{205F}', '\U{3000}', '\U{FEFF}'}
    || '\U{2000}' <= c <= '\U{200A}'
  }

  function Trim(s: string): string {
    if s != "" && IsSpace(s[0]) then Trim(s[1..])
    else if s != "" && IsSpace(s[|s| - 1]) then Trim(s[..|s| - 1])
    else s
  }

  function DigitsValue(s: string): nat
    requires AllDigits(s)
  {
    if s == "" then 0
    else 10 * DigitsValue(s[..|s| - 1]) + (s[|s| - 1] as int - '0' as int)
  }

  function Zeros(n: nat): (s: string)
    ensures |s| == n && AllDigits(s)
  {
    seq(n, _ => '0')
  }

  /** Length of the longest prefix of decimal digits. */
  function DigitPrefix(s: string): (n: nat)
    ensures n <= |s| && AllDigits(s[..n]) && (n < |s| ==> !IsDigit(s[n]))
  {
    if s == "" || !IsDigit(s[0]) then 0
    else
      var n := 1 + DigitPrefix(s[1..]);
      assert s[..n] == [s[0]] + s[1..][..n - 1];
      n
  }

  datatype Written = Written(negative: bool, whole: string, fraction: string)

  /** The groups of `(\d+)(?:\.(\d+))?$`; an absent fraction is empty. */
  function MatchUnsigned(body: string, negative: bool): Result<Written> {
    var n := DigitPrefix(body);
    var tail := body[n..];
    if n == 0 then Err(InvalidDecimal)
    else if tail == "" then Ok(Written(negative, body, ""))
    else if tail[0] == '.' && |tail| > 1 && AllDigits(tail[1..]) then Ok(Written(negative, body[..n], tail[1..]))
    else Err(InvalidDecimal)
  }

  /** The groups of `^([+-]?)(\d+)(?:\.(\d+))?$`. */
  function Match(s: string): Result<Written> {
    if s != "" && (s[0] == '+' || s[0] == '-')
    then MatchUnsigned(s[1..], s[0] == '-')
    else MatchUnsigned(s, false)
  }

  /** The written number times 10^scaleDigits. */
  function Scaled(w: Written, scaleDigits: nat): int
    requires AllDigits(w.whole) && AllDigits(w.fraction) && |w.fraction| <= scaleDigits
  {
    var padded := w.fraction + Zeros(scaleDigits - |w.fraction|);
    var magnitude := DigitsValue(w.whole) * Pow10(scaleDigits) + DigitsValue(padded);
    if w.negative then -magnitude else magnitude
  }

  function ParseScaledDecimal(value: string, scaleDigits: nat): Result<int> {
    var written :- Match(Trim(value));
    if |written.fraction| > scaleDigits then Err(TooManyDigits)
    else
      MatchGivesDigits(Trim(value));
      Ok(Scaled(written, scaleDigits))
  }

  lemma ParseErrors(value: string, scaleDigits: nat)
    ensures var r := ParseScaledDecimal(value, scaleDigits);
            r.Err? ==> r.error in {InvalidDecimal, TooManyDigits}
  {
  }

  function PrintNat(n: nat): (s: string)
    ensures s != "" && AllDigits(s)
    ensures n < 10 ==> |s| == 1
    ensures n < 100 ==> |s| <= 2
  {
    var last := ['0' + (n % 10) as char];
    if n < 10 then last else PrintNat(n / 10) + last
  }

  function PadStart(s: string, width: nat): string {
    if |s| < width then Zeros(width - |s|) + s else s
  }

  function KopecksToDecimal(value: int): string {
    var absolute := if value < 0 then -value else value;
    (if value < 0 then "-" else "") + PrintNat(absolute / 100) + "." + PadStart(PrintNat(absolute % 100), 2)
  }

  // ----- the grammar -----

  /** A text of the accepted grammar, as its parts write it. */
  function Spell(sign: string, whole: string, fraction: string): string {
    sign + whole + (if fraction == "" then "" else "." + fraction)
  }

  predicate IsSpelling(sign: string, whole: string, fraction: string) {
    sign in {"", "+", "-"} && whole != "" && AllDigits(whole) && AllDigits(fraction)
  }

  lemma UnsignedGivesDigits(body: string, negative: bool)
    requires MatchUnsigned(body, negative).Ok?
    ensures var w := MatchUnsigned(body, negative).value;
            && w.negative == negative && w.whole != "" && AllDigits(w.whole) && AllDigits(w.fraction)
            && body == Spell("", w.whole, w.fraction)
  {
    var n := DigitPrefix(body);
    assert body == body[..n] + body[n..];
    if body[n..] != "" {
      assert body[n..] == "." + body[n..][1..];
    } else {
      assert body[..n] == body;
    }
  }

  lemma MatchGivesDigits(s: string)
    requires Match(s).Ok?
    ensures var w := Match(s).value; w.whole != "" && AllDigits(w.whole) && AllDigits(w.fraction)
  {
    if s != "" && (s[0] == '+' || s[0] == '-') {
      UnsignedGivesDigits(s[1..], s[0] == '-');
    } else {
      UnsignedGivesDigits(s, false);
    }
  }

  lemma {:induction false} PrefixOfDigits(digits: string, tail: string)
    requires AllDigits(digits) && (tail == "" || !IsDigit(tail[0]))
    ensures DigitPrefix(digits + tail) == |digits|
  {
    if digits == "" {
      assert digits + tail == tail;
    } else {
      PrefixOfDigits(digits[1..], tail);
      assert (digits + tail)[1..] == digits[1..] + tail;
    }
  }

  lemma MatchUnsignedSpelling(whole: string, fraction: string, negative: bool)
    requires IsSpelling("", whole, fraction)
    ensures MatchUnsigned(Spell("", whole, fraction), negative) == Ok(Written(negative, whole, fraction))
  {
    var tail := if fraction == "" then "" else "." + fraction;
    var body := whole + tail;
    assert Spell("", whole, fraction) == body;
    PrefixOfDigits(whole, tail);
    assert body[..|whole|] == whole && body[|whole|..] == tail;
    if fraction != "" {
      assert tail[1..] == fraction;
    } else {
      assert body == whole;
    }
  }

  lemma SpellSigned(sign: string, whole: string, fraction: string)
    requires IsSpelling(sign, whole, fraction)
    ensures var s := Spell(sign, whole, fraction);
            s != "" && (if sign == "" then IsDigit(s[0]) else s[0] == sign[0] && s[1..] == Spell("", whole, fraction))
  {
    var s := Spell(sign, whole, fraction);
    assert s == sign + Spell("", whole, fraction);
    if sign == "" {
      assert s[0] == whole[0];
    }
  }

  /** Every spelling of the grammar is matched, with its own parts. */
  lemma MatchSpelling(sign: string, whole: string, fraction: string)
    requires IsSpelling(sign, whole, fraction)
    ensures Match(Spell(sign, whole, fraction)) == Ok(Written(sign == "-", whole, fraction))
  {
    SpellSigned(sign, whole, fraction);
    MatchUnsignedSpelling(whole, fraction, sign == "-");
  }

  /** Nothing else is matched. */
  lemma MatchOnlySpellings(s: string)
    requires Match(s).Ok?
    ensures exists sign: string, whole: string, fraction: string ::
              IsSpelling(sign, whole, fraction) && s == Spell(sign, whole, fraction)
  {
    hide MatchUnsigned;
    var w := Match(s).value;
    if s != "" && (s[0] == '+' || s[0] == '-') {
      UnsignedGivesDigits(s[1..], s[0] == '-');
      var sign := [s[0]];
      assert s == sign + s[1..];
      assert IsSpelling(sign, w.whole, w.fraction);
      assert s == Spell(sign, w.whole, w.fraction);
    } else {
      UnsignedGivesDigits(s, false);
      assert IsSpelling("", w.whole, w.fraction);
    }
  }

  // ----- values -----

  lemma {:induction false} DigitsValueConcat(a: string, b: string)
    requires AllDigits(a) && AllDigits(b)
    ensures AllDigits(a + b)
    ensures DigitsValue(a + b) == DigitsValue(a) * Pow10(|b|) + DigitsValue(b)
  {
    if b == "" {
      assert a + b == a;
    } else {
      var front := b[..|b| - 1];
      assert (a + b)[..|a + b| - 1] == a + front;
      DigitsValueConcat(a, front);
      TenTimes(DigitsValue(a), Pow10(|front|), DigitsValue(front));
    }
  }

  lemma {:induction false} ZerosValue(n: nat)
    ensures DigitsValue(Zeros(n)) == 0
  {
    if n > 0 {
      assert Zeros(n)[..n - 1] == Zeros(n - 1);
      ZerosValue(n - 1);
    }
  }

  lemma {:induction false} PrintNatValue(n: nat)
    ensures DigitsValue(PrintNat(n)) == n
  {
    var s := PrintNat(n);
    if n < 10 {
      assert s[..0] == "";
    } else {
      PrintNatValue(n / 10);
      assert s[..|s| - 1] == PrintNat(n / 10);
    }
  }

  lemma PadStartValue(s: string, width: nat)
    requires AllDigits(s)
    ensures AllDigits(PadStart(s, width)) && DigitsValue(PadStart(s, width)) == DigitsValue(s)
  {
    if |s| < width {
      ZerosValue(width - |s|);
      DigitsValueConcat(Zeros(width - |s|), s);
    }
  }

  lemma PaddedFractionValue(fraction: string, scaleDigits: nat)
    requires AllDigits(fraction) && |fraction| <= scaleDigits
    ensures var padded := fraction + Zeros(scaleDigits - |fraction|);
            AllDigits(padded)
            && DigitsValue(padded) == DigitsValue(fraction) * Pow10(scaleDigits - |fraction|)
  {
    ZerosValue(scaleDigits - |fraction|);
    DigitsValueConcat(fraction, Zeros(scaleDigits - |fraction|));
  }

  predicate AllSpace(s: string) {
    forall i :: 0 <= i < |s| ==> IsSpace(s[i])
  }

  /** Trimming removes white space on both sides and nothing inside. */
  lemma {:induction false} TrimPadded(before: string, core: string, after: string)
    requires AllSpace(before) && AllSpace(after)
    requires core != "" && !IsSpace(core[0]) && !IsSpace(core[|core| - 1])
    ensures Trim(before + core + after) == core
    decreases |before| + |after|
  {
    hide IsSpace;
    var s := before + core + after;
    if before != "" {
      assert s[1..] == before[1..] + core + after;
      TrimPadded(before[1..], core, after);
    } else if after != "" {
      assert s[0] == core[0] && s[|s| - 1] == after[|after| - 1];
      assert s[..|s| - 1] == before + core + after[..|after| - 1];
      TrimPadded(before, core, after[..|after| - 1]);
    } else {
      assert s == core;
    }
  }

  lemma SpellingEnds(sign: string, whole: string, fraction: string)
    requires IsSpelling(sign, whole, fraction)
    ensures var s := Spell(sign, whole, fraction);
            s != "" && !IsSpace(s[0]) && !IsSpace(s[|s| - 1])
  {
    var s := Spell(sign, whole, fraction);
    assert s[0] == if sign == "" then whole[0] else sign[0];
    assert IsDigit(s[|s| - 1]);
  }

  lemma ScaledSum(w: int, x: int, p: int, r: int)
    ensures w * (p * r) + x * r == (w * p + x) * r
  {
  }

  /** The number the digits spell, times 10^scaleDigits. */
  function SpelledValue(whole: string, fraction: string, scaleDigits: nat): int
    requires AllDigits(whole) && AllDigits(fraction) && |fraction| <= scaleDigits
  {
    (DigitsValue(whole) * Pow10(|fraction|) + DigitsValue(fraction)) * Pow10(scaleDigits - |fraction|)
  }

  lemma ScaledValue(w: Written, scaleDigits: nat)
    requires AllDigits(w.whole) && AllDigits(w.fraction) && |w.fraction| <= scaleDigits
    ensures var magnitude := SpelledValue(w.whole, w.fraction, scaleDigits);
            Scaled(w, scaleDigits) == if w.negative then -magnitude else magnitude
  {
    PaddedFractionValue(w.fraction, scaleDigits);
    var f, rest := |w.fraction|, scaleDigits - |w.fraction|;
    Pow10Sum(f, rest);
    ScaledSum(DigitsValue(w.whole), DigitsValue(w.fraction), Pow10(f), Pow10(rest));
  }

  lemma ParseMatched(s: string, w: Written, scaleDigits: nat)
    requires Match(Trim(s)) == Ok(w)
    ensures AllDigits(w.whole) && AllDigits(w.fraction)
    ensures ParseScaledDecimal(s, scaleDigits)
            == if |w.fraction| > scaleDigits then Err(TooManyDigits) else Ok(Scaled(w, scaleDigits))
  {
    MatchGivesDigits(Trim(s));
    hide Match, Scaled, Trim;
  }

  /** What is read from any spelling, white space around it allowed: the written number, scaled by
      10^scaleDigits, exactly, or a refusal when it has more fraction digits than that. */
  lemma ParsePadded(before: string, sign: string, whole: string, fraction: string, after: string, scaleDigits: nat)
    requires IsSpelling(sign, whole, fraction) && AllSpace(before) && AllSpace(after)
    ensures ParseScaledDecimal(before + Spell(sign, whole, fraction) + after, scaleDigits)
            == if |fraction| > scaleDigits then Err(TooManyDigits)
               else Ok(if sign == "-" then -SpelledValue(whole, fraction, scaleDigits)
                       else SpelledValue(whole, fraction, scaleDigits))
  {
    hide ParseScaledDecimal, SpelledValue, Scaled, Spell, Match, Trim, IsSpace;
    var w := Written(sign == "-", whole, fraction);
    SpellingEnds(sign, whole, fraction);
    TrimPadded(before, Spell(sign, whole, fraction), after);
    MatchSpelling(sign, whole, fraction);
    ParseMatched(before + Spell(sign, whole, fraction) + after, w, scaleDigits);
    if |fraction| <= scaleDigits {
      ScaledValue(w, scaleDigits);
    }
  }

  lemma ParseSpelling(sign: string, whole: string, fraction: string, scaleDigits: nat)
    requires IsSpelling(sign, whole, fraction) && |fraction| <= scaleDigits
    ensures var magnitude := SpelledValue(whole, fraction, scaleDigits);
            ParseScaledDecimal(Spell(sign, whole, fraction), scaleDigits)
            == Ok(if sign == "-" then -magnitude else magnitude)
  {
    hide ParseScaledDecimal, SpelledValue, Scaled, Spell;
    ParsePadded("", sign, whole, fraction, "", scaleDigits);
    assert "" + Spell(sign, whole, fraction) + "" == Spell(sign, whole, fraction);
  }

  lemma PrintedSpelling(absolute: nat)
    ensures var whole, fraction := PrintNat(absolute / 100), PadStart(PrintNat(absolute % 100), 2);
            && AllDigits(whole) && AllDigits(fraction) && |fraction| == 2
            && DigitsValue(whole) * 100 + DigitsValue(fraction) == absolute
  {
    PrintNatValue(absolute / 100);
    PrintNatValue(absolute % 100);
    PadStartValue(PrintNat(absolute % 100), 2);
  }

  lemma PrintedMagnitude(absolute: nat, scaleDigits: nat)
    requires scaleDigits >= 2
    ensures var whole, fraction := PrintNat(absolute / 100), PadStart(PrintNat(absolute % 100), 2);
            && AllDigits(whole) && AllDigits(fraction) && |fraction| == 2
            && SpelledValue(whole, fraction, scaleDigits) == absolute * Pow10(scaleDigits - 2)
  {
    PrintedSpelling(absolute);
    HundredIsPow10();
  }

  lemma PrintedForm(value: int, absolute: nat)
    requires absolute == if value < 0 then -value else value
    ensures var whole, fraction := PrintNat(absolute / 100), PadStart(PrintNat(absolute % 100), 2);
            KopecksToDecimal(value) == Spell(if value < 0 then "-" else "", whole, fraction)
  {
    assert PadStart(PrintNat(absolute % 100), 2) != "";
  }

  /** A printed kopeck amount is read back without loss, at every scale of two digits or more,
      for every integer: negative and sub-ruble amounts included. */
  lemma ParsePrinted(value: int, scaleDigits: nat)
    requires scaleDigits >= 2
    ensures ParseScaledDecimal(KopecksToDecimal(value), scaleDigits) == Ok(value * Pow10(scaleDigits - 2))
  {
    var absolute: nat := if value < 0 then -value else value;
    var whole, fraction := PrintNat(absolute / 100), PadStart(PrintNat(absolute % 100), 2);
    assert AllDigits(fraction) && |fraction| == 2
           && SpelledValue(whole, fraction, scaleDigits) == absolute * Pow10(scaleDigits - 2)
    by { PrintedMagnitude(absolute, scaleDigits); }
    PrintedForm(value, absolute);
    hide ParseScaledDecimal, SpelledValue, Spell, PadStart;
    if value < 0 {
      ParseSpelling("-", whole, fraction, scaleDigits);
      NegateScaled(absolute, Pow10(scaleDigits - 2));
    } else {
      ParseSpelling("", whole, fraction, scaleDigits);
    }
  }

  lemma HundredIsPow10()
    ensures Pow10(2) == 100
  {
    assert Pow10(1) == 10;
  }

  lemma NegateScaled(a: int, p: int)
    ensures -(a * p) == (-a) * p
  {
  }

  lemma PrintedDistinguishes(a: int, b: int)
    requires KopecksToDecimal(a) == KopecksToDecimal(b)
    ensures a == b
  {
    hide ParseScaledDecimal;
    hide KopecksToDecimal;
    ParsePrinted(a, 2);
    ParsePrinted(b, 2);
  }

  // ----- characters -----

  const DIGITS := "0123456789"

  /** The ten digits, each with its value. */
  lemma DigitCharacters(c: char)
    ensures IsDigit(c) <==> c in DIGITS
    ensures forall d :: 0 <= d < 10 ==> IsDigit(DIGITS[d]) && DigitsValue([DIGITS[d]]) == d && PrintNat(d) == [DIGITS[d]]
  {
    forall d | 0 <= d < 10 ensures IsDigit(DIGITS[d]) && DigitsValue([DIGITS[d]]) == d && PrintNat(d) == [DIGITS[d]] {
      assert DIGITS[d] as int == 48 + d;
      assert [DIGITS[d]][..0] == "";
    }
    if IsDigit(c) {
      assert c == DIGITS[c as int - 48];
    }
  }

  /** The code points that are white space: tabulators to carriage return, and the space separators. */
  lemma SpaceCharacters(c: char)
    ensures IsSpace(c) <==> c as int in {9, 10, 11, 12, 13, 32, 160, 5760, 8192, 8193, 8194, 8195, 8196, 8197, 8198, 8199,
                                         8200, 8201, 8202, 8232, 8233, 8239, 8287, 12288, 65279}
  {
  }
}
