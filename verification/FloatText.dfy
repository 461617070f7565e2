// How a float is printed: the shortest scientific text that the platform
// supplies, laid out again by CPython's rule.
module FloatText {
  import opened Characters
  import opened Numbers
  import opened IntRuntime
  import opened FloatRuntime
  import opened Literals
  import CppText

  // --- reading decimal text -------------------------------------------------------

  function Before(text: string, mark: char): string {
    if text == [] || text[0] == mark then [] else [text[0]] + Before(text[1..], mark)
  }

  function After(text: string, mark: char): string {
    if text == [] then [] else if text[0] == mark then text[1..] else After(text[1..], mark)
  }

  function Without(text: string, mark: char): string {
    if text == [] then []
    else
      var last := text[|text| - 1];
      Without(text[..|text| - 1], mark) + (if last == mark then [] else [last])
  }

  function SignOf(text: string): string {
    if text != [] && text[0] == '-' then "-" else ""
  }

  function Unsigned(text: string): string {
    text[|SignOf(text)|..]
  }

  // A sign, and coefficient * 10^exponent. Zero keeps its sign.
  datatype Figure = Figure(negative: bool, coefficient: int, exponent: int)

  function ExponentValue(text: string): int {
    if text == [] then 0
    else if text[0] == '-' then -Positional(10, text[1..])
    else if text[0] == '+' then Positional(10, text[1..])
    else Positional(10, text)
  }

  function ReadDecimal(text: string): Figure {
    var mantissa, exponent := Before(Unsigned(text), 'e'), After(Unsigned(text), 'e');
    var whole, fraction := Before(mantissa, '.'), After(mantissa, '.');
    Figure(SignOf(text) == "-", Positional(10, whole + fraction), ExponentValue(exponent) - |fraction|)
  }

  ghost predicate SameNumber(a: Figure, b: Figure) {
    && a.negative == b.negative
    && if a.exponent >= b.exponent
       then a.coefficient * Power(10, a.exponent - b.exponent) == b.coefficient
       else b.coefficient * Power(10, b.exponent - a.exponent) == a.coefficient
  }

  // --- the two forms --------------------------------------------------------------

  predicate IsMantissa(text: string) {
    && |text| >= 1 && IsDigit(text[0])
    && (|text| == 1 || (text[1] == '.' && IsDecimalDigits(text[2..])))
  }

  // A double's exponent has two or three digits.
  predicate IsExponent(text: string) {
    3 <= |text| <= 4 && (text[0] == '+' || text[0] == '-') && IsDecimalDigits(text[1..])
  }

  // [-]d[.ddd]e[+-]dd
  predicate IsScientific(text: string) {
    var body := Unsigned(text);
    'e' in body && IsMantissa(Before(body, 'e')) && IsExponent(After(body, 'e'))
  }

  // [-]ddd.ddd
  predicate IsFixed(text: string) {
    var body := Unsigned(text);
    && 'e' !in body && '.' in body
    && IsDecimalDigits(Before(body, '.')) && IsDecimalDigits(After(body, '.'))
  }

  function DigitsOf(scientific: string): string {
    Without(Before(Unsigned(scientific), 'e'), '.')
  }

  // Where the decimal point falls, counted from before the first digit.
  function PointOf(scientific: string): int {
    ExponentValue(After(Unsigned(scientific), 'e')) + 1
  }

  function Zeros(count: nat): string {
    seq(count, _ => '0')
  }

  function FixedForm(digits: string, point: int): string {
    if point <= 0 then "0." + Zeros(-point) + digits
    else if point >= |digits| then digits + Zeros(point - |digits|) + ".0"
    else digits[..point] + "." + digits[point..]
  }

  predicate StaysScientific(point: int) {
    point <= -4 || point > 16
  }

  function Laid(scientific: string): string {
    if StaysScientific(PointOf(scientific)) then scientific
    else SignOf(scientific) + FixedForm(DigitsOf(scientific), PointOf(scientific))
  }

  // --- cutting text at a mark -----------------------------------------------------

  lemma {:induction false} CutAt(left: string, mark: char, right: string)
    requires mark !in left
    ensures Before(left + [mark] + right, mark) == left
    ensures After(left + [mark] + right, mark) == right
  {
    var text := left + [mark] + right;
    if left != [] {
      assert text[1..] == left[1..] + [mark] + right;
      CutAt(left[1..], mark, right);
    }
  }

  lemma {:induction false} NothingToCut(text: string, mark: char)
    requires mark !in text
    ensures Before(text, mark) == text && After(text, mark) == []
  {
    if text != [] {
      NothingToCut(text[1..], mark);
    }
  }

  lemma JoinsFromTheLeft(a: string, b: string, c: string, d: string)
    ensures a + b + c + d == a + (b + c + d)
  {
  }

  lemma {:induction false} CutPieces(text: string, mark: char)
    ensures mark !in Before(text, mark)
    ensures mark in text ==> text == Before(text, mark) + [mark] + After(text, mark)
    ensures mark !in text ==> Before(text, mark) == text
  {
    if text != [] && text[0] != mark {
      var rest := text[1..];
      CutPieces(rest, mark);
      assert text == [text[0]] + rest;
      assert mark in text ==> mark in rest;
      if mark in rest {
        JoinsFromTheLeft([text[0]], Before(rest, mark), [mark], After(rest, mark));
      }
    }
  }

  lemma {:induction false} KeptWhole(text: string, mark: char)
    requires mark !in text
    ensures Without(text, mark) == text
  {
    if text != [] {
      KeptWhole(text[..|text| - 1], mark);
      assert text == text[..|text| - 1] + [text[|text| - 1]];
    }
  }

  lemma {:induction false} WithoutOfJoined(left: string, right: string, mark: char)
    ensures Without(left + right, mark) == Without(left, mark) + Without(right, mark)
    decreases |right|
  {
    if right == [] {
      assert left + right == left;
    } else {
      var whole := left + right;
      assert whole[..|whole| - 1] == left + right[..|right| - 1];
      WithoutOfJoined(left, right[..|right| - 1], mark);
    }
  }

  lemma DigitsAreNoMark(digits: string, mark: char)
    requires forall i :: 0 <= i < |digits| ==> IsDigit(digits[i])
    requires !IsDigit(mark)
    ensures mark !in digits
  {
  }

  // --- the value of joined digits -------------------------------------------------

  lemma {:induction false} PositionalOfJoined(left: string, right: string)
    ensures Positional(10, left + right) == Positional(10, left) * Power(10, |right|) + Positional(10, right)
    decreases |right|
  {
    if right == [] {
      assert left + right == left;
    } else {
      var init, whole := right[..|right| - 1], left + right;
      assert whole[..|whole| - 1] == left + init;
      PositionalOfJoined(left, init);
      OneMoreDigit(Positional(10, left), Power(10, |init|), Positional(10, init), Digit(right[|right| - 1]));
    }
  }

  lemma OneMoreDigit(high: int, weight: int, low: int, digit: int)
    ensures (high * weight + low) * 10 + digit == high * (10 * weight) + (low * 10 + digit)
  {
  }

  lemma {:induction false} ZerosWeighNothing(count: nat)
    ensures Positional(10, Zeros(count)) == 0
  {
    if count > 0 {
      assert Zeros(count)[..count - 1] == Zeros(count - 1);
      ZerosWeighNothing(count - 1);
    }
  }

  // --- what the scientific text says ----------------------------------------------

  lemma MantissaParts(mantissa: string)
    requires IsMantissa(mantissa)
    ensures IsDecimalDigits(Without(mantissa, '.'))
    ensures Before(mantissa, '.') + After(mantissa, '.') == Without(mantissa, '.')
    ensures |Before(mantissa, '.')| == 1
  {
    if |mantissa| == 1 {
      NothingToCut(mantissa, '.');
      KeptWhole(mantissa, '.');
      assert mantissa + [] == mantissa;
    } else {
      PointedMantissa(mantissa[0], mantissa[2..]);
      assert mantissa == [mantissa[0]] + ['.'] + mantissa[2..];
    }
  }

  lemma PointedMantissa(lead: char, fraction: string)
    requires IsDigit(lead) && IsDecimalDigits(fraction)
    ensures var mantissa := [lead] + ['.'] + fraction;
            && Before(mantissa, '.') == [lead] && After(mantissa, '.') == fraction
            && Without(mantissa, '.') == [lead] + fraction
  {
    CutAt([lead], '.', fraction);
    DigitsAreNoMark(fraction, '.');
    KeptWhole([lead], '.');
    KeptWhole(fraction, '.');
    WithoutOfJoined([lead] + ['.'], fraction, '.');
    WithoutOfJoined([lead], ['.'], '.');
    assert Without(['.'], '.') == [];
  }

  lemma ScientificParts(text: string)
    requires IsScientific(text)
    ensures IsDecimalDigits(DigitsOf(text))
    ensures ReadDecimal(text)
         == Figure(SignOf(text) == "-", Positional(10, DigitsOf(text)), PointOf(text) - |DigitsOf(text)|)
  {
    MantissaParts(Before(Unsigned(text), 'e'));
  }

  // --- what the fixed text says ---------------------------------------------------

  function Pointed(negative: bool, whole: string, fraction: string): string {
    (if negative then "-" else "") + (whole + "." + fraction)
  }

  lemma FixedPieces(negative: bool, whole: string, fraction: string)
    requires IsDecimalDigits(whole) && IsDecimalDigits(fraction)
    ensures var text := Pointed(negative, whole, fraction);
            && IsFixed(text)
            && 'e' !in text && '.' in text
            && ReadDecimal(text) == Figure(negative, Positional(10, whole + fraction), -|fraction|)
            && After(Unsigned(text), '.') == fraction
            && SignOf(text) == (if negative then "-" else "")
  {
    var body := whole + "." + fraction;
    var text := Pointed(negative, whole, fraction);
    assert SignOf(text) == (if negative then "-" else "");
    assert Unsigned(text) == body;
    assert text[|SignOf(text)| + |whole|] == '.';
    assert body[|whole|] == '.';
    DigitsAreNoMark(whole, '.');
    DigitsAreNoMark(whole, 'e');
    DigitsAreNoMark(fraction, 'e');
    NothingToCut(body, 'e');
    CutAt(whole, '.', fraction);
  }

  // How FixedForm splits at its point.
  function Whole(digits: string, point: int): string {
    if point <= 0 then "0" else if point >= |digits| then digits + Zeros(point - |digits|) else digits[..point]
  }

  function Fraction(digits: string, point: int): string {
    if point <= 0 then Zeros(-point) + digits else if point >= |digits| then "0" else digits[point..]
  }

  lemma FixedFormSplits(digits: string, point: int)
    requires IsDecimalDigits(digits)
    ensures FixedForm(digits, point) == Whole(digits, point) + "." + Fraction(digits, point)
    ensures IsDecimalDigits(Whole(digits, point)) && IsDecimalDigits(Fraction(digits, point))
  {
    if point <= 0 {
      assert "0." == "0" + ".";
    } else if point >= |digits| {
      assert ".0" == "." + "0";
    }
  }

  lemma LeadingZerosAddNothing(digits: string, count: nat)
    ensures Positional(10, "0" + (Zeros(count) + digits)) == Positional(10, digits)
  {
    assert "0" + (Zeros(count) + digits) == Zeros(count + 1) + digits;
    ZerosWeighNothing(count + 1);
    PositionalOfJoined(Zeros(count + 1), digits);
  }

  lemma TrailingZerosShift(digits: string, count: nat)
    ensures Positional(10, (digits + Zeros(count)) + "0") == Positional(10, digits) * Power(10, count + 1)
  {
    assert (digits + Zeros(count)) + "0" == digits + Zeros(count + 1);
    ZerosWeighNothing(count + 1);
    PositionalOfJoined(digits, Zeros(count + 1));
  }

  lemma PointBeforeTheDigits(digits: string, point: int)
    requires point <= 0
    ensures Positional(10, Whole(digits, point) + Fraction(digits, point)) == Positional(10, digits)
    ensures |Fraction(digits, point)| == |digits| - point
  {
    LeadingZerosAddNothing(digits, -point);
  }

  lemma PointAfterTheDigits(digits: string, point: int)
    requires 0 < point && |digits| <= point
    ensures Positional(10, Whole(digits, point) + Fraction(digits, point))
         == Positional(10, digits) * Power(10, point - |digits| + 1)
    ensures |Fraction(digits, point)| == 1
  {
    TrailingZerosShift(digits, point - |digits|);
  }

  lemma PointAmongTheDigits(digits: string, point: int)
    requires 0 < point < |digits|
    ensures Whole(digits, point) + Fraction(digits, point) == digits
    ensures |Fraction(digits, point)| == |digits| - point
  {
  }

  // The digits on either side of the point still make the same number.
  lemma SplitDigitsWeighTheSame(digits: string, point: int, negative: bool)
    ensures SameNumber(
      Figure(negative, Positional(10, digits), point - |digits|),
      Figure(negative, Positional(10, Whole(digits, point) + Fraction(digits, point)), -|Fraction(digits, point)|))
  {
    assert Power(10, 0) == 1;
    if point <= 0 {
      PointBeforeTheDigits(digits, point);
    } else if point >= |digits| {
      PointAfterTheDigits(digits, point);
    } else {
      PointAmongTheDigits(digits, point);
    }
  }

  // --- the layout -----------------------------------------------------------------

  lemma FixedLayout(scientific: string)
    requires IsScientific(scientific) && !StaysScientific(PointOf(scientific))
    ensures var digits, point := DigitsOf(scientific), PointOf(scientific);
            && IsDecimalDigits(digits)
            && IsDecimalDigits(Whole(digits, point)) && IsDecimalDigits(Fraction(digits, point))
            && Laid(scientific)
                 == Pointed(SignOf(scientific) == "-", Whole(digits, point), Fraction(digits, point))
  {
    ScientificParts(scientific);
    FixedFormSplits(DigitsOf(scientific), PointOf(scientific));
  }

  // The text printed denotes the number it was given, with its sign.
  lemma LayoutKeepsTheNumber(scientific: string)
    requires IsScientific(scientific)
    ensures SameNumber(ReadDecimal(scientific), ReadDecimal(Laid(scientific)))
  {
    if StaysScientific(PointOf(scientific)) {
      assert Power(10, 0) == 1;
    } else {
      var digits, point, negative := DigitsOf(scientific), PointOf(scientific), SignOf(scientific) == "-";
      ScientificParts(scientific);
      FixedLayout(scientific);
      FixedPieces(negative, Whole(digits, point), Fraction(digits, point));
      SplitDigitsWeighTheSame(digits, point, negative);
    }
  }

  // An exponent is printed exactly for a point at or below -4 or above 16;
  // any other number has digits on both sides of a point. Either way the text
  // cannot be taken for an int's.
  lemma LayoutChoosesByThePoint(scientific: string)
    requires IsScientific(scientific)
    ensures 'e' in Laid(scientific) <==> StaysScientific(PointOf(scientific))
    ensures StaysScientific(PointOf(scientific)) ==> Laid(scientific) == scientific
    ensures !StaysScientific(PointOf(scientific)) ==> IsFixed(Laid(scientific))
    ensures 'e' in Laid(scientific) || '.' in Laid(scientific)
  {
    if StaysScientific(PointOf(scientific)) {
      var i :| 0 <= i < |Unsigned(scientific)| && Unsigned(scientific)[i] == 'e';
      assert scientific[i + |SignOf(scientific)|] == 'e';
    } else {
      var digits, point := DigitsOf(scientific), PointOf(scientific);
      FixedLayout(scientific);
      FixedPieces(SignOf(scientific) == "-", Whole(digits, point), Fraction(digits, point));
    }
  }

  lemma FractionEndsAsTheDigits(digits: string, point: int)
    requires digits != []
    ensures point < |digits| ==> Fraction(digits, point) != []
    ensures point < |digits| ==> Fraction(digits, point)[|Fraction(digits, point)| - 1] == digits[|digits| - 1]
  {
  }

  lemma FractionIsLaid(scientific: string)
    requires IsScientific(scientific) && !StaysScientific(PointOf(scientific))
    ensures After(Unsigned(Laid(scientific)), '.') == Fraction(DigitsOf(scientific), PointOf(scientific))
  {
    var digits, point := DigitsOf(scientific), PointOf(scientific);
    FixedLayout(scientific);
    FixedPieces(SignOf(scientific) == "-", Whole(digits, point), Fraction(digits, point));
  }

  // No zero is printed that the digits do not need: when the shortest digits
  // end in none, neither does the fraction, but for the single zero that marks
  // a float.
  lemma NoPaddingAfterThePoint(scientific: string)
    requires IsScientific(scientific) && !StaysScientific(PointOf(scientific))
    requires DigitsOf(scientific) != [] && DigitsOf(scientific)[|DigitsOf(scientific)| - 1] != '0'
    ensures var fraction := After(Unsigned(Laid(scientific)), '.');
            fraction != [] && (fraction[|fraction| - 1] == '0' ==> fraction == "0")
  {
    hide Laid, After, Unsigned, StaysScientific, IsScientific;
    FractionIsLaid(scientific);
    FractionEndsAsTheDigits(DigitsOf(scientific), PointOf(scientific));
  }

  // --- printing -------------------------------------------------------------------

  lemma ScanStep(body: string, at: nat)
    requires 'e' in body && at <= |Before(body, 'e')|
    ensures at < |body|
    ensures body[at] == 'e' ==> Before(body, 'e')[..at] == Before(body, 'e') && body[at + 1..] == After(body, 'e')
    ensures body[at] != 'e' ==> at < |Before(body, 'e')|
    ensures body[at] != 'e'
        ==> Without(Before(body, 'e')[..at + 1], '.')
              == Without(Before(body, 'e')[..at], '.') + (if body[at] == '.' then [] else [body[at]])
  {
    var mantissa := Before(body, 'e');
    CutPieces(body, 'e');
    if at < |mantissa| {
      assert mantissa[at] == body[at];
      assert mantissa[..at + 1][..at] == mantissa[..at];
    }
  }

  // Cuts scientific text into its sign, its digits and its exponent.
  method SplitScientific(scientific: string) returns (sign: string, digits: string, exponent: int)
    requires IsScientific(scientific)
    ensures sign == SignOf(scientific)
    ensures digits == DigitsOf(scientific)
    ensures exponent + 1 == PointOf(scientific)
    ensures -1000 < exponent < 1000
  {
    sign := "";
    var index := 0;
    if scientific[index] == '-' {
      sign := "-";
      index := index + 1;
    }
    digits, exponent := ScanDigits(scientific, index, Unsigned(scientific));
  }

  method ScanDigits(scientific: string, start: nat, ghost body: string) returns (digits: string, exponent: int)
    requires start <= |scientific| && scientific[start..] == body
    requires 'e' in body && IsExponent(After(body, 'e'))
    ensures digits == Without(Before(body, 'e'), '.')
    ensures exponent == ExponentValue(After(body, 'e'))
    ensures -1000 < exponent < 1000
  {
    var index := start;
    digits := "";
    exponent := 0;
    ghost var mantissa := Before(body, 'e');
    while true
      invariant start <= index <= start + |mantissa|
      invariant digits == Without(mantissa[..index - start], '.')
      decreases |scientific| - index
    {
      ScanStep(body, index - start);
      var c := scientific[index];
      assert c == body[index - start];
      if c == '.' {
        index := index + 1;
        continue;
      }
      if c != 'e' {
        digits := digits + [c];
        index := index + 1;
        continue;
      }
      assert scientific[index + 1..] == body[index - start + 1..];
      exponent := ReadExponent(scientific, index + 1);
      break;
    }
  }

  method ReadExponent(scientific: string, start: nat) returns (exponent: int)
    requires start <= |scientific|
    requires IsExponent(scientific[start..])
    ensures exponent == ExponentValue(scientific[start..])
    ensures -1000 < exponent < 1000
  {
    var index := start;
    var negative := scientific[index] == '-';
    index := index + 1;
    ghost var text := scientific[index..];
    assert text == scientific[start..][1..];
    var magnitude := 0;
    while index < |scientific|
      invariant start + 1 <= index <= |scientific|
      invariant magnitude == Positional(10, text[..index - start - 1])
      invariant 0 <= magnitude < Power(10, index - start - 1)
    {
      ghost var at := index - start - 1;
      assert text[..at + 1][..at] == text[..at];
      assert IsDigit(text[at]);
      magnitude := magnitude * 10 + (scientific[index] as int - '0' as int);
      index := index + 1;
    }
    assert text[..|text|] == text;
    assert Power(10, 2) == 100 && Power(10, 3) == 1000;
    exponent := if negative then -magnitude else magnitude;
  }

  // float_'s repr. `scientific` is the shortest scientific text that the
  // platform gives for a finite double.
  method Relayout(scientific: string) returns (text: string)
    requires IsScientific(scientific)
    ensures text == Laid(scientific)
  {
    var sign, digits, exponent := SplitScientific(scientific);
    ScientificParts(scientific);
    var point := exponent + 1;
    if point <= -4 || point > 16 {
      return scientific;
    }
    var length := |digits|;
    text := sign;
    if point <= 0 {
      text := text + "0.";
      text := text + Zeros(-point);
      text := text + digits;
      JoinsFromTheLeft(sign, "0.", Zeros(-point), digits);
    } else if point >= length {
      text := text + digits;
      text := text + Zeros(point - length);
      text := text + ".0";
      JoinsFromTheLeft(sign, digits, Zeros(point - length), ".0");
    } else {
      text := text + digits[..point];
      text := text + ".";
      text := text + digits[point..];
      JoinsFromTheLeft(sign, digits[..point], ".", digits[point..]);
    }
  }

  function IntText(n: int): string {
    if n < 0 then "-" + CppText.Decimal(-n) else CppText.Decimal(n)
  }

  function ReprOf(v: FloatValue, scientific: string): string {
    if v.tag == BoolTag then (if v.intValue != 0 then "True" else "False")
    else if v.tag == IntTag then IntText(v.intValue)
    else
      match v.doubleValue
      case NaN => "nan"
      case PosInf => "inf"
      case NegInf => "-inf"
      case Fin(_, _) => Laid(scientific)
  }

  method Repr(v: FloatValue, scientific: string) returns (text: string)
    requires v.tag == FloatTag && v.doubleValue.Fin? ==> IsScientific(scientific)
    ensures text == ReprOf(v, scientific)
  {
    if v.tag == BoolTag {
      return if v.intValue != 0 then "True" else "False";
    }
    if v.IsIntegral() {
      return IntText(v.intValue);
    }
    if v.doubleValue.NaN? {
      return "nan";
    }
    if !v.doubleValue.Fin? {
      return if v.doubleValue.PosInf? then "inf" else "-inf";
    }
    text := Relayout(scientific);
  }

  lemma {:induction false} DecimalReadsBack(n: nat)
    ensures IsDecimalDigits(CppText.Decimal(n))
    ensures Positional(10, CppText.Decimal(n)) == n
  {
    var text := CppText.Decimal(n);
    if n < 10 {
      assert text[..0] == "";
    } else {
      DecimalReadsBack(n / 10);
      assert text[..|text| - 1] == CppText.Decimal(n / 10);
    }
  }

  lemma SignIsSplitOff(digits: string)
    requires IsDecimalDigits(digits)
    ensures SignOf("-" + digits) == "-" && Unsigned("-" + digits) == digits
    ensures SignOf(digits) == "" && Unsigned(digits) == digits
  {
  }

  lemma SignedDigits(text: string, digits: string)
    requires IsDecimalDigits(digits) && Unsigned(text) == digits
    ensures ReadDecimal(text) == Figure(SignOf(text) == "-", Positional(10, digits), 0)
  {
    DigitsAreNoMark(digits, 'e');
    DigitsAreNoMark(digits, '.');
    NothingToCut(digits, 'e');
    NothingToCut(digits, '.');
    assert digits + [] == digits;
  }

  lemma IntTextIsTheInt(n: int)
    ensures ReadDecimal(IntText(n)) == Figure(n < 0, Abs(n), 0)
    ensures 'e' !in IntText(n) && '.' !in IntText(n)
  {
    var digits := CppText.Decimal(Abs(n));
    DecimalReadsBack(Abs(n));
    SignIsSplitOff(digits);
    SignedDigits(IntText(n), digits);
    DigitsAreNoMark(digits, 'e');
    DigitsAreNoMark(digits, '.');
  }

  // What is printed shows the rank held, not the slot's type: an int comes out
  // exact and without a point, whatever its size; a finite float never does.
  lemma PrintingShowsTheRank(v: FloatValue, scientific: string)
    requires v.tag != BoolTag
    requires v.tag == FloatTag ==> v.doubleValue.Fin? && IsScientific(scientific)
    ensures v.tag == IntTag ==> 'e' !in ReprOf(v, scientific) && '.' !in ReprOf(v, scientific)
    ensures v.tag == FloatTag ==> 'e' in ReprOf(v, scientific) || '.' in ReprOf(v, scientific)
    ensures v.tag == IntTag
        ==> ReadDecimal(ReprOf(v, scientific)) == Figure(v.intValue < 0, Abs(v.intValue), 0)
    ensures v.tag == FloatTag ==> SameNumber(ReadDecimal(scientific), ReadDecimal(ReprOf(v, scientific)))
  {
    if v.tag == IntTag {
      IntTextIsTheInt(v.intValue);
      assert ReprOf(v, scientific) == IntText(v.intValue);
    } else {
      assert ReprOf(v, scientific) == Laid(scientific);
      LayoutChoosesByThePoint(scientific);
      LayoutKeepsTheNumber(scientific);
    }
  }
}
