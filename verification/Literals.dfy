/** Integer literals: four independent scanners over the same lexemes (the guard fold, the
    emitter, the 64-bit bound and the literal index), each against Python's grammar
    (section 2.4.5 of the Python Language Reference) and the value it denotes. */
module Literals {
  import opened Options
  import opened Characters
  import opened Numbers
  import opened Values
  import opened Syntax

  type uint64 = n: int | 0 <= n <= 0xFFFF_FFFF_FFFF_FFFF

  function Digit(c: char): int {
    if '0' <= c <= '9' then c as int - '0' as int
    else if 'a' <= c <= 'f' then c as int - 'a' as int + 10
    else if 'A' <= c <= 'F' then c as int - 'A' as int + 10
    else -1
  }

  // ---------- Python's decimal integers ----------

  /** (["_"] digit)*, the digits being all zero when `zeros` is set. */
  predicate DigitTail(s: string, zeros: bool) {
    if s == [] then true
    else if s[0] == '_' then |s| >= 2 && IsTailDigit(s[1], zeros) && DigitTail(s[2..], zeros)
    else IsTailDigit(s[0], zeros) && DigitTail(s[1..], zeros)
  }

  predicate IsTailDigit(c: char, zeros: bool) {
    IsDigit(c) && (zeros ==> c == '0')
  }

  predicate IsPythonDecimal(s: string) {
    |s| > 0 && IsDigit(s[0]) && DigitTail(s[1..], s[0] == '0')
  }

  function WithoutUnderscores(s: string): string {
    if s == [] then []
    else WithoutUnderscores(s[..|s| - 1]) + (if s[|s| - 1] == '_' then [] else [s[|s| - 1]])
  }

  /** Positional value of digit characters, most significant first. */
  function Positional(base: nat, digits: string): int {
    if digits == [] then 0
    else Positional(base, digits[..|digits| - 1]) * base + Digit(digits[|digits| - 1])
  }

  function DecimalValue(s: string): int {
    Positional(10, WithoutUnderscores(s))
  }

  /** How C++ reads an unprefixed integer literal: a leading zero selects octal, and then
      a digit above seven is an error. */
  function CppReading(digits: string): Option<int> {
    if |digits| > 1 && digits[0] == '0' then
      if forall i :: 0 <= i < |digits| ==> '0' <= digits[i] <= '7' then Some(Positional(8, digits)) else None
    else Some(Positional(10, digits))
  }

  // ---------- The emitter's test ----------

  predicate IsDecimalDigits(s: string) {
    s != [] && forall i :: 0 <= i < |s| ==> IsDigit(s[i])
  }

  predicate UnderscoresAreInterior(s: string) {
    forall i :: 0 <= i < |s| && s[i] == '_' ==> 0 < i < |s| - 1 && IsDigit(s[i - 1]) && IsDigit(s[i + 1])
  }

  predicate LeadingZeroIsTranslatable(digits: string) {
    digits == [] || digits[0] != '0' || forall i :: 0 <= i < |digits| ==> digits[i] == '0'
  }

  predicate Translatable(lexeme: string) {
    && IsDecimalDigits(WithoutUnderscores(lexeme))
    && UnderscoresAreInterior(lexeme)
    && LeadingZeroIsTranslatable(WithoutUnderscores(lexeme))
  }

  method StripUnderscores(lexeme: string) returns (digits: string)
    ensures digits == WithoutUnderscores(lexeme)
  {
    digits := [];
    for i := 0 to |lexeme|
      invariant digits == WithoutUnderscores(lexeme[..i])
    {
      if lexeme[i] != '_' {
        digits := digits + [lexeme[i]];
      }
      assert lexeme[..i + 1][..i] == lexeme[..i];
    }
    assert lexeme[..|lexeme|] == lexeme;
  }

  method AreDecimalDigits(text: string) returns (b: bool)
    ensures b == IsDecimalDigits(text)
  {
    if text == [] {
      return false;
    }
    for i := 0 to |text|
      invariant forall k :: 0 <= k < i ==> IsDigit(text[k])
    {
      if text[i] < '0' || text[i] > '9' {
        return false;
      }
    }
    return true;
  }

  method AreUnderscoresInterior(lexeme: string) returns (b: bool)
    ensures b == UnderscoresAreInterior(lexeme)
  {
    for i := 0 to |lexeme|
      invariant forall k :: 0 <= k < i && lexeme[k] == '_' ==>
        0 < k < |lexeme| - 1 && IsDigit(lexeme[k - 1]) && IsDigit(lexeme[k + 1])
    {
      if lexeme[i] == '_' {
        if i == 0 || i + 1 == |lexeme| {
          return false;
        }
        if !IsDigit(lexeme[i - 1]) || !IsDigit(lexeme[i + 1]) {
          return false;
        }
      }
    }
    return true;
  }

  /** Stripping keeps the other characters: any property of the characters holds after
      exactly if it held of everything but underscores before. */
  lemma {:induction false} StrippedCharacters(s: string, keep: char -> bool)
    ensures Every(WithoutUnderscores(s), keep) <==> Every(s, c => c == '_' || keep(c))
  {
    if s != [] {
      var n := |s| - 1;
      var p, w := WithoutUnderscores(s[..n]), WithoutUnderscores(s);
      StrippedCharacters(s[..n], keep);
      EverySnoc(s[..n], s[n], c => c == '_' || keep(c));
      assert s == s[..n] + [s[n]];
      if s[n] != '_' {
        EverySnoc(p, s[n], keep);
      } else {
        assert w == p;
      }
    }
  }

  ghost predicate Every(s: string, keep: char -> bool) {
    forall i :: 0 <= i < |s| ==> keep(s[i])
  }

  lemma EverySnoc(s: string, c: char, keep: char -> bool)
    ensures Every(s + [c], keep) <==> Every(s, keep) && keep(c)
  {
    var t := s + [c];
    assert t[|s|] == c;
    assert forall i :: 0 <= i < |s| ==> t[i] == s[i];
  }

  lemma {:induction false} StrippedHead(s: string)
    ensures s != [] && s[0] != '_' ==> WithoutUnderscores(s) != [] && WithoutUnderscores(s)[0] == s[0]
    ensures (forall i :: 0 <= i < |s| ==> s[i] == '_') ==> WithoutUnderscores(s) == []
  {
    if |s| > 0 {
      StrippedHead(s[..|s| - 1]);
    }
  }

  predicate TailShape(s: string, zeros: bool) {
    && (forall i :: 0 <= i < |s| ==> s[i] == '_' || IsTailDigit(s[i], zeros))
    && (forall i :: 0 <= i < |s| && s[i] == '_' ==> i + 1 < |s| && s[i + 1] != '_')
  }

  lemma {:induction false} TailGrammar(s: string, zeros: bool)
    ensures DigitTail(s, zeros) <==> TailShape(s, zeros)
    decreases |s|
  {
    if s == [] {
    } else if s[0] == '_' {
      if |s| >= 2 {
        TailGrammar(s[2..], zeros);
        assert forall i :: 2 <= i < |s| ==> s[i] == s[2..][i - 2];
        if TailShape(s[2..], zeros) && IsTailDigit(s[1], zeros) {
          forall i | 0 <= i < |s| && s[i] == '_' ensures i + 1 < |s| && s[i + 1] != '_' {
            if i >= 2 { assert s[2..][i - 2] == '_'; assert s[2..][i - 1] != '_'; }
          }
        }
        if TailShape(s, zeros) {
          forall i | 0 <= i < |s| - 2 && s[2..][i] == '_' ensures i + 1 < |s| - 2 && s[2..][i + 1] != '_' {
            assert s[i + 2] == '_';
          }
        }
      }
    } else {
      TailGrammar(s[1..], zeros);
      assert forall i :: 1 <= i < |s| ==> s[i] == s[1..][i - 1];
      if TailShape(s[1..], zeros) && IsTailDigit(s[0], zeros) {
        forall i | 0 <= i < |s| && s[i] == '_' ensures i + 1 < |s| && s[i + 1] != '_' {
          assert s[1..][i - 1] == '_';
          assert s[1..][i] != '_';
        }
      }
      if TailShape(s, zeros) {
        forall i | 0 <= i < |s| - 1 && s[1..][i] == '_' ensures i + 1 < |s| - 1 && s[1..][i + 1] != '_' {
          assert s[i + 1] == '_';
        }
      }
    }
  }

  lemma DecimalShape(s: string)
    ensures IsPythonDecimal(s) <==> |s| > 0 && IsDigit(s[0]) && TailShape(s, s[0] == '0')
  {
    if |s| > 0 {
      TailGrammar(s[1..], s[0] == '0');
      TailGrammar(s, s[0] == '0');
    }
  }

  lemma SomeOther(s: string) returns (j: nat)
    requires WithoutUnderscores(s) != []
    ensures j < |s| && s[j] != '_'
  {
    StrippedHead(s);
    j :| 0 <= j < |s| && s[j] != '_';
  }

  /** The emitter translates exactly Python's decimal integer literals. */
  lemma TranslatableIsPythonDecimal(lexeme: string)
    ensures Translatable(lexeme) <==> IsPythonDecimal(lexeme)
  {
    DecimalShape(lexeme);
    StrippedCharacters(lexeme, IsDigit);
    StrippedCharacters(lexeme, c => c == '0');
    StrippedHead(lexeme);
    if Translatable(lexeme) {
      var j := SomeOther(lexeme);
      assert lexeme[0] != '_';
      forall i | 0 <= i < |lexeme| && lexeme[i] == '_' ensures i + 1 < |lexeme| && lexeme[i + 1] != '_' {
        assert IsDigit(lexeme[i + 1]);
      }
    }
    if IsPythonDecimal(lexeme) {
      forall i | 0 <= i < |lexeme| && lexeme[i] == '_'
        ensures 0 < i < |lexeme| - 1 && IsDigit(lexeme[i - 1]) && IsDigit(lexeme[i + 1])
      {
        var j := i - 1;
        assert j + 1 == i;
        assert lexeme[j] != '_';
      }
    }
  }

  lemma {:induction false} ZerosAreZero(base: nat, digits: string)
    requires forall i :: 0 <= i < |digits| ==> digits[i] == '0'
    ensures Positional(base, digits) == 0
  {
    if digits != [] {
      ZerosAreZero(base, digits[..|digits| - 1]);
    }
  }

  lemma {:induction false} ZeroMeansZeros(digits: string)
    requires forall i :: 0 <= i < |digits| ==> IsDigit(digits[i])
    ensures Positional(10, digits) >= 0
    ensures Positional(10, digits) == 0 ==> forall i :: 0 <= i < |digits| ==> digits[i] == '0'
  {
    if digits != [] {
      ZeroMeansZeros(digits[..|digits| - 1]);
      assert digits == digits[..|digits| - 1] + [digits[|digits| - 1]];
    }
  }

  /** No octal reading: the digits the emitter writes denote Python's value to C++ as well. */
  lemma EmittedDigitsKeepTheValue(lexeme: string)
    requires Translatable(lexeme)
    ensures CppReading(WithoutUnderscores(lexeme)) == Some(DecimalValue(lexeme))
    ensures DecimalValue(lexeme) >= 0
  {
    var digits := WithoutUnderscores(lexeme);
    ZeroMeansZeros(digits);
    if |digits| > 1 && digits[0] == '0' {
      ZerosAreZero(8, digits);
      ZerosAreZero(10, digits);
    }
  }

  // ---------- The guard fold ----------

  datatype GuardVerdict = AlwaysTrue | AlwaysFalse | Unknown

  function DecimalGuard(lexeme: string): GuardVerdict {
    if !IsPythonDecimal(lexeme) then Unknown
    else if DecimalValue(lexeme) == 0 then AlwaysFalse
    else AlwaysTrue
  }

  method DecimalIntGuardVerdict(lexeme: string) returns (verdict: GuardVerdict)
    ensures verdict == DecimalGuard(lexeme)
  {
    DecimalShape(lexeme);
    StrippedCharacters(lexeme, IsDigit);
    StrippedCharacters(lexeme, c => c == '0');
    var firstDigit := '\0';
    var allZero := true;
    var previousWasUnderscore := false;
    for i := 0 to |lexeme|
      invariant forall k :: 0 <= k < i ==> lexeme[k] == '_' || IsDigit(lexeme[k])
      invariant forall k :: 0 <= k < i && lexeme[k] == '_' ==> k + 1 == i || lexeme[k + 1] != '_'
      invariant previousWasUnderscore == (i > 0 && lexeme[i - 1] == '_')
      invariant if i == 0 then firstDigit == '\0' else firstDigit == lexeme[0] && IsDigit(firstDigit)
      invariant allZero == forall k :: 0 <= k < i ==> lexeme[k] == '_' || lexeme[k] == '0'
    {
      var character := lexeme[i];
      if character == '_' {
        if firstDigit == '\0' || previousWasUnderscore {
          return Unknown;
        }
        previousWasUnderscore := true;
        continue;
      }
      if character < '0' || character > '9' {
        return Unknown;
      }
      previousWasUnderscore := false;
      if firstDigit == '\0' {
        firstDigit := character;
      }
      if character != '0' {
        allZero := false;
      }
    }
    if previousWasUnderscore {
      return Unknown;
    }
    if firstDigit == '\0' {
      return Unknown;
    }
    var digits := WithoutUnderscores(lexeme);
    if allZero {
      ZerosAreZero(10, digits);
      return AlwaysFalse;
    }
    if firstDigit == '0' {
      return Unknown;
    }
    ZeroMeansZeros(digits);
    return AlwaysTrue;
  }

  /** literal_guard_verdict: decided only for True, False, None, decimal ints and `not` of these. */
  function GuardOf(e: Expr): GuardVerdict {
    match e
    case Unary(op, operand) =>
      if op != Not then Unknown
      else
        (match GuardOf(operand)
         case AlwaysTrue => AlwaysFalse
         case AlwaysFalse => AlwaysTrue
         case Unknown => Unknown)
    case Const(BoolLit(b)) => if b then AlwaysTrue else AlwaysFalse
    case Const(NoneLit) => AlwaysFalse
    case Const(IntLit(lexeme)) => DecimalGuard(lexeme)
    case _ => Unknown
  }

  // ---------- Magnitude ----------

  function BaseOf(digits: string): (base: nat)
    ensures base in {2, 8, 10, 16}
  {
    if |digits| >= 2 && digits[0] == '0' then
      if digits[1] == 'x' || digits[1] == 'X' then 16
      else if digits[1] == 'o' || digits[1] == 'O' then 8
      else if digits[1] == 'b' || digits[1] == 'B' then 2
      else 10
    else 10
  }

  /** The digits after any base prefix. */
  function Payload(digits: string): string {
    if BaseOf(digits) == 10 then digits else digits[2..]
  }

  predicate WellFormed(digits: string, base: nat) {
    forall i :: 0 <= i < |digits| ==> 0 <= Digit(digits[i]) < base
  }

  predicate IsIntegerLexeme(lexeme: string) {
    var digits := WithoutUnderscores(lexeme);
    Payload(digits) != [] && WellFormed(Payload(digits), BaseOf(digits))
  }

  function IntegerValue(lexeme: string): int {
    var digits := WithoutUnderscores(lexeme);
    Positional(BaseOf(digits), Payload(digits))
  }

  lemma PositionalStep(base: nat, digits: string, n: nat)
    requires n < |digits|
    ensures Positional(base, digits[..n + 1]) == Positional(base, digits[..n]) * base + Digit(digits[n])
  {
    assert digits[..n + 1][..n] == digits[..n];
  }

  lemma {:induction false} PositionalGrows(base: nat, digits: string, n: nat)
    requires n <= |digits| && base >= 2 && WellFormed(digits, base)
    ensures 0 <= Positional(base, digits[..n]) <= Positional(base, digits)
    decreases |digits| - n
  {
    PositionalNonNegative(base, digits[..n]);
    if n == |digits| {
      assert digits[..n] == digits;
    } else {
      PositionalGrows(base, digits, n + 1);
      PositionalStep(base, digits, n);
      MulCommutesMonotone(base, Positional(base, digits[..n]));
    }
  }

  lemma MulCommutesMonotone(base: nat, p: int)
    requires base >= 1 && p >= 0
    ensures p * base >= p
  {
    MulMonotone(1, base, p);
    assert base * p == p * base;
  }

  lemma {:induction false} PositionalNonNegative(base: nat, digits: string)
    requires base >= 1 && WellFormed(digits, base)
    ensures Positional(base, digits) >= 0
  {
    if digits != [] {
      var p := Positional(base, digits[..|digits| - 1]);
      PositionalNonNegative(base, digits[..|digits| - 1]);
      MulCommutesMonotone(base, p);
    }
  }

  /** One turn of the accumulation: the test refuses exactly when the longer prefix exceeds
      the limit, and otherwise the accumulator holds that prefix's value. */
  lemma NextPrefix(base: nat, payload: string, n: nat, value: int, limit: int)
    requires base >= 2 && limit >= 0 && n < |payload|
    requires WellFormed(payload[..n + 1], base) && value == Positional(base, payload[..n])
    ensures Positional(base, payload[..n + 1]) == value * base + Digit(payload[n])
    ensures Exceeds(value, Digit(payload[n]), base, limit) <==> Positional(base, payload[..n + 1]) > limit
  {
    assert payload[..n + 1][n] == payload[n];
    assert WellFormed(payload[..n], base) by {
      forall i | 0 <= i < n ensures 0 <= Digit(payload[..n][i]) < base {
        assert payload[..n][i] == payload[..n + 1][i];
      }
    }
    PositionalNonNegative(base, payload[..n]);
    PositionalStep(base, payload, n);
    NextDigitTest(value, Digit(payload[n]), base, limit);
  }

  /** The overflow test, made without computing the next value. */
  predicate Exceeds(value: int, digit: int, base: nat, limit: int)
    requires base >= 2
  {
    value > limit / base || (value == limit / base && digit > limit % base)
  }

  lemma LongerPrefixExceeds(base: nat, payload: string, n: nat, limit: int)
    requires base >= 2 && n <= |payload|
    requires Positional(base, payload[..n]) > limit
    ensures forall m :: n <= m <= |payload| && WellFormed(payload[..m], base) ==> Positional(base, payload[..m]) > limit
  {
    forall m | n <= m <= |payload| && WellFormed(payload[..m], base) ensures Positional(base, payload[..m]) > limit {
      assert payload[..m][..n] == payload[..n];
      PositionalGrows(base, payload[..m], n);
    }
  }

  const TWO_TO_63: int := 0x8000_0000_0000_0000

  /** The overflow test made before the accumulator moves is exact. */
  lemma NextDigitTest(value: int, digit: int, base: nat, limit: int)
    requires base >= 2 && 0 <= digit < base && value >= 0 && limit >= 0
    ensures Exceeds(value, digit, base, limit) <==> value * base + digit > limit
  {
    var q, r := limit / base, limit % base;
    assert limit == q * base + r;
    if value > q {
      MulMonotone(q + 1, value, base);
    } else if value < q {
      MulMonotone(value + 1, q, base);
    }
  }

  lemma NoWrap(value: int, digit: int, base: nat, limit: int)
    requires base >= 2 && 0 <= value && 0 <= digit <= 15 && limit >= 0
    requires !Exceeds(value, digit, base, limit)
    ensures value * base + digit <= limit + 15
  {
    var q, r := limit / base, limit % base;
    assert limit == q * base + r;
    if value < q {
      MulMonotone(value + 1, q, base);
    }
  }

  /** integer_literal_fits_64_bits: exact for every well-formed lexeme in every base; a
      character it cannot read ends the test in the lexeme's favour. */
  method IntegerLiteralFits64Bits(lexeme: string, allowTwoTo63: bool) returns (fits: bool)
    ensures IsIntegerLexeme(lexeme) ==> fits == (IntegerValue(lexeme) <= Limit(allowTwoTo63))
    ensures UnreadableWithin(WithoutUnderscores(lexeme), Limit(allowTwoTo63)) ==> fits
  {
    var digits := StripUnderscores(lexeme);
    fits := PayloadFits(Payload(digits), BaseOf(digits), Limit(allowTwoTo63));
  }

  /** Its accumulating loop, after the base prefix. The accumulator is 64 bits wide and
      never wraps. */
  method PayloadFits(payload: string, base: nat, limit: uint64) returns (fits: bool)
    requires 2 <= base <= 16 && limit <= TWO_TO_63
    ensures WellFormed(payload, base) ==> fits == (Positional(base, payload) <= limit)
    ensures PayloadUnreadableWithin(payload, base, limit) ==> fits
  {
    var value: uint64 := 0;
    for n := 0 to |payload|
      invariant value <= limit + 15
      invariant forall k :: 0 <= k < n ==> Digit(payload[k]) >= 0
      invariant WellFormed(payload[..n], base) ==> value == Positional(base, payload[..n]) && value <= limit
    {
      var digit: int := Digit(payload[n]);
      if digit < 0 {
        return true;
      }
      assert payload[..n + 1][..n] == payload[..n];
      ghost var readable := WellFormed(payload[..n + 1], base);
      if readable {
        PrefixWellFormed(payload, n, n + 1, base);
        NextPrefix(base, payload, n, value, limit);
      }
      if Exceeds(value, digit, base, limit) {
        NothingLongerFits(payload, n, base, limit);
        return false;
      }
      NoWrap(value, digit, base, limit);
      value := value * base + digit;
    }
    assert payload[..|payload|] == payload;
    fits := true;
  }

  /** Nothing that starts with a prefix above the limit is within it. */
  lemma NothingLongerFits(payload: string, n: nat, base: nat, limit: int)
    requires base >= 2 && n < |payload|
    requires forall k :: 0 <= k <= n ==> Digit(payload[k]) >= 0
    requires WellFormed(payload[..n + 1], base) ==> Positional(base, payload[..n + 1]) > limit
    ensures WellFormed(payload, base) ==> Positional(base, payload) > limit
    ensures !PayloadUnreadableWithin(payload, base, limit)
  {
    forall m | n < m <= |payload| && WellFormed(payload[..m], base)
      ensures Positional(base, payload[..m]) > limit
    {
      PrefixWellFormed(payload, n + 1, m, base);
      LongerPrefixExceeds(base, payload, n + 1, limit);
    }
    assert payload[..|payload|] == payload;
  }

  lemma WellFormedSnoc(payload: string, n: nat, base: nat)
    requires n < |payload| && WellFormed(payload[..n], base) && 0 <= Digit(payload[n]) < base
    ensures WellFormed(payload[..n + 1], base)
  {
    var longer := payload[..n + 1];
    forall i | 0 <= i < |longer| ensures 0 <= Digit(longer[i]) < base {
      if i < n { assert longer[i] == payload[..n][i]; }
    }
  }

  lemma PrefixWellFormed(payload: string, n: nat, m: nat, base: nat)
    requires n <= m <= |payload| && WellFormed(payload[..m], base)
    ensures WellFormed(payload[..n], base)
  {
    forall i | 0 <= i < n ensures 0 <= Digit(payload[..n][i]) < base {
      assert payload[..n][i] == payload[..m][i];
    }
  }

  function Limit(allowTwoTo63: bool): int {
    if allowTwoTo63 then TWO_TO_63 else TWO_TO_63 - 1
  }

  ghost predicate PayloadUnreadableWithin(payload: string, base: nat, limit: int) {
    exists n :: 0 <= n < |payload| && Digit(payload[n]) < 0 && WellFormed(payload[..n], base) &&
      Positional(base, payload[..n]) <= limit
  }

  ghost predicate UnreadableWithin(digits: string, limit: int) {
    PayloadUnreadableWithin(Payload(digits), BaseOf(digits), limit)
  }

  /** The int a chain of signs over an integer literal denotes. */
  function SignedLiteral(e: Expr): Option<int> {
    match e
    case Const(IntLit(lexeme)) => if IsIntegerLexeme(lexeme) then Some(IntegerValue(lexeme)) else None
    case Unary(UnaryMinus, operand) =>
      var inner := SignedLiteral(operand);
      if inner.Some? then Some(-inner.value) else None
    case Unary(UnaryPlus, operand) => SignedLiteral(operand)
    case _ => None
  }

  /** What a literal index must be: a bare bool, or a signed literal inside int64. */
  function LiteralIndex(e: Expr): Option<int> {
    match e
    case Const(BoolLit(b)) => Some(if b then 1 else 0)
    case _ =>
      var signed := SignedLiteral(e);
      if signed.Some? && FitsInt64(signed.value) then signed else None
  }

  function Negate(v: Option<int>, negated: bool): Option<int> {
    if v.Some? && negated then Some(-v.value) else v
  }

  /** literal_integer_index: the exact signed value through any chain of signs, and nothing
      when it leaves int64 or the lexeme cannot be read. */
  method LiteralIntegerIndex(index: Expr) returns (r: Option<int64>)
    ensures r == LiteralIndex(index)
  {
    if index.Const? && index.lit.BoolLit? {
      return Some(if index.lit.b then 1 else 0);
    }
    var operand := index;
    var negated := false;
    while operand.Unary?
      invariant SignedLiteral(index) == Negate(SignedLiteral(operand), negated)
      decreases operand
    {
      if operand.uop == UnaryMinus {
        negated := !negated;
      } else if operand.uop != UnaryPlus {
        return None;
      }
      operand := operand.operand;
    }
    if !operand.Const? || !operand.lit.IntLit? {
      return None;
    }
    var magnitude := ReadMagnitude(operand.lit.lexeme, if negated then TWO_TO_63 else TWO_TO_63 - 1);
    if magnitude == None {
      return None;
    }
    var value: int := magnitude.value;
    if !negated {
      return Some(value);
    }
    if value == TWO_TO_63 {
      return Some(INT64_MIN);
    }
    var result: int64 := -value;
    return Some(result);
  }

  /** The magnitude of an unsigned lexeme, when it can be read and stays within the limit. */
  method ReadMagnitude(lexeme: string, limit: uint64) returns (r: Option<uint64>)
    requires limit <= TWO_TO_63
    ensures IsIntegerLexeme(lexeme) ==> IntegerValue(lexeme) >= 0
    ensures r == if IsIntegerLexeme(lexeme) && IntegerValue(lexeme) <= limit then Some(IntegerValue(lexeme)) else None
  {
    var digits := StripUnderscores(lexeme);
    if Payload(digits) == [] {
      return None;
    }
    r := ReadPayload(Payload(digits), BaseOf(digits), limit);
  }

  /** Its accumulating loop, which declines a digit outside the base and any value beyond
      the limit. */
  method ReadPayload(payload: string, base: nat, limit: uint64) returns (r: Option<uint64>)
    requires 2 <= base <= 16 && limit <= TWO_TO_63
    ensures WellFormed(payload, base) ==> Positional(base, payload) >= 0
    ensures r == if WellFormed(payload, base) && Positional(base, payload) <= limit
                 then Some(Positional(base, payload)) else None
  {
    var value: uint64 := 0;
    for n := 0 to |payload|
      invariant WellFormed(payload[..n], base)
      invariant value == Positional(base, payload[..n])
      invariant value <= limit
    {
      var digit: int := Digit(payload[n]);
      if digit < 0 || digit >= base {
        return None;
      }
      WellFormedSnoc(payload, n, base);
      NextPrefix(base, payload, n, value, limit);
      if Exceeds(value, digit, base, limit) {
        LongerPrefixExceeds(base, payload, n + 1, limit);
        assert payload[..|payload|] == payload;
        return None;
      }
      value := value * base + digit;
    }
    assert payload[..|payload|] == payload;
    r := Some(value);
  }
}
