/** Git's boolean config values: the named words, and integers with a sign, a radix prefix
    and a binary unit (src/git-project.ts, lines 498-601). */
module GitBoolean {
  import opened Options
  import opened AsciiCase
  import opened Numerals

  const SIGNED_LIMIT: nat := 2147483647
  const KELVIN_SIGN: char := '\U{212A}'

  function AsciiLower(text: string): (lowered: string)
    ensures |lowered| == |text|
  {
    if text == "" then "" else [LowerChar(text[0])] + AsciiLower(text[1..])
  }

  /** toLowerCase as far as the units and the radix prefix can tell: besides the ASCII
      letters only the Kelvin sign lowers to one of them. */
  function Lower(c: char): char {
    if c == KELVIN_SIGN then 'k' else LowerChar(c)
  }

  // ---- exact integers ------------------------------------------------------------------

  function Digit(c: char): int {
    if '0' <= c <= '9' then c as int - '0' as int
    else if 'A' <= c <= 'F' then c as int - 55
    else if 'a' <= c <= 'f' then c as int - 87
    else -1
  }

  predicate AreDigits(text: string, base: nat) {
    forall c <- text :: 0 <= Digit(c) < base
  }

  function Magnitude(digits: string, base: nat): nat
    requires AreDigits(digits, base)
  {
    if digits == "" then 0
    else
      InitDigits(digits, base);
      Magnitude(digits[..|digits| - 1], base) * base + Digit(digits[|digits| - 1])
  }

  lemma InitDigits(digits: string, base: nat)
    requires digits != "" && AreDigits(digits, base)
    ensures AreDigits(digits[..|digits| - 1], base) && 0 <= Digit(digits[|digits| - 1]) < base
  {
    assert digits[|digits| - 1] in digits && forall c <- digits[..|digits| - 1] :: c in digits;
  }

  lemma {:induction false} PrefixMagnitude(digits: string, base: nat, i: nat)
    requires AreDigits(digits, base) && base > 0 && i <= |digits|
    ensures AreDigits(digits[..i], base) && Magnitude(digits[..i], base) <= Magnitude(digits, base)
    decreases |digits|
  {
    assert forall c <- digits[..i] :: c in digits;
    if i == |digits| {
      assert digits[..i] == digits;
    } else {
      var init, last := digits[..|digits| - 1], digits[|digits| - 1];
      assert last in digits && forall c <- init :: c in digits;
      assert init[..i] == digits[..i];
      PrefixMagnitude(init, base, i);
      Grows(Magnitude(init, base), base);
    }
  }

  lemma Grows(n: nat, base: nat)
    requires base > 0
    ensures n <= n * base
  {
    assert n * 1 <= n * base;
  }

  lemma NextMagnitude(digits: string, base: nat, i: nat)
    requires i < |digits| && AreDigits(digits[..i], base) && 0 <= Digit(digits[i]) < base
    ensures AreDigits(digits[..i + 1], base)
    ensures Magnitude(digits[..i + 1], base) == Magnitude(digits[..i], base) * base + Digit(digits[i])
  {
    assert digits[..i + 1][..i] == digits[..i];
    forall c <- digits[..i + 1] ensures 0 <= Digit(c) < base {
      assert digits[..i + 1] == digits[..i] + [digits[i]];
    }
  }

  /** The digits with their bound: defined exactly when they are digits of the base whose
      value fits the limit. The accumulator never exceeds the limit, whatever the length. */
  method Accumulate(digits: string, base: nat, limit: nat) returns (magnitude: Option<nat>)
    requires base > 0
    ensures magnitude ==
      if AreDigits(digits, base) && Magnitude(digits, base) <= limit then Some(Magnitude(digits, base)) else None
  {
    var accumulator: nat := 0;
    for i := 0 to |digits|
      invariant AreDigits(digits[..i], base) && accumulator == Magnitude(digits[..i], base) <= limit
    {
      var digit := Digit(digits[i]);
      if digit < 0 || digit >= base {
        assert digits[i] in digits;
        return None;
      }
      NextMagnitude(digits, base, i);
      FitsIffGuard(accumulator, base, digit, limit);
      if accumulator > (limit - digit) / base {
        if AreDigits(digits, base) { PrefixMagnitude(digits, base, i + 1); }
        return None;
      }
      accumulator := accumulator * base + digit;
    }
    assert digits[..|digits|] == digits;
    return Some(accumulator);
  }

  lemma FitsIffGuard(accumulator: nat, base: nat, digit: nat, limit: nat)
    requires base > 0
    ensures accumulator <= (limit - digit) / base <==> accumulator * base + digit <= limit
  {
    var quotient := (limit - digit) / base;
    assert limit - digit == quotient * base + (limit - digit) % base;
    if accumulator <= quotient {
      assert accumulator * base <= quotient * base;
    } else {
      assert (quotient + 1) * base <= accumulator * base;
    }
  }

  // ---- the text of an integer --------------------------------------------------------------

  predicate IsIntegerSpace(c: char) {
    c == ' ' || 9 <= c as int <= 13
  }

  function AfterSpaces(value: string, cursor: nat): (after: nat)
    requires cursor <= |value|
    ensures cursor <= after <= |value|
    decreases |value| - cursor
  {
    if cursor < |value| && IsIntegerSpace(value[cursor]) then AfterSpaces(value, cursor + 1) else cursor
  }

  function Scale(value: string): nat {
    if value == "" then 1
    else match Lower(value[|value| - 1])
      case 'k' => 1024
      case 'm' => 1024 * 1024
      case 'g' => 1024 * 1024 * 1024
      case _ => 1
  }

  datatype Literal = Literal(digits: string, base: nat, scale: nat)

  /** Past leading spaces and a sign. */
  function NumberStart(value: string): (start: nat)
    ensures start <= |value|
  {
    var blank := AfterSpaces(value, 0);
    if blank < |value| && (value[blank] == '+' || value[blank] == '-') then blank + 1 else blank
  }

  /** Before the unit. */
  function NumberEnd(value: string): (end: nat)
    ensures end <= |value|
  {
    if Scale(value) > 1 then |value| - 1 else |value|
  }

  /** The digits, base and scale of a number: a leading 0 before more characters means
      octal, 0x hexadecimal. */
  function LiteralAt(value: string, start: nat, end: nat, scale: nat): Option<Literal>
    requires end <= |value|
  {
    if start >= end then None
    else if value[start] == '0' && start + 1 < end then
      if Lower(value[start + 1]) != 'x' then Some(Literal(value[start..end], 8, scale))
      else if start + 2 >= end then None
      else Some(Literal(value[start + 2..end], 16, scale))
    else Some(Literal(value[start..end], 10, scale))
  }

  function LiteralOf(value: string): Option<Literal> {
    LiteralAt(value, NumberStart(value), NumberEnd(value), Scale(value))
  }

  /** Exact integer arithmetic: whether the magnitude times the unit fits a signed 32-bit
      integer, and then whether it is nonzero. */
  function ExactTruth(literal: Literal): Option<bool> {
    if AreDigits(literal.digits, literal.base)
      && Magnitude(literal.digits, literal.base) * literal.scale <= SIGNED_LIMIT
    then Some(Magnitude(literal.digits, literal.base) != 0) else None
  }

  function IntegerTruth(value: string): Option<bool> {
    var literal := LiteralOf(value);
    if literal.None? then None else ExactTruth(literal.value)
  }

  lemma ScaledLimit(magnitude: nat, scale: nat)
    requires scale > 0
    ensures magnitude <= SIGNED_LIMIT / scale <==> magnitude * scale <= SIGNED_LIMIT
  {
    FitsIffGuard(magnitude, scale, 0, SIGNED_LIMIT);
  }

  method LiteralTruth(literal: Literal) returns (truth: Option<bool>)
    requires literal.base > 0 && literal.scale > 0
    ensures truth == ExactTruth(literal)
  {
    var magnitude := Accumulate(literal.digits, literal.base, SIGNED_LIMIT / literal.scale);
    if AreDigits(literal.digits, literal.base) { ScaledLimit(Magnitude(literal.digits, literal.base), literal.scale); }
    if magnitude.None? { return None; }
    return Some(magnitude.value != 0);
  }

  method ParseGitBooleanInteger(value: string) returns (truth: Option<bool>)
    ensures truth == IntegerTruth(value)
  {
    var cursor: nat := 0;
    while cursor < |value| && IsIntegerSpace(value[cursor])
      invariant cursor <= |value| && AfterSpaces(value, cursor) == AfterSpaces(value, 0)
    {
      cursor := cursor + 1;
    }
    if cursor < |value| && (value[cursor] == '+' || value[cursor] == '-') {
      cursor := cursor + 1;
    }
    assert cursor == NumberStart(value);
    var end: nat := |value|;
    var scale: nat := 1;
    if end > 0 {
      var unit := Lower(value[end - 1]);
      if unit == 'k' {
        scale := 1024;
        end := end - 1;
      } else if unit == 'm' {
        scale := 1024 * 1024;
        end := end - 1;
      } else if unit == 'g' {
        scale := 1024 * 1024 * 1024;
        end := end - 1;
      }
    }
    assert end == NumberEnd(value) && scale == Scale(value);
    truth := NumberTruth(value, cursor, end, scale);
  }

  method NumberTruth(value: string, start: nat, end: nat, scale: nat) returns (truth: Option<bool>)
    requires end <= |value| && scale > 0
    ensures truth ==
      var literal := LiteralAt(value, start, end, scale);
      if literal.None? then None else ExactTruth(literal.value)
  {
    var cursor := start;
    if cursor >= end { return None; }
    var base: nat := 10;
    if value[cursor] == '0' && cursor + 1 < end {
      var prefix := Lower(value[cursor + 1]);
      if prefix == 'x' {
        base := 16;
        cursor := cursor + 2;
      } else {
        base := 8;
      }
    }
    if cursor >= end { return None; }
    var digits := value[cursor..end];
    assert LiteralAt(value, start, end, scale) == Some(Literal(digits, base, scale));
    truth := LiteralTruth(Literal(digits, base, scale));
  }

  // ---- rendered integers ------------------------------------------------------------------

  lemma DigitOfChar(d: nat)
    requires d < 16
    ensures Digit(DigitChar(d)) == d && (DigitChar(d) == '0' ==> d == 0)
    ensures DigitChar(d) != 'x' && DigitChar(d) !in {'k', 'm', 'g', '+', '-'} && !IsIntegerSpace(DigitChar(d))
  {
  }

  /** The last digit of a spelled numeral, and what stands before it. */
  lemma {:induction false} LastDigit(n: nat, base: nat, text: string) returns (q: nat, d: nat)
    requires 2 <= base <= 16 && IsSpellingOf(text, Numeral(n, base))
    ensures text != "" && d < base && n == q * base + d && q <= n
    ensures IsLowerOf(DigitChar(d), text[|text| - 1])
    ensures if n < base then q == 0 && |text| == 1 else 0 < q < n && IsSpellingOf(text[..|text| - 1], Numeral(q, base))
  {
    if n < base {
      q, d := 0, n;
    } else {
      q, d := n / base, n % base;
      QuotientPositive(n, base);
      var numeral := Numeral(n, base);
      assert numeral == Numeral(q, base) + [DigitChar(d)];
      assert numeral[..|numeral| - 1] == Numeral(q, base);
    }
  }

  /** A character of a numeral cannot be taken for anything around it. */
  predicate IsInert(c: char) {
    Lower(c) !in {'x', 'k', 'm', 'g'} && c !in {'+', '-'} && !IsIntegerSpace(c)
  }

  /** A numeral in small or capital letters has its number as magnitude. */
  lemma {:induction false} NumeralMagnitude(n: nat, base: nat, text: string)
    requires 2 <= base <= 16 && IsSpellingOf(text, Numeral(n, base))
    ensures AreDigits(text, base) && Magnitude(text, base) == n
    decreases n
  {
    var q, d := LastDigit(n, base, text);
    var init, last := text[..|text| - 1], text[|text| - 1];
    SpelledDigit(d, last);
    if n < base {
      NoMagnitude(base);
    } else {
      NumeralMagnitude(q, base, init);
    }
    MagnitudeSnoc(init, last, base);
    assert init + [last] == text;
  }

  lemma NoMagnitude(base: nat)
    ensures AreDigits("", base) && Magnitude("", base) == 0
  {
  }

  /** Its first and last characters stand for themselves, and only zero starts with a 0. */
  lemma {:induction false} NumeralEnds(n: nat, base: nat, text: string)
    requires 2 <= base <= 16 && IsSpellingOf(text, Numeral(n, base))
    ensures text != "" && IsInert(text[0]) && IsInert(text[|text| - 1])
    ensures text[0] == '0' ==> n == 0 && |text| == 1
    decreases n
  {
    var q, d := LastDigit(n, base, text);
    SpelledDigit(d, text[|text| - 1]);
    if n >= base { NumeralEnds(q, base, text[..|text| - 1]); }
  }

  lemma QuotientPositive(n: nat, base: nat)
    requires 2 <= base <= n
    ensures 0 < n / base < n && n == n / base * base + n % base
  {
  }

  lemma SpelledDigit(d: nat, c: char)
    requires d < 16 && IsLowerOf(DigitChar(d), c)
    ensures Digit(c) == d && (c == '0' ==> d == 0)
    ensures IsInert(c)
  {
    DigitOfChar(d);
  }

  lemma MagnitudeSnoc(digits: string, c: char, base: nat)
    requires AreDigits(digits, base) && 0 <= Digit(c) < base
    ensures AreDigits(digits + [c], base) && Magnitude(digits + [c], base) == Magnitude(digits, base) * base + Digit(c)
  {
    assert (digits + [c])[..|digits|] == digits;
  }

  predicate IsUnit(unit: string) {
    unit == "" || (|unit| == 1 && Lower(unit[0]) in {'k', 'm', 'g'})
  }

  lemma {:induction false} AfterLeadingSpaces(value: string, spaces: string, cursor: nat)
    requires cursor <= |spaces| < |value| && spaces == value[..|spaces|]
    requires forall c <- spaces :: IsIntegerSpace(c)
    requires !IsIntegerSpace(value[|spaces|])
    ensures AfterSpaces(value, cursor) == |spaces|
    decreases |spaces| - cursor
  {
    if cursor < |spaces| {
      assert value[cursor] == spaces[cursor];
      AfterLeadingSpaces(value, spaces, cursor + 1);
    }
  }

  /** The numeral with the prefix of its base. */
  predicate IsPrefixFor(prefix: string, base: nat) {
    (base == 10 && prefix == "") || (base == 8 && prefix == "0") || (base == 16 && prefix in {"0x", "0X"})
  }

  predicate IsScaleOf(scale: nat, unit: string) {
    || (unit == "" && scale == 1)
    || (unit in {"k", "K"} && scale == 1024)
    || (unit in {"m", "M"} && scale == 1_048_576)
    || (unit in {"g", "G"} && scale == 1_073_741_824)
  }

  lemma UnitScale(scale: nat, unit: string)
    requires IsScaleOf(scale, unit)
    ensures IsUnit(unit) && Scale(unit) == scale
  {
  }

  /** An integer of any size, decimal, octal or hexadecimal, in any letter case, with leading
      spaces, a sign and a unit is read as that integer in that unit. */
  lemma {:induction false} RenderedInteger(spaces: string, sign: string, base: nat, prefix: string, n: nat, text: string,
                                           unit: string, scale: nat)
    requires (forall c <- spaces :: IsIntegerSpace(c)) && sign in {"", "+", "-"} && IsScaleOf(scale, unit)
    requires IsPrefixFor(prefix, base) && IsSpellingOf(text, Numeral(n, base))
    ensures IntegerTruth(spaces + sign + (prefix + text) + unit) == if n * scale <= 0x7FFF_FFFF then Some(n != 0) else None
  {
    var literal := Literal(if base == 8 then prefix + text else text, base, scale);
    NumeralMagnitude(n, base, text);
    NumeralEnds(n, base, text);
    LiteralOfRendered(spaces, sign, prefix, text, unit, literal);
    LeadingZero(text, base);
    ExactTruthOf(literal, n);
  }

  lemma {:induction false} LiteralOfRendered(spaces: string, sign: string, prefix: string, text: string, unit: string,
                                             literal: Literal)
    requires (forall c <- spaces :: IsIntegerSpace(c)) && sign in {"", "+", "-"} && IsScaleOf(literal.scale, unit)
    requires IsPrefixFor(prefix, literal.base) && text != "" && IsInert(text[0]) && IsInert(text[|text| - 1])
    requires literal.base == 10 ==> text[0] == '0' ==> |text| == 1
    requires literal.digits == if literal.base == 8 then prefix + text else text
    ensures LiteralOf(spaces + sign + (prefix + text) + unit) == Some(literal)
  {
    UnitScale(literal.scale, unit);
    var value := spaces + sign + (prefix + text) + unit;
    var start, end := RenderedParts(spaces, sign, prefix + text, unit, value);
    RenderedLiteral(spaces + sign, literal.base, prefix, text, unit, value, start, end, literal);
  }

  lemma ExactTruthOf(literal: Literal, n: nat)
    requires AreDigits(literal.digits, literal.base) && Magnitude(literal.digits, literal.base) == n
    ensures ExactTruth(literal) == if n * literal.scale <= 0x7FFF_FFFF then Some(n != 0) else None
  {
  }

  lemma {:induction false} RenderedLiteral(before: string, base: nat, prefix: string, text: string, unit: string,
                        value: string, start: nat, end: nat, literal: Literal)
    requires IsPrefixFor(prefix, base) && text != "" && Lower(text[0]) != 'x'
    requires base == 10 ==> text[0] == '0' ==> |text| == 1
    requires value == before + (prefix + text) + unit && start == |before| && end == |value| - |unit|
    requires literal == Literal(if base == 8 then prefix + text else text, base, literal.scale)
    ensures LiteralAt(value, start, end, literal.scale) == Some(literal)
  {
    var number := prefix + text;
    assert value[start..end] == number;
    assert forall i | 0 <= i < |number| :: value[start + i] == number[i];
    if base == 16 {
      assert value[start] == '0' && Lower(value[start + 1]) == 'x';
      assert value[start + 2..end] == text;
    } else if base == 8 {
      assert value[start] == '0' && value[start + 1] == text[0];
    } else {
      assert number == text && value[start] == text[0];
    }
  }

  lemma {:induction false} LeadingZero(text: string, base: nat)
    requires base > 0 && AreDigits(text, base)
    ensures AreDigits("0" + text, base) && Magnitude("0" + text, base) == Magnitude(text, base)
    decreases |text|
  {
    var all := "0" + text;
    if text == "" {
      assert all[..0] == [];
      assert Magnitude(all[..0], base) == 0;
    } else {
      var init := text[..|text| - 1];
      InitDigits(text, base);
      LeadingZero(init, base);
      assert all[..|all| - 1] == "0" + init;
    }
  }

  lemma {:induction false} RenderedParts(spaces: string, sign: string, number: string, unit: string, value: string)
    returns (start: nat, end: nat)
    requires (forall c <- spaces :: IsIntegerSpace(c)) && sign in {"", "+", "-"} && IsUnit(unit)
    requires number != "" && !IsIntegerSpace(number[0]) && number[0] !in {'+', '-'}
    requires Lower(number[|number| - 1]) !in {'k', 'm', 'g'}
    requires value == spaces + sign + number + unit
    ensures start == |spaces + sign| == NumberStart(value) && end == |value| - |unit| == NumberEnd(value)
    ensures Scale(value) == Scale(unit)
  {
    start, end := |spaces + sign|, |value| - |unit|;
    assert value[|value| - 1] == (if unit == "" then number[|number| - 1] else unit[0]);
    assert NumberStart(value) == start by {
      assert value[|spaces|] == (if sign == "" then number[0] else sign[0]);
      AfterLeadingSpaces(value, spaces, 0);
    }
  }

  // ---- booleans ------------------------------------------------------------------------------

  function Truth(value: string): Option<bool> {
    var text := AsciiLower(value);
    if text in {"", "false", "no", "off"} then Some(false)
    else if text in {"true", "yes", "on"} then Some(true)
    else IntegerTruth(value)
  }

  method ParseGitBoolean(value: string) returns (truth: Option<bool>)
    ensures truth == Truth(value)
  {
    if |value| <= 5 {
      var text := AsciiLower(value);
      if text == "" || text == "false" || text == "no" || text == "off" { return Some(false); }
      if text == "true" || text == "yes" || text == "on" { return Some(true); }
    }
    truth := ParseGitBooleanInteger(value);
  }

  lemma {:induction false} LowerOfSpelling(value: string, text: string)
    requires IsSpellingOf(value, text)
    ensures AsciiLower(value) == text
    decreases |text|
  {
    if text != "" { LowerOfSpelling(value[1..], text[1..]); }
  }

  /** The named words count in any letter case. */
  lemma NamedWords(value: string, word: string)
    requires IsSpellingOf(value, word)
    ensures word in {"", "false", "no", "off"} ==> Truth(value) == Some(false)
    ensures word in {"true", "yes", "on"} ==> Truth(value) == Some(true)
  {
    LowerOfSpelling(value, word);
  }
}
