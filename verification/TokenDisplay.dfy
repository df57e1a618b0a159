/** Token counts rounded to two decimals of the smallest unit that keeps them below a thousand. */
module TokenDisplay {
  import opened Texts

  const SUFFIXES := "KMBT"

  function Divisor(unit: nat): (d: nat)
    requires unit < 4
    ensures d > 0
  {
    if unit == 0 then 1_000 else if unit == 1 then 1_000_000 else if unit == 2 then 1_000_000_000 else 1_000_000_000_000
  }

  /** Hundredths of a unit, half rounded up. */
  function Hundredths(count: nat, unit: nat): nat
    requires unit < 4
  {
    (count * 100 + Divisor(unit) / 2) / Divisor(unit)
  }

  /** The first unit whose rounded mantissa stays below a thousand, or the last unit. */
  function UnitFrom(count: nat, unit: nat): (u: nat)
    requires unit < 4
    ensures unit <= u < 4
    ensures u < 3 ==> Hundredths(count, u) < 100_000
    ensures forall v :: unit <= v < u ==> Hundredths(count, v) >= 100_000
    decreases 4 - unit
  {
    if Hundredths(count, unit) < 100_000 || unit == 3 then unit else UnitFrom(count, unit + 1)
  }

  function Unit(count: nat): nat { UnitFrom(count, 0) }

  /** A hundred times the count that is shown. */
  function Shown(count: nat): nat {
    if count < 1_000 then count * 100 else Hundredths(count, Unit(count)) * Divisor(Unit(count))
  }

  // ----- Rounding -----

  lemma RoundedIn(count: nat, unit: nat)
    requires unit < 4
    ensures 2 * (Hundredths(count, unit) * Divisor(unit)) <= 2 * (count * 100) + Divisor(unit)
    ensures 2 * (count * 100) <= 2 * (Hundredths(count, unit) * Divisor(unit)) + Divisor(unit)
  {
    if unit == 0 {
    } else if unit == 1 {
    } else if unit == 2 {
    } else {
    }
  }

  /** The shown value is within half of a hundredth of the unit. */
  lemma RoundingBound(count: nat)
    requires count >= 1_000
    ensures 2 * Shown(count) <= 2 * (count * 100) + Divisor(Unit(count))
    ensures 2 * (count * 100) <= 2 * Shown(count) + Divisor(Unit(count))
  {
    hide Hundredths, Divisor;
    RoundedIn(count, Unit(count));
  }

  /** The mantissa is at least one, and below a thousand for every unit below the last. */
  lemma MantissaRange(count: nat)
    requires count >= 1_000
    ensures 100 <= Hundredths(count, Unit(count)) && (Unit(count) < 3 ==> Hundredths(count, Unit(count)) <= 99_999)
  {
    var u := Unit(count);
    if u > 0 { assert Hundredths(count, u - 1) >= 100_000; }
  }

  lemma HundredthsMonotone(small: nat, large: nat, unit: nat)
    requires small <= large && unit < 4
    ensures Hundredths(small, unit) <= Hundredths(large, unit)
  {
  }

  lemma UnitMonotone(small: nat, large: nat)
    requires small <= large
    ensures Unit(small) <= Unit(large)
  {
    if Unit(large) < Unit(small) {
      HundredthsMonotone(small, large, Unit(large));
    }
  }

  lemma Product(small: nat, large: nat, d: nat)
    requires small <= large
    ensures small * d <= large * d
  {
  }

  lemma UnitsApart(small: nat, large: nat)
    requires small < large < 4
    ensures 1_000 * Divisor(small) <= Divisor(large)
  {
  }

  /** A larger count is never shown as a smaller value, within a unit or across units. */
  lemma ShownIsMonotone(small: nat, large: nat)
    requires small <= large
    ensures Shown(small) <= Shown(large)
  {
    if large >= 1_000 {
      var (u, v) := (Unit(small), Unit(large));
      MantissaRange(large);
      Product(100, Hundredths(large, v), Divisor(v));
      if small >= 1_000 {
        UnitMonotone(small, large);
        MantissaRange(small);
        HundredthsMonotone(small, large, u);
        hide Hundredths, Unit;
        Product(Hundredths(small, u), Hundredths(large, u), Divisor(u));
        if u < v {
          UnitsApart(u, v);
          hide Divisor;
          Product(Hundredths(small, u), 99_999, Divisor(u));
        }
      }
    }
  }

  // ----- The text -----

  function Stripped(text: string, c: char): (r: string)
    ensures r <= text && (r == [] || r[|r| - 1] != c) && forall k :: |r| <= k < |text| ==> text[k] == c
  {
    if text == [] || text[|text| - 1] != c then text else Stripped(text[..|text| - 1], c)
  }

  function TwoDigits(n: nat): (r: string)
    requires n < 100
    ensures |r| == 2 && Digit(r[0]) && Digit(r[1])
  {
    [(n / 10 + '0' as int) as char, (n % 10 + '0' as int) as char]
  }

  function Padded(hundredths: nat): string { Show(hundredths / 100) + "." + TwoDigits(hundredths % 100) }

  function Mantissa(hundredths: nat): string { Stripped(Stripped(Padded(hundredths), '0'), '.') }

  /** The value of the digits after a decimal point. */
  function Fraction(digits: string): real {
    if digits == [] then 0.0 else ((digits[0] as int - '0' as int) as real + Fraction(digits[1..])) / 10.0
  }

  /** The text is a decimal numeral with this value. */
  ghost predicate Denotes(text: string, value: real) {
    || (Digits(text) && value == Number(text) as real)
    || exists whole: string, digits: string ::
         Digits(whole) && Digits(digits) && text == whole + "." + digits && value == Number(whole) as real + Fraction(digits)
  }

  lemma FractionOfTwo(n: nat)
    requires n < 100
    ensures Fraction(TwoDigits(n)) == n as real / 100.0
  {
    var d := TwoDigits(n);
    assert d[1..] == [d[1]] && [d[1]][1..] == [];
    assert Fraction([]) == 0.0;
    assert Fraction([d[1]]) == (n % 10) as real / 10.0;
    assert Fraction(d) == ((n / 10) as real + (n % 10) as real / 10.0) / 10.0;
    assert n == n / 10 * 10 + n % 10;
    assert n as real == (n / 10) as real * 10.0 + (n % 10) as real;
  }

  lemma {:induction false} TrailingZero(digits: string)
    ensures Fraction(digits + "0") == Fraction(digits)
  {
    if digits == [] {
      assert digits + "0" == "0" && "0"[1..] == [];
    } else {
      assert (digits + "0")[1..] == digits[1..] + "0";
      TrailingZero(digits[1..]);
    }
  }

  lemma {:induction false} ZerosStripped(digits: string)
    ensures Fraction(Stripped(digits, '0')) == Fraction(digits)
  {
    if digits != [] && digits[|digits| - 1] == '0' {
      assert digits == digits[..|digits| - 1] + "0";
      TrailingZero(digits[..|digits| - 1]);
      ZerosStripped(digits[..|digits| - 1]);
    }
  }

  lemma {:induction false} StripsOnlyTheTail(head: string, tail: string, c: char)
    requires head != [] && head[|head| - 1] != c
    ensures Stripped(head + tail, c) == head + Stripped(tail, c)
  {
    if tail == [] {
      assert head + tail == head;
    } else {
      assert (head + tail)[..|head + tail| - 1] == head + tail[..|tail| - 1];
      StripsOnlyTheTail(head, tail[..|tail| - 1], c);
    }
  }

  /** Stripping zeros and a bare point never changes the value, and leaves no trailing zero or point. */
  lemma MantissaKeepsValue(hundredths: nat)
    ensures Denotes(Mantissa(hundredths), hundredths as real / 100.0)
    ensures '.' in Mantissa(hundredths) ==> Mantissa(hundredths)[|Mantissa(hundredths)| - 1] != '0'
  {
    var whole, digits := Show(hundredths / 100), TwoDigits(hundredths % 100);
    var kept := Stripped(digits, '0');
    StripsOnlyTheTail(whole + ".", digits, '0');
    ZerosStripped(digits);
    FractionOfTwo(hundredths % 100);
    assert hundredths == hundredths / 100 * 100 + hundredths % 100;
    assert (hundredths / 100) as real + (hundredths % 100) as real / 100.0 == hundredths as real / 100.0;
    if kept == [] {
      assert whole + "." + kept == whole + ".";
      assert Digit(whole[|whole| - 1]);
      StripsOnlyTheTail(whole, ".", '.');
      assert Stripped(".", '.') == [] && whole + [] == whole;
      assert Mantissa(hundredths) == whole;
      assert forall k :: 0 <= k < |whole| ==> Digit(whole[k]);
    } else {
      assert Digit(kept[|kept| - 1]);
      StripsOnlyTheTail(whole + "." + kept, "", '.');
      assert Mantissa(hundredths) == whole + "." + kept;
      assert forall k :: 0 <= k < |kept| ==> kept[k] == digits[k];
      assert Digits(whole) && Digits(kept);
    }
  }

  /** What a unit's letter stands for. */
  ghost predicate StandsFor(letter: char, magnitude: nat) {
    (letter, magnitude) in {('K', 1_000), ('M', 1_000_000), ('B', 1_000_000_000), ('T', 1_000_000_000_000)}
  }

  /** A numeral and a unit whose product is what is shown, within half of a hundredth of the unit of the count. */
  ghost predicate Tells(text: string, count: nat) {
    exists letter: char, magnitude: nat, numeral: string, value: real ::
      && StandsFor(letter, magnitude) && text == numeral + [letter] && Denotes(numeral, value) && Near(value, magnitude, count)
      && 100.0 * (value * magnitude as real) == Shown(count) as real
  }

  /** A count below a thousand is shown as it is. */
  lemma ShownExactly(count: nat)
    requires count < 1_000
    ensures Shown(count) == 100 * count && Number(Show(count)) == count
  {
  }

  ghost predicate Near(value: real, unit: nat, count: nat) {
    -(unit as real) <= 200.0 * (value * unit as real - count as real) <= unit as real
  }

  lemma NearFromHundredths(hundredths: nat, unit: nat, count: nat)
    requires 2 * (hundredths * unit) <= 2 * (count * 100) + unit && 2 * (count * 100) <= 2 * (hundredths * unit) + unit
    ensures Near(hundredths as real / 100.0, unit, count) && 100.0 * (hundredths as real / 100.0 * unit as real) == (hundredths * unit) as real
  {
    var h, u := hundredths as real, unit as real;
    assert (hundredths * unit) as real == h * u;
    assert 100.0 * (h / 100.0 * u) == h * u;
    assert (2 * (hundredths * unit)) as real == 2.0 * (h * u) && (2 * (count * 100)) as real == 200.0 * count as real;
  }

  lemma MantissaTells(count: nat)
    requires count >= 1_000
    ensures Tells(Mantissa(Hundredths(count, Unit(count))) + [SUFFIXES[Unit(count)]], count)
  {
    hide Mantissa, Denotes, Hundredths, Near;
    var unit := Unit(count);
    assert StandsFor(SUFFIXES[unit], Divisor(unit));
    hide Divisor;
    var hundredths := Hundredths(count, unit);
    RoundedIn(count, unit);
    NearFromHundredths(hundredths, Divisor(unit), count);
    MantissaKeepsValue(hundredths);
  }

  /** The text shows the count to within half of a hundredth of the first unit whose rounded mantissa stays below a thousand. */
  method FormatTokens(count: nat) returns (text: string)
    ensures count < 1_000 ==> text == Show(count)
    ensures count >= 1_000 ==> text == Mantissa(Hundredths(count, Unit(count))) + [SUFFIXES[Unit(count)]] && Tells(text, count)
  {
    hide Tells;
    if count < 1_000 { return Show(count); }
    MantissaTells(count);
    var divisor, unit := 1_000, 0;
    var hundredths := (count * 100 + divisor / 2) / divisor;
    while !(hundredths < 100_000 || unit == 3)
      invariant 0 <= unit < 4 && divisor == Divisor(unit) && hundredths == Hundredths(count, unit)
      invariant UnitFrom(count, unit) == Unit(count)
      decreases 4 - unit
    {
      divisor := divisor * 1_000;
      unit := unit + 1;
      hundredths := (count * 100 + divisor / 2) / divisor;
    }
    text := Mantissa(hundredths) + [SUFFIXES[unit]];
  }
}
