/**
 Printing an amount in cents (internal/crmapi/projects_logic.go): "40 000", "1 234.56". The text is shown in
 error messages and is part of the request hash of an idempotent request, so two amounts must never print alike.
 */
module Money {
  function DigitChar(d: nat): char
    requires d < 10
  {
    '0' + d as char
  }

  /** Decimal digits, without leading zeros. */
  function Digits(n: nat): string {
    if n < 10 then [DigitChar(n)] else Digits(n / 10) + [DigitChar(n % 10)]
  }

  /** Groups of three from the right, with a space between them. */
  function Grouped(digits: string): string {
    if |digits| <= 3 then digits
    else Grouped(digits[..|digits| - 3]) + [' '] + digits[|digits| - 3..]
  }

  function Fraction(frac: nat): string
    requires frac < 100
  {
    ['.', DigitChar(frac / 10), DigitChar(frac % 10)]
  }

  function Formatted(cents: nat): string {
    var whole, frac := Grouped(Digits(cents / 100)), cents % 100;
    if frac == 0 then whole else whole + Fraction(frac)
  }

  /** What the loop has written after `i` digits. */
  function Spaced(digits: string, i: nat): string
    requires i <= |digits|
  {
    if i == 0 then []
    else
      Spaced(digits, i - 1)
      + (if i > 1 && (|digits| - (i - 1)) % 3 == 0 then [' '] else [])
      + [digits[i - 1]]
  }

  method FormatMoneyCents(cents: nat) returns (text: string)
    ensures text == Formatted(cents)
  {
    var whole, frac := cents / 100, cents % 100;
    var digits := Digits(whole);
    text := [];
    for i := 0 to |digits|
      invariant text == Spaced(digits, i)
    {
      if i > 0 && (|digits| - i) % 3 == 0 {
        text := text + [' '];
      }
      text := text + [digits[i]];
    }
    SpacedIsGrouped(digits);
    if frac != 0 {
      text := text + Fraction(frac);
    }
  }

  lemma {:induction false} SpacedSuffix(digits: string, i: nat)
    requires 3 <= |digits| && i <= |digits| - 3
    ensures Spaced(digits, i) == Spaced(digits[..|digits| - 3], i)
  {
    if i > 0 {
      SpacedSuffix(digits, i - 1);
    }
  }

  /** Writing from the left with a look at what remains gives the groups counted from the right. */
  lemma {:induction false} SpacedIsGrouped(digits: string)
    ensures Spaced(digits, |digits|) == Grouped(digits)
  {
    var n := |digits|;
    if n > 3 {
      SpacedSuffix(digits, n - 3);
      SpacedIsGrouped(digits[..n - 3]);
      assert Spaced(digits, n - 2) == Spaced(digits, n - 3) + [' '] + [digits[n - 3]];
      assert Spaced(digits, n - 1) == Spaced(digits, n - 2) + [digits[n - 2]];
      assert digits[n - 3..] == [digits[n - 3]] + [digits[n - 2]] + [digits[n - 1]];
    } else if n > 0 {
      assert Spaced(digits, 1) == [digits[0]];
      assert n > 1 ==> Spaced(digits, 2) == [digits[0], digits[1]];
    }
  }

  // ---- reading it back -----------------------------------------------------------------------

  function DigitValue(c: char): nat {
    if '0' <= c <= '9' then (c - '0') as nat else 0
  }

  function Value(digits: string): nat {
    if digits == [] then 0 else 10 * Value(digits[..|digits| - 1]) + DigitValue(digits[|digits| - 1])
  }

  function WithoutSpaces(text: string): string {
    if text == [] then []
    else WithoutSpaces(text[..|text| - 1]) + (if text[|text| - 1] == ' ' then [] else [text[|text| - 1]])
  }

  /** Drops the group spaces and reads the optional two decimals. */
  function Parse(text: string): nat {
    var t := WithoutSpaces(text);
    var n := |t|;
    if n >= 3 && t[n - 3] == '.' then 100 * Value(t[..n - 3]) + Value(t[n - 2..]) else 100 * Value(t)
  }

  predicate AllDigits(s: string) {
    forall i :: 0 <= i < |s| ==> '0' <= s[i] <= '9'
  }

  lemma {:induction false} DigitsValue(n: nat)
    ensures AllDigits(Digits(n)) && Digits(n) != [] && Value(Digits(n)) == n
  {
    if n < 10 {
      assert Value([DigitChar(n)]) == 10 * Value([]) + n;
    } else {
      DigitsValue(n / 10);
      assert Digits(n)[..|Digits(n)| - 1] == Digits(n / 10);
    }
  }

  lemma {:induction false} WithoutSpacesAppend(a: string, b: string)
    ensures WithoutSpaces(a + b) == WithoutSpaces(a) + WithoutSpaces(b)
  {
    if b == [] {
      assert a + b == a;
    } else {
      var init := b[..|b| - 1];
      assert (a + b)[..|a + b| - 1] == a + init;
      WithoutSpacesAppend(a, init);
    }
  }

  lemma {:induction false} NothingToDrop(s: string)
    requires forall i :: 0 <= i < |s| ==> s[i] != ' '
    ensures WithoutSpaces(s) == s
  {
    if s != [] {
      NothingToDrop(s[..|s| - 1]);
    }
  }

  lemma {:induction false} DropsASpace()
    ensures WithoutSpaces([' ']) == []
  {
    assert [' '][..0] == [];
  }

  lemma {:induction false} GroupsComeApart(digits: string)
    requires AllDigits(digits)
    ensures WithoutSpaces(Grouped(digits)) == digits
  {
    var n := |digits|;
    if n <= 3 {
      NothingToDrop(digits);
    } else {
      var init, last := digits[..n - 3], digits[n - 3..];
      GroupsComeApart(init);
      WithoutSpacesAppend(Grouped(init), [' ']);
      DropsASpace();
      WithoutSpacesAppend(Grouped(init) + [' '], last);
      NothingToDrop(last);
      assert Grouped(digits) == (Grouped(init) + [' ']) + last;
      assert digits == init + last;
    }
  }

  lemma {:induction false} ParseWhole(digits: string)
    requires AllDigits(digits)
    ensures Parse(Grouped(digits)) == 100 * Value(digits)
  {
    GroupsComeApart(digits);
  }

  lemma {:induction false} ParseWithFraction(digits: string, frac: nat)
    requires AllDigits(digits) && frac < 100
    ensures Parse(Grouped(digits) + Fraction(frac)) == 100 * Value(digits) + frac
  {
    var tail := Fraction(frac);
    GroupsComeApart(digits);
    WithoutSpacesAppend(Grouped(digits), tail);
    NothingToDrop(tail);
    var t := digits + tail;
    assert t[..|t| - 3] == digits && t[|t| - 2..] == tail[1..];
    FractionValue(frac);
  }

  /** Reading back what was printed gives the amount. */
  lemma {:induction false} ParseUndoesFormat(cents: nat)
    ensures Parse(Formatted(cents)) == cents
  {
    DigitsValue(cents / 100);
    if cents % 100 == 0 {
      ParseWhole(Digits(cents / 100));
    } else {
      ParseWithFraction(Digits(cents / 100), cents % 100);
    }
  }

  lemma {:induction false} FractionValue(frac: nat)
    requires frac < 100
    ensures Value(Fraction(frac)[1..]) == frac
  {
    var tens, ones := DigitChar(frac / 10), DigitChar(frac % 10);
    assert Fraction(frac)[1..] == [tens, ones];
    assert Value([tens]) == 10 * Value([]) + frac / 10 by { assert [tens][..0] == []; }
    assert [tens, ones][..1] == [tens];
  }

  /** Distinct amounts print differently. */
  lemma {:induction false} FormatIsInjective(a: nat, b: nat)
    requires Formatted(a) == Formatted(b)
    ensures a == b
  {
    ParseUndoesFormat(a);
    ParseUndoesFormat(b);
  }

  /** Every group after the first has exactly three digits. */
  lemma {:induction false} GroupLengths(digits: string, i: nat)
    requires AllDigits(digits) && i < |Grouped(digits)|
    ensures Grouped(digits)[i] == ' ' <==> (|Grouped(digits)| - i) % 4 == 0
  {
    var n := |digits|;
    if n > 3 {
      var head := Grouped(digits[..n - 3]);
      assert |Grouped(digits)| == |head| + 4;
      if i < |head| {
        GroupLengths(digits[..n - 3], i);
        assert Grouped(digits)[i] == head[i];
        assert (|head| + 4 - i) % 4 == (|head| - i) % 4;
      }
    }
  }

  // ---- the printed form ----------------------------------------------------------------------

  /** Two decimals after a point, when there are cents, and none otherwise; before them the amount in whole units. */
  lemma {:induction false} FormIs(cents: nat)
    ensures var text, units := Formatted(cents), Formatted(cents - cents % 100);
            && '.' !in units
            && text == if cents % 100 == 0 then units
                       else units + ['.', '0' + (cents / 10 % 10) as char, '0' + (cents % 10) as char]
  {
    var digits := Digits(cents / 100);
    DigitsValue(cents / 100);
    NoPoint(digits);
    assert (cents - cents % 100) / 100 == cents / 100 && (cents - cents % 100) % 100 == 0;
    assert cents % 100 / 10 == cents / 10 % 10 && cents % 100 % 10 == cents % 10;
  }

  lemma {:induction false} NoPoint(digits: string)
    requires AllDigits(digits)
    ensures '.' !in Grouped(digits)
  {
    if |digits| > 3 {
      NoPoint(digits[..|digits| - 3]);
    }
  }
}
