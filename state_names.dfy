/**
 * Decimal numerals in state names: the "q" + i names a link-segment model registers
 * (Java string concatenation of an int) and the "p<digits>" names its history
 * accepts (String.matches("p\\d+") followed by Integer.parseInt).
 */
module StateNames {
  import opened Common

  /** The decimal numeral of n, as Java's string concatenation writes an int: no leading zeros. */
  function Numeral(n: nat): (s: string)
    ensures |s| > 0 && DigitsIn(s, 0, |s|)
    ensures |s| > 1 ==> s[0] != '0'
  {
    if n < 10 then [DigitChar(n)] else Numeral(n / 10) + [DigitChar(n % 10)]
  }

  function DigitChar(d: nat): (c: char)
    requires d < 10
    ensures IsDigit(c) && c as int - '0' as int == d
  {
    ('0' as int + d) as char
  }

  /** The value of a digit string, read most significant digit first; leading zeros are allowed. */
  function DigitsValue(s: string): nat
    requires DigitsIn(s, 0, |s|)
    decreases |s|
  {
    if |s| == 0 then 0 else 10 * DigitsValue(s[..|s| - 1]) + (s[|s| - 1] as int - '0' as int)
  }

  /** The names matching the regular expression p\d+ (whole string, ASCII digits). */
  predicate IsCoordinateName(name: string)
  {
    |name| >= 2 && name[0] == 'p' && DigitsIn(name, 1, |name|)
  }

  /** The coordinate index a "p<digits>" name selects. */
  function CoordinateIndex(name: string): nat
    requires IsCoordinateName(name)
  {
    DigitsValue(name[1..])
  }

  /** Reading back a numeral gives the number it was written from. */
  lemma {:induction false} NumeralRoundTrip(n: nat)
    ensures DigitsValue(Numeral(n)) == n
    decreases n
  {
    if n >= 10 {
      NumeralRoundTrip(n / 10);
      var s := Numeral(n);
      assert s[..|s| - 1] == Numeral(n / 10);
    }
  }

  /** Distinct numbers have distinct numerals. */
  lemma NumeralInjective(m: nat, n: nat)
    requires Numeral(m) == Numeral(n)
    ensures m == n
  {
    NumeralRoundTrip(m);
    NumeralRoundTrip(n);
  }

  /** "p" followed by the numeral of i is the coordinate name that selects coordinate i. */
  lemma CoordinateNameOf(i: nat)
    ensures IsCoordinateName("p" + Numeral(i)) && CoordinateIndex("p" + Numeral(i)) == i
  {
    assert ("p" + Numeral(i))[1..] == Numeral(i);
    NumeralRoundTrip(i);
  }

  /** Leading zeros do not change the coordinate a name selects: "p007" selects coordinate 7. */
  lemma LeadingZeros(name: string)
    requires IsCoordinateName(name)
    ensures IsCoordinateName("p0" + name[1..]) && CoordinateIndex("p0" + name[1..]) == CoordinateIndex(name)
  {
    var digits := name[1..];
    assert ("p0" + digits)[1..] == "0" + digits;
    LeadingZero(digits);
  }

  lemma {:induction false} LeadingZero(s: string)
    requires DigitsIn(s, 0, |s|)
    ensures DigitsIn("0" + s, 0, |s| + 1) && DigitsValue("0" + s) == DigitsValue(s)
    decreases |s|
  {
    if |s| > 0 {
      var t := "0" + s;
      assert t[..|t| - 1] == "0" + s[..|s| - 1];
      LeadingZero(s[..|s| - 1]);
    }
  }
}
