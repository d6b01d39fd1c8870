/**
 * The validation a float input panel applies to its text: empty text is "not set",
 * text outside the number pattern is "invalid format", a well-formed number outside
 * the property's range is "out of range", and everything else is accepted.
 *
 * The pattern is the regular expression
 *   \s*-??[0-9]*[.]??[0-9]*([eE][-|\+]??[0-9]+)??\s*
 * matched against the whole text. It is written here twice: as a greedy scanner
 * (`FormatOk`) and as a decomposition of the text into the pattern's seven parts
 * (`MatchesPattern`), and the two are proved to accept the same texts.
 */
module FloatPanel {
  import opened Common

  /** Java's \s: space, tab, newline, vertical tab, form feed, carriage return. */
  predicate IsSpace(c: char)
  {
    c == ' ' || c == '\t' || c == '\n' || c == '\U{B}' || c == '\U{C}' || c == '\r'
  }

  predicate IsExponentMark(c: char)
  {
    c == 'e' || c == 'E'
  }

  /** The character class [-|\+]: a minus, a vertical bar or a plus. */
  predicate IsExponentSign(c: char)
  {
    c == '-' || c == '|' || c == '+'
  }

  predicate SpacesIn(s: string, i: nat, j: nat)
    requires i <= j <= |s|
  {
    forall m | i <= m < j :: IsSpace(s[m])
  }

  /** Where an exponent's digits start when the exponent mark is at i: past an optional sign. */
  function ExponentDigitsStart(s: string, i: nat): nat
    requires i < |s|
  {
    if i + 1 < |s| && IsExponentSign(s[i + 1]) then i + 2 else i + 1
  }

  /** s[i..j] is an exponent: e or E, an optional sign, then at least one digit. */
  predicate ExponentIn(s: string, i: nat, j: nat)
    requires i <= j <= |s|
  {
    i < j && IsExponentMark(s[i]) && ExponentDigitsStart(s, i) < j && DigitsIn(s, ExponentDigitsStart(s, i), j)
  }

  // ---------------------------------------------------------------------------
  // The pattern as a decomposition
  // ---------------------------------------------------------------------------

  /**
   * Where the parts of the pattern end: leading spaces end at `spaces`, the minus
   * sign at `sign`, the integer digits at `integer`, the point at `point`, the
   * fraction digits at `fraction` and the exponent at `exponent`; trailing spaces
   * run from there to the end.
   */
  datatype Cuts = Cuts(spaces: nat, sign: nat, integer: nat, point: nat, fraction: nat, exponent: nat)

  predicate FitsPattern(s: string, k: Cuts)
  {
    && k.spaces <= k.sign <= k.integer <= k.point <= k.fraction <= k.exponent <= |s|
    && SpacesIn(s, 0, k.spaces)
    && (k.sign == k.spaces || (k.sign == k.spaces + 1 && s[k.spaces] == '-'))
    && DigitsIn(s, k.sign, k.integer)
    && (k.point == k.integer || (k.point == k.integer + 1 && s[k.integer] == '.'))
    && DigitsIn(s, k.point, k.fraction)
    && (k.exponent == k.fraction || ExponentIn(s, k.fraction, k.exponent))
    && SpacesIn(s, k.exponent, |s|)
  }

  /** The whole text matches the pattern. */
  ghost predicate MatchesPattern(s: string)
  {
    exists k :: FitsPattern(s, k)
  }

  // ---------------------------------------------------------------------------
  // The pattern as a greedy scanner
  // ---------------------------------------------------------------------------

  /** The end of the run of spaces starting at i. */
  function SkipSpaces(s: string, i: nat): (j: nat)
    requires i <= |s|
    ensures i <= j <= |s| && SpacesIn(s, i, j) && (j < |s| ==> !IsSpace(s[j]))
    decreases |s| - i
  {
    if i < |s| && IsSpace(s[i]) then SkipSpaces(s, i + 1) else i
  }

  /** The end of the run of digits starting at i. */
  function SkipDigits(s: string, i: nat): (j: nat)
    requires i <= |s|
    ensures i <= j <= |s| && DigitsIn(s, i, j) && (j < |s| ==> !IsDigit(s[j]))
    decreases |s| - i
  {
    if i < |s| && IsDigit(s[i]) then SkipDigits(s, i + 1) else i
  }

  /** Skips one character c at i if it is there. */
  function SkipOne(s: string, i: nat, c: char): (j: nat)
    requires i <= |s|
    ensures j == i || (j == i + 1 && i < |s| && s[i] == c)
    ensures i < |s| && s[i] == c ==> j == i + 1
  {
    if i < |s| && s[i] == c then i + 1 else i
  }

  /** The end of the longest exponent starting at i, or i when none starts there. */
  function SkipExponent(s: string, i: nat): (j: nat)
    requires i <= |s|
    ensures i <= j <= |s|
    ensures j == i || (ExponentIn(s, i, j) && (j < |s| ==> !IsDigit(s[j])))
  {
    if i < |s| && IsExponentMark(s[i]) && ExponentDigitsStart(s, i) < |s| && IsDigit(s[ExponentDigitsStart(s, i)]) then
      SkipDigits(s, ExponentDigitsStart(s, i))
    else
      i
  }

  /** The cuts the greedy scanner finds: each part as long as it can be. */
  function Scan(s: string): (k: Cuts)
    ensures k.spaces <= k.sign <= k.integer <= k.point <= k.fraction <= k.exponent <= |s|
  {
    var spaces := SkipSpaces(s, 0);
    var sign := SkipOne(s, spaces, '-');
    var integer := SkipDigits(s, sign);
    var point := SkipOne(s, integer, '.');
    var fraction := SkipDigits(s, point);
    Cuts(spaces, sign, integer, point, fraction, SkipExponent(s, fraction))
  }

  /** The scanner accepts when only spaces follow the parts it found. */
  predicate FormatOk(s: string)
  {
    SkipSpaces(s, Scan(s).exponent) == |s|
  }

  /** What the scanner accepts matches the pattern. */
  lemma ScanSound(s: string)
    requires FormatOk(s)
    ensures FitsPattern(s, Scan(s))
  {
  }

  /** Text made of spaces only is accepted by the scanner. */
  lemma AllSpacesAccepted(s: string)
    requires SpacesIn(s, 0, |s|)
    ensures FormatOk(s)
  {
    assert SkipSpaces(s, 0) == |s|;
  }

  /**
   * What matches the pattern is accepted by the scanner: whatever the cuts of a
   * match, the greedy scanner reaches the start of its trailing spaces.
   */
  lemma ScanComplete(s: string, k: Cuts)
    requires FitsPattern(s, k)
    ensures FormatOk(s)
  {
    if SpacesIn(s, 0, |s|) {
      AllSpacesAccepted(s);
      return;
    }
    // The leading spaces and the sign end where the match says they do.
    FirstCharacterOfRest(s, k);
    var spaces := SkipSpaces(s, 0);
    assert spaces == k.spaces;
    var sign := SkipOne(s, spaces, '-');
    assert sign == k.sign;
    var integer := SkipDigits(s, sign);
    var point := SkipOne(s, integer, '.');
    var fraction := SkipDigits(s, point);
    assert fraction == k.fraction by {
      NumberEndsAtFraction(s, k);
    }
    ExponentEndsAtMatch(s, k);
  }

  /** The greedy exponent starting where the match's fraction digits end ends where the match's exponent ends. */
  lemma ExponentEndsAtMatch(s: string, k: Cuts)
    requires FitsPattern(s, k)
    ensures SkipExponent(s, k.fraction) == k.exponent
  {
    if k.exponent == k.fraction {
      assert k.fraction == |s| || IsSpace(s[k.fraction]);
    } else {
      assert k.exponent == |s| || IsSpace(s[k.exponent]);
    }
  }

  /**
   * When not everything is spaces, the character at the end of the leading spaces
   * is neither a space nor, unless the sign part holds it, a minus.
   */
  lemma FirstCharacterOfRest(s: string, k: Cuts)
    requires FitsPattern(s, k) && !SpacesIn(s, 0, |s|)
    ensures k.spaces < |s| && !IsSpace(s[k.spaces])
    ensures k.sign == k.spaces ==> s[k.spaces] != '-'
  {
  }

  /** The greedy digits, point and digits end where the match's fraction digits end. */
  lemma NumberEndsAtFraction(s: string, k: Cuts)
    requires FitsPattern(s, k)
    ensures var integer := SkipDigits(s, k.sign);
      SkipDigits(s, SkipOne(s, integer, '.')) == k.fraction
  {
    var integer := SkipDigits(s, k.sign);
    // After the fraction digits comes an exponent mark, a space or the end: never a digit.
    assert k.fraction < |s| ==> !IsDigit(s[k.fraction]);
    if k.point == k.integer + 1 {
      // An explicit point stops the integer digits exactly at it.
      assert integer == k.integer;
    } else if integer <= k.fraction {
      // Without a point the integer and fraction digits form one run.
      assert DigitsIn(s, k.sign, k.fraction);
      assert integer == k.fraction;
    }
  }

  /** The scanner and the pattern accept exactly the same texts. */
  lemma FormatOkMatchesPattern(s: string)
    ensures FormatOk(s) <==> MatchesPattern(s)
  {
    if FormatOk(s) {
      ScanSound(s);
    }
    if MatchesPattern(s) {
      var k :| FitsPattern(s, k);
      ScanComplete(s, k);
    }
  }

  // ---------------------------------------------------------------------------
  // checkValue
  // ---------------------------------------------------------------------------

  datatype TextError = ValueNotSet | InvalidFormat | OutOfRange | NoError

  /** What checkValue does: return a verdict, or throw from Float.parseFloat while checking the range. */
  datatype Verdict = Returned(error: TextError) | NumberFormatThrown

  /**
   * checkValue(textValue). `text` is the text under check (None for null);
   * `panelText` is the panel's current text, which getValue parses; `parse` stands
   * for Float.parseFloat (None where it throws) and `inRange` for the property's
   * range test.
   */
  function CheckValue(text: Option<string>, panelText: string, checkingRange: bool,
                      parse: string -> Option<real>, inRange: real -> bool): (r: Verdict)
    ensures r == Returned(ValueNotSet) <==> text == None || text == Some("")
    ensures r == Returned(InvalidFormat) <==> text != None && text != Some("") && !MatchesPattern(text.value)
    ensures r == NumberFormatThrown <==>
      text != None && text != Some("") && MatchesPattern(text.value) && checkingRange && parse(panelText) == None
    ensures r == Returned(OutOfRange) <==>
      && text != None && text != Some("") && MatchesPattern(text.value) && checkingRange
      && parse(panelText).Some? && !inRange(parse(panelText).value)
    ensures r == Returned(NoError) <==>
      && text != None && text != Some("") && MatchesPattern(text.value)
      && (!checkingRange || (parse(panelText).Some? && inRange(parse(panelText).value)))
  {
    if text == None || text == Some("") then
      Returned(ValueNotSet)
    else
      FormatOkMatchesPattern(text.value);
      if !FormatOk(text.value) then
        Returned(InvalidFormat)
      else if checkingRange then
        match parse(panelText)
        case None => NumberFormatThrown
        case Some(value) => if inRange(value) then Returned(NoError) else Returned(OutOfRange)
      else
        Returned(NoError)
  }

  /** Ordinary decimals match: a minus, integer digits, a point and fraction digits. */
  lemma DecimalMatches(integer: string, fraction: string)
    requires DigitsIn(integer, 0, |integer|) && DigitsIn(fraction, 0, |fraction|)
    ensures MatchesPattern("-" + integer + "." + fraction)
  {
    var t := "-" + integer + "." + fraction;
    var n := |integer|;
    assert forall m | 1 <= m < 1 + n :: t[m] == integer[m - 1];
    assert forall m | 2 + n <= m < |t| :: t[m] == fraction[m - 2 - n];
    assert FitsPattern(t, Cuts(0, 1, 1 + n, 2 + n, |t|, |t|));
  }

  /** Blank text (spaces only) matches: every part of the pattern is optional. */
  lemma BlankTextMatches(s: string)
    requires SpacesIn(s, 0, |s|)
    ensures MatchesPattern(s)
  {
    assert FitsPattern(s, Cuts(|s|, |s|, |s|, |s|, |s|, |s|));
  }

  /** A lone minus sign matches. */
  lemma LoneMinusMatches()
    ensures MatchesPattern("-")
  {
    assert FitsPattern("-", Cuts(0, 1, 1, 1, 1, 1));
  }

  /** A lone point matches. */
  lemma LonePointMatches()
    ensures MatchesPattern(".")
  {
    assert FitsPattern(".", Cuts(0, 0, 0, 1, 1, 1));
  }

  /** An exponent without a mantissa matches. */
  lemma LoneExponentMatches()
    ensures MatchesPattern("e5")
  {
    assert FitsPattern("e5", Cuts(0, 0, 0, 0, 0, 2));
  }

  /** The sign class [-|\+] admits a vertical bar, so "1e|5" matches. */
  lemma BarSignedExponentMatches()
    ensures MatchesPattern("1e|5")
  {
    assert FitsPattern("1e|5", Cuts(0, 0, 1, 1, 1, 4));
  }

  /** A second point is rejected. */
  lemma TwoPointsRejected()
    ensures !MatchesPattern("1.2.3")
  {
    var s := "1.2.3";
    assert SkipDigits(s, 0) == 1;
    assert SkipDigits(s, 2) == 3;
    assert Scan(s).exponent == 3 && SkipSpaces(s, 3) == 3;
    FormatOkMatchesPattern(s);
  }

  /** An exponent mark needs at least one digit after it. */
  lemma BareExponentMarkRejected()
    ensures !MatchesPattern("1e")
  {
    var s := "1e";
    assert SkipDigits(s, 0) == 1;
    assert Scan(s).exponent == 1 && SkipSpaces(s, 1) == 1;
    FormatOkMatchesPattern(s);
  }

  /** Spaces are allowed only around the number, not inside it. */
  lemma InnerSpaceRejected()
    ensures !MatchesPattern("1 2")
  {
    var s := "1 2";
    assert SkipDigits(s, 0) == 1;
    assert Scan(s).exponent == 1 && SkipSpaces(s, 1) == 2;
    FormatOkMatchesPattern(s);
  }

  /** With range checking off, a well-formed text is accepted whatever its value. */
  lemma NoRangeCheckAcceptsWellFormed(text: string, panelText: string, parse: string -> Option<real>, inRange: real -> bool)
    requires text != "" && FormatOk(text)
    ensures CheckValue(Some(text), panelText, false, parse, inRange) == Returned(NoError)
  {
    FormatOkMatchesPattern(text);
  }

  /**
   * A text that passes the format check but that Float.parseFloat rejects ("-",
   * say) makes checkValue throw when the range is checked.
   */
  lemma LoneMinusThrowsWhenRangeChecked(parse: string -> Option<real>, inRange: real -> bool)
    requires parse("-") == None
    ensures CheckValue(Some("-"), "-", true, parse, inRange) == NumberFormatThrown
  {
    LoneMinusMatches();
  }
}
