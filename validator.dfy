/**
 * `src/core/validator.rs`: the checks a candidate must pass to be reported as
 * valid. The two loops of the source (the weighted checksum of an ID number and
 * the Luhn sum of a card number) and the character loop of `validate_id_card`
 * are methods proved against specification functions; the date checks and the
 * phone check are functions.
 */
module Validator {
  import opened Wrappers
  import opened Strings
  import opened RegexPatterns

  // ---------------------------------------------------------------------------
  // Calendar

  /** The Gregorian leap-year rule of `days_in_month`. */
  predicate IsLeap(year: nat) {
    (year % 4 == 0 && year % 100 != 0) || year % 400 == 0
  }

  /** `days_in_month`: 0 for a month outside 1..12. */
  function DaysInMonth(year: nat, month: nat): (d: nat)
    ensures 1 <= month <= 12 <==> d != 0
    ensures 1 <= month <= 12 ==> 28 <= d <= 31
    ensures month == 2 ==> (d == 29 <==> IsLeap(year))
  {
    if month == 1 || month == 3 || month == 5 || month == 7 || month == 8 || month == 10 || month == 12 then 31
    else if month == 4 || month == 6 || month == 9 || month == 11 then 30
    else if month == 2 then (if IsLeap(year) then 29 else 28)
    else 0
  }

  function DaysBefore(year: nat, month: nat): nat
    requires month <= 12
  {
    if month == 0 then 0 else DaysBefore(year, month - 1) + DaysInMonth(year, month)
  }

  /** The twelve months add up to a year of 366 days in a leap year and of 365 otherwise. */
  lemma YearLength(year: nat)
    ensures DaysBefore(year, 12) == if IsLeap(year) then 366 else 365
  {
    var feb := DaysInMonth(year, 2);
    assert DaysBefore(year, 1) == 31;
    assert DaysBefore(year, 2) == 31 + feb;
    assert DaysBefore(year, 3) == 62 + feb;
    assert DaysBefore(year, 4) == 92 + feb;
    assert DaysBefore(year, 5) == 123 + feb;
    assert DaysBefore(year, 6) == 153 + feb;
    assert DaysBefore(year, 7) == 184 + feb;
    assert DaysBefore(year, 8) == 215 + feb;
    assert DaysBefore(year, 9) == 245 + feb;
    assert DaysBefore(year, 10) == 276 + feb;
    assert DaysBefore(year, 11) == 306 + feb;
  }

  /** The calendar repeats every 400 years. */
  lemma LeapPeriod(year: nat)
    ensures IsLeap(year + 400) == IsLeap(year)
    ensures forall m :: 1 <= m <= 12 ==> DaysInMonth(year + 400, m) == DaysInMonth(year, m)
  {
    assert (year + 400) % 4 == year % 4;
    assert (year + 400) % 100 == year % 100;
    assert (year + 400) % 400 == year % 400;
    assert IsLeap(year + 400) == IsLeap(year);
    forall m | 1 <= m <= 12
      ensures DaysInMonth(year + 400, m) == DaysInMonth(year, m)
    {
    }
  }

  lemma DaysInMonthExamples()
    ensures DaysInMonth(2020, 1) == 31 && DaysInMonth(2020, 2) == 29
    ensures DaysInMonth(2021, 2) == 28 && DaysInMonth(2020, 4) == 30
    ensures DaysInMonth(1900, 2) == 28 && DaysInMonth(2000, 2) == 29
  {
  }

  // ---------------------------------------------------------------------------
  // u32 parsing

  /** The value of a string of decimal digits, most significant first. */
  function DecimalValue(s: string): nat
    requires AllAsciiDigits(s)
  {
    if s == [] then 0 else 10 * DecimalValue(s[..|s| - 1]) + DigitValue(s[|s| - 1])
  }

  function Pow10(n: nat): nat {
    if n == 0 then 1 else 10 * Pow10(n - 1)
  }

  lemma {:induction false} DecimalValueBound(s: string)
    requires AllAsciiDigits(s)
    ensures DecimalValue(s) < Pow10(|s|)
  {
    if s != [] {
      DecimalValueBound(s[..|s| - 1]);
    }
  }

  /**
   * `str::parse::<u32>`: an optional `+`, then one or more ASCII digits whose
   * value fits in 32 bits; anything else is an error.
   */
  function ParseU32(s: string): (r: Option<nat>)
    ensures r.Some? ==> r.value < 0x1_0000_0000
    ensures |s| == 0 || s == "+" ==> r.None?
  {
    var digits := if |s| > 0 && s[0] == '+' then s[1..] else s;
    if |digits| == 0 || !AllAsciiDigits(digits) then None
    else if DecimalValue(digits) < 0x1_0000_0000 then Some(DecimalValue(digits))
    else None
  }

  /** A run of one to nine digits always parses, to its decimal value. */
  lemma ParseDigits(s: string)
    requires 1 <= |s| <= 9 && AllAsciiDigits(s)
    ensures ParseU32(s) == Some(DecimalValue(s))
  {
    DecimalValueBound(s);
    var n := |s|;
    assert Pow10(n) <= Pow10(9) by { Pow10Monotone(n, 9); }
  }

  lemma {:induction false} Pow10Monotone(a: nat, b: nat)
    requires a <= b
    ensures Pow10(a) <= Pow10(b)
    decreases b
  {
    if a < b {
      Pow10Monotone(a, b - 1);
    }
  }

  lemma ParseExamples()
    ensures ParseU32("") == None && ParseU32("+") == None && ParseU32("-1") == None
    ensures ParseU32("+07") == Some(7)
  {
    assert DecimalValue("07") == 7 by {
      assert "07"[..1] == "0";
    }
    assert !AllAsciiDigits("-1") by {
      assert "-1"[0] == '-';
    }
  }

  // ---------------------------------------------------------------------------
  // ID card checksum (GB 11643-1999)

  /** `char::to_ascii_uppercase`. */
  function ToAsciiUpper(c: char): (u: char)
    ensures 'a' <= c <= 'z' ==> u as int == c as int - 32
    ensures !('a' <= c <= 'z') ==> u == c
  {
    if 'a' <= c <= 'z' then (c as int - 32) as char else c
  }

  /** The weighted sum of the first `n` digits of an ID number. */
  function WeightedSum(s: string, n: nat): nat
    requires n <= 17 && n <= |s| && AllAsciiDigits(s[..n])
  {
    if n == 0 then 0
    else
      assert s[..n - 1] == s[..n][..n - 1] && s[n - 1] == s[..n][n - 1];
      WeightedSum(s, n - 1) + DigitValue(s[n - 1]) * IdWeights[n - 1]
  }

  /** The check character the first 17 digits call for. */
  function CheckCode(s: string): (c: char)
    requires 17 <= |s| && AllAsciiDigits(s[..17])
    ensures c in IdCheckCodes
  {
    IdCheckCodes[WeightedSum(s, 17) % 11]
  }

  /** `verify_id_card_checksum`, as a property of the 18 characters. */
  predicate ChecksumOk(s: string) {
    18 <= |s| && AllAsciiDigits(s[..17]) && ToAsciiUpper(s[17]) == CheckCode(s)
  }

  /**
   * `verify_id_card_checksum`: sums digit times weight over the first 17
   * characters (a non-digit makes it false) and compares the upper-cased 18th
   * character with the check code of the sum modulo 11.
   */
  method VerifyIdCardChecksum(chars: string) returns (ok: bool)
    requires |chars| >= 18
    ensures ok == ChecksumOk(chars)
  {
    var sum := 0;
    var i := 0;
    while i < 17
      invariant 0 <= i <= 17
      invariant AllAsciiDigits(chars[..i])
      invariant sum == WeightedSum(chars, i)
    {
      if !IsAsciiDigit(chars[i]) {
        assert chars[..17][i] == chars[i];
        return false;
      }
      assert chars[..i + 1] == chars[..i] + [chars[i]];
      sum := sum + DigitValue(chars[i]) * IdWeights[i];
      i := i + 1;
    }
    var remainder := sum % 11;
    var expected := IdCheckCodes[remainder];
    ok := ToAsciiUpper(chars[17]) == expected;
  }

  /** Lower- and upper-case `x` are the same check character. */
  lemma CheckCaseInsensitive(s: string)
    requires |s| >= 18 && AllAsciiDigits(s[..17]) && (s[17] == 'x' || s[17] == 'X')
    ensures ChecksumOk(s) <==> CheckCode(s) == 'X'
  {
  }

  /** Changing one of the first 17 digits changes the weighted sum by the digit change times its weight. */
  lemma {:induction false} WeightedSumChange(s: string, u: string, j: nat, n: nat)
    requires n <= 17 && n <= |s| && n <= |u| && AllAsciiDigits(s[..n]) && AllAsciiDigits(u[..n])
    requires j < n && forall k :: 0 <= k < n && k != j ==> s[k] == u[k]
    ensures WeightedSum(u, n) - WeightedSum(s, n) == (DigitValue(u[j]) - DigitValue(s[j])) * IdWeights[j]
  {
    assert u[..n][j] == u[j] && s[..n][j] == s[j];
    if n - 1 == j {
      if j > 0 {
        WeightedSumSame(s, u, j);
      }
    } else {
      assert u[..n][n - 1] == u[n - 1] && s[..n][n - 1] == s[n - 1];
      assert s[..n - 1] == s[..n][..n - 1] && u[..n - 1] == u[..n][..n - 1];
      WeightedSumChange(s, u, j, n - 1);
    }
  }

  lemma {:induction false} WeightedSumSame(s: string, u: string, n: nat)
    requires n <= 17 && n <= |s| && n <= |u| && AllAsciiDigits(s[..n]) && s[..n] == u[..n]
    ensures WeightedSum(u, n) == WeightedSum(s, n)
  {
    if n > 0 {
      assert s[..n - 1] == s[..n][..n - 1] && u[..n - 1] == u[..n][..n - 1];
      assert s[n - 1] == s[..n][n - 1] && u[n - 1] == u[..n][n - 1];
      WeightedSumSame(s, u, n - 1);
    }
  }

  /** No weight times a non-zero digit difference is a multiple of 11. */
  lemma WeightTimesDigitNotMultiple(w: int, d: int)
    requires 1 <= w <= 10 && -9 <= d <= 9 && d != 0
    ensures (d * w) % 11 != 0
  {
    if w == 1 {} else if w == 2 {} else if w == 3 {} else if w == 4 {} else if w == 5 {}
    else if w == 6 {} else if w == 7 {} else if w == 8 {} else if w == 9 {} else {}
  }

  /**
   * The checksum detects every single-digit substitution: if an ID number passes
   * and one of its first 17 digits is replaced by a different digit, the result
   * fails.
   */
  lemma ChecksumDetectsSubstitution(s: string, u: string, j: nat)
    requires ChecksumOk(s) && |u| == |s| && j < 17 && AllAsciiDigits(u[..17])
    requires u[j] != s[j] && forall k :: 0 <= k < |s| && k != j ==> s[k] == u[k]
    ensures !ChecksumOk(u)
  {
    SubstitutionChangesRemainder(s, u, j, 17);
    CheckCodesDistinct(WeightedSum(s, 17) % 11, WeightedSum(u, 17) % 11);
    assert u[17] == s[17];
  }

  /** Replacing one digit among the first `n` changes the weighted sum's remainder mod 11. */
  lemma SubstitutionChangesRemainder(s: string, u: string, j: nat, n: nat)
    requires j < n <= 17 && n <= |s| && n <= |u| && AllAsciiDigits(s[..n]) && AllAsciiDigits(u[..n])
    requires u[j] != s[j] && forall k :: 0 <= k < n && k != j ==> s[k] == u[k]
    ensures WeightedSum(s, n) % 11 != WeightedSum(u, n) % 11
  {
    var w := IdWeights[j];
    WeightRange(j);
    assert u[..n][j] == u[j] && s[..n][j] == s[j];
    var d := DigitDifference(s[j], u[j]);
    WeightedSumChange(s, u, j, n);
    WeightTimesDigitNotMultiple(w, d);
    DifferentRemainders(WeightedSum(s, n), WeightedSum(u, n), d * w);
  }

  /** Two different digits differ by a non-zero amount of at most nine either way. */
  lemma DigitDifference(a: char, b: char) returns (d: int)
    requires IsAsciiDigit(a) && IsAsciiDigit(b) && a != b
    ensures d == DigitValue(b) - DigitValue(a) && -9 <= d <= 9 && d != 0
  {
    d := DigitValue(b) - DigitValue(a);
  }

  lemma CheckCodesDistinct(a: nat, b: nat)
    requires a < 11 && b < 11 && a != b
    ensures IdCheckCodes[a] != IdCheckCodes[b]
  {
    IdTables();
  }

  lemma WeightRange(j: nat)
    requires j < 17
    ensures 1 <= IdWeights[j] <= 10
  {
    IdTables();
  }

  lemma DifferentRemainders(a: int, b: int, delta: int)
    requires b - a == delta && delta % 11 != 0
    ensures a % 11 != b % 11
  {
  }

  // ---------------------------------------------------------------------------
  // ID card

  /** `verify_id_card_birth_date`: characters 6..14 give a date between 1900-01-01 and 2099-12-31. */
  predicate BirthDateOk(chars: string)
    requires |chars| >= 14
  {
    var year := ParseU32(chars[6..10]);
    var month := ParseU32(chars[10..12]);
    var day := ParseU32(chars[12..14]);
    year.Some? && month.Some? && day.Some?
    && 1900 <= year.value <= 2099 && 1 <= month.value <= 12
    && 1 <= day.value <= DaysInMonth(year.value, month.value)
  }

  /** On digits the parses cannot fail: the date check is a check on the three numbers. */
  lemma BirthDateOfDigits(chars: string)
    requires |chars| >= 14 && AllAsciiDigits(chars[6..14])
    ensures AllAsciiDigits(chars[6..10]) && AllAsciiDigits(chars[10..12]) && AllAsciiDigits(chars[12..14])
    ensures var y := DecimalValue(chars[6..10]);
      var m := DecimalValue(chars[10..12]);
      var d := DecimalValue(chars[12..14]);
      BirthDateOk(chars) <==> 1900 <= y <= 2099 && 1 <= m <= 12 && 1 <= d <= DaysInMonth(y, m)
  {
    assert forall k :: 0 <= k < 4 ==> chars[6..10][k] == chars[6..14][k];
    assert forall k :: 0 <= k < 2 ==> chars[10..12][k] == chars[6..14][k + 4];
    assert forall k :: 0 <= k < 2 ==> chars[12..14][k] == chars[6..14][k + 6];
    ParseDigits(chars[6..10]);
    ParseDigits(chars[10..12]);
    ParseDigits(chars[12..14]);
  }

  /** What `validate_id_card` accepts, stated on the characters. */
  predicate IsValidIdCard(s: string) {
    |s| == 18 && AllAsciiDigits(s[..17])
    && (IsAsciiDigit(s[17]) || s[17] == 'X' || s[17] == 'x')
    && ChecksumOk(s) && BirthDateOk(s)
  }

  /**
   * `validate_id_card`: the byte length must be 18, the first 17 characters
   * digits, the last a digit or `X`/`x`, then the checksum and the birth date.
   */
  method ValidateIdCard(idCard: string) returns (ok: bool)
    ensures ok == IsValidIdCard(idCard)
  {
    if Utf8Len(idCard) != 18 {
      if IsValidIdCard(idCard) {
        ByteLengthOfValid(idCard);
      }
      return false;
    }
    var i := 0;
    while i < 17 && i < |idCard|
      invariant 0 <= i <= 17 && i <= |idCard|
      invariant forall k :: 0 <= k < i ==> IsAsciiDigit(idCard[k])
    {
      if !IsAsciiDigit(idCard[i]) {
        assert !IsValidIdCard(idCard) by {
          if |idCard| == 18 {
            assert idCard[..17][i] == idCard[i];
          }
        }
        return false;
      }
      i := i + 1;
    }
    DigitPrefixLength(idCard, i);
    assert idCard[..17] == idCard[..i];
    var last := idCard[17];
    if !IsAsciiDigit(last) && last != 'X' && last != 'x' {
      return false;
    }
    ok := VerifyIdCardChecksum(idCard);
    if !ok {
      return false;
    }
    ok := BirthDateOk(idCard);
  }

  /** An accepted ID number is 18 bytes long: it is ASCII. */
  lemma ByteLengthOfValid(s: string)
    requires IsValidIdCard(s)
    ensures Utf8Len(s) == 18
  {
    assert forall k :: 0 <= k < 17 ==> s[..17][k] == s[k];
  }

  /**
   * A string of 18 bytes whose leading characters, up to the 17th, are digits
   * has exactly 18 characters: the loop of `validate_id_card` reaches the 17th
   * character and `chars[17]` exists.
   */
  lemma DigitPrefixLength(s: string, i: nat)
    requires Utf8Len(s) == 18 && i <= 17 && i <= |s| && (i == 17 || i == |s|)
    requires forall k :: 0 <= k < i ==> IsAsciiDigit(s[k])
    ensures i == 17 && |s| == 18
  {
    assert s == s[..i] + s[i..];
    Utf8Append(s[..i], s[i..]);
    assert forall k :: 0 <= k < i ==> IsAscii(s[..i][k]);
    assert |Utf8(s[..i])| == i;
    assert |Utf8(s[i..])| >= |s[i..]|;
  }

  lemma DecimalValue2(s: string)
    requires |s| == 2 && AllAsciiDigits(s)
    ensures DecimalValue(s) == 10 * DigitValue(s[0]) + DigitValue(s[1])
  {
    assert s[..1][..0] == [] && s[..1][0] == s[0];
    assert DecimalValue(s[..1]) == DigitValue(s[0]);
  }

  lemma DecimalValue4(s: string)
    requires |s| == 4 && AllAsciiDigits(s)
    ensures DecimalValue(s) == 1000 * DigitValue(s[0]) + 100 * DigitValue(s[1]) + 10 * DigitValue(s[2]) + DigitValue(s[3])
  {
    assert s[..3][..2] == s[..2];
    DecimalValue2(s[..2]);
  }

  /** The dates of the source's test numbers, read through `BirthDateOfDigits`. */
  lemma ExampleDate(s: string, y: nat, m: nat, d: nat)
    requires |s| == 18 && AllAsciiDigits(s[6..14])
    requires AllAsciiDigits(s[6..10]) && AllAsciiDigits(s[10..12]) && AllAsciiDigits(s[12..14])
    requires DecimalValue(s[6..10]) == y && DecimalValue(s[10..12]) == m && DecimalValue(s[12..14]) == d
    ensures BirthDateOk(s) <==> 1900 <= y <= 2099 && 1 <= m <= 12 && 1 <= d <= DaysInMonth(y, m)
  {
    BirthDateOfDigits(s);
  }

  lemma ExampleFields(s: string)
    requires |s| == 18 && AllAsciiDigits(s[6..14])
    ensures AllAsciiDigits(s[6..10]) && AllAsciiDigits(s[10..12]) && AllAsciiDigits(s[12..14])
    ensures DecimalValue(s[6..10])
      == 1000 * DigitValue(s[6]) + 100 * DigitValue(s[7]) + 10 * DigitValue(s[8]) + DigitValue(s[9])
    ensures DecimalValue(s[10..12]) == 10 * DigitValue(s[10]) + DigitValue(s[11])
    ensures DecimalValue(s[12..14]) == 10 * DigitValue(s[12]) + DigitValue(s[13])
  {
    BirthDateOfDigits(s);
    DecimalValue4(s[6..10]);
    DecimalValue2(s[10..12]);
    DecimalValue2(s[12..14]);
  }

  /** The first seventeen digits `11010519900307203` of the source's valid test number weigh 190. */
  lemma ExampleSum(s: string)
    requires |s| >= 17 && s[0] == '1' && s[1] == '1' && s[2] == '0' && s[3] == '1'
    requires s[4] == '0' && s[5] == '5' && s[6] == '1' && s[7] == '9'
    requires s[8] == '9' && s[9] == '0' && s[10] == '0' && s[11] == '3' && s[12] == '0'
    requires s[13] == '7' && s[14] == '2' && s[15] == '0' && s[16] == '3'
    ensures AllAsciiDigits(s[..17]) && WeightedSum(s, 17) == 190
  {
    ExampleSumFirst(s);
    ExampleSumRest(s);
  }

  /** The first eight digits `11010519` weigh 52. */
  lemma ExampleSumFirst(s: string)
    requires |s| >= 17 && s[0] == '1' && s[1] == '1' && s[2] == '0' && s[3] == '1'
    requires s[4] == '0' && s[5] == '5' && s[6] == '1' && s[7] == '9'
    ensures AllAsciiDigits(s[..8]) && WeightedSum(s, 8) == 52
  {
    assert s[..0] == [];
    WeightedSumStep(s, 0, 0);
    WeightedSumStep(s, 1, 7);
    WeightedSumStep(s, 2, 16);
    WeightedSumStep(s, 3, 16);
    WeightedSumStep(s, 4, 21);
    WeightedSumStep(s, 5, 21);
    WeightedSumStep(s, 6, 41);
    WeightedSumStep(s, 7, 43);
  }

  /** The remaining nine digits `900307203` bring the sum from 52 to 190. */
  lemma ExampleSumRest(s: string)
    requires |s| >= 17 && AllAsciiDigits(s[..8]) && WeightedSum(s, 8) == 52
    requires s[8] == '9' && s[9] == '0' && s[10] == '0' && s[11] == '3' && s[12] == '0'
    requires s[13] == '7' && s[14] == '2' && s[15] == '0' && s[16] == '3'
    ensures AllAsciiDigits(s[..17]) && WeightedSum(s, 17) == 190
  {
    WeightedSumStep(s, 8, 52);
    WeightedSumStep(s, 9, 106);
    WeightedSumStep(s, 10, 106);
    WeightedSumStep(s, 11, 106);
    WeightedSumStep(s, 12, 133);
    WeightedSumStep(s, 13, 133);
    WeightedSumStep(s, 14, 168);
    WeightedSumStep(s, 15, 184);
    WeightedSumStep(s, 16, 184);
  }

  /** One more digit of the weighted sum. */
  lemma WeightedSumStep(s: string, n: nat, acc: nat)
    requires n < 17 && n < |s| && AllAsciiDigits(s[..n]) && IsAsciiDigit(s[n]) && WeightedSum(s, n) == acc
    ensures AllAsciiDigits(s[..n + 1]) && WeightedSum(s, n + 1) == acc + DigitValue(s[n]) * IdWeights[n]
  {
    assert s[..n + 1] == s[..n] + [s[n]];
  }

  /** The valid example of the source's tests: weighted sum 190, remainder 3, check code `9`. */
  lemma IdCardValidExample()
    ensures IsValidIdCard("110105199003072039")
  {
    var s := "110105199003072039";
    ExampleSum(s);
    assert AllAsciiDigits(s[6..14]);
    ExampleFields(s);
    ExampleDate(s, 1990, 3, 7);
  }

  /** Month 13 is rejected. */
  lemma IdCardBadMonthExample()
    ensures !IsValidIdCard("110105199013072039")
  {
    var s := "110105199013072039";
    assert AllAsciiDigits(s[6..14]);
    ExampleFields(s);
    ExampleDate(s, 1990, 13, 7);
  }

  /** December 32 is rejected. */
  lemma IdCardBadDayExample()
    ensures !IsValidIdCard("110105199012322039")
  {
    var s := "110105199012322039";
    assert AllAsciiDigits(s[6..14]);
    ExampleFields(s);
    ExampleDate(s, 1990, 12, 32);
  }

  /** March 32 is rejected. */
  lemma IdCardMarch32Example()
    ensures !IsValidIdCard("110105199003322039")
  {
    var s := "110105199003322039";
    assert AllAsciiDigits(s[6..14]);
    ExampleFields(s);
    ExampleDate(s, 1990, 3, 32);
  }

  /** February 30 is rejected: 1990 is not a leap year, and no February has 30 days. */
  lemma IdCardFebruary30Example()
    ensures !IsValidIdCard("110105199002302039")
  {
    var s := "110105199002302039";
    assert AllAsciiDigits(s[6..14]);
    ExampleFields(s);
    ExampleDate(s, 1990, 2, 30);
  }

  /** A wrong check digit is rejected: the digits call for `9`, not `8`. */
  lemma IdCardBadCheckExample()
    ensures !IsValidIdCard("110105199003072038")
  {
    var s := "110105199003072039";
    ExampleSum(s);
    assert ChecksumOk(s);
    var x := "110105199003072038";
    assert x[..17] == s[..17];
    CheckCharDetermined(s, x);
  }

  /** `X` is a check character, but not the one these digits call for. */
  lemma IdCardWrongXExample()
    ensures !IsValidIdCard("11010519900307203X")
  {
    var s := "110105199003072039";
    ExampleSum(s);
    assert ChecksumOk(s);
    var x := "11010519900307203X";
    assert x[..17] == s[..17];
    CheckCharDetermined(s, x);
  }

  /** `Y` is not a check character at all: it is not the `9` the digits call for. */
  lemma IdCardBadCheckCharExample()
    ensures !IsValidIdCard("11010519900307203Y")
  {
    var s := "110105199003072039";
    ExampleSum(s);
    assert ChecksumOk(s);
    var y := "11010519900307203Y";
    assert y[..17] == s[..17];
    CheckCharDetermined(s, y);
  }

  /** `0` is not the check character either: the number the extractor tests offer as an invalid ID. */
  lemma IdCardCheckZeroExample()
    ensures !IsValidIdCard("110105199003072030")
  {
    var s := "110105199003072039";
    ExampleSum(s);
    assert ChecksumOk(s);
    var x := "110105199003072030";
    assert x[..17] == s[..17];
    CheckCharDetermined(s, x);
  }

  /** The ID of the extractor tests, `440308199901010012`: weighted sum 219, remainder 10, check code `2`, born 1999-01-01. */
  lemma IdCardSecondValidExample()
    ensures IsValidIdCard("440308199901010012")
  {
    var s := "440308199901010012";
    SecondExampleSum(s);
    assert AllAsciiDigits(s[6..14]);
    ExampleFields(s);
    ExampleDate(s, 1999, 1, 1);
  }

  /** The first seventeen digits `44030819990101001` weigh 219. */
  lemma SecondExampleSum(s: string)
    requires |s| >= 17 && s[0] == '4' && s[1] == '4' && s[2] == '0' && s[3] == '3'
    requires s[4] == '0' && s[5] == '8' && s[6] == '1' && s[7] == '9'
    requires s[8] == '9' && s[9] == '9' && s[10] == '0' && s[11] == '1' && s[12] == '0'
    requires s[13] == '1' && s[14] == '0' && s[15] == '0' && s[16] == '1'
    ensures AllAsciiDigits(s[..17]) && WeightedSum(s, 17) == 219
  {
    SecondExampleSumFirst(s);
    SecondExampleSumRest(s);
  }

  /** The first eight digits `44030819` weigh 122. */
  lemma SecondExampleSumFirst(s: string)
    requires |s| >= 17 && s[0] == '4' && s[1] == '4' && s[2] == '0' && s[3] == '3'
    requires s[4] == '0' && s[5] == '8' && s[6] == '1' && s[7] == '9'
    ensures AllAsciiDigits(s[..8]) && WeightedSum(s, 8) == 122
  {
    assert s[..0] == [];
    WeightedSumStep(s, 0, 0);
    WeightedSumStep(s, 1, 28);
    WeightedSumStep(s, 2, 64);
    WeightedSumStep(s, 3, 64);
    WeightedSumStep(s, 4, 79);
    WeightedSumStep(s, 5, 79);
    WeightedSumStep(s, 6, 111);
    WeightedSumStep(s, 7, 113);
  }

  /** The remaining nine digits `990101001` bring the sum from 122 to 219. */
  lemma SecondExampleSumRest(s: string)
    requires |s| >= 17 && AllAsciiDigits(s[..8]) && WeightedSum(s, 8) == 122
    requires s[8] == '9' && s[9] == '9' && s[10] == '0' && s[11] == '1' && s[12] == '0'
    requires s[13] == '1' && s[14] == '0' && s[15] == '0' && s[16] == '1'
    ensures AllAsciiDigits(s[..17]) && WeightedSum(s, 17) == 219
  {
    WeightedSumStep(s, 8, 122);
    WeightedSumStep(s, 9, 176);
    WeightedSumStep(s, 10, 203);
    WeightedSumStep(s, 11, 203);
    WeightedSumStep(s, 12, 212);
    WeightedSumStep(s, 13, 212);
    WeightedSumStep(s, 14, 217);
    WeightedSumStep(s, 15, 217);
    WeightedSumStep(s, 16, 217);
  }

  /** The first 17 digits determine the check character: any other one fails. */
  lemma CheckCharDetermined(s: string, x: string)
    requires ChecksumOk(s) && |x| >= 18 && x[..17] == s[..17] && ToAsciiUpper(x[17]) != ToAsciiUpper(s[17])
    ensures !ChecksumOk(x)
  {
    WeightedSumSame(s, x, 17);
  }

  /** Numbers of the wrong length are rejected before anything else is looked at. */
  lemma IdCardLengthExamples()
    ensures !IsValidIdCard("11010519900307203") && !IsValidIdCard("11010519900307203XX") && !IsValidIdCard("")
    ensures !IsValidIdCard("11010519900307")
  {
  }

  // ---------------------------------------------------------------------------
  // Bank cards: the Luhn check

  /** A digit's share of the Luhn sum at 1-based position `pos` from the right. */
  function LuhnTerm(pos: nat, c: char): (v: nat)
    requires IsAsciiDigit(c)
    ensures v <= 9
  {
    var d := DigitValue(c);
    if pos % 2 == 0 then (if 2 * d > 9 then 2 * d - 9 else 2 * d) else d
  }

  /** The Luhn sum: every second digit from the right doubled, nine taken off a two-digit double. */
  function LuhnSum(ds: string): nat
    requires AllAsciiDigits(ds)
  {
    if ds == [] then 0 else LuhnTerm(|ds|, ds[0]) + LuhnSum(ds[1..])
  }

  /** `luhn_check` accepts exactly the digit strings whose Luhn sum is a multiple of 10. */
  predicate LuhnValid(number: string) {
    AllAsciiDigits(number) && LuhnSum(number) % 10 == 0
  }

  /**
   * `luhn_check`: collects the digits, fails when that drops a character (the
   * count is compared with the byte length), then adds the terms walking from
   * the last digit to the first.
   */
  method LuhnCheck(number: string) returns (ok: bool)
    ensures ok == LuhnValid(number)
  {
    var digits := CleanDigits(number);
    if |digits| != Utf8Len(number) {
      CleanLengthAllDigits(number);
      return false;
    }
    CleanLengthAllDigits(number);
    CleanDigitsOfDigits(number);
    var len := |digits|;
    var sum := 0;
    var i := len;
    while i > 0
      invariant 0 <= i <= len
      invariant sum == LuhnSum(digits[i..])
    {
      i := i - 1;
      var positionFromRight := len - i;
      assert digits[i..][1..] == digits[i + 1..];
      if positionFromRight % 2 == 0 {
        var doubled := DigitValue(digits[i]) * 2;
        sum := sum + if doubled > 9 then doubled - 9 else doubled;
      } else {
        sum := sum + DigitValue(digits[i]);
      }
    }
    assert digits[0..] == digits;
    ok := sum % 10 == 0;
  }

  /** Cleaning keeps the byte length exactly when every character is an ASCII digit. */
  lemma {:induction false} CleanLengthAllDigits(s: string)
    ensures |CleanDigits(s)| == Utf8Len(s) <==> AllAsciiDigits(s)
  {
    if s != [] {
      CleanLengthAllDigits(s[1..]);
      assert |Utf8(s[1..])| >= |s[1..]| >= |CleanDigits(s[1..])|;
      if AllAsciiDigits(s) {
        assert AllAsciiDigits(s[1..]);
      }
    }
  }

  /** Luhn's terms at one position are distinct modulo 10 for distinct digits. */
  lemma LuhnTermInjective(pos: nat, a: char, b: char)
    requires IsAsciiDigit(a) && IsAsciiDigit(b) && a != b
    ensures (LuhnTerm(pos, a) - LuhnTerm(pos, b)) % 10 != 0
  {
  }

  lemma {:induction false} LuhnSumChange(x: string, y: string, j: nat)
    requires AllAsciiDigits(x) && AllAsciiDigits(y) && |x| == |y| && j < |x|
    requires forall k :: 0 <= k < |x| && k != j ==> x[k] == y[k]
    ensures LuhnSum(x) - LuhnSum(y) == LuhnTerm(|x| - j, x[j]) - LuhnTerm(|x| - j, y[j])
  {
    if j == 0 {
      assert x[1..] == y[1..];
    } else {
      LuhnSumChange(x[1..], y[1..], j - 1);
    }
  }

  /** One step of the Luhn sum from the right. */
  lemma LuhnStep(s: string, i: nat, acc: nat)
    requires i < |s| && AllAsciiDigits(s[i + 1..]) && IsAsciiDigit(s[i]) && LuhnSum(s[i + 1..]) == acc
    ensures AllAsciiDigits(s[i..]) && LuhnSum(s[i..]) == LuhnTerm(|s| - i, s[i]) + acc
  {
    assert s[i..][1..] == s[i + 1..];
  }

  /** The Luhn terms of `c` at the positions `lo + 1` to `hi` from the right. */
  function RunSum(c: char, lo: nat, hi: nat): nat
    requires IsAsciiDigit(c)
    decreases hi
  {
    if hi <= lo then 0 else LuhnTerm(hi, c) + RunSum(c, lo, hi - 1)
  }

  /** A run of one digit `c` in `s[i..j]` adds its terms to the Luhn sum of what follows it. */
  lemma {:induction false} LuhnSumRun(s: string, i: nat, j: nat, c: char)
    requires i <= j <= |s| && IsAsciiDigit(c) && AllAsciiDigits(s[j..])
    requires forall k :: i <= k < j ==> s[k] == c
    ensures AllAsciiDigits(s[i..]) && LuhnSum(s[i..]) == RunSum(c, |s| - j, |s| - i) + LuhnSum(s[j..])
    decreases j - i
  {
    if i < j {
      LuhnSumRun(s, i + 1, j, c);
      LuhnStep(s, i, LuhnSum(s[i + 1..]));
    }
  }

  /** A run of 1s adds one per digit and one more per even position. */
  lemma {:induction false} RunSumOnes(lo: nat, hi: nat)
    requires lo <= hi
    ensures RunSum('1', lo, hi) == (hi - lo) + (hi / 2 - lo / 2)
    decreases hi
  {
    if lo < hi {
      RunSumOnes(lo, hi - 1);
    }
  }

  /** A run of 0s adds nothing. */
  lemma {:induction false} RunSumZeros(lo: nat, hi: nat)
    ensures RunSum('0', lo, hi) == 0
    decreases hi
  {
    if lo < hi {
      RunSumZeros(lo, hi - 1);
    }
  }

  /** A 4 followed by fifteen 1s passes: 8 for the doubled 4, then 22 for the 1s. */
  lemma FourThenOnes(s: string)
    requires |s| == 16 && s[0] == '4' && forall k :: 1 <= k < 16 ==> s[k] == '1'
    ensures LuhnValid(s)
  {
    assert s[16..] == [];
    LuhnSumRun(s, 1, 16, '1');
    RunSumOnes(|s| - 16, |s| - 1);
    LuhnStep(s, 0, 22);
    assert s[0..] == s;
  }

  /** Two 5s, thirteen 0s and a 4 pass: 4, then nothing for the zeros, then 5 and 1. */
  lemma FivesZerosFour(s: string)
    requires |s| == 16 && s[0] == '5' && s[1] == '5' && s[15] == '4'
    requires forall k :: 2 <= k < 15 ==> s[k] == '0'
    ensures LuhnValid(s)
  {
    assert s[16..] == [];
    LuhnStep(s, 15, 0);
    LuhnSumRun(s, 2, 15, '0');
    RunSumZeros(|s| - 15, |s| - 2);
    LuhnStep(s, 1, 4);
    LuhnStep(s, 0, 9);
    assert s[0..] == s;
  }

  /** A 4, fourteen 1s and a 2 fail: the last digit differs from a passing number's. */
  lemma FourOnesThenTwo(s: string)
    requires |s| == 16 && s[0] == '4' && s[15] == '2' && forall k :: 1 <= k < 15 ==> s[k] == '1'
    ensures !LuhnValid(s)
  {
    var x := s[..15] + ['1'];
    FourThenOnes(x);
    LuhnDetectsSingleDigitError(x, s, 15);
  }

  /** Two 5s, thirteen 0s and a 1 fail: the last digit differs from a passing number's. */
  lemma FivesZerosOne(s: string)
    requires |s| == 16 && s[0] == '5' && s[1] == '5' && s[15] == '1'
    requires forall k :: 2 <= k < 15 ==> s[k] == '0'
    ensures !LuhnValid(s)
  {
    var x := s[..15] + ['4'];
    FivesZerosFour(x);
    LuhnDetectsSingleDigitError(x, s, 15);
  }

  /** `7992739871` followed by a digit `d`: the last six digits weigh `d + 31`. */
  lemma LuhnStandardTail(s: string)
    requires |s| == 11 && s[5] == '3' && s[6] == '9' && s[7] == '8' && s[8] == '7' && s[9] == '1'
    requires IsAsciiDigit(s[10])
    ensures AllAsciiDigits(s[5..]) && LuhnSum(s[5..]) == DigitValue(s[10]) + 31
  {
    assert s[11..] == [];
    LuhnStep(s, 10, 0);
    LuhnStep(s, 9, DigitValue(s[10]));
    LuhnStep(s, 8, DigitValue(s[10]) + 2);
    LuhnStep(s, 7, DigitValue(s[10]) + 9);
    LuhnStep(s, 6, DigitValue(s[10]) + 16);
    LuhnStep(s, 5, DigitValue(s[10]) + 25);
  }

  /** The first five digits `79927` add 36: the whole sum is `d + 67`. */
  lemma LuhnStandardSum(s: string)
    requires |s| == 11 && s[0] == '7' && s[1] == '9' && s[2] == '9' && s[3] == '2' && s[4] == '7'
    requires s[5] == '3' && s[6] == '9' && s[7] == '8' && s[8] == '7' && s[9] == '1' && IsAsciiDigit(s[10])
    ensures AllAsciiDigits(s) && LuhnSum(s) == DigitValue(s[10]) + 67
  {
    var d := DigitValue(s[10]);
    LuhnStandardTail(s);
    LuhnStep(s, 4, d + 31);
    LuhnStep(s, 3, d + 38);
    LuhnStep(s, 2, d + 42);
    LuhnStep(s, 1, d + 51);
    LuhnStep(s, 0, d + 60);
    assert s[0..] == s;
  }

  /** The standard example `79927398713` passes with sum 70; ending it in `0` instead gives 67 and fails. */
  lemma LuhnStandardExamples(a: string, b: string)
    requires |a| == 11 && a[0] == '7' && a[1] == '9' && a[2] == '9' && a[3] == '2' && a[4] == '7'
    requires a[5] == '3' && a[6] == '9' && a[7] == '8' && a[8] == '7' && a[9] == '1' && a[10] == '3'
    requires |b| == 11 && b[..10] == a[..10] && b[10] == '0'
    ensures LuhnValid(a) && !LuhnValid(b)
  {
    LuhnStandardSum(a);
    assert b[0] == a[0] && b[1] == a[1] && b[2] == a[2] && b[3] == a[3] && b[4] == a[4];
    assert b[5] == a[5] && b[6] == a[6] && b[7] == a[7] && b[8] == a[8] && b[9] == a[9];
    LuhnStandardSum(b);
  }

  /** The Luhn check detects every single-digit error: two numbers that differ in one digit never both pass. */
  lemma LuhnDetectsSingleDigitError(x: string, y: string, j: nat)
    requires LuhnValid(x) && AllAsciiDigits(y) && |x| == |y| && j < |x| && x[j] != y[j]
    requires forall k :: 0 <= k < |x| && k != j ==> x[k] == y[k]
    ensures !LuhnValid(y)
  {
    assert IsAsciiDigit(x[j]) && IsAsciiDigit(y[j]);
    LuhnSumChange(x, y, j);
    LuhnTermInjective(|x| - j, x[j], y[j]);
    SumOffByNonMultiple(LuhnSum(x), LuhnSum(y), LuhnTerm(|x| - j, x[j]) - LuhnTerm(|x| - j, y[j]));
  }

  lemma SumOffByNonMultiple(a: int, b: int, delta: int)
    requires a % 10 == 0 && a - b == delta && delta % 10 != 0
    ensures b % 10 != 0
  {
  }

  /** `validate_bank_card`: 16 to 19 digits once non-digits are removed, passing the Luhn check. */
  function ValidateBankCard(cardNumber: string): (ok: bool)
    ensures ok <==> 16 <= |CleanDigits(cardNumber)| <= 19 && LuhnValid(CleanDigits(cardNumber))
  {
    var clean := CleanDigits(cardNumber);
    16 <= |clean| <= 19 && AllAsciiDigits(clean) && LuhnValid(clean)
  }

  /** Separators do not matter: a card number is valid exactly when its digits are. */
  lemma BankCardDigitsOnly(cardNumber: string)
    ensures ValidateBankCard(cardNumber) == ValidateBankCard(CleanDigits(cardNumber))
  {
    CleanDigitsIdempotent(cardNumber);
  }

  /** A string of digits is a valid card number exactly when it has 16 to 19 digits and passes Luhn. */
  lemma DigitCardValid(s: string)
    requires AllAsciiDigits(s)
    ensures ValidateBankCard(s) <==> 16 <= |s| <= 19 && LuhnValid(s)
  {
    CleanDigitsOfDigits(s);
  }

  /** The passing test cards `4111111111111111` and `5500000000000004` are valid card numbers. */
  lemma BankCardValidExamples(a: string, b: string)
    requires |a| == 16 && a[0] == '4' && forall k :: 1 <= k < 16 ==> a[k] == '1'
    requires |b| == 16 && b[0] == '5' && b[1] == '5' && b[15] == '4'
    requires forall k :: 2 <= k < 15 ==> b[k] == '0'
    ensures ValidateBankCard(a) && ValidateBankCard(b)
  {
    FourThenOnes(a);
    DigitCardValid(a);
    FivesZerosFour(b);
    DigitCardValid(b);
  }

  /** The test cards with a wrong last digit, `4111111111111112` and `5500000000000001`, are rejected. */
  lemma BankCardBadLuhnExamples(a: string, b: string)
    requires |a| == 16 && a[0] == '4' && a[15] == '2' && forall k :: 1 <= k < 15 ==> a[k] == '1'
    requires |b| == 16 && b[0] == '5' && b[1] == '5' && b[15] == '1'
    requires forall k :: 2 <= k < 15 ==> b[k] == '0'
    ensures !ValidateBankCard(a) && !ValidateBankCard(b)
  {
    FourOnesThenTwo(a);
    DigitCardValid(a);
    FivesZerosOne(b);
    DigitCardValid(b);
  }

  /**
   * The test's "invalid length" cards: a 4 and fourteen 1s is too short; a 4
   * and sixteen 1s has an allowed length (17) but fails Luhn with sum 28.
   */
  lemma BankCardLengthExamples(a: string, b: string)
    requires |a| == 15 && a[0] == '4' && forall k :: 1 <= k < 15 ==> a[k] == '1'
    requires |b| == 17 && b[0] == '4' && forall k :: 1 <= k < 17 ==> b[k] == '1'
    ensures !ValidateBankCard(a) && !ValidateBankCard(b)
  {
    DigitCardValid(a);
    FourThenSixteenOnes(b);
    DigitCardValid(b);
  }

  /** A 4 followed by sixteen 1s has Luhn sum 28: 4 for the undoubled 4, then 24 for the 1s. */
  lemma FourThenSixteenOnes(s: string)
    requires |s| == 17 && s[0] == '4' && forall k :: 1 <= k < 17 ==> s[k] == '1'
    ensures AllAsciiDigits(s) && LuhnSum(s) == 28 && !LuhnValid(s)
  {
    assert s[17..] == [];
    LuhnSumRun(s, 1, 17, '1');
    RunSumOnes(|s| - 17, |s| - 1);
    LuhnStep(s, 0, 24);
    assert s[0..] == s;
  }

  // ---------------------------------------------------------------------------
  // Phones

  /** `validate_phone`: eleven digits once non-digits are removed, `1` then `3`-`9`. */
  function ValidatePhone(phone: string): (ok: bool)
    ensures ok <==> var d := CleanDigits(phone); |d| == 11 && d[0] == '1' && '3' <= d[1] <= '9'
  {
    var clean := CleanDigits(phone);
    |clean| == 11 && AllAsciiDigits(clean) && clean[0] == '1' && '3' <= clean[1] <= '9'
  }

  /** Separators do not matter: a phone number is valid exactly when its digits are. */
  lemma PhoneDigitsOnly(phone: string)
    ensures ValidatePhone(phone) == ValidatePhone(CleanDigits(phone))
  {
    CleanDigitsIdempotent(phone);
  }

  /** Three digit groups with one separator between each two clean to the three groups. */
  lemma CleanSeparated(s: string, i: nat, j: nat)
    requires i < j < |s| && !IsAsciiDigit(s[i]) && !IsAsciiDigit(s[j])
    requires AllAsciiDigits(s[..i]) && AllAsciiDigits(s[i + 1..j]) && AllAsciiDigits(s[j + 1..])
    ensures CleanDigits(s) == s[..i] + s[i + 1..j] + s[j + 1..]
  {
    var first, middle, last := s[..i], s[i + 1..j], s[j + 1..];
    calc {
      CleanDigits(s);
      { SplitAround(s, 0, i); }
      CleanDigits(first + [s[i]] + s[i + 1..]);
      { CleanAfterSeparator(first, s[i], s[i + 1..]); }
      first + CleanDigits(s[i + 1..]);
      { SplitAround(s, i + 1, j); CleanAfterSeparator(middle, s[j], last); }
      first + (middle + CleanDigits(last));
      { CleanDigitsOfDigits(last); }
      first + (middle + last);
    }
  }

  /** `s[a..]` is the part before `k`, the character at `k` and the part after it. */
  lemma SplitAround(s: string, a: nat, k: nat)
    requires a <= k < |s|
    ensures s[a..] == s[a..k] + [s[k]] + s[k + 1..]
    ensures a == 0 ==> s == s[..k] + [s[k]] + s[k + 1..]
  {
    assert s[a..] == s[a..k] + s[k..];
    assert s[k..] == [s[k]] + s[k + 1..];
  }

  /** Digits, one separator, then anything: cleaning keeps the digits, drops the separator and cleans the rest. */
  lemma CleanAfterSeparator(digits: string, sep: char, rest: string)
    requires AllAsciiDigits(digits) && !IsAsciiDigit(sep)
    ensures CleanDigits(digits + [sep] + rest) == digits + CleanDigits(rest)
  {
    assert CleanDigits([sep]) == "" by {
      assert [sep][1..] == [];
    }
    calc {
      CleanDigits(digits + [sep] + rest);
      { CleanDigitsAppend(digits + [sep], rest); }
      CleanDigits(digits + [sep]) + CleanDigits(rest);
      { CleanDigitsAppend(digits, [sep]); CleanDigitsOfDigits(digits); assert digits + "" == digits; }
      digits + CleanDigits(rest);
    }
  }

  /** A phone written `ddd-dddd-dddd` or `ddd dddd dddd` validates exactly as its 11 digits do. */
  lemma SeparatorsIgnored(s: string)
    requires |s| == 13 && !IsAsciiDigit(s[3]) && !IsAsciiDigit(s[8])
    requires AllAsciiDigits(s[..3]) && AllAsciiDigits(s[4..8]) && AllAsciiDigits(s[9..])
    ensures ValidatePhone(s) == ValidatePhone(s[..3] + s[4..8] + s[9..])
  {
    CleanSeparated(s, 3, 8);
    PhoneDigitsOnly(s);
  }
}
