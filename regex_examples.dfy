/**
 * The scanners on the texts of their own unit tests
 * (`src/utils/regex_patterns.rs`): `is_match` holds when the leftmost-first
 * search reports a capture, and the `*_chinese` tests read the first
 * triple's value. Each capture is established from its shape (the
 * recognisers miss nothing), then the search is walked over the text.
 */
module RegexExamples {
  import opened Wrappers
  import opened Strings
  import opened RegexPatterns

  /** `Regex::is_match`: the search from the start of the text reports a capture. */
  predicate IsMatch(pat: Pattern, t: string) {
    Scan(pat, t, 0) != []
  }

  // ---------------------------------------------------------------------------
  // Searches over whole texts

  /** A text that is one capture from end to end: the search reports just it. */
  lemma ScanWhole(pat: Pattern, t: string)
    requires CaptureAt(pat, t, 0) == Some(|t|)
    ensures Scan(pat, t, 0) == [Span(0, |t|)]
  {
    var cap := Recognise(pat, t);
    assert cap(0) == Some(|t|);
    assert MatchWith(cap, t, 0) == Some(Span(0, |t|));
    ScanWithAtEnd(cap, t);
  }

  /** Digits up to the last character: no leading boundary is left for a capture from `p` on. */
  lemma {:induction false} ScanWithNoLead(cap: Recogniser, t: string, p: nat)
    requires 1 <= p <= |t| && Bounded(cap, |t|)
    requires forall k :: p - 1 <= k < |t| - 1 ==> IsAsciiDigit(t[k])
    ensures ScanWith(cap, t, p) == []
    decreases |t| - p
  {
    if p < |t| {
      assert MatchWith(cap, t, p).None? by {
        if p == |t| - 1 {
          assert cap(|t|).None?;
        }
      }
      ScanWithNoLead(cap, t, p + 1);
    }
  }

  /** Nothing read at the start and digits up to the last character: the search finds nothing. */
  lemma ScanNoLead(pat: Pattern, t: string)
    requires 0 < |t| && CaptureAt(pat, t, 0).None?
    requires forall k :: 0 <= k < |t| - 1 ==> IsAsciiDigit(t[k])
    ensures Scan(pat, t, 0) == []
  {
    var cap := Recognise(pat, t);
    assert cap(0).None?;
    assert MatchWith(cap, t, 0).None? by {
      if |t| == 1 {
        assert cap(1).None?;
      }
    }
    ScanWithNoLead(cap, t, 1);
  }

  /** Plain characters to the end: the search finds nothing. */
  lemma ScanPlainTail(pat: Pattern, t: string, p: nat)
    requires p <= |t| && forall k :: p <= k < |t| ==> Plain(t[k])
    ensures Scan(pat, t, p) == []
  {
    var cap := Recognise(pat, t);
    forall k | p <= k <= |t|
      ensures cap(k).None?
    {
      CaptureAtPlain(pat, t, k);
    }
    ScanWithSkip(cap, t, p, |t|);
    ScanWithAtEnd(cap, t);
  }

  /** Plain characters, one capture, its consumed boundary, and plain characters: the search reports that capture alone. */
  lemma ScanInside(pat: Pattern, t: string, c: nat, e: nat)
    requires 0 < c < e < |t| && CaptureAt(pat, t, c) == Some(e)
    requires forall k :: 0 <= k < c ==> Plain(t[k])
    requires forall k :: e + 1 <= k < |t| ==> Plain(t[k])
    ensures Scan(pat, t, 0) == [Span(c, e)]
  {
    ScanPlainThen(pat, t, 0, c, e);
    assert MatchEnd(t, e) == e + 1;
    ScanPlainTail(pat, t, e + 1);
  }

  // ---------------------------------------------------------------------------
  // Captures made of digits

  /** Eleven digits starting `1`, then `3`-`9`, before a trailing boundary: a phone capture to its end. */
  lemma PhoneOfDigits(t: string, c: nat)
    requires c + 11 <= |t| && t[c] == '1' && '3' <= t[c + 1] <= '9'
    requires forall k :: c <= k < c + 11 ==> IsAsciiDigit(t[k])
    requires c + 11 == |t| || !IsAsciiDigit(t[c + 11])
    ensures CaptureAt(Phone, t, c) == Some(c + 11)
  {
    assert Sum([3, 4, 4]) == 11;
    GroupedOfDigits(t, c, [3, 4, 4], false);
    CaptureAtComplete(Phone, t, c, c + 11);
  }

  /** Eighteen digits with a valid year, month and day code, ending the text: an ID capture. */
  lemma IdOfDigits(t: string, c: nat)
    requires c + 18 == |t| && '1' <= t[c] <= '9'
    requires forall k :: c <= k < c + 18 ==> IsAsciiDigit(t[k])
    requires (t[c + 6] == '1' && t[c + 7] == '9') || (t[c + 6] == '2' && t[c + 7] == '0')
    requires IsMonthCode(t[c + 10], t[c + 11]) && IsDayCode(t[c + 12], t[c + 13])
    ensures CaptureAt(IdCard, t, c) == Some(c + 18)
  {
    DigitsInAll(t, c + 1, c + 6);
    DigitsInAll(t, c + 8, c + 10);
    DigitsInAll(t, c + 14, c + 17);
    assert IdCardIn(t, c, c + 18);
  }

  /** Sixteen digits ending the text: a bank-card capture to its end. */
  lemma BankOfSixteen(t: string, c: nat)
    requires c + 16 == |t| && forall k :: c <= k < |t| ==> IsAsciiDigit(t[k])
    ensures CaptureAt(BankCard, t, c) == Some(|t|)
  {
    assert Sum([4, 4, 4, 4]) == 16;
    GroupedOfDigits(t, c, [4, 4, 4, 4], false);
    CaptureAtComplete(BankCard, t, c, |t|);
  }

  /** Eighteen digits ending the text: a bank-card capture of sixteen digits and two more. */
  lemma BankOfEighteen(t: string, c: nat)
    requires c + 18 == |t| && forall k :: c <= k < |t| ==> IsAsciiDigit(t[k])
    ensures CaptureAt(BankCard, t, c) == Some(|t|)
  {
    assert Sum([4, 4, 4, 4, 2]) == 18;
    GroupedOfDigits(t, c, [4, 4, 4, 4, 2], false);
    CaptureAtComplete(BankCard, t, c, |t|);
  }


  /** An ID of seventeen digits and a final `X`, born in the 1900s, before its trailing boundary. */
  lemma IdWithX(t: string, c: nat)
    requires c + 18 <= |t| && '1' <= t[c] <= '9' && t[c + 6] == '1' && t[c + 7] == '9'
    requires forall k :: c <= k < c + 17 ==> IsAsciiDigit(t[k])
    requires t[c + 17] == 'X' && TrailOk(IdCard, t, c + 18)
    requires IsMonthCode(t[c + 10], t[c + 11]) && IsDayCode(t[c + 12], t[c + 13])
    ensures CaptureAt(IdCard, t, c) == Some(c + 18)
  {
    DigitsInAll(t, c + 1, c + 6);
    DigitsInAll(t, c + 8, c + 10);
    DigitsInAll(t, c + 14, c + 17);
    assert IdCardIn(t, c, c + 18);
  }

  /** Sixteen digits followed by a character that is neither a digit nor a separator: a bank capture of exactly those. */
  lemma BankBeforeStop(t: string, c: nat)
    requires c + 16 < |t| && forall k :: c <= k < c + 16 ==> IsAsciiDigit(t[k])
    requires !IsAsciiDigit(t[c + 16]) && !IsSep(t[c + 16])
    ensures CaptureAt(BankCard, t, c) == Some(c + 16)
  {
    assert Sum([4, 4, 4, 4]) == 16;
    GroupedOfDigits(t, c, [4, 4, 4, 4], false);
    GroupsAtComplete(t, c, c + 16, [4, 4, 4, 4], false);
    assert OptSep(t, c + 16) == c + 16;
    assert !DigitsIn(t, c + 16, c + 17);
  }

  /** A bank capture reaches sixteen characters at least: it holds sixteen digits. */
  lemma BankCaptureLong(t: string, c: nat)
    ensures CaptureAt(BankCard, t, c).Some? ==> c + 16 <= CaptureAt(BankCard, t, c).value
  {
    var r := CaptureAt(BankCard, t, c);
    if r.Some? {
      CaptureAtSound(BankCard, t, c);
      ShapeInSlice(BankCard, t, c, r.value);
      BankCardDigits(t[c..r.value]);
    }
  }

  // ---------------------------------------------------------------------------
  // The tests

  /**
   * `phone`: `13812345678` and `+86 138 1234 5678` match; `12812345678` does
   * not, since `12` is no mobile prefix.
   */
  lemma PhoneTest(a: string, b: string, c: string)
    requires a == "13812345678" && b == "+86 138 1234 5678" && c == "12812345678"
    ensures IsMatch(Phone, a) && IsMatch(Phone, b) && !IsMatch(Phone, c)
  {
    PhonePlain(a);
    PhoneSpaced(b);
    PhoneBadPrefix(c);
  }

  lemma PhonePlain(t: string)
    requires t == "13812345678"
    ensures Scan(Phone, t, 0) == [Span(0, 11)]
  {
    assert |t| == 11 && t[0] == '1' && t[1] == '3' && forall k :: 0 <= k < 11 ==> IsAsciiDigit(t[k]);
    PhoneOfDigits(t, 0);
    ScanWhole(Phone, t);
  }

  lemma PhoneSpaced(t: string)
    requires t == "+86 138 1234 5678"
    ensures Scan(Phone, t, 0) == [Span(0, 17)]
  {
    PhoneSpacedText(t);
    DigitsInAll(t, 4, 7);
    DigitsInAll(t, 8, 12);
    DigitsInAll(t, 13, 17);
    assert GroupedIn(t, 17, 17, [], true);
    assert GroupedIn(t, 12, 17, [4], true) by {
      assert SkipSep(t, 12, 17) == 13;
    }
    assert GroupedIn(t, 7, 17, [4, 4], true) by {
      assert SkipSep(t, 7, 17) == 8;
      assert [4, 4][1..] == [4];
    }
    assert GroupedIn(t, 4, 17, [3, 4, 4], false) by {
      assert [3, 4, 4][1..] == [4, 4];
    }
    assert SkipSep(t, 3, 17) == 4;
    assert PhoneIn(t, 0, 17);
    CaptureAtComplete(Phone, t, 0, 17);
    ScanWhole(Phone, t);
  }

  lemma PhoneSpacedText(t: string)
    requires t == "+86 138 1234 5678"
    ensures |t| == 17 && t[0] == '+' && t[1] == '8' && t[2] == '6' && t[4] == '1' && t[5] == '3'
    ensures IsSep(t[3]) && IsSep(t[7]) && IsSep(t[12])
    ensures (forall k :: 4 <= k < 7 ==> IsAsciiDigit(t[k])) && (forall k :: 8 <= k < 12 ==> IsAsciiDigit(t[k]))
    ensures forall k :: 13 <= k < 17 ==> IsAsciiDigit(t[k])
  {
  }

  lemma PhoneBadPrefix(t: string)
    requires t == "12812345678"
    ensures Scan(Phone, t, 0) == []
  {
    assert |t| == 11 && t[0] == '1' && t[1] == '2' && forall k :: 0 <= k < 11 ==> IsAsciiDigit(t[k]);
    assert CaptureAt(Phone, t, 0).None?;
    ScanNoLead(Phone, t);
  }

  /** `phone_chinese`: the number between Chinese words is the first phone value. */
  lemma PhoneChineseTest(t: string)
    requires t == "联系13812345678请拨打"
    ensures var r := ExtractPhones(t); r != [] && r[0].value == "13812345678"
  {
    PhoneChineseText(t);
    PhoneOfDigits(t, 2);
    ScanInside(Phone, t, 2, 13);
  }

  lemma PhoneChineseText(t: string)
    requires t == "联系13812345678请拨打"
    ensures |t| == 16 && t[2] == '1' && t[3] == '3' && !IsAsciiDigit(t[13]) && t[2..13] == "13812345678"
    ensures (forall k :: 0 <= k < 2 ==> Plain(t[k])) && (forall k :: 2 <= k < 13 ==> IsAsciiDigit(t[k]))
    ensures forall k :: 14 <= k < 16 ==> Plain(t[k])
  {
  }

  /** `id_card`: `11010519900307888X` matches; with month 13 it does not. */
  lemma IdCardTest(a: string, b: string)
    requires a == "11010519900307888X" && b == "11010519901307888X"
    ensures IsMatch(IdCard, a) && !IsMatch(IdCard, b)
  {
    IdWhole(a);
    IdBadMonth(b);
  }

  lemma IdWhole(t: string)
    requires t == "11010519900307888X"
    ensures Scan(IdCard, t, 0) == [Span(0, 18)]
  {
    IdText(t);
    IdWithX(t, 0);
    ScanWhole(IdCard, t);
  }

  lemma IdText(t: string)
    requires t == "11010519900307888X"
    ensures |t| == 18 && t[0] == '1' && t[6] == '1' && t[7] == '9' && t[17] == 'X'
    ensures forall k :: 0 <= k < 17 ==> IsAsciiDigit(t[k])
    ensures IsMonthCode(t[10], t[11]) && IsDayCode(t[12], t[13])
  {
  }

  lemma IdBadMonth(t: string)
    requires t == "11010519901307888X"
    ensures Scan(IdCard, t, 0) == []
  {
    assert |t| == 18 && !IsMonthCode(t[10], t[11]) && forall k :: 0 <= k < 17 ==> IsAsciiDigit(t[k]);
    assert CaptureAt(IdCard, t, 0).None?;
    ScanNoLead(IdCard, t);
  }

  /** `id_card_chinese`: the ID between Chinese words is the first ID value. */
  lemma IdCardChineseTest(t: string)
    requires t == "身份证11010519900307888X核实"
    ensures var r := ExtractIdCards(t); r != [] && r[0].value == "11010519900307888X"
  {
    IdChineseText(t);
    IdWithX(t, 3);
    ScanInside(IdCard, t, 3, 21);
  }

  lemma IdChineseText(t: string)
    requires t == "身份证11010519900307888X核实"
    ensures |t| == 23 && t[3] == '1' && t[9] == '1' && t[10] == '9' && t[20] == 'X' && TrailOk(IdCard, t, 21)
    ensures (forall k :: 0 <= k < 3 ==> Plain(t[k])) && (forall k :: 3 <= k < 20 ==> IsAsciiDigit(t[k]))
    ensures IsMonthCode(t[13], t[14]) && IsDayCode(t[15], t[16]) && Plain(t[22])
    ensures t[3..21] == "11010519900307888X"
  {
  }

  /**
   * `bank_card`: sixteen digits match with or without spaces between the
   * groups; twelve digits do not.
   */
  lemma BankCardTest(a: string, b: string, c: string)
    requires a == "6225880123456789" && b == "6225 8801 2345 6789" && c == "622588012345"
    ensures IsMatch(BankCard, a) && IsMatch(BankCard, b) && !IsMatch(BankCard, c)
  {
    BankWhole(a);
    BankSpaced(b);
    BankShort(c);
  }

  lemma BankWhole(t: string)
    requires t == "6225880123456789"
    ensures Scan(BankCard, t, 0) == [Span(0, 16)]
  {
    assert |t| == 16 && forall k :: 0 <= k < 16 ==> IsAsciiDigit(t[k]);
    BankOfSixteen(t, 0);
    ScanWhole(BankCard, t);
  }

  lemma BankSpaced(t: string)
    requires t == "6225 8801 2345 6789"
    ensures Scan(BankCard, t, 0) == [Span(0, 19)]
  {
    BankSpacedText(t);
    DigitsInAll(t, 0, 4);
    DigitsInAll(t, 5, 9);
    DigitsInAll(t, 10, 14);
    DigitsInAll(t, 15, 19);
    assert GroupedIn(t, 19, 19, [], true);
    assert GroupedIn(t, 14, 19, [4], true) by {
      assert SkipSep(t, 14, 19) == 15;
    }
    assert GroupedIn(t, 9, 19, [4, 4], true) by {
      assert SkipSep(t, 9, 19) == 10;
      assert [4, 4][1..] == [4];
    }
    assert GroupedIn(t, 4, 19, [4, 4, 4], true) by {
      assert SkipSep(t, 4, 19) == 5;
      assert [4, 4, 4][1..] == [4, 4];
    }
    assert GroupedIn(t, 0, 19, [4, 4, 4, 4], false) by {
      assert [4, 4, 4, 4][1..] == [4, 4, 4];
    }
    CaptureAtComplete(BankCard, t, 0, 19);
    ScanWhole(BankCard, t);
  }

  lemma BankSpacedText(t: string)
    requires t == "6225 8801 2345 6789"
    ensures |t| == 19 && IsSep(t[4]) && IsSep(t[9]) && IsSep(t[14]) && TrailOk(BankCard, t, 19)
    ensures (forall k :: 0 <= k < 4 ==> IsAsciiDigit(t[k])) && (forall k :: 5 <= k < 9 ==> IsAsciiDigit(t[k]))
    ensures (forall k :: 10 <= k < 14 ==> IsAsciiDigit(t[k])) && (forall k :: 15 <= k < 19 ==> IsAsciiDigit(t[k]))
  {
  }

  lemma BankShort(t: string)
    requires t == "622588012345"
    ensures Scan(BankCard, t, 0) == []
  {
    assert |t| == 12 && forall k :: 0 <= k < 12 ==> IsAsciiDigit(t[k]);
    BankCaptureLong(t, 0);
    ScanNoLead(BankCard, t);
  }

  /** `bank_card_chinese`: the card number between Chinese words is the first bank value. */
  lemma BankCardChineseTest(t: string)
    requires t == "卡号6225880123456789绑定"
    ensures var r := ExtractBankCards(t); r != [] && r[0].value == "6225880123456789"
  {
    BankChineseText(t);
    BankBeforeStop(t, 2);
    ScanInside(BankCard, t, 2, 18);
  }

  lemma BankChineseText(t: string)
    requires t == "卡号6225880123456789绑定"
    ensures |t| == 20 && !IsAsciiDigit(t[18]) && !IsSep(t[18]) && Plain(t[19])
    ensures (forall k :: 0 <= k < 2 ==> Plain(t[k])) && (forall k :: 2 <= k < 18 ==> IsAsciiDigit(t[k]))
    ensures t[2..18] == "6225880123456789"
  {
  }
}
