/**
 * The extractor on the texts of its own unit tests (`src/core/extractor.rs`)
 * and of the integration tests (`tests/test_extractor.rs`): what each test
 * asserts about `extract`, proved of the model. The capture recognised at each
 * place is established from the shapes (the recognisers miss nothing), then
 * the search is walked from the start of the text to its end.
 */
module ExtractorExamples {
  import opened Wrappers
  import opened Strings
  import opened RegexPatterns
  import opened Validator
  import opened ExtractResultModel
  import opened ConfigModel
  import opened Extractor
  import opened RegexExamples

  // ---------------------------------------------------------------------------
  // Texts laid out as plain stretches and captures

  /** Plain characters, then one capture reaching the end of the text: the search reports that capture alone. */
  lemma ScanOne(pat: Pattern, t: string, c: nat)
    requires 0 < c <= |t| && forall k :: 0 <= k < c ==> Plain(t[k])
    requires CaptureAt(pat, t, c) == Some(|t|)
    ensures Scan(pat, t, 0) == [Span(c, |t|)]
  {
    ScanPlainThen(pat, t, 0, c, |t|);
    ScanAtEnd(pat, t);
  }

  /** Two captures, the second reaching the end, behind non-digits the recogniser reads nothing from. */
  lemma ScanWithTwo(cap: Recogniser, t: string, c1: nat, e1: nat, c2: nat)
    requires 0 < c1 < e1 && e1 + 1 < c2 <= |t| && Bounded(cap, |t|)
    requires forall k :: 0 <= k < c1 ==> cap(k).None? && !IsAsciiDigit(t[k])
    requires forall k :: e1 + 1 <= k < c2 ==> cap(k).None? && !IsAsciiDigit(t[k])
    requires cap(c1) == Some(e1) && cap(c2) == Some(|t|)
    ensures ScanWith(cap, t, 0) == [Span(c1, e1), Span(c2, |t|)]
  {
    ScanWithLast(cap, t, e1 + 1, c2);
    ScanWithPlainThenOne(cap, t, 0, c1, e1, Span(c2, |t|));
  }

  /** Plain characters and a capture, after which the search reports one capture more. */
  lemma ScanWithPlainThenOne(cap: Recogniser, t: string, p: nat, c: nat, e: nat, b: Span)
    requires p < c <= |t| && Bounded(cap, |t|) && cap(c) == Some(e)
    requires forall k :: p <= k < c ==> cap(k).None? && !IsAsciiDigit(t[k])
    requires e < |t| && ScanWith(cap, t, e + 1) == [b]
    ensures ScanWith(cap, t, p) == [Span(c, e), b]
  {
    ScanWithPlainThen(cap, t, p, c, e);
    assert MatchEnd(t, e) == e + 1;
  }

  /** One capture reaching the end, behind non-digits the recogniser reads nothing from. */
  lemma ScanWithLast(cap: Recogniser, t: string, p: nat, c: nat)
    requires p < c <= |t| && Bounded(cap, |t|)
    requires forall k :: p <= k < c ==> cap(k).None? && !IsAsciiDigit(t[k])
    requires cap(c) == Some(|t|)
    ensures ScanWith(cap, t, p) == [Span(c, |t|)]
  {
    ScanWithPlainThen(cap, t, p, c, |t|);
    ScanWithAtEnd(cap, t);
  }

  /** Plain characters, a capture, plain characters, and a capture reaching the end: the search reports both. */
  lemma ScanTwo(pat: Pattern, t: string, c1: nat, e1: nat, c2: nat)
    requires 0 < c1 < e1 && e1 + 1 < c2 <= |t|
    requires forall k :: 0 <= k < c1 ==> Plain(t[k])
    requires forall k :: e1 + 1 <= k < c2 ==> Plain(t[k])
    requires CaptureAt(pat, t, c1) == Some(e1) && CaptureAt(pat, t, c2) == Some(|t|)
    ensures Scan(pat, t, 0) == [Span(c1, e1), Span(c2, |t|)]
  {
    var cap := Recognise(pat, t);
    forall k | 0 <= k < c1
      ensures cap(k).None? && !IsAsciiDigit(t[k])
    {
      CaptureAtPlain(pat, t, k);
    }
    forall k | e1 + 1 <= k < c2
      ensures cap(k).None? && !IsAsciiDigit(t[k])
    {
      CaptureAtPlain(pat, t, k);
    }
    ScanWithTwo(cap, t, c1, e1, c2);
  }

  /** No capture up to `q`, and digits from just before it to the end: the search finds nothing. */
  lemma ScanEmptyTail(pat: Pattern, t: string, q: nat)
    requires 0 < q <= |t| && forall k :: 0 <= k <= q ==> CaptureAt(pat, t, k).None?
    requires forall k :: q - 1 <= k < |t| ==> IsAsciiDigit(t[k])
    ensures Scan(pat, t, 0) == []
  {
    var cap := Recognise(pat, t);
    forall k | 0 <= k <= q
      ensures cap(k).None?
    {
      assert CaptureAt(pat, t, k).None?;
    }
    ScanWithSkip(cap, t, 0, q);
    ScanDigitsTail(pat, t, q);
  }

  /** Plain characters, then fewer than eighteen digits to the end: no ID capture. */
  lemma NoIdInShortDigits(t: string, c: nat)
    requires 0 < c < |t| < c + 18
    requires forall k :: 0 <= k < c ==> Plain(t[k])
    requires forall k :: c <= k < |t| ==> IsAsciiDigit(t[k])
    ensures Scan(IdCard, t, 0) == []
  {
    forall k | 0 <= k <= c + 1
      ensures CaptureAt(IdCard, t, k).None?
    {
      if k < c {
        CaptureAtPlain(IdCard, t, k);
      }
    }
    ScanEmptyTail(IdCard, t, c + 1);
  }

  // ---------------------------------------------------------------------------
  // What the extractor makes of those searches

  /** Two phone captures, each starting with `1`: two phone matches, both valid. */
  lemma TwoPhonesValid(t: string, a: nat, b: nat, c: nat, d: nat)
    requires a < b <= |t| && c < d <= |t| && t[a] == '1' && t[c] == '1'
    requires Scan(Phone, t, 0) == [Span(a, b), Span(c, d)]
    ensures var r := PhoneMatches(t); |r| == 2 && r[0].isValid && r[1].isValid
  {
    PhoneValidIffNoCountryCode(t);
    var r := PhoneMatches(t);
    assert r[0].value == t[a..b] && r[1].value == t[c..d];
  }

  /** One ID capture to the end whose text is a valid ID number: one ID match, valid, at the capture's byte offsets. */
  lemma OneIdValid(t: string, a: nat)
    requires a < |t| && Scan(IdCard, t, 0) == [Span(a, |t|)] && IsValidIdCard(t[a..|t|])
    ensures var r := IdCardMatches(t);
      |r| == 1 && r[0].isValid && r[0].position == (ByteOffset(t, a), ByteOffset(t, |t|))
  {
    assert IdCardMatches(t)[0].value == t[a..|t|];
  }

  /** One bank capture to the end: one bank candidate, at the capture's byte offsets. */
  lemma OneBankCandidate(t: string, a: nat)
    requires a < |t| && Scan(BankCard, t, 0) == [Span(a, |t|)]
    ensures var cs := ExtractBankCards(t); |cs| == 1 && cs[0].start == ByteOffset(t, a) && cs[0].end == ByteOffset(t, |t|)
  {
  }

  /** A lone candidate overlapping the one valid ID match is dropped. */
  lemma HiddenByValidId(cs: seq<Capture>, ids: seq<MatchInfo>)
    requires |cs| == 1 && |ids| == 1 && ids[0].isValid && Overlaps(cs[0], ids[0].position)
    ensures KeepClear(cs, ValidIdPositions(ids)) == []
  {
    var ps := ValidIdPositions(ids);
    assert ids[0].position in ps;
    assert !(cs[0] in KeepClear(cs, ps));
  }

  /** No ID capture and one bank capture to the end with a valid number: one bank match, valid. */
  lemma OneBankValid(config: Config, t: string, nameService: string -> seq<MatchInfo>, a: nat)
    requires config.enableBankCard && a < |t|
    requires Scan(IdCard, t, 0) == [] && Scan(BankCard, t, 0) == [Span(a, |t|)] && ValidateBankCard(t[a..|t|])
    ensures var r := Extract(config, t, nameService); |r.bankCards| == 1 && r.bankCards[0].isValid
  {
    var r := Extract(config, t, nameService);
    InvalidIdsSuppressNothing(config, t, nameService);
    assert r.bankCards[0].value == t[a..|t|];
  }

  /** The same capture read as a valid ID and as a bank card: the ID is reported, valid, and the bank card is not. */
  lemma ValidIdHidesBank(config: Config, t: string, nameService: string -> seq<MatchInfo>, a: nat)
    requires config.enableIdCard && config.enableBankCard && a < |t|
    requires Scan(IdCard, t, 0) == [Span(a, |t|)] && Scan(BankCard, t, 0) == [Span(a, |t|)] && IsValidIdCard(t[a..|t|])
    ensures var r := Extract(config, t, nameService); |r.idCards| == 1 && r.idCards[0].isValid && r.bankCards == []
  {
    var r := Extract(config, t, nameService);
    OneIdValid(t, a);
    OneBankCandidate(t, a);
    Utf8Slice(t, a, |t|);
    HiddenByValidId(ExtractBankCards(t), r.idCards);
  }

  /** The same capture read as an invalid ID and as a bank card: the ID is reported, invalid, and the bank card too. */
  lemma InvalidIdLeavesBank(config: Config, t: string, nameService: string -> seq<MatchInfo>, a: nat)
    requires config.enableIdCard && config.enableBankCard && a < |t|
    requires Scan(IdCard, t, 0) == [Span(a, |t|)] && Scan(BankCard, t, 0) == [Span(a, |t|)] && !IsValidIdCard(t[a..|t|])
    ensures var r := Extract(config, t, nameService); |r.idCards| == 1 && !r.idCards[0].isValid && r.bankCards != []
  {
    var r := Extract(config, t, nameService);
    assert r.idCards[0].value == t[a..|t|];
    InvalidIdsSuppressNothing(config, t, nameService);
  }

  // ---------------------------------------------------------------------------
  // The tests

  /** `test_extract_phones`: two numbers behind Chinese labels, both found and both valid. */
  lemma ExtractPhonesTest(t: string, nameService: string -> seq<MatchInfo>)
    requires t == "联系方式：13812345678，备用：15912345678"
    ensures var r := Extract(DefaultConfig(), t, nameService);
      |r.phones| == 2 && r.phones[0].isValid && r.phones[1].isValid
  {
    PhonesTestScan(t);
    TwoPhonesValid(t, 5, 16, 20, 31);
  }

  lemma PhonesTestScan(t: string)
    requires t == "联系方式：13812345678，备用：15912345678"
    ensures |t| == 31 && t[5] == '1' && t[20] == '1' && Scan(Phone, t, 0) == [Span(5, 16), Span(20, 31)]
  {
    PhonesTestText(t);
    PhonesTestDigits(t);
    PhoneOfDigits(t, 5);
    PhoneOfDigits(t, 20);
    ScanTwo(Phone, t, 5, 16, 20);
  }

  lemma PhonesTestText(t: string)
    requires t == "联系方式：13812345678，备用：15912345678"
    ensures |t| == 31 && (forall k :: 0 <= k < 5 ==> Plain(t[k])) && (forall k :: 16 <= k < 20 ==> Plain(t[k]))
  {
  }

  lemma PhonesTestDigits(t: string)
    requires t == "联系方式：13812345678，备用：15912345678"
    ensures |t| == 31 && (forall k :: 5 <= k < 16 ==> IsAsciiDigit(t[k])) && (forall k :: 20 <= k < 31 ==> IsAsciiDigit(t[k]))
    ensures t[5] == '1' && t[6] == '3' && t[20] == '1' && t[21] == '5'
  {
  }

  /** `test_extract_id_cards`: one ID number behind a label, found and valid. */
  lemma ExtractIdCardsTest(t: string, nameService: string -> seq<MatchInfo>)
    requires t == "身份证号：440308199901010012"
    ensures var r := Extract(DefaultConfig(), t, nameService); |r.idCards| == 1 && r.idCards[0].isValid
  {
    IdTestScan(t);
    OneIdValid(t, 5);
  }

  /** `test_config_id_card_only`: with only the ID scanner on, the ID and nothing else. */
  lemma IdCardOnlyTest(t: string, nameService: string -> seq<MatchInfo>)
    requires t == "身份证号：440308199901010012"
    ensures var config := DefaultConfig().(enablePhone := false, enableBankCard := false);
      var r := Extract(config, t, nameService);
      r.phones == [] && |r.idCards| == 1 && r.bankCards == []
  {
    IdTestScan(t);
    OneIdValid(t, 5);
  }

  lemma IdTestScan(t: string)
    requires t == "身份证号：440308199901010012"
    ensures |t| == 23 && Scan(IdCard, t, 0) == [Span(5, 23)] && IsValidIdCard(t[5..|t|])
  {
    IdTestText(t);
    IdOfDigits(t, 5);
    ScanOne(IdCard, t, 5);
    IdTestValid(t);
  }

  lemma IdTestValid(t: string)
    requires t == "身份证号：440308199901010012"
    ensures IsValidIdCard(t[5..|t|])
  {
    IdTestDigits(t);
    IdCardSecondValidExample();
  }

  lemma IdTestDigits(t: string)
    requires t == "身份证号：440308199901010012"
    ensures t[5..|t|] == "440308199901010012"
  {
  }

  lemma IdTestText(t: string)
    requires t == "身份证号：440308199901010012"
    ensures |t| == 23 && (forall k :: 0 <= k < 5 ==> Plain(t[k])) && (forall k :: 5 <= k < 23 ==> IsAsciiDigit(t[k]))
    ensures t[5] == '4' && t[11] == '1' && t[12] == '9' && IsMonthCode(t[15], t[16]) && IsDayCode(t[17], t[18])
  {
  }

  /**
   * `test_extract_bank_cards`, in the unit tests and in the integration tests
   * (whose label is one character longer): one card number, found and valid.
   */
  lemma ExtractBankCardsTest(t: string, nameService: string -> seq<MatchInfo>)
    requires t == "银行卡：4111111111111111" || t == "银行卡号：4111111111111111"
    ensures var r := Extract(DefaultConfig(), t, nameService); |r.bankCards| == 1 && r.bankCards[0].isValid
  {
    var a := if t == "银行卡：4111111111111111" then 4 else 5;
    BankTestNoId(t, a);
    BankTestCard(t, a);
    OneBankValid(DefaultConfig(), t, nameService, a);
  }

  /** `test_config_bank_card_only`: with only the bank scanner on, the card and nothing else. */
  lemma BankCardOnlyTest(t: string, nameService: string -> seq<MatchInfo>)
    requires t == "银行卡号：4111111111111111"
    ensures var config := DefaultConfig().(enablePhone := false, enableIdCard := false);
      var r := Extract(config, t, nameService);
      r.phones == [] && r.idCards == [] && r.bankCards != []
  {
    BankTestNoId(t, 5);
    BankTestCard(t, 5);
    OneBankValid(DefaultConfig().(enablePhone := false, enableIdCard := false), t, nameService, 5);
  }

  lemma BankTestNoId(t: string, a: nat)
    requires t == "银行卡：4111111111111111" || t == "银行卡号：4111111111111111"
    requires a == if t == "银行卡：4111111111111111" then 4 else 5
    ensures a + 16 == |t| && Scan(IdCard, t, 0) == []
  {
    BankTestText(t, a);
    NoIdInShortDigits(t, a);
  }

  lemma BankTestCard(t: string, a: nat)
    requires t == "银行卡：4111111111111111" || t == "银行卡号：4111111111111111"
    requires a == if t == "银行卡：4111111111111111" then 4 else 5
    ensures a + 16 == |t| && Scan(BankCard, t, 0) == [Span(a, |t|)] && ValidateBankCard(t[a..|t|])
  {
    BankTestText(t, a);
    BankOfSixteen(t, a);
    ScanOne(BankCard, t, a);
    BankTestValid(t, a);
  }

  lemma BankTestValid(t: string, a: nat)
    requires a + 16 == |t| && forall k :: a <= k < |t| ==> t[k] == if k == a then '4' else '1'
    ensures ValidateBankCard(t[a..|t|])
  {
    FourThenOnes(t[a..|t|]);
    DigitCardValid(t[a..|t|]);
  }

  lemma BankTestText(t: string, a: nat)
    requires t == "银行卡：4111111111111111" || t == "银行卡号：4111111111111111"
    requires a == if t == "银行卡：4111111111111111" then 4 else 5
    ensures a + 16 == |t| && (forall k :: 0 <= k < a ==> Plain(t[k])) && (forall k :: a <= k < |t| ==> IsAsciiDigit(t[k]))
    ensures forall k :: a <= k < |t| ==> t[k] == if k == a then '4' else '1'
  {
  }

  /** `test_valid_id_card_not_matched_as_bank_card`: eighteen digits forming a valid ID are not also a bank card. */
  lemma ValidIdNotBankTest(t: string, nameService: string -> seq<MatchInfo>)
    requires t == "身份证：110105199003072039"
    ensures var r := Extract(DefaultConfig(), t, nameService);
      |r.idCards| == 1 && r.idCards[0].isValid && |r.bankCards| == 0
  {
    EighteenDigitsScan(t);
    ValidIdTestId(t);
    ValidIdHidesBank(DefaultConfig(), t, nameService, 4);
  }

  lemma ValidIdTestId(t: string)
    requires t == "身份证：110105199003072039"
    ensures IsValidIdCard(t[4..|t|])
  {
    assert t[4..|t|] == "110105199003072039";
    IdCardValidExample();
  }

  /** `test_invalid_id_card_can_be_matched_as_bank_card`: eighteen digits failing the ID check stay a bank card. */
  lemma InvalidIdIsBankTest(t: string, nameService: string -> seq<MatchInfo>)
    requires t == "号码：110105199003072030"
    ensures var r := Extract(DefaultConfig(), t, nameService);
      |r.idCards| == 1 && !r.idCards[0].isValid && r.bankCards != []
  {
    EighteenDigitsScan(t);
    InvalidIdTestId(t);
    InvalidIdLeavesBank(DefaultConfig(), t, nameService, 3);
  }

  lemma InvalidIdTestId(t: string)
    requires t == "号码：110105199003072030"
    ensures !IsValidIdCard(t[3..|t|])
  {
    assert t[3..|t|] == "110105199003072030";
    IdCardCheckZeroExample();
  }

  /** The two texts above: a label, then eighteen digits from `1101051990030720` on, read as an ID and as a bank card. */
  lemma EighteenDigitsScan(t: string)
    requires t == "身份证：110105199003072039" || t == "号码：110105199003072030"
    ensures var a := if t == "身份证：110105199003072039" then 4 else 3;
      a + 18 == |t| && Scan(IdCard, t, 0) == [Span(a, |t|)] && Scan(BankCard, t, 0) == [Span(a, |t|)]
  {
    var a := if t == "身份证：110105199003072039" then 4 else 3;
    EighteenDigitsText(t, a);
    EighteenDigitsCodes(t, a);
    IdOfDigits(t, a);
    ScanOne(IdCard, t, a);
    BankOfEighteen(t, a);
    ScanOne(BankCard, t, a);
  }

  lemma EighteenDigitsText(t: string, a: nat)
    requires t == "身份证：110105199003072039" || t == "号码：110105199003072030"
    requires a == if t == "身份证：110105199003072039" then 4 else 3
    ensures a + 18 == |t| && (forall k :: 0 <= k < a ==> Plain(t[k])) && (forall k :: a <= k < |t| ==> IsAsciiDigit(t[k]))
  {
  }

  lemma EighteenDigitsCodes(t: string, a: nat)
    requires t == "身份证：110105199003072039" || t == "号码：110105199003072030"
    requires a == if t == "身份证：110105199003072039" then 4 else 3
    ensures a + 18 == |t| && t[a] == '1' && t[a + 6] == '1' && t[a + 7] == '9'
    ensures IsMonthCode(t[a + 10], t[a + 11]) && IsDayCode(t[a + 12], t[a + 13])
  {
  }

  /** `test_config_phone_only`: with only the phone scanner on, one phone and nothing else. */
  lemma PhoneOnlyTest(t: string, nameService: string -> seq<MatchInfo>)
    requires t == "电话13812345678"
    ensures var config := DefaultConfig().(enableIdCard := false, enableBankCard := false);
      var r := Extract(config, t, nameService);
      |r.phones| == 1 && r.idCards == [] && r.bankCards == []
  {
    PhoneOnlyScan(t);
  }

  lemma PhoneOnlyScan(t: string)
    requires t == "电话13812345678"
    ensures |PhoneMatches(t)| == 1
  {
    assert |t| == 13 && (forall k :: 0 <= k < 2 ==> Plain(t[k])) && (forall k :: 2 <= k < 13 ==> IsAsciiDigit(t[k]));
    assert t[2] == '1' && t[3] == '3';
    PhoneOfDigits(t, 2);
    ScanOne(Phone, t, 2);
  }

  /** `test_config_all_disabled`: with every scanner off, nothing at all. */
  lemma AllDisabledTest(t: string, nameService: string -> seq<MatchInfo>)
    requires t == "电话13812345678"
    ensures var config := DefaultConfig().(enablePhone := false, enableIdCard := false, enableBankCard := false);
      var r := Extract(config, t, nameService);
      r.phones == [] && r.idCards == [] && r.bankCards == [] && r.names == []
  {
  }
}
