/**
 * The extraction coordinator (`src/core/extractor.rs`): runs the enabled
 * scanners over a cell's text, stamps every candidate with its validator's
 * verdict, and drops bank-card candidates that overlap a valid ID number.
 * The name service is an oracle the caller passes in.
 */
module Extractor {
  import opened Strings
  import opened RegexPatterns
  import opened Validator
  import opened ExtractResultModel
  import opened ConfigModel

  /** The four lists `extract` returns. */
  datatype Extraction = Extraction(
    phones: seq<MatchInfo>,
    idCards: seq<MatchInfo>,
    bankCards: seq<MatchInfo>,
    names: seq<MatchInfo>)

  function Stamp(c: Capture, isValid: bool): MatchInfo {
    NewMatchInfo(c.value, isValid, c.start, c.end)
  }

  /** The match carries the candidate's text and offsets. */
  predicate Carries(m: MatchInfo, c: Capture) {
    m.value == c.value && m.position == (c.start, c.end)
  }

  /** `InfoExtractor::extract_phones`: every phone candidate, in order, stamped by `validate_phone`. */
  function PhoneMatches(text: string): (r: seq<MatchInfo>)
    ensures var cs := ExtractPhones(text);
      |r| == |cs| && forall k :: 0 <= k < |r| ==> Carries(r[k], cs[k]) && r[k].isValid == ValidatePhone(r[k].value)
  {
    var cs := ExtractPhones(text);
    seq(|cs|, k requires 0 <= k < |cs| => Stamp(cs[k], ValidatePhone(cs[k].value)))
  }

  /** `InfoExtractor::extract_id_cards`: every ID candidate, in order, stamped by `validate_id_card`. */
  function IdCardMatches(text: string): (r: seq<MatchInfo>)
    ensures var cs := ExtractIdCards(text);
      |r| == |cs| && forall k :: 0 <= k < |r| ==> Carries(r[k], cs[k]) && r[k].isValid == IsValidIdCard(r[k].value)
  {
    var cs := ExtractIdCards(text);
    seq(|cs|, k requires 0 <= k < |cs| => Stamp(cs[k], IsValidIdCard(cs[k].value)))
  }

  /** The positions of the valid ID matches, in order (`valid_id_card_positions`). */
  function ValidIdPositions(ids: seq<MatchInfo>): (ps: seq<(nat, nat)>)
    ensures forall p :: p in ps <==> exists k :: 0 <= k < |ids| && ids[k].isValid && ids[k].position == p
  {
    if ids == [] then []
    else
      var rest := ValidIdPositions(ids[1..]);
      assert forall k :: 1 <= k < |ids| ==> ids[1..][k - 1] == ids[k];
      if ids[0].isValid then [ids[0].position] + rest else rest
  }

  /** The half-open byte ranges `[start, end)` and `[p.0, p.1)` intersect. */
  predicate Overlaps(c: Capture, p: (nat, nat)) {
    c.start < p.1 && c.end > p.0
  }

  predicate OverlapsAny(c: Capture, excluded: seq<(nat, nat)>) {
    exists k :: 0 <= k < |excluded| && Overlaps(c, excluded[k])
  }

  /** The `filter` step of `extract_bank_cards_filtered`: keep candidates overlapping no excluded range. */
  function KeepClear(cs: seq<Capture>, excluded: seq<(nat, nat)>): (r: seq<Capture>)
    ensures forall x :: x in r <==> x in cs && !OverlapsAny(x, excluded)
    ensures IsSubsequence(r, cs)
  {
    if cs == [] then []
    else
      var rest := KeepClear(cs[1..], excluded);
      assert forall x :: x in cs <==> x == cs[0] || x in cs[1..];
      if OverlapsAny(cs[0], excluded) then
        assert cs == [cs[0]] + cs[1..];
        SubsequenceSkip(rest, cs[0], cs[1..]);
        rest
      else
        assert ([cs[0]] + rest)[1..] == rest;
        assert ([cs[0]] + rest)[0] == cs[0];
        [cs[0]] + rest
  }

  /** `xs` is `ys` with some elements removed, the rest kept in order. */
  ghost predicate IsSubsequence<T>(xs: seq<T>, ys: seq<T>)
    decreases |ys|
  {
    if xs == [] then true
    else if ys == [] then false
    else (xs[0] == ys[0] && IsSubsequence(xs[1..], ys[1..])) || IsSubsequence(xs, ys[1..])
  }

  lemma SubsequenceSkip<T>(xs: seq<T>, y: T, ys: seq<T>)
    requires IsSubsequence(xs, ys)
    ensures IsSubsequence(xs, [y] + ys)
  {
    assert ([y] + ys)[1..] == ys;
  }

  /** `extract_bank_cards_filtered`: the candidates clear of every excluded range, in order, stamped by `validate_bank_card`. */
  function BankCardMatches(text: string, excluded: seq<(nat, nat)>): (r: seq<MatchInfo>)
    ensures var kept := KeepClear(ExtractBankCards(text), excluded);
      |r| == |kept| && forall k :: 0 <= k < |r| ==> Carries(r[k], kept[k]) && r[k].isValid == ValidateBankCard(r[k].value)
  {
    var kept := KeepClear(ExtractBankCards(text), excluded);
    seq(|kept|, k requires 0 <= k < |kept| => Stamp(kept[k], ValidateBankCard(kept[k].value)))
  }

  /**
   * `InfoExtractor::extract`. A disabled category yields no matches whatever
   * the text; bank cards are filtered against the valid ID matches before
   * they are validated; names come from the name service.
   */
  function Extract(config: Config, text: string, nameService: string -> seq<MatchInfo>): (r: Extraction)
    ensures !config.enablePhone ==> r.phones == []
    ensures !config.enableIdCard ==> r.idCards == []
    ensures !config.enableBankCard ==> r.bankCards == []
    ensures !config.enableName ==> r.names == []
    ensures config.enablePhone ==> r.phones == PhoneMatches(text)
    ensures config.enableIdCard ==> r.idCards == IdCardMatches(text)
    ensures config.enableBankCard ==> r.bankCards == BankCardMatches(text, ValidIdPositions(r.idCards))
    ensures config.enableName ==> r.names == nameService(text)
  {
    var phones := if config.enablePhone then PhoneMatches(text) else [];
    var idCards := if config.enableIdCard then IdCardMatches(text) else [];
    var validIdPositions := ValidIdPositions(idCards);
    var bankCards := if config.enableBankCard then BankCardMatches(text, validIdPositions) else [];
    var names := if config.enableName then nameService(text) else [];
    Extraction(phones, idCards, bankCards, names)
  }

  // ---------------------------------------------------------------------------
  // Properties of `extract`

  /** Every phone, ID and bank match carries its validator's verdict on its own value. */
  lemma StampsAreValidatorVerdicts(config: Config, text: string, nameService: string -> seq<MatchInfo>)
    ensures var r := Extract(config, text, nameService);
      (forall k :: 0 <= k < |r.phones| ==> r.phones[k].isValid == ValidatePhone(r.phones[k].value))
      && (forall k :: 0 <= k < |r.idCards| ==> r.idCards[k].isValid == IsValidIdCard(r.idCards[k].value))
      && (forall k :: 0 <= k < |r.bankCards| ==> r.bankCards[k].isValid == ValidateBankCard(r.bankCards[k].value))
  {
  }

  /** No reported bank card overlaps the span of a valid ID match of the same text. */
  lemma NoBankCardOverlapsValidId(config: Config, text: string, nameService: string -> seq<MatchInfo>)
    ensures var r := Extract(config, text, nameService);
      forall b, i :: 0 <= b < |r.bankCards| && 0 <= i < |r.idCards| && r.idCards[i].isValid ==>
        !(r.bankCards[b].position.0 < r.idCards[i].position.1 && r.bankCards[b].position.1 > r.idCards[i].position.0)
  {
    var r := Extract(config, text, nameService);
    var ps := ValidIdPositions(r.idCards);
    if config.enableBankCard {
      var kept := KeepClear(ExtractBankCards(text), ps);
      forall b, i | 0 <= b < |r.bankCards| && 0 <= i < |r.idCards| && r.idCards[i].isValid
        ensures !Overlaps(kept[b], r.idCards[i].position)
      {
        assert kept[b] in kept;
        var p := r.idCards[i].position;
        assert p in ps;
        var j :| 0 <= j < |ps| && ps[j] == p;
      }
    }
  }

  /** With no valid ID match, the bank list is every bank candidate, in order, validated. */
  lemma InvalidIdsSuppressNothing(config: Config, text: string, nameService: string -> seq<MatchInfo>)
    requires config.enableBankCard
    ensures var r := Extract(config, text, nameService);
      (forall i :: 0 <= i < |r.idCards| ==> !r.idCards[i].isValid) ==>
        var cs := ExtractBankCards(text);
        |r.bankCards| == |cs| && forall k :: 0 <= k < |cs| ==> Carries(r.bankCards[k], cs[k])
  {
    var r := Extract(config, text, nameService);
    if forall i :: 0 <= i < |r.idCards| ==> !r.idCards[i].isValid {
      NoValidIdNoPositions(r.idCards);
      KeepClearNothing(ExtractBankCards(text));
    }
  }

  lemma {:induction false} NoValidIdNoPositions(ids: seq<MatchInfo>)
    requires forall i :: 0 <= i < |ids| ==> !ids[i].isValid
    ensures ValidIdPositions(ids) == []
  {
    if ids != [] {
      assert !ids[0].isValid;
      NoValidIdNoPositions(ids[1..]);
    }
  }

  lemma {:induction false} KeepClearNothing(cs: seq<Capture>)
    ensures KeepClear(cs, []) == cs
  {
    if cs != [] {
      KeepClearNothing(cs[1..]);
      assert !OverlapsAny(cs[0], []);
      assert cs == [cs[0]] + cs[1..];
    }
  }

  /** The bank list is the bank scanner's candidates with some removed, order kept. */
  lemma BankCardsAreFilteredCandidates(config: Config, text: string, nameService: string -> seq<MatchInfo>)
    requires config.enableBankCard
    ensures var r := Extract(config, text, nameService);
      exists kept :: IsSubsequence(kept, ExtractBankCards(text)) && |kept| == |r.bankCards|
        && forall k :: 0 <= k < |kept| ==> Carries(r.bankCards[k], kept[k])
  {
    var r := Extract(config, text, nameService);
    var kept := KeepClear(ExtractBankCards(text), ValidIdPositions(r.idCards));
    assert IsSubsequence(kept, ExtractBankCards(text)) && |kept| == |r.bankCards|;
  }

  /**
   * A phone match is valid exactly when it starts with `1`: with the `86` or
   * `+86` country code the digits number 13, which `validate_phone` refuses.
   */
  lemma PhoneValidIffNoCountryCode(text: string)
    ensures var r := PhoneMatches(text);
      forall k :: 0 <= k < |r| ==> |r[k].value| > 0 && (r[k].isValid <==> r[k].value[0] == '1')
  {
    var r := PhoneMatches(text);
    CapturesLocated(Phone, text);
    forall k | 0 <= k < |r|
      ensures |r[k].value| > 0 && (r[k].isValid <==> r[k].value[0] == '1')
    {
      PhoneShapeDigits(r[k].value);
    }
  }

  /** A bank match is valid exactly when its digits pass the Luhn check: the scanner already fixes 16 to 19 digits. */
  lemma BankValidIffLuhn(text: string, excluded: seq<(nat, nat)>)
    ensures var r := BankCardMatches(text, excluded);
      forall k :: 0 <= k < |r| ==>
        16 <= |CleanDigits(r[k].value)| <= 19 && (r[k].isValid <==> LuhnValid(CleanDigits(r[k].value)))
  {
    var r := BankCardMatches(text, excluded);
    var cs := ExtractBankCards(text);
    var kept := KeepClear(cs, excluded);
    CapturesLocated(BankCard, text);
    forall k | 0 <= k < |r|
      ensures 16 <= |CleanDigits(r[k].value)| <= 19 && (r[k].isValid <==> LuhnValid(CleanDigits(r[k].value)))
    {
      assert kept[k] in cs;
      BankCardDigits(r[k].value);
      CleanDigitsDigits(r[k].value);
    }
  }

  lemma CleanDigitsDigits(s: string)
    ensures AllAsciiDigits(CleanDigits(s))
  {
  }

  /** Text without digits, the empty text included, yields no phone, ID or bank match. */
  lemma NoDigitsNoMatches(config: Config, text: string, nameService: string -> seq<MatchInfo>)
    requires forall k :: 0 <= k < |text| ==> !IsAsciiDigit(text[k])
    ensures var r := Extract(config, text, nameService);
      r.phones == [] && r.idCards == [] && r.bankCards == []
  {
    NoDigitsNoCaptures(Phone, text);
    NoDigitsNoCaptures(IdCard, text);
    NoDigitsNoCaptures(BankCard, text);
  }

  /**
   * The start button is only enabled when some category is on: with every
   * category off, extraction finds nothing, so anything found means one was on.
   */
  lemma FindingsNeedACategory(config: Config, text: string, nameService: string -> seq<MatchInfo>)
    ensures var r := Extract(config, text, nameService);
      r.phones != [] || r.idCards != [] || r.bankCards != [] || r.names != [] ==> HasAnyExtractionEnabled(config)
  {
  }
}
