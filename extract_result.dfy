/**
 * The result records of the extractor (`src/models/extract_result.rs`): one
 * `MatchInfo` per match, one `ExtractResult` per spreadsheet row with matches,
 * and the strings written into the report cells. Matches are listed with
 * `", "` between them, validity with one token per match (有效 "valid",
 * 无效 "invalid"), context rows with newlines.
 */
module ExtractResultModel {
  import opened Strings

  /** A match: its text, whether it passed validation, and its `(start, end)` byte offsets. */
  datatype MatchInfo = MatchInfo(value: string, isValid: bool, position: (nat, nat))

  /** `MatchInfo::new`. */
  function NewMatchInfo(value: string, isValid: bool, start: nat, end: nat): (m: MatchInfo)
    ensures m.value == value && m.isValid == isValid
    ensures m.position.0 == start && m.position.1 == end
  {
    MatchInfo(value, isValid, (start, end))
  }

  /**
   * One row's findings. `rowNumber` is a Rust `u32`; `phoneNumbers`, `idCards`
   * and `bankCards` are the extractor's lists for the row's cell text.
   */
  datatype ExtractResult = ExtractResult(
    sourceFile: string,
    sheetName: string,
    rowNumber: nat,
    phoneNumbers: seq<MatchInfo>,
    idCards: seq<MatchInfo>,
    bankCards: seq<MatchInfo>,
    sourceText: string,
    contextBefore: seq<string>,
    contextAfter: seq<string>)
  {
    /** `phone_numbers_str`. */
    function PhoneNumbersStr(): string {
      FormatMatches(phoneNumbers)
    }

    /** `id_cards_str`. */
    function IdCardsStr(): string {
      FormatMatches(idCards)
    }

    /** `bank_cards_str`. */
    function BankCardsStr(): string {
      FormatMatches(bankCards)
    }

    /** `phone_validity_str`. */
    function PhoneValidityStr(): string {
      FormatValidity(phoneNumbers)
    }

    /** `id_card_validity_str`. */
    function IdCardValidityStr(): string {
      FormatValidity(idCards)
    }

    /** `bank_card_validity_str`. */
    function BankCardValidityStr(): string {
      FormatValidity(bankCards)
    }

    /** `context_before_str`: the rows before, one per line, recoverable by splitting on newlines. */
    function ContextBeforeStr(): (s: string)
      ensures |contextBefore| == 0 ==> s == ""
      ensures |contextBefore| > 0 && NoneContains(contextBefore, '\n') ==> Split(s, "\n") == contextBefore
    {
      FormatLines(contextBefore)
    }

    /** `context_after_str`: the rows after, one per line, recoverable by splitting on newlines. */
    function ContextAfterStr(): (s: string)
      ensures |contextAfter| == 0 ==> s == ""
      ensures |contextAfter| > 0 && NoneContains(contextAfter, '\n') ==> Split(s, "\n") == contextAfter
    {
      FormatLines(contextAfter)
    }
  }

  /** `ExtractResult::new`: no matches, no text and no context yet. */
  function NewExtractResult(sourceFile: string, sheetName: string, rowNumber: nat): (r: ExtractResult)
    ensures r.sourceFile == sourceFile && r.sheetName == sheetName && r.rowNumber == rowNumber
    ensures r.phoneNumbers == [] && r.idCards == [] && r.bankCards == []
    ensures r.sourceText == "" && r.contextBefore == [] && r.contextAfter == []
  {
    ExtractResult(sourceFile, sheetName, rowNumber, [], [], [], "", [], [])
  }

  predicate NoneContains(parts: seq<string>, c: char) {
    forall k :: 0 <= k < |parts| ==> c !in parts[k]
  }

  function Values(ms: seq<MatchInfo>): (vs: seq<string>)
    ensures |vs| == |ms| && forall k :: 0 <= k < |ms| ==> vs[k] == ms[k].value
  {
    seq(|ms|, k requires 0 <= k < |ms| => ms[k].value)
  }

  const ValidToken: string := "有效"
  const InvalidToken: string := "无效"

  function Token(m: MatchInfo): string {
    if m.isValid then ValidToken else InvalidToken
  }

  function Tokens(ms: seq<MatchInfo>): (ts: seq<string>)
    ensures |ts| == |ms| && forall k :: 0 <= k < |ms| ==> ts[k] == Token(ms[k])
  {
    seq(|ms|, k requires 0 <= k < |ms| => Token(ms[k]))
  }

  /**
   * `format_matches`: the values in order with `", "` between them. Splitting
   * the cell on `", "` gives the values back when none of them holds a comma.
   */
  function FormatMatches(ms: seq<MatchInfo>): (s: string)
    ensures |ms| == 0 ==> s == ""
    ensures |ms| == 1 ==> s == ms[0].value
    ensures |ms| > 0 && NoneContains(Values(ms), ',') ==> Split(s, ", ") == Values(ms)
  {
    var s := Join(Values(ms), ", ");
    if |ms| > 0 && NoneContains(Values(ms), ',') then
      SplitJoin(Values(ms), ", ");
      s
    else
      s
  }

  /** Reads a validity cell back: one flag per `", "`-separated token, true for 有效. */
  function ParseValidity(s: string): seq<bool> {
    var toks := Split(s, ", ");
    seq(|toks|, k requires 0 <= k < |toks| => toks[k] == ValidToken)
  }

  function Flags(ms: seq<MatchInfo>): (fs: seq<bool>)
    ensures |fs| == |ms| && forall k :: 0 <= k < |ms| ==> fs[k] == ms[k].isValid
  {
    seq(|ms|, k requires 0 <= k < |ms| => ms[k].isValid)
  }

  predicate SomeInvalid(ms: seq<MatchInfo>) {
    exists k :: 0 <= k < |ms| && !ms[k].isValid
  }

  /**
   * `format_validity`: one token per match in order, 有效 for a valid match and
   * 无效 otherwise. The cell mentions 无效 exactly when some match is invalid,
   * and reading it back gives each match's flag.
   */
  function FormatValidity(ms: seq<MatchInfo>): (s: string)
    ensures |ms| == 0 <==> s == ""
    ensures Contains(s, InvalidToken) <==> SomeInvalid(ms)
    ensures |ms| > 0 ==> ParseValidity(s) == Flags(ms)
  {
    var s := Join(Tokens(ms), ", ");
    ValidityMentionsInvalid(ms);
    if |ms| > 0 then
      ValidityRoundTrip(ms);
      JoinContainsPart(Tokens(ms), ", ", 0);
      ContainsFirstChar(s, Tokens(ms)[0]);
      s
    else
      s
  }

  lemma ValidityMentionsInvalid(ms: seq<MatchInfo>)
    ensures Contains(Join(Tokens(ms), ", "), InvalidToken) <==> SomeInvalid(ms)
  {
    var ts := Tokens(ms);
    var s := Join(ts, ", ");
    if SomeInvalid(ms) {
      var k :| 0 <= k < |ms| && !ms[k].isValid;
      JoinContainsPart(ts, ", ", k);
    }
    if Contains(s, InvalidToken) {
      ContainsFirstChar(s, InvalidToken);
      assert InvalidToken[0] == '无';
      assert '无' !in ", ";
      JoinCharFromPart(ts, ", ", '无');
      var k :| 0 <= k < |ts| && '无' in ts[k];
      assert '无' !in ValidToken;
      assert !ms[k].isValid;
    }
  }

  lemma ValidityRoundTrip(ms: seq<MatchInfo>)
    requires |ms| > 0
    ensures ParseValidity(Join(Tokens(ms), ", ")) == Flags(ms)
  {
    var ts := Tokens(ms);
    forall k, c | 0 <= k < |ts| && c in ts[k]
      ensures c != ", "[0]
    {
      assert ts[k] == ValidToken || ts[k] == InvalidToken;
    }
    SplitJoin(ts, ", ");
  }

  /** The context rows joined by newlines. */
  function FormatLines(lines: seq<string>): (s: string)
    ensures |lines| == 0 ==> s == ""
    ensures |lines| > 0 && NoneContains(lines, '\n') ==> Split(s, "\n") == lines
  {
    var s := Join(lines, "\n");
    if |lines| > 0 && NoneContains(lines, '\n') then
      SplitJoin(lines, "\n");
      s
    else
      s
  }
}
