# Sensitive-information extractor: a Dafny model

This project models the engine of a desktop tool that reads Excel workbooks
and finds Chinese personal data in their text cells. It looks for three kinds
of data:

- mainland mobile phone numbers;
- 18-character resident ID numbers (GB 11643-1999);
- bank card numbers.

For every cell that holds at least one of them, the tool writes a report row.
The row lists the numbers found and marks each one valid (有效) or invalid
(无效). It also gives the file, sheet and row number, and the rows around the
cell as context.

The model follows the program's modules one by one:

| Dafny module | file | models |
|---|---|---|
| `Validator` | `validator.dfy` | `src/core/validator.rs`: phone shape; bank-card length plus the Luhn check (ISO/IEC 7812-1, Annex B); the ID check character (ISO 7064 MOD 11-2); the birth-date code and the Gregorian month lengths |
| `RegexPatterns` | `regex_patterns.dfy` | `src/utils/regex_patterns.rs`: `clean_digits`, the weight and check-code tables, and hand-written scanners for the `PHONE`, `ID_CARD` and `BANK_CARD` patterns |
| `Extractor` | `extractor.dfy` | `src/core/extractor.rs`: per-category enable flags, stamping each candidate with its validator's verdict, and dropping bank candidates that overlap a valid ID |
| `RegexExamples` | `regex_examples.dfy` | the unit tests of `src/utils/regex_patterns.rs`, proved of the scanners |
| `ExtractorExamples` | `extractor_examples.dfy` | the extractor's unit tests and `tests/test_extractor.rs`, proved of the model |
| `ExtractResultModel` | `extract_result.dfy` | `src/models/extract_result.rs`: `MatchInfo`, `ExtractResult` and the report strings |
| `ExcelReader` | `excel_reader.dfy` | `src/core/excel_reader.rs`: the `SheetData` grid helpers and the `ExcelInfo` summaries |
| `Processor` | `processor.dfy` | `src/core/processor.rs`: `process_file` over a list of sheets, target-column choice, statistics, and the validity-cell format choice |
| `ColumnSelector` | `column_selector.dfy` | `src/gui/column_selector.rs`: `find_recommended_column` and `smart_select_column` |
| `ConfigModel` | `config.dfy` | `src/models/config.rs` |
| `FileInfoModel` | `file_info.dfy` | `src/models/file_info.rs` |
| `Strings`, `Wrappers` | `strings.dfy`, `wrappers.dfy` | shared helpers: ASCII digits, UTF-8 lengths, join/split, `Option`/`Result` |

Text is a Dafny `string`, a sequence of Unicode scalar values. The scanners
walk character indices. The triples they return carry UTF-8 byte offsets,
as Rust's match positions do. `CapturesLocated` proves that the bytes between
the two offsets are the bytes of the captured value.

Each scanner is a leftmost-first search for `(^|\D)CAPTURE($|X)`, where `X`
is the pattern's trailing class. After a match, the search resumes after the
trailing character that the match consumed. The real choice points are tried
in the regex engine's order of preference:

- the optional `+86`/`86` group of a phone;
- the optional one to three extra digits of a bank card, longest first.

Code that updates state step by step is imperative Dafny with loop invariants:

- `VerifyIdCardChecksum`, `ValidateIdCard` and `LuhnCheck`;
- `SheetData.GetColumnByName` and `SheetData.GetContext`;
- `FindTargetColumn`, `ProcessFile`, `ProcessRows` and `ProcessRow`;
- `SmartSelectColumn`.

Each of these is proved equal to a specification function. The properties
are then proved about those functions.

Two points where the model follows the code rather than the documentation:

- `get_context` (`src/core/excel_reader.rs:146-167`) is modelled as written.
  Its loops read `row_index` as if it did not count the header row, but
  `process_file` passes the grid index. So the "before" list ends with the
  matched row itself, and the "after" list starts two rows below it.
  `SheetData.ContextOffByOne` states this.
- `extract` returns four lists, names included, while `process_file`
  destructures three. The processor keeps the phone, ID and bank lists and
  drops the names.

## Model

| member | source | states |
|---|---|---|
| Validator.DaysInMonth | src/core/validator.rs:80-93 | 0 exactly for a month outside 1..12, else 28 to 31; February has 29 days exactly in a leap year |
| Validator.YearLength | src/core/validator.rs:80-93 | the twelve month lengths add up to 366 in a leap year and 365 otherwise |
| Validator.LeapPeriod | src/core/validator.rs:84-89 | the leap rule and every month length repeat every 400 years |
| Validator.DaysInMonthExamples | src/core/validator.rs:215-221 | January 2020 has 31 days, February 2020 29, February 2021 28, April 2020 30; February 1900 has 28 and February 2000 has 29 |
| Validator.ParseU32 | src/core/validator.rs:51-66 | `parse::<u32>` succeeds only with a value below 2^32, and fails on `""` and `"+"` |
| Validator.ParseDigits | src/core/validator.rs:55-57 | one to nine ASCII digits always parse, to their decimal value |
| Validator.ParseExamples | src/core/validator.rs:55-57 | `""`, `"+"` and `"-1"` fail; `"+07"` parses to 7 |
| Validator.ToAsciiUpper | src/core/validator.rs:46 | lower-case ASCII letters move up by 32; every other character is kept |
| Validator.CheckCode | src/core/validator.rs:32-46 | the check character that the weighted sum mod 11 selects is one of the eleven check codes |
| Validator.VerifyIdCardChecksum | src/core/validator.rs:32-48 | the loop's verdict equals `ChecksumOk`: the first 17 characters are digits and the upper-cased 18th is the check code of their weighted sum mod 11 |
| Validator.CheckCaseInsensitive | src/core/validator.rs:46-47 | a final `x` and a final `X` are the same check character |
| Validator.ChecksumDetectsSubstitution | src/core/validator.rs:32-48 | replacing any one of the first 17 digits of a passing number with a different digit makes the checksum fail |
| Validator.CheckCharDetermined | src/core/validator.rs:32-48 | the first 17 digits fix the check character: any other 18th character fails |
| Validator.BirthDateOfDigits | src/core/validator.rs:50-78 | on digits, the date check holds exactly when the year is 1900..2099, the month 1..12 and the day 1..days_in_month |
| Validator.ValidateIdCard | src/core/validator.rs:6-30 | the loop's verdict equals `IsValidIdCard`: byte length 18, 17 digits, a final digit or `X`/`x`, then the checksum and the birth date |
| Validator.ByteLengthOfValid | src/core/validator.rs:7-23 | an accepted ID number is 18 bytes long because it is all ASCII |
| Validator.IdCardValidExample | tests/test_validator.rs:5 | `110105199003072039` is accepted (weighted sum 190, remainder 3, check code `9`) |
| Validator.IdCardLengthExamples | tests/test_validator.rs:10-12 | 17 and 19 characters and the empty string are rejected, and so is the 14-character number of the unit test at src/core/validator.rs:178 |
| Validator.IdCardBadMonthExample | tests/test_validator.rs:17 | month 13 is rejected |
| Validator.IdCardBadDayExample | tests/test_validator.rs:18 | December 32 is rejected |
| Validator.IdCardFebruary30Example | tests/test_validator.rs:19 | February 30 is rejected |
| Validator.IdCardMarch32Example | src/core/validator.rs:180 | March 32 is rejected |
| Validator.IdCardBadCheckExample | tests/test_validator.rs:24 | the same digits ending in `8` are rejected |
| Validator.IdCardWrongXExample | src/core/validator.rs:182 | the same digits ending in `X` are rejected |
| Validator.IdCardBadCheckCharExample | src/core/validator.rs:181 | the same digits ending in `Y` are rejected |
| Validator.IdCardSecondValidExample | src/core/extractor.rs:111 | `440308199901010012` is accepted |
| Validator.IdCardCheckZeroExample | src/core/extractor.rs:143 | `110105199003072030` is rejected: its check character should be `9` |
| Validator.LuhnCheck | src/core/validator.rs:110-135 | the loop's verdict equals `LuhnValid`: only ASCII digits, and a Luhn sum that is a multiple of 10 |
| Validator.CleanLengthAllDigits | src/core/validator.rs:111-118 | cleaning keeps the byte length exactly when every character is an ASCII digit, which is how `luhn_check` rejects non-digits |
| Validator.LuhnDetectsSingleDigitError | src/core/validator.rs:110-135 | two digit strings that differ in one digit never both pass |
| Validator.LuhnStandardExamples | src/core/validator.rs:209-213 | `79927398713` passes and `79927398710` fails |
| Validator.ValidateBankCard | src/core/validator.rs:95-108 | valid exactly when the cleaned digits number 16 to 19 and pass the Luhn check; `BankCardDigitsOnly` and `DigitCardValid` below state the two halves on their own |
| Validator.BankCardDigitsOnly | src/core/validator.rs:96 | separators do not matter: a card is valid exactly when its cleaned digits are |
| Validator.DigitCardValid | src/core/validator.rs:95-108 | on a digit string, valid exactly when its length is 16 to 19 and it passes Luhn |
| Validator.BankCardValidExamples | tests/test_validator.rs:28-31 | `4111111111111111` and `5500000000000004` are valid |
| Validator.BankCardLengthExamples | tests/test_validator.rs:33-37 | 15 digits are rejected for their length; `41111111111111111` has an allowed length (17) but fails Luhn with sum 28 |
| Validator.BankCardBadLuhnExamples | tests/test_validator.rs:39-43 | `4111111111111112` and `5500000000000001` are rejected |
| Validator.ValidatePhone | src/core/validator.rs:137-165 | valid exactly when the cleaned digits are 11, the first `1` and the second `3` to `9`; `PhoneDigitsOnly` and `SeparatorsIgnored` below show that separators play no part |
| Validator.PhoneDigitsOnly | src/core/validator.rs:138 | a phone is valid exactly when its cleaned digits are |
| Validator.SeparatorsIgnored | tests/test_validator.rs:70-74 | `ddd-dddd-dddd` and `ddd dddd dddd` validate exactly as their 11 digits do |
| RegexPatterns.IdTables | src/utils/regex_patterns.rs:63-64 | 17 weights and 11 check codes; each weight is 2^(17-i) mod 11 and lies in 1..10; the check codes are pairwise distinct |
| RegexPatterns.CleanDigits | src/utils/regex_patterns.rs:66-68 | the result is all digits and no longer than the input |
| RegexPatterns.CleanDigitsAppend | src/utils/regex_patterns.rs:66-68 | cleaning distributes over concatenation, so the digits keep their order |
| RegexPatterns.CleanDigitsOfDigits | src/utils/regex_patterns.rs:66-68 | a digit string is left unchanged |
| RegexPatterns.CleanDigitsIdempotent | src/utils/regex_patterns.rs:66-68 | cleaning twice is cleaning once |
| RegexPatterns.CleanDigitsNoDigits | src/utils/regex_patterns.rs:66-68 | text without digits cleans to `""` |
| RegexPatterns.PhoneAt | src/utils/regex_patterns.rs:8-24 | the phone capture read from a position, the `+86`/`86` form tried first: when there is one, it is non-empty, inside the text and followed by `$` or a non-digit |
| RegexPatterns.PhoneAtSound | src/utils/regex_patterns.rs:12-19 | what `PhoneAt` reads is an optional `+86`/`86` and separator, then `1[3-9]` and a digit, four digits and four digits with optional `-`/white-space separators |
| RegexPatterns.IdCardAt | src/utils/regex_patterns.rs:27-43 | an ID capture is exactly 18 characters long and followed by the end or by a character that is not a digit, `X` or `x` |
| RegexPatterns.BankCardAt | src/utils/regex_patterns.rs:46-61 | a bank capture is non-empty, inside the text and followed by `$` or a non-digit; three, two and one extra digits are tried in that order |
| RegexPatterns.BankCardAtSound | src/utils/regex_patterns.rs:50-56 | what `BankCardAt` reads is four groups of four digits with optional separators, plus optionally a separator and one to three digits |
| RegexPatterns.CaptureAtSound | src/utils/regex_patterns.rs:8-61 | whatever a recogniser reads has its pattern's shape |
| RegexPatterns.CaptureAtComplete | src/utils/regex_patterns.rs:8-61 | the recognisers miss nothing: where a value of the pattern's shape stands before a trailing boundary, the recogniser reads a capture there; for phones and IDs exactly that one, for bank cards one reaching at least as far |
| RegexPatterns.MatchWith | src/utils/regex_patterns.rs:11-20 | a whole match tried at a position has `^` or a non-digit there before its capture, and the capture is the one the recogniser reads after it |
| RegexPatterns.Scan | src/utils/regex_patterns.rs:70-92 | the captures `captures_iter` reports from a position lie after it and inside the text, each ending before the next starts |
| RegexPatterns.ScanSound | src/utils/regex_patterns.rs:70-92 | every reported capture has its pattern's shape between a leading and a trailing boundary |
| RegexPatterns.ScanLeftmost | src/utils/regex_patterns.rs:70-92 | leftmost first: when a capture stands between its boundaries at or after the search start, the search reports a first capture that starts no later; one starting at the same place is that capture (for bank cards, one reaching at least as far) |
| RegexPatterns.ScanResumes | src/utils/regex_patterns.rs:70-92 | after a capture, the search resumes after the character its trailing boundary consumed |
| RegexPatterns.ScanEmptyIff | src/utils/regex_patterns.rs:70-92 | the search finds nothing exactly when the text holds no capture of the pattern between its boundaries |
| RegexPatterns.ExtractPhones | src/utils/regex_patterns.rs:70-75 | one triple per phone capture of the search, the `k`-th triple being the `k`-th capture's text with its byte offsets; each triple's byte range holds exactly its value, which has the phone shape; triples are increasing and do not overlap |
| RegexPatterns.ExtractIdCards | src/utils/regex_patterns.rs:77-82 | the same for ID captures and the ID shape |
| RegexPatterns.ExtractBankCards | src/utils/regex_patterns.rs:84-92 | the same for bank captures and the bank-card shape |
| RegexExamples.PhoneTest | src/utils/regex_patterns.rs:98-103 | the phone search matches `13812345678` and `+86 138 1234 5678` and does not match `12812345678` |
| RegexExamples.PhoneChineseTest | src/utils/regex_patterns.rs:105-109 | in `联系13812345678请拨打` the first phone triple's value is `13812345678` |
| RegexExamples.IdCardTest | src/utils/regex_patterns.rs:111-115 | the ID search matches `11010519900307888X` and does not match `11010519901307888X` (month 13) |
| RegexExamples.IdCardChineseTest | src/utils/regex_patterns.rs:117-121 | in `身份证11010519900307888X核实` the first ID triple's value is `11010519900307888X` |
| RegexExamples.BankCardTest | src/utils/regex_patterns.rs:123-128 | the bank search matches `6225880123456789` and `6225 8801 2345 6789` and does not match the twelve digits `622588012345` |
| RegexExamples.BankCardChineseTest | src/utils/regex_patterns.rs:130-134 | in `卡号6225880123456789绑定` the first bank triple's value is `6225880123456789` |
| RegexPatterns.CapturesLocated | src/utils/regex_patterns.rs:70-92 | every returned triple has start < end, its byte range holds exactly the value's bytes, and the value has the pattern's shape |
| RegexPatterns.CapturesOrdered | src/utils/regex_patterns.rs:70-92 | returned triples are strictly increasing and do not overlap |
| RegexPatterns.ShapeInSlice | src/utils/regex_patterns.rs:70-92 | a shape found inside a text is the shape of the captured value on its own |
| RegexPatterns.ShapeInStartsWithDigit | src/utils/regex_patterns.rs:8-61 | every capture starts with a digit, or with `+` and then a digit |
| RegexPatterns.NoDigitsNoCaptures | src/utils/regex_patterns.rs:70-92 | text without digits yields no capture |
| RegexPatterns.GroupedCleanDigits | src/utils/regex_patterns.rs:8-61 | a run of digit groups with optional separators cleans to exactly as many digits as the group sizes add up to |
| RegexPatterns.BankCardDigits | src/utils/regex_patterns.rs:46-61 | a bank capture holds 16 to 19 digits |
| RegexPatterns.PhoneShapeDigits | src/utils/regex_patterns.rs:8-24 | a phone capture starting with `1` cleans to `1[3-9]` and 9 more digits; one with the `86`/`+86` code cleans to 13 digits |
| Extractor.PhoneMatches | src/core/extractor.rs:68-76 | one match per phone candidate, in order, with its value and offsets, stamped by `validate_phone` |
| Extractor.IdCardMatches | src/core/extractor.rs:78-86 | one match per ID candidate, in order, with its value and offsets, stamped by `validate_id_card` |
| Extractor.ValidIdPositions | src/core/extractor.rs:30-34 | a position is listed exactly when some valid ID match has it |
| Extractor.KeepClear | src/core/extractor.rs:54-60 | keeps exactly the candidates that overlap no excluded range, as a subsequence in order |
| Extractor.BankCardMatches | src/core/extractor.rs:51-66 | one match per kept bank candidate, in order, stamped by `validate_bank_card` |
| Extractor.Extract | src/core/extractor.rs:17-49 | a disabled category yields `[]` whatever the text; an enabled one yields its scanner's stamped matches; bank cards are filtered against the valid ID positions; names come from the name service |
| Extractor.StampsAreValidatorVerdicts | src/core/extractor.rs:61-86 | every phone, ID and bank match's flag is its validator applied to its own value |
| Extractor.NoBankCardOverlapsValidId | src/core/extractor.rs:129-139 | no reported bank card overlaps the span of a valid ID match of the same text |
| Extractor.InvalidIdsSuppressNothing | src/core/extractor.rs:141-150 | with no valid ID match, the bank list is every bank candidate, in order |
| Extractor.BankCardsAreFilteredCandidates | src/core/extractor.rs:51-66 | the bank list corresponds one to one with an order-preserving subsequence of the bank candidates |
| Extractor.PhoneValidIffNoCountryCode | src/core/extractor.rs:68-76 | a phone match is valid exactly when it starts with `1`, because the `86` code leaves 13 digits |
| Extractor.BankValidIffLuhn | src/core/extractor.rs:61-63 | every bank match has 16 to 19 digits and is valid exactly when they pass Luhn |
| Extractor.NoDigitsNoMatches | tests/test_extractor.rs:51-73 | text without digits, the empty text included, yields no phone, ID or bank match |
| ExtractorExamples.ExtractPhonesTest | src/core/extractor.rs:97-106 | in `联系方式：13812345678，备用：15912345678` two phones are found, both valid (also tests/test_extractor.rs:9-18) |
| ExtractorExamples.ExtractIdCardsTest | src/core/extractor.rs:108-116 | in `身份证号：440308199901010012` one ID is found, valid (also tests/test_extractor.rs:20-34) |
| ExtractorExamples.ExtractBankCardsTest | src/core/extractor.rs:118-126 | in `银行卡：4111111111111111`, and in `银行卡号：4111111111111111` of tests/test_extractor.rs:36-49, one bank card is found, valid |
| ExtractorExamples.ValidIdNotBankTest | src/core/extractor.rs:128-138 | in `身份证：110105199003072039` one valid ID is found and no bank card |
| ExtractorExamples.InvalidIdIsBankTest | src/core/extractor.rs:140-150 | in `号码：110105199003072030` one invalid ID is found, and the same digits as a bank card |
| ExtractorExamples.PhoneOnlyTest | tests/test_extractor.rs:75-90 | with only phones on, `电话13812345678` gives one phone, no ID and no bank card |
| ExtractorExamples.IdCardOnlyTest | tests/test_extractor.rs:92-112 | with only IDs on, `身份证号：440308199901010012` gives no phone, one ID and no bank card |
| ExtractorExamples.BankCardOnlyTest | tests/test_extractor.rs:114-134 | with only bank cards on, `银行卡号：4111111111111111` gives no phone, no ID and a bank card |
| ExtractorExamples.AllDisabledTest | tests/test_extractor.rs:136-151 | with all three number categories off, `电话13812345678` gives nothing |
| ExtractResultModel.NewMatchInfo | src/models/extract_result.rs:11-17 | stores exactly the value, the flag and the `(start, end)` position |
| ExtractResultModel.NewExtractResult | src/models/extract_result.rs:34-50 | keeps file, sheet and row number; no matches, no text and no context |
| ExtractResultModel.FormatMatches | src/models/extract_result.rs:85-91 | `""` for no matches, the value for one, and values joined by `", "` that split back into the values when none holds a comma |
| ExtractResultModel.FormatValidity | src/models/extract_result.rs:93-99 | `""` exactly for no matches; mentions 无效 exactly when some match is invalid; reading it back gives each match's flag in order |
| ExtractResultModel.ExtractResult.ContextBeforeStr | src/models/extract_result.rs:76-78 | `""` for no lines; otherwise splitting on newlines gives the lines back |
| ExtractResultModel.ExtractResult.ContextAfterStr | src/models/extract_result.rs:80-82 | `""` for no lines; otherwise splitting on newlines gives the lines back |
| ExcelReader.SheetData.ColumnNames | src/core/excel_reader.rs:121-123 | the header row, or `[]` for an empty grid |
| ExcelReader.SheetData.GetColumnIndex | src/core/excel_reader.rs:125-127 | none exactly when the name is not in the header, else the index of its first occurrence |
| ExcelReader.SheetData.ColumnEntries | src/core/excel_reader.rs:133-143 | one `(row index, cell)` pair per non-header row, with `""` where a row is too short |
| ExcelReader.SheetData.GetColumnByName | src/core/excel_reader.rs:129-144 | an error exactly when the header lacks the column, with the message `列不存在: name`; otherwise the column's entries |
| ExcelReader.SheetData.GetContext | src/core/excel_reader.rs:146-167 | the two loops build the "before" and "after" lists step by step, as `BeforeSteps` and `AfterSteps` say |
| ExcelReader.SheetData.BeforeWindow | src/core/excel_reader.rs:150-157 | "before" is rows `max(r+1-n, 1)` through `r`, clipped to the grid, and never the header row |
| ExcelReader.SheetData.AfterWindow | src/core/excel_reader.rs:159-164 | "after" is rows `r+2` through `r+1+n`, clipped to the grid |
| ExcelReader.SheetData.ContextBounded | src/core/excel_reader.rs:146-167 | both lists hold at most `n` lines, and `n = 0` gives two empty lists |
| ExcelReader.SheetData.ContextOffByOne | src/core/excel_reader.rs:150-164 | with a grid index, "before" ends with the matched row itself and "after" starts two rows below it |
| ExcelReader.ExcelInfo.FirstSheetColumns | src/core/excel_reader.rs:202-206 | none exactly when there is no sheet or the first has no recorded header; else that header |
| ExcelReader.TotalIsSumOverSheets | src/core/excel_reader.rs:208-210 | when the counts are keyed by the distinct sheet names, the total is the sum of the sheets' counts in workbook order |
| Processor.TargetColumnChoice | src/core/processor.rs:109-121 | an error exactly for an empty header; otherwise the first column containing 消息内容, else the first column |
| Processor.FindTargetColumn | src/core/processor.rs:109-121 | the loop with its early return picks what `TargetColumnChoice` says |
| Processor.ProcessFile | src/core/processor.rs:48-107 | a workbook that cannot be opened gives the error `无法打开文件: ` followed by the file name (lines 49-50); otherwise the sheet loop yields the sheets' row results in order, or the first sheet error |
| Processor.ProcessSheet | src/core/processor.rs:58-103 | one pass of the sheet loop: a read error or a target-column error ends the file with that error, a configured column the sheet lacks leaves the results as they were, otherwise the sheet's row results follow the earlier ones |
| Processor.ProcessRows | src/core/processor.rs:77-103 | the row loop appends the results of the column's entries, in order, to the results so far |
| Processor.ProcessRow | src/core/processor.rs:78-102 | one pass of the row loop appends the cell's result, if any |
| Processor.ErrorPersists | src/core/processor.rs:58-67 | once a sheet fails, later sheets do not change the outcome |
| Processor.SheetErrorAbortsFile | src/core/processor.rs:64-67 | a sheet whose read fails, or whose column cannot be chosen, makes the whole file fail |
| Processor.SheetErrors | src/core/processor.rs:64-67 | a failed read gives its error; automatic choice on a sheet without columns gives 工作表没有可用的列 |
| Processor.MissingColumnSkipsSheet | src/core/processor.rs:66-75 | a configured column missing from a sheet's header skips the sheet: wherever it stands in the workbook, the file's outcome, results or error, is the outcome without that sheet |
| Processor.FileOutcomeAppend | src/core/processor.rs:58-67 | the outcome of a workbook split in two is the first part's outcome followed by the second's: the first error wins, else the results are concatenated |
| Processor.CellResultIff | src/core/processor.rs:77-101 | a cell yields a result exactly when it is non-empty and has a phone, ID or bank match; the result has row number `row_index + 1`, the cell text, the lists unchanged and the row's context |
| Processor.RowResultsFromEntries | src/core/processor.rs:77-101 | every result of a sheet comes from one of its column entries |
| Processor.RowResultsComplete | src/core/processor.rs:77-101 | every entry with findings has its result among the sheet's results |
| Processor.FileResultsAreRowResults | src/core/processor.rs:58-106 | every result of a file is the result of a row of one of its sheets |
| Processor.RowNumbersAscend | src/core/processor.rs:77-101 | within a sheet, results come in strictly increasing row-number order while row numbers fit in a `u32` |
| Processor.ColumnEntriesAscend | src/core/excel_reader.rs:135-141 | the column's entries have strictly ascending row indices from 1 to the last row |
| Processor.CountValid | src/core/processor.rs:230 | at most the list length, and equal to it exactly when every match is valid |
| Processor.GenerateStatistics | src/core/processor.rs:226-236 | the result count, and for each category valid ≤ total |
| Processor.StatisticsOfOne | src/core/processor.rs:226-236 | for one result, the counts are its list lengths and valid counts, and their sum is the total sensitive information |
| Processor.StatisticsAppend | src/core/processor.rs:226-236 | every count adds up over a split of the results |
| Processor.SensitiveInfoAtLeastResults | src/core/processor.rs:84-101 | since each emitted result holds a match, there are at least as many matches as results |
| Processor.TotalSensitiveInfoCountsMatches | src/core/processor.rs:251-253 | the statistics' total is the number of phone, ID and bank matches over all the results |
| Processor.TotalSensitiveInfoExample | src/core/processor.rs:260-272 | 20 phones, 5 IDs and 3 bank cards give 28, whatever the valid counts |
| Processor.ValidityCellFormat | src/core/processor.rs:191-206 | the invalid format exactly when the text contains 无效; the plain empty cell exactly when the text is empty |
| Processor.ValidityCellFormatOfMatches | src/core/processor.rs:191-207 | for a validity cell: the invalid format exactly when some match is invalid, the plain empty cell exactly when there are no matches, the valid format otherwise |
| ColumnSelector.FindRecommendedColumn | src/gui/column_selector.rs:61-63 | none exactly when no column contains 消息内容; otherwise the first one that does |
| ColumnSelector.SmartSelectColumn | src/gui/column_selector.rs:65-80 | the in-place update with early returns leaves what `SmartSelection` says |
| ColumnSelector.SmartSelection | src/gui/column_selector.rs:65-80 | the selection afterwards is the previous one or one of the columns; a non-empty previous selection that is a column is kept; otherwise the first column containing 消息内容 is chosen when there is one; failing that, the first column if its name is non-empty, else the selection is left as it was; a changed selection is never empty |
| ColumnSelector.FindRecommendedColumnExample | src/gui/column_selector.rs:86-96 | among `姓名`, `消息内容`, `时间` the recommended column is `消息内容` |
| ColumnSelector.SmartSelectionExample | src/gui/column_selector.rs:99-112 | with columns `姓名`, `消息内容`, an empty selection becomes `消息内容` and the selection `姓名` is kept |
| ColumnSelector.SmartSelectionIdempotent | src/gui/column_selector.rs:65-80 | selecting twice is selecting once |
| ConfigModel.DefaultConfig | src/models/config.rs:15-25 | two context lines, the 消息内容 column, phone, ID and bank on, names off, some extraction enabled |
| Extractor.FindingsNeedACategory | src/models/config.rs:29-31 | whenever extraction finds anything, `has_any_extraction_enabled` holds |
| ConfigModel.NoExtractionIff | src/models/config.rs:29-31 | no extraction is enabled exactly when all four flags are off |
| FileInfoModel.DefaultStatus | src/models/file_info.rs:4-12 | the default status is `Pending` |
| FileInfoModel.ProcessingStatus | src/models/file_info.rs:16-18 | progress is clamped to 100 and kept when at most 100 |
| FileInfoModel.CompletedStatus | src/models/file_info.rs:20-22 | the status is `Completed` |
| FileInfoModel.ErrorStatus | src/models/file_info.rs:24-26 | the status is `Error` with the message unchanged |
| FileInfoModel.IsErrorOfConstructors | src/models/file_info.rs:28-30 | `is_error` holds for the error status and for no other constructor |
| FileInfoModel.FromPath | src/models/file_info.rs:44-58 | pending, selected, no rows and no columns, with the given path and name |

## Left out

- The GUI (`src/gui/` except the two column-selector functions) is not modelled. It is egui rendering, event handling, a worker thread and a channel.
- The name service (`src/core/name_extractor.rs`) is an HTTP client. It is not modelled: `Extract` takes it as a function from text to matches.
- Opening and reading workbooks is file I/O and is not modelled:
  - `ExcelReader::open`, `read_sheet`, `range_to_rows`, `read_column_names`, `row_count`, `ExcelInfo::from_file`;
  - `data_to_string`, which depends on floating-point cell values.
  - `ProcessFile` receives the workbook as its sheets in order, each already read or failed.
- Writing the report (`export_results`, `write_headers`, `write_result_row`, `apply_formatting`) is not modelled, because it is spreadsheet output. Only the branch choice of `write_validity_cell` is kept (`ValidityCellFormat`).
- `process_files_parallel` is not modelled; it uses parallel threads and floating-point progress.
- ProcessFile: the open failure is the context message alone; the underlying I/O error that `anyhow` chains behind it is not modelled, because opening is file I/O.
- The progress callback inside `process_file` is not modelled; it uses floating-point progress and calls the caller's code.
- `src/utils/file_utils.rs` is not part of this model; it walks directories and reads the clock.
- Rust's `\d`, `\D` and `\s` are Unicode-aware. Here a digit is an ASCII `0`-`9`, and `\s` is the Unicode White_Space set.
- The scanners find every capture their leftmost-first search reaches (`CaptureAtComplete`, `ScanLeftmost`, `ScanEmptyIff`), but not every occurrence in the text. A match consumes its trailing boundary character, so of two numbers separated by a single non-digit the second can be lost. The model reproduces this as the regex engine does.
- ExcelReader.ExcelInfo.TotalRowCount: the map is summed as a ghost function, since the sum of a map's values has no order. `TotalIsSumOverSheets` relates it to the per-sheet sum in workbook order.
- FileInfoModel.FromPath: the file-name extraction from a path is left to the caller, who passes the name in.
- The `*_str` accessors for matches and validity delegate to `FormatMatches` and `FormatValidity` and carry no contract of their own.
- Literal phone examples from the tests (`13812345678`, `138-1234-5678`, ...) are not stated one by one. The general `ValidatePhone`, `PhoneDigitsOnly` and `SeparatorsIgnored` cover them.
- The bank examples `6225880123456780` and a 20-digit number from the unit test at `src/core/validator.rs:186-194` are not stated one by one. `DigitCardValid` covers the length rule, and `LuhnCheck` covers the sum.
- The bank examples with spaces (`4111 1111 1111 1111`) are covered by `BankCardDigitsOnly` and not stated one by one.
- The statistics fields `elapsed_secs` and `total_names`, used only by the GUI, do not exist in `ProcessingStatistics` and are not modelled.
