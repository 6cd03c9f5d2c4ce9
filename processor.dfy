/**
 * Per-file processing (`src/core/processor.rs`): for every sheet of a
 * workbook, choose the target column, run the extractor over each non-empty
 * cell of it and emit one `ExtractResult` per cell with findings; then the
 * statistics over the results and the colour choice of a validity cell.
 *
 * The workbook is given as its sheets in order, each already read or failed:
 * opening and reading the file are not part of this model.
 */
module Processor {
  import opened Wrappers
  import opened Strings
  import opened ConfigModel
  import opened ExtractResultModel
  import opened Extractor
  import opened ExcelReader
  import opened ColumnSelector
  import opened FileInfoModel

  /** Rust's `as u32` on a `usize`: keeps the low 32 bits. */
  const U32Modulus: nat := 0x1_0000_0000

  function AsU32(n: nat): (r: nat)
    ensures r < U32Modulus
    ensures n < U32Modulus ==> r == n
  {
    n % U32Modulus
  }

  /** A sheet of the workbook: its name and its grid, or the error reading it gave. */
  datatype SheetSource = SheetSource(name: string, data: Result<SheetData, string>)

  const NoColumnsError: string := "工作表没有可用的列"

  /**
   * What `find_target_column` picks from a header: the first column whose
   * name contains 消息内容, else the first column, else an error.
   */
  function TargetColumnChoice(columns: seq<string>): (r: Result<string, string>)
    ensures r.Err? <==> |columns| == 0
    ensures r.Err? ==> r.error == NoColumnsError
    ensures r.Ok? ==> r.value in columns
    ensures r.Ok? && IsRecommended(r.value) ==>
      exists k :: 0 <= k < |columns| && columns[k] == r.value && FirstRecommended(columns, k)
    ensures r.Ok? && !IsRecommended(r.value) ==>
      r.value == columns[0] && forall k :: 0 <= k < |columns| ==> !IsRecommended(columns[k])
  {
    match FindRecommendedColumn(columns)
    case Some(c) => Ok(c)
    case None => if |columns| > 0 then Ok(columns[0]) else Err(NoColumnsError)
  }

  /** `find_target_column`: a scan of the header with an early return. */
  method FindTargetColumn(sheet: SheetData) returns (r: Result<string, string>)
    ensures r == TargetColumnChoice(sheet.ColumnNames())
  {
    var columns := sheet.ColumnNames();
    var i := 0;
    while i < |columns|
      invariant 0 <= i <= |columns|
      invariant FirstRecommended(columns, i)
    {
      if Contains(columns[i], MessageColumn) {
        return Ok(columns[i]);
      }
      i := i + 1;
    }
    if |columns| > 0 {
      return Ok(columns[0]);
    }
    return Err(NoColumnsError);
  }

  /**
   * The result a cell yields: none for an empty cell or one without phone,
   * ID or bank matches; otherwise the row's result with its 1-based row
   * number, the cell text, the context and the extractor's lists. Names are
   * not among the lists the processor keeps.
   */
  function CellResult(config: Config, extract: string -> Extraction, fileName: string,
                      sheetName: string, sheet: SheetData, rowIndex: nat, cell: string): Option<ExtractResult>
  {
    if cell == "" then None
    else
      var x := extract(cell);
      if x.phones == [] && x.idCards == [] && x.bankCards == [] then None
      else Some(ExtractResult(fileName, sheetName, AsU32(rowIndex + 1), x.phones, x.idCards, x.bankCards, cell,
        sheet.BeforeSteps(rowIndex, config.contextLines, 0), sheet.AfterSteps(rowIndex, config.contextLines)))
  }

  function OptionToSeq<T>(o: Option<T>): seq<T> {
    if o.Some? then [o.value] else []
  }

  /** The results of a sheet's column entries, in row order. */
  function RowResults(config: Config, extract: string -> Extraction, fileName: string,
                      sheetName: string, sheet: SheetData, entries: seq<(nat, string)>): seq<ExtractResult>
  {
    if entries == [] then []
    else
      var last := entries[|entries| - 1];
      RowResults(config, extract, fileName, sheetName, sheet, entries[..|entries| - 1])
        + OptionToSeq(CellResult(config, extract, fileName, sheetName, sheet, last.0, last.1))
  }

  /**
   * A sheet's contribution: the read error or the target-column error abort
   * the file; a configured column missing from the header skips the sheet.
   */
  function SheetOutcome(config: Config, extract: string -> Extraction, fileName: string,
                        source: SheetSource): Result<seq<ExtractResult>, string>
  {
    match source.data
    case Err(e) => Err(e)
    case Ok(sheet) =>
      var target := if config.targetColumn == "" then TargetColumnChoice(sheet.ColumnNames()) else Ok(config.targetColumn);
      match target
      case Err(e) => Err(e)
      case Ok(column) =>
        match sheet.GetColumnIndex(column)
        case None => Ok([])
        case Some(col) => Ok(RowResults(config, extract, fileName, source.name, sheet, sheet.ColumnEntries(col)))
  }

  /** The results of the sheets in order, or the first error. */
  function FileOutcome(config: Config, extract: string -> Extraction, fileName: string,
                       sheets: seq<SheetSource>): Result<seq<ExtractResult>, string>
  {
    if sheets == [] then Ok([])
    else Chain(FileOutcome(config, extract, fileName, sheets[..|sheets| - 1]), SheetOutcome(config, extract, fileName, sheets[|sheets| - 1]))
  }

  /** The `?` of one step after another: the first error, else both results in order. */
  function Chain(first: Result<seq<ExtractResult>, string>, next: Result<seq<ExtractResult>, string>): Result<seq<ExtractResult>, string> {
    match first
    case Err(e) => Err(e)
    case Ok(rs) =>
      match next
      case Err(e) => Err(e)
      case Ok(more) => Ok(rs + more)
  }

  /** The extractor `process_file` builds from the configuration, keeping the name service it was given. */
  function ExtractorFor(config: Config, nameService: string -> seq<MatchInfo>): string -> Extraction {
    cell => Extract(config, cell, nameService)
  }

  /** The context `process_file` puts on a workbook that cannot be opened; its `{}` display is this message alone. */
  const OpenFailedPrefix: string := "无法打开文件: "

  /**
   * `process_file` over the workbook's sheets (or the failure opening it,
   * reported as 无法打开文件 and the file's name): the sheet loop, with the
   * body of one sheet in `ProcessSheet`.
   */
  method ProcessFile(config: Config, nameService: string -> seq<MatchInfo>, fileInfo: FileInfo,
                     workbook: Result<seq<SheetSource>, string>) returns (r: Result<seq<ExtractResult>, string>)
    ensures workbook.Err? ==> r == Err(OpenFailedPrefix + fileInfo.fileName)
    ensures workbook.Ok? ==> r == FileOutcome(config, ExtractorFor(config, nameService), fileInfo.fileName, workbook.value)
  {
    if workbook.Err? {
      return Err(OpenFailedPrefix + fileInfo.fileName);
    }
    var extract := ExtractorFor(config, nameService);
    var sheets := workbook.value;
    var fileName := fileInfo.fileName;
    var allResults: seq<ExtractResult> := [];
    var s := 0;
    while s < |sheets|
      invariant 0 <= s <= |sheets|
      invariant FileOutcome(config, extract, fileName, sheets[..s]) == Ok(allResults)
    {
      FileOutcomeStep(config, extract, fileName, sheets, s, allResults);
      var step := ProcessSheet(config, extract, fileName, sheets[s], allResults);
      if step.Err? {
        ErrorPersists(config, extract, fileName, sheets, s + 1);
        assert sheets[..|sheets|] == sheets;
        return step;
      }
      allResults := step.value;
      s := s + 1;
    }
    assert sheets[..|sheets|] == sheets;
    return Ok(allResults);
  }

  /**
   * One pass of the sheet loop: the read error and the target-column error
   * end the file, a configured column the sheet lacks skips it (`continue`),
   * otherwise the rows' results follow those so far.
   */
  method ProcessSheet(config: Config, extract: string -> Extraction, fileName: string, source: SheetSource,
                      prior: seq<ExtractResult>) returns (r: Result<seq<ExtractResult>, string>)
    ensures r == match SheetOutcome(config, extract, fileName, source)
      case Err(e) => Err(e)
      case Ok(more) => Ok(prior + more)
  {
    if source.data.Err? {
      return Err(source.data.error);
    }
    var sheet := source.data.value;
    var targetColumn: string;
    if config.targetColumn == "" {
      var found := FindTargetColumn(sheet);
      if found.Err? {
        return Err(found.error);
      }
      targetColumn := found.value;
    } else {
      targetColumn := config.targetColumn;
    }
    var columnData := sheet.GetColumnByName(targetColumn);
    if columnData.Err? {
      assert prior + [] == prior;
      return Ok(prior);
    }
    var allResults := ProcessRows(config, extract, fileName, source.name, sheet, columnData.value, prior);
    return Ok(allResults);
  }

  /** The row loop of `process_file`: appends the result of every non-empty cell with findings. */
  method ProcessRows(config: Config, extract: string -> Extraction, fileName: string, sheetName: string,
                     sheet: SheetData, entries: seq<(nat, string)>, prior: seq<ExtractResult>)
    returns (allResults: seq<ExtractResult>)
    ensures allResults == prior + RowResults(config, extract, fileName, sheetName, sheet, entries)
  {
    allResults := prior;
    var k := 0;
    while k < |entries|
      invariant 0 <= k <= |entries|
      invariant allResults == prior + RowResults(config, extract, fileName, sheetName, sheet, entries[..k])
    {
      var (rowIndex, cellValue) := entries[k];
      allResults := ProcessRow(config, extract, fileName, sheetName, sheet, rowIndex, cellValue, allResults);
      RowResultsStep(config, extract, fileName, sheetName, sheet, entries, k);
      AppendAfterPrior(prior, RowResults(config, extract, fileName, sheetName, sheet, entries[..k]),
        OptionToSeq(CellResult(config, extract, fileName, sheetName, sheet, rowIndex, cellValue)));
      k := k + 1;
    }
    assert entries[..|entries|] == entries;
  }

  /** One pass of the row loop: skips an empty cell or one without findings, otherwise appends its result. */
  method ProcessRow(config: Config, extract: string -> Extraction, fileName: string, sheetName: string,
                    sheet: SheetData, rowIndex: nat, cellValue: string, acc: seq<ExtractResult>)
    returns (allResults: seq<ExtractResult>)
    ensures allResults == acc + OptionToSeq(CellResult(config, extract, fileName, sheetName, sheet, rowIndex, cellValue))
  {
    allResults := acc;
    if cellValue == "" {
      return;
    }
    var x := extract(cellValue);
    if x.phones != [] || x.idCards != [] || x.bankCards != [] {
      var result := BuildResult(config, fileName, sheetName, sheet, rowIndex, cellValue, x);
      allResults := allResults + [result];
    }
  }

  /** The body of the row loop for a cell with findings: a new result, then its text, context and matches. */
  method BuildResult(config: Config, fileName: string, sheetName: string, sheet: SheetData,
                     rowIndex: nat, cellValue: string, x: Extraction) returns (result: ExtractResult)
    ensures result == ExtractResult(fileName, sheetName, AsU32(rowIndex + 1), x.phones, x.idCards, x.bankCards,
      cellValue, sheet.BeforeSteps(rowIndex, config.contextLines, 0), sheet.AfterSteps(rowIndex, config.contextLines))
  {
    var contextBefore, contextAfter := sheet.GetContext(rowIndex, config.contextLines);
    result := NewExtractResult(fileName, sheetName, AsU32(rowIndex + 1));
    result := result.(sourceText := cellValue, contextBefore := contextBefore, contextAfter := contextAfter,
      phoneNumbers := x.phones, idCards := x.idCards, bankCards := x.bankCards);
  }

  lemma AppendAfterPrior<T>(prior: seq<T>, xs: seq<T>, ys: seq<T>)
    ensures prior + (xs + ys) == (prior + xs) + ys
  {
  }

  /** One more row: its cell's result, if any, follows the results so far. */
  lemma RowResultsStep(config: Config, extract: string -> Extraction, fileName: string, sheetName: string,
                       sheet: SheetData, entries: seq<(nat, string)>, k: nat)
    requires k < |entries|
    ensures RowResults(config, extract, fileName, sheetName, sheet, entries[..k + 1])
      == RowResults(config, extract, fileName, sheetName, sheet, entries[..k])
        + OptionToSeq(CellResult(config, extract, fileName, sheetName, sheet, entries[k].0, entries[k].1))
  {
    assert entries[..k + 1][..k] == entries[..k];
  }

  /** One more sheet: its outcome is appended to the results so far, or its error ends the file. */
  lemma FileOutcomeStep(config: Config, extract: string -> Extraction, fileName: string,
                        sheets: seq<SheetSource>, s: nat, prior: seq<ExtractResult>)
    requires s < |sheets| && FileOutcome(config, extract, fileName, sheets[..s]) == Ok(prior)
    ensures FileOutcome(config, extract, fileName, sheets[..s + 1]) ==
      match SheetOutcome(config, extract, fileName, sheets[s])
      case Err(e) => Err(e)
      case Ok(more) => Ok(prior + more)
  {
    assert sheets[..s + 1][..s] == sheets[..s];
  }

  /** Once a prefix of the sheets fails, the file fails with that error. */
  lemma {:induction false} ErrorPersists(config: Config, extract: string -> Extraction, fileName: string,
                                         sheets: seq<SheetSource>, j: nat)
    requires j <= |sheets| && FileOutcome(config, extract, fileName, sheets[..j]).Err?
    ensures FileOutcome(config, extract, fileName, sheets) == FileOutcome(config, extract, fileName, sheets[..j])
    decreases |sheets|
  {
    if j < |sheets| {
      var init := sheets[..|sheets| - 1];
      assert init[..j] == sheets[..j];
      ErrorPersists(config, extract, fileName, init, j);
    } else {
      assert sheets[..j] == sheets;
    }
  }

  // ---------------------------------------------------------------------------
  // Properties of `process_file`

  /** A sheet whose read fails, or whose column cannot be chosen, makes the whole file fail. */
  lemma SheetErrorAbortsFile(config: Config, extract: string -> Extraction, fileName: string,
                             sheets: seq<SheetSource>, j: nat)
    requires j < |sheets| && SheetOutcome(config, extract, fileName, sheets[j]).Err?
    ensures FileOutcome(config, extract, fileName, sheets).Err?
  {
    var pre := sheets[..j + 1];
    assert pre[..j] == sheets[..j];
    ErrorPersists(config, extract, fileName, sheets, j + 1);
  }

  /** With automatic choice, a sheet without columns is an error; a failed read is one too. */
  lemma SheetErrors(config: Config, extract: string -> Extraction, fileName: string, source: SheetSource)
    ensures source.data.Err? ==> SheetOutcome(config, extract, fileName, source) == Err(source.data.error)
    ensures source.data.Ok? && config.targetColumn == "" && source.data.value.ColumnNames() == [] ==>
      SheetOutcome(config, extract, fileName, source) == Err(NoColumnsError)
  {
  }

  /**
   * A configured column that the sheet's header lacks skips the sheet without
   * failing: wherever the sheet stands in the workbook, the file's outcome is
   * that of the workbook without it.
   */
  lemma MissingColumnSkipsSheet(config: Config, extract: string -> Extraction, fileName: string,
                                pre: seq<SheetSource>, source: SheetSource, post: seq<SheetSource>)
    requires source.data.Ok? && config.targetColumn != ""
    requires config.targetColumn !in source.data.value.ColumnNames()
    ensures SheetOutcome(config, extract, fileName, source) == Ok([])
    ensures FileOutcome(config, extract, fileName, pre + [source] + post) == FileOutcome(config, extract, fileName, pre + post)
  {
    FileOutcomeAppend(config, extract, fileName, pre + [source], post);
    FileOutcomeAppend(config, extract, fileName, pre, [source]);
    FileOutcomeAppend(config, extract, fileName, pre, post);
    assert [source][..0] == [];
    ChainOkNothing(FileOutcome(config, extract, fileName, pre));
  }

  /** The outcome of two runs of sheets: the first's error, else the second's, else both results in order. */
  lemma {:induction false} FileOutcomeAppend(config: Config, extract: string -> Extraction, fileName: string,
                                             a: seq<SheetSource>, b: seq<SheetSource>)
    ensures FileOutcome(config, extract, fileName, a + b) ==
      Chain(FileOutcome(config, extract, fileName, a), FileOutcome(config, extract, fileName, b))
    decreases |b|
  {
    if b == [] {
      assert a + b == a;
      ChainOkNothing(FileOutcome(config, extract, fileName, a));
    } else {
      var init := b[..|b| - 1];
      assert (a + b)[..|a + b| - 1] == a + init && (a + b)[|a + b| - 1] == b[|b| - 1];
      FileOutcomeAppend(config, extract, fileName, a, init);
      ChainAssociative(FileOutcome(config, extract, fileName, a), FileOutcome(config, extract, fileName, init),
                       SheetOutcome(config, extract, fileName, b[|b| - 1]));
    }
  }

  lemma ChainOkNothing(first: Result<seq<ExtractResult>, string>)
    ensures Chain(first, Ok([])) == first
  {
    if first.Ok? {
      assert first.value + [] == first.value;
    }
  }

  lemma ChainAssociative(x: Result<seq<ExtractResult>, string>, y: Result<seq<ExtractResult>, string>,
                         z: Result<seq<ExtractResult>, string>)
    ensures Chain(Chain(x, y), z) == Chain(x, Chain(y, z))
  {
    if x.Ok? && y.Ok? && z.Ok? {
      assert (x.value + y.value) + z.value == x.value + (y.value + z.value);
    }
  }

  /**
   * A result as `process_file` builds it from row `rowIndex` holding `cell`:
   * a non-empty cell with at least one phone, ID or bank match, the
   * extractor's lists unchanged, the row number `rowIndex + 1` as a `u32`.
   */
  predicate ResultOfRow(config: Config, extract: string -> Extraction, fileName: string, sheetName: string,
                        r: ExtractResult, rowIndex: nat, cell: string)
  {
    var x := extract(cell);
    cell != "" && r.sourceText == cell && r.sourceFile == fileName && r.sheetName == sheetName
    && r.rowNumber == AsU32(rowIndex + 1)
    && r.phoneNumbers == x.phones && r.idCards == x.idCards && r.bankCards == x.bankCards
    && (r.phoneNumbers != [] || r.idCards != [] || r.bankCards != [])
  }

  /** `r` is built from one of the entries. */
  ghost predicate FromSomeEntry(config: Config, extract: string -> Extraction, fileName: string, sheetName: string,
                          r: ExtractResult, entries: seq<(nat, string)>)
  {
    exists k :: 0 <= k < |entries| && ResultOfRow(config, extract, fileName, sheetName, r, entries[k].0, entries[k].1)
  }

  /** Every row result comes from one of the entries, built as `ResultOfRow` says. */
  lemma {:induction false} RowResultsFromEntries(config: Config, extract: string -> Extraction, fileName: string,
                                                 sheetName: string, sheet: SheetData, entries: seq<(nat, string)>)
    ensures var rs := RowResults(config, extract, fileName, sheetName, sheet, entries);
      forall i :: 0 <= i < |rs| ==> FromSomeEntry(config, extract, fileName, sheetName, rs[i], entries)
  {
    if entries != [] {
      var init := entries[..|entries| - 1];
      var n := |entries| - 1;
      RowResultsFromEntries(config, extract, fileName, sheetName, sheet, init);
      var rs := RowResults(config, extract, fileName, sheetName, sheet, entries);
      var prev := RowResults(config, extract, fileName, sheetName, sheet, init);
      assert var rs0 := RowResults(config, extract, fileName, sheetName, sheet, init);
        forall i :: 0 <= i < |rs0| ==> FromSomeEntry(config, extract, fileName, sheetName, rs0[i], init);
      assert rs == prev + OptionToSeq(CellResult(config, extract, fileName, sheetName, sheet, entries[n].0, entries[n].1));
      forall i | 0 <= i < |rs|
        ensures FromSomeEntry(config, extract, fileName, sheetName, rs[i], entries)
      {
        if i < |prev| {
          assert rs[i] == prev[i];
          assert FromSomeEntry(config, extract, fileName, sheetName, prev[i], init);
          var k :| 0 <= k < |init| && ResultOfRow(config, extract, fileName, sheetName, prev[i], init[k].0, init[k].1);
          assert init[k] == entries[k];
        } else {
          assert ResultOfRow(config, extract, fileName, sheetName, rs[i], entries[n].0, entries[n].1);
        }
      }
    }
  }

  /**
   * A cell yields a result exactly when it is non-empty and has a phone, ID
   * or bank match; the result is built from the row as `ResultOfRow` says,
   * with the context of `get_context` for that row.
   */
  lemma CellResultIff(config: Config, extract: string -> Extraction, fileName: string,
                      sheetName: string, sheet: SheetData, rowIndex: nat, cell: string)
    ensures var c := CellResult(config, extract, fileName, sheetName, sheet, rowIndex, cell);
      var x := extract(cell);
      c.Some? <==> cell != "" && (x.phones != [] || x.idCards != [] || x.bankCards != [])
    ensures var c := CellResult(config, extract, fileName, sheetName, sheet, rowIndex, cell);
      c.Some? ==> (ResultOfRow(config, extract, fileName, sheetName, c.value, rowIndex, cell)
        && c.value.contextBefore == sheet.BeforeSteps(rowIndex, config.contextLines, 0)
        && c.value.contextAfter == sheet.AfterSteps(rowIndex, config.contextLines))
  {
  }

  /** Every entry whose cell yields a result has that result among the row results: none is lost. */
  lemma {:induction false} RowResultsComplete(config: Config, extract: string -> Extraction, fileName: string,
                                              sheetName: string, sheet: SheetData, entries: seq<(nat, string)>, k: nat)
    requires k < |entries|
    requires CellResult(config, extract, fileName, sheetName, sheet, entries[k].0, entries[k].1).Some?
    ensures CellResult(config, extract, fileName, sheetName, sheet, entries[k].0, entries[k].1).value
      in RowResults(config, extract, fileName, sheetName, sheet, entries)
  {
    var n := |entries| - 1;
    var init := entries[..n];
    var c := CellResult(config, extract, fileName, sheetName, sheet, entries[n].0, entries[n].1);
    assert RowResults(config, extract, fileName, sheetName, sheet, entries)
      == RowResults(config, extract, fileName, sheetName, sheet, init) + OptionToSeq(c);
    if k < n {
      assert init[k] == entries[k];
      RowResultsComplete(config, extract, fileName, sheetName, sheet, init, k);
    } else {
      assert OptionToSeq(c) == [c.value];
    }
  }

  /** `r` is a row result of one of the sheets. */
  ghost predicate FromSomeSheet(config: Config, extract: string -> Extraction, fileName: string,
                          r: ExtractResult, sheets: seq<SheetSource>)
  {
    exists j, row: nat, cell :: 0 <= j < |sheets| && ResultOfRow(config, extract, fileName, sheets[j].name, r, row, cell)
  }

  /** What a sheet contributes are its row results. */
  lemma SheetResultsFromRows(config: Config, extract: string -> Extraction, fileName: string, source: SheetSource)
    ensures var out := SheetOutcome(config, extract, fileName, source);
      out.Ok? ==> forall i :: 0 <= i < |out.value| ==> FromSomeSheet(config, extract, fileName, out.value[i], [source])
  {
    var out := SheetOutcome(config, extract, fileName, source);
    if out.Ok? && source.data.Ok? {
      var sheet := source.data.value;
      var target := if config.targetColumn == "" then TargetColumnChoice(sheet.ColumnNames()) else Ok(config.targetColumn);
      var col := sheet.GetColumnIndex(target.value);
      if col.Some? {
        var es := sheet.ColumnEntries(col.value);
        RowResultsFromEntries(config, extract, fileName, source.name, sheet, es);
        assert var rs := RowResults(config, extract, fileName, source.name, sheet, es);
          forall i :: 0 <= i < |rs| ==> FromSomeEntry(config, extract, fileName, source.name, rs[i], es);
        assert out.value == RowResults(config, extract, fileName, source.name, sheet, es);
        forall i | 0 <= i < |out.value|
          ensures FromSomeSheet(config, extract, fileName, out.value[i], [source])
        {
          var k :| 0 <= k < |es| && ResultOfRow(config, extract, fileName, source.name, out.value[i], es[k].0, es[k].1);
          assert [source][0].name == source.name;
        }
      }
    }
  }

  /**
   * Every result of a file is a row result of one of its sheets: a non-empty
   * cell with findings, the extractor's lists unchanged.
   */
  lemma {:induction false} FileResultsAreRowResults(config: Config, extract: string -> Extraction, fileName: string,
                                                    sheets: seq<SheetSource>)
    ensures var out := FileOutcome(config, extract, fileName, sheets);
      out.Ok? ==> forall i :: 0 <= i < |out.value| ==> FromSomeSheet(config, extract, fileName, out.value[i], sheets)
  {
    if sheets != [] {
      var n := |sheets| - 1;
      var init := sheets[..n];
      FileResultsAreRowResults(config, extract, fileName, init);
      SheetResultsFromRows(config, extract, fileName, sheets[n]);
      var out := FileOutcome(config, extract, fileName, sheets);
      if out.Ok? {
        var prev := FileOutcome(config, extract, fileName, init).value;
        var more := SheetOutcome(config, extract, fileName, sheets[n]).value;
        assert out.value == prev + more;
        forall i | 0 <= i < |out.value|
          ensures FromSomeSheet(config, extract, fileName, out.value[i], sheets)
        {
          if i < |prev| {
            assert out.value[i] == prev[i];
            assert FromSomeSheet(config, extract, fileName, prev[i], init);
            var j, row: nat, cell :| 0 <= j < |init| && ResultOfRow(config, extract, fileName, init[j].name, prev[i], row, cell);
            assert init[j] == sheets[j];
          } else {
            assert out.value[i] == more[i - |prev|];
            assert FromSomeSheet(config, extract, fileName, more[i - |prev|], [sheets[n]]);
            var j, row: nat, cell :| 0 <= j < 1 && ResultOfRow(config, extract, fileName, [sheets[n]][j].name, more[i - |prev|], row, cell);
            assert ResultOfRow(config, extract, fileName, sheets[n].name, out.value[i], row, cell);
          }
        }
      }
    }
  }

  /**
   * Within a sheet, the results come in strictly increasing row-number order,
   * as long as the row numbers fit in a `u32`.
   */
  lemma {:induction false} RowNumbersAscend(config: Config, extract: string -> Extraction, fileName: string,
                                            sheetName: string, sheet: SheetData, entries: seq<(nat, string)>)
    requires forall i, j :: 0 <= i < j < |entries| ==> entries[i].0 < entries[j].0
    requires forall i :: 0 <= i < |entries| ==> entries[i].0 + 1 < U32Modulus
    ensures Ascending(RowResults(config, extract, fileName, sheetName, sheet, entries))
  {
    if entries != [] {
      var n := |entries| - 1;
      var init := entries[..n];
      var prev := RowResults(config, extract, fileName, sheetName, sheet, init);
      var tail := OptionToSeq(CellResult(config, extract, fileName, sheetName, sheet, entries[n].0, entries[n].1));
      var bound := entries[n].0 + 1;
      RowNumbersAscend(config, extract, fileName, sheetName, sheet, init);
      assert forall i :: 0 <= i < |init| ==> init[i] == entries[i];
      RowsBelow(config, extract, fileName, sheetName, sheet, init, bound);
      TailRowNumber(config, extract, fileName, sheetName, sheet, entries[n].0, entries[n].1);
      AscendAppend(prev, tail, bound);
      assert RowResults(config, extract, fileName, sheetName, sheet, entries) == prev + tail;
    }
  }

  /** Row numbers strictly increase along the results. */
  predicate Ascending(rs: seq<ExtractResult>) {
    forall i, j :: 0 <= i < j < |rs| ==> rs[i].rowNumber < rs[j].rowNumber
  }

  predicate NumberedBelow(rs: seq<ExtractResult>, bound: nat) {
    forall i :: 0 <= i < |rs| ==> rs[i].rowNumber < bound
  }

  /** Entries below a bound give results numbered below it. */
  lemma RowsBelow(config: Config, extract: string -> Extraction, fileName: string,
                  sheetName: string, sheet: SheetData, entries: seq<(nat, string)>, bound: nat)
    requires forall i :: 0 <= i < |entries| ==> entries[i].0 + 1 < bound && entries[i].0 + 1 < U32Modulus
    ensures NumberedBelow(RowResults(config, extract, fileName, sheetName, sheet, entries), bound)
  {
    var rs := RowResults(config, extract, fileName, sheetName, sheet, entries);
    forall i | 0 <= i < |rs|
      ensures rs[i].rowNumber < bound
    {
      RowResultsFromEntries(config, extract, fileName, sheetName, sheet, entries);
      assert FromSomeEntry(config, extract, fileName, sheetName, rs[i], entries);
      var k :| 0 <= k < |entries| && ResultOfRow(config, extract, fileName, sheetName, rs[i], entries[k].0, entries[k].1);
    }
  }

  /** The result of one cell, if any, is numbered one past its row index. */
  lemma TailRowNumber(config: Config, extract: string -> Extraction, fileName: string,
                      sheetName: string, sheet: SheetData, rowIndex: nat, cell: string)
    requires rowIndex + 1 < U32Modulus
    ensures var tail := OptionToSeq(CellResult(config, extract, fileName, sheetName, sheet, rowIndex, cell));
      |tail| <= 1 && forall i :: 0 <= i < |tail| ==> tail[i].rowNumber == rowIndex + 1
  {
  }

  /** Ascending results all below `bound`, followed by at most one result numbered `bound`, still ascend. */
  lemma AscendAppend(prev: seq<ExtractResult>, tail: seq<ExtractResult>, bound: nat)
    requires Ascending(prev) && NumberedBelow(prev, bound)
    requires |tail| <= 1 && forall i :: 0 <= i < |tail| ==> tail[i].rowNumber == bound
    ensures Ascending(prev + tail)
  {
    var rs := prev + tail;
    forall i, j | 0 <= i < j < |rs|
      ensures rs[i].rowNumber < rs[j].rowNumber
    {
      if j >= |prev| {
        assert rs[j] == tail[0] && rs[i] == prev[i];
      } else {
        assert rs[i] == prev[i] && rs[j] == prev[j];
      }
    }
  }


  /** The entries of a sheet's column carry strictly ascending row indices starting at 1. */
  lemma ColumnEntriesAscend(sheet: SheetData, col: nat)
    requires |sheet.rows| > 0
    ensures var es := sheet.ColumnEntries(col);
      forall i, j :: 0 <= i < j < |es| ==> es[i].0 < es[j].0
    ensures var es := sheet.ColumnEntries(col);
      forall i :: 0 <= i < |es| ==> 1 <= es[i].0 < |sheet.rows|
  {
  }

  // ---------------------------------------------------------------------------
  // Statistics

  /** `ProcessingStatistics`. */
  datatype ProcessingStatistics = ProcessingStatistics(
    totalResults: nat,
    totalPhones: nat,
    validPhones: nat,
    totalIdCards: nat,
    validIdCards: nat,
    totalBankCards: nat,
    validBankCards: nat)

  /** The number of valid matches in a list. */
  function CountValid(ms: seq<MatchInfo>): (n: nat)
    ensures n <= |ms|
    ensures n == |ms| <==> forall k :: 0 <= k < |ms| ==> ms[k].isValid
  {
    if ms == [] then 0
    else
      var rest := CountValid(ms[1..]);
      assert forall k :: 1 <= k < |ms| ==> ms[1..][k - 1] == ms[k];
      (if ms[0].isValid then 1 else 0) + rest
  }

  datatype Category = Phones | IdCards | BankCards

  function ListOf(r: ExtractResult, cat: Category): seq<MatchInfo> {
    match cat
    case Phones => r.phoneNumbers
    case IdCards => r.idCards
    case BankCards => r.bankCards
  }

  /** The number of matches of a category over all results. */
  function TotalOf(results: seq<ExtractResult>, cat: Category): nat {
    if results == [] then 0 else |ListOf(results[0], cat)| + TotalOf(results[1..], cat)
  }

  /** The number of valid matches of a category over all results. */
  function ValidOf(results: seq<ExtractResult>, cat: Category): (n: nat)
    ensures n <= TotalOf(results, cat)
  {
    if results == [] then 0 else CountValid(ListOf(results[0], cat)) + ValidOf(results[1..], cat)
  }

  /** `generate_statistics`: the number of results, and per category the matches and the valid ones among them. */
  function GenerateStatistics(results: seq<ExtractResult>): (s: ProcessingStatistics)
    ensures s.totalResults == |results|
    ensures s.validPhones <= s.totalPhones && s.validIdCards <= s.totalIdCards && s.validBankCards <= s.totalBankCards
  {
    ProcessingStatistics(|results|,
      TotalOf(results, Phones), ValidOf(results, Phones),
      TotalOf(results, IdCards), ValidOf(results, IdCards),
      TotalOf(results, BankCards), ValidOf(results, BankCards))
  }

  /** `total_sensitive_info`. */
  function TotalSensitiveInfo(s: ProcessingStatistics): nat {
    s.totalPhones + s.totalIdCards + s.totalBankCards
  }

  /** 20 phones, 5 IDs and 3 bank cards make 28 findings; the valid counts and the result count play no part. */
  lemma TotalSensitiveInfoExample()
    ensures TotalSensitiveInfo(ProcessingStatistics(10, 20, 18, 5, 5, 3, 2)) == 28
    ensures forall r, v1, v2, v3 :: TotalSensitiveInfo(ProcessingStatistics(r, 20, v1, 5, v2, 3, v3)) == 28
  {
  }

  lemma {:induction false} TotalOfAppend(a: seq<ExtractResult>, b: seq<ExtractResult>, cat: Category)
    ensures TotalOf(a + b, cat) == TotalOf(a, cat) + TotalOf(b, cat)
    ensures ValidOf(a + b, cat) == ValidOf(a, cat) + ValidOf(b, cat)
  {
    if a == [] {
      assert a + b == b;
    } else {
      assert (a + b)[0] == a[0];
      assert (a + b)[1..] == a[1..] + b;
      TotalOfAppend(a[1..], b, cat);
    }
  }

  /** Statistics add up over a split of the results, as over the sheets of a file. */
  lemma StatisticsAppend(a: seq<ExtractResult>, b: seq<ExtractResult>)
    ensures var s := GenerateStatistics(a + b);
      var x := GenerateStatistics(a);
      var y := GenerateStatistics(b);
      s.totalResults == x.totalResults + y.totalResults
      && s.totalPhones == x.totalPhones + y.totalPhones && s.validPhones == x.validPhones + y.validPhones
      && s.totalIdCards == x.totalIdCards + y.totalIdCards && s.validIdCards == x.validIdCards + y.validIdCards
      && s.totalBankCards == x.totalBankCards + y.totalBankCards && s.validBankCards == x.validBankCards + y.validBankCards
  {
    TotalOfAppend(a, b, Phones);
    TotalOfAppend(a, b, IdCards);
    TotalOfAppend(a, b, BankCards);
  }

  /** Statistics of a single result: its list lengths and valid counts. */
  lemma StatisticsOfOne(r: ExtractResult)
    ensures var s := GenerateStatistics([r]);
      s.totalResults == 1
      && s.totalPhones == |r.phoneNumbers| && s.validPhones == CountValid(r.phoneNumbers)
      && s.totalIdCards == |r.idCards| && s.validIdCards == CountValid(r.idCards)
      && s.totalBankCards == |r.bankCards| && s.validBankCards == CountValid(r.bankCards)
      && TotalSensitiveInfo(s) == |r.phoneNumbers| + |r.idCards| + |r.bankCards|
  {
    assert [r][1..] == [];
  }

  /** The number of matches the results hold, counted result by result. */
  function MatchCount(results: seq<ExtractResult>): nat {
    if results == [] then 0
    else |results[0].phoneNumbers| + |results[0].idCards| + |results[0].bankCards| + MatchCount(results[1..])
  }

  /** The total of the statistics is the number of phone, ID and bank matches over all results. */
  lemma {:induction false} TotalSensitiveInfoCountsMatches(results: seq<ExtractResult>)
    ensures TotalSensitiveInfo(GenerateStatistics(results)) == MatchCount(results)
  {
    if results != [] {
      TotalSensitiveInfoCountsMatches(results[1..]);
    }
  }

  /** Results as `process_file` emits them each hold a match, so the matches are at least as many as the results. */
  lemma {:induction false} SensitiveInfoAtLeastResults(results: seq<ExtractResult>)
    requires forall i :: 0 <= i < |results| ==>
      results[i].phoneNumbers != [] || results[i].idCards != [] || results[i].bankCards != []
    ensures TotalSensitiveInfo(GenerateStatistics(results)) >= |results|
  {
    if results != [] {
      assert forall i :: 0 <= i < |results[1..]| ==> results[1..][i] == results[i + 1];
      SensitiveInfoAtLeastResults(results[1..]);
    }
  }

  // ---------------------------------------------------------------------------
  // The colour of a validity cell

  /** The formats `write_validity_cell` chooses between. */
  datatype CellFormat = InvalidFormat | ValidFormat | PlainEmpty

  /**
   * The branch logic of `write_validity_cell`: the invalid format exactly when
   * the text carries the invalid marker, the plain cell exactly when it is empty.
   */
  function ValidityCellFormat(validity: string): (r: CellFormat)
    ensures r == InvalidFormat <==> Contains(validity, InvalidToken)
    ensures r == PlainEmpty <==> validity == ""
  {
    if Contains(validity, InvalidToken) then InvalidFormat
    else if validity != "" then ValidFormat
    else PlainEmpty
  }

  /**
   * For a validity cell of a match list: the invalid format exactly when some
   * match is invalid, the plain empty cell exactly when there are no matches,
   * the valid format otherwise.
   */
  lemma ValidityCellFormatOfMatches(ms: seq<MatchInfo>)
    ensures ValidityCellFormat(FormatValidity(ms)) == InvalidFormat <==> SomeInvalid(ms)
    ensures ValidityCellFormat(FormatValidity(ms)) == PlainEmpty <==> ms == []
    ensures ValidityCellFormat(FormatValidity(ms)) == ValidFormat <==>
      ms != [] && forall k :: 0 <= k < |ms| ==> ms[k].isValid
  {
  }
}
