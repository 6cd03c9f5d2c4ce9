/**
 * The in-memory sheet helpers of `src/core/excel_reader.rs`: a sheet is a grid
 * of cell strings whose row 0 is the header; `ExcelInfo` summarises a
 * workbook's sheets. Reading the workbook file is not part of this model.
 */
module ExcelReader {
  import opened Wrappers
  import opened Strings

  /** One row as a context line: its cells joined by `" | "`. */
  function RowLine(row: seq<string>): string {
    Join(row, " | ")
  }

  /** A cell of a row, or `""` where the row is too short. */
  function CellOrEmpty(row: seq<string>, col: nat): string {
    if col < |row| then row[col] else ""
  }

  /** The first index of `x` in `s`. */
  function IndexOf(s: seq<string>, x: string): (r: Option<nat>)
    ensures r.None? <==> x !in s
    ensures r.Some? ==> r.value < |s| && s[r.value] == x && x !in s[..r.value]
  {
    if |s| == 0 then None
    else if s[0] == x then
      assert s[..0] == [];
      Some(0)
    else
      var r := IndexOf(s[1..], x);
      assert x in s[1..] <==> x in s by { assert s == [s[0]] + s[1..]; }
      if r.Some? then
        assert s[..r.value + 1] == [s[0]] + s[1..][..r.value];
        Some(r.value + 1)
      else
        None
  }

  /** `SheetData`: the rows of a sheet, header first. */
  datatype SheetData = SheetData(rows: seq<seq<string>>)
  {
    /** `column_names`: the header row, or nothing for an empty grid. */
    function ColumnNames(): (names: seq<string>)
      ensures |rows| == 0 ==> names == []
      ensures |rows| > 0 ==> names == rows[0]
    {
      if |rows| == 0 then [] else rows[0]
    }

    /** `get_column_index`: the position of the first header cell equal to `name`. */
    function GetColumnIndex(name: string): (r: Option<nat>)
      ensures r.None? <==> name !in ColumnNames()
      ensures r.Some? ==> r.value < |rows[0]| && rows[0][r.value] == name && name !in rows[0][..r.value]
    {
      if |rows| == 0 then None else IndexOf(rows[0], name)
    }

    /** What `get_column_by_name` returns for column `col`: `(row index, cell)` for every row below the header. */
    function ColumnEntries(col: nat): (es: seq<(nat, string)>)
      requires |rows| > 0
      ensures |es| == |rows| - 1
      ensures forall k :: 0 <= k < |es| ==> es[k] == (k + 1, CellOrEmpty(rows[k + 1], col))
    {
      seq(|rows| - 1, k requires 0 <= k < |rows| - 1 => (k + 1, CellOrEmpty(rows[k + 1], col)))
    }

    /**
     * `get_column_by_name`: an error when the header has no such column,
     * otherwise one entry per non-header row with ascending row indices and
     * `""` for rows too short to reach the column.
     */
    method GetColumnByName(name: string) returns (r: Result<seq<(nat, string)>, string>)
      ensures r.Err? <==> name !in ColumnNames()
      ensures r.Err? ==> r.error == "列不存在: " + name
      ensures r.Ok? ==> r.value == ColumnEntries(GetColumnIndex(name).value)
    {
      var colIndex := GetColumnIndex(name);
      if colIndex.None? {
        return Err("列不存在: " + name);
      }
      var col := colIndex.value;
      var result: seq<(nat, string)> := [];
      var rowIndex := 1;
      while rowIndex < |rows|
        invariant 1 <= rowIndex <= |rows|
        invariant |result| == rowIndex - 1
        invariant forall k :: 0 <= k < |result| ==> result[k] == (k + 1, CellOrEmpty(rows[k + 1], col))
      {
        var row := rows[rowIndex];
        if col < |row| {
          result := result + [(rowIndex, row[col])];
        } else {
          result := result + [(rowIndex, "")];
        }
        rowIndex := rowIndex + 1;
      }
      return Ok(result);
    }

    /** The "before" line for loop step `i`: row `rowIndex + 1 - i`, if there is one and it is not before row 1. */
    function BeforePart(rowIndex: nat, i: nat): seq<string> {
      var idx := rowIndex + 1;
      if idx > i && idx - i < |rows| then [RowLine(rows[idx - i])] else []
    }

    /** The "before" lines of the loop steps `i = n` down to `lo + 1`, in that order. */
    function BeforeSteps(rowIndex: nat, n: nat, lo: nat): seq<string>
      requires lo <= n
      decreases n - lo
    {
      if lo == n then [] else BeforeSteps(rowIndex, n, lo + 1) + BeforePart(rowIndex, lo + 1)
    }

    /** The "after" line for loop step `i`: row `rowIndex + 1 + i`, if there is one. */
    function AfterPart(rowIndex: nat, i: nat): seq<string> {
      var idx := rowIndex + 1 + i;
      if idx < |rows| then [RowLine(rows[idx])] else []
    }

    /** The "after" lines of the loop steps `i = 1` up to `hi`. */
    function AfterSteps(rowIndex: nat, hi: nat): seq<string> {
      if hi == 0 then [] else AfterSteps(rowIndex, hi - 1) + AfterPart(rowIndex, hi)
    }

    /** The lines of rows `lo` up to (not including) `hi`. */
    function Lines(lo: nat, hi: nat): (ls: seq<string>)
      requires lo <= hi <= |rows|
      ensures |ls| == hi - lo && forall k :: 0 <= k < hi - lo ==> ls[k] == RowLine(rows[lo + k])
    {
      seq(hi - lo, k requires 0 <= k < hi - lo => RowLine(rows[lo + k]))
    }

    /**
     * `get_context(rowIndex, contextLines)` as written: the loops read
     * `rowIndex` as if it did not count the header row.
     */
    method GetContext(rowIndex: nat, contextLines: nat) returns (before: seq<string>, after: seq<string>)
      ensures before == BeforeSteps(rowIndex, contextLines, 0)
      ensures after == AfterSteps(rowIndex, contextLines)
    {
      before := [];
      after := [];
      var i := contextLines;
      while i >= 1
        invariant 0 <= i <= contextLines
        invariant before == BeforeSteps(rowIndex, contextLines, i)
      {
        var idx := rowIndex + 1;
        if idx > i {
          if idx - i < |rows| {
            before := before + [RowLine(rows[idx - i])];
          }
        }
        i := i - 1;
      }
      i := 1;
      while i <= contextLines
        invariant 1 <= i <= contextLines + 1
        invariant after == AfterSteps(rowIndex, i - 1)
      {
        var idx := rowIndex + 1 + i;
        if idx < |rows| {
          after := after + [RowLine(rows[idx])];
        }
        i := i + 1;
      }
    }

    /**
     * The "before" window: the rows from `rowIndex + 1 - n` (never the header
     * row 0) through `rowIndex` itself, clipped to the grid.
     */
    lemma {:induction false} BeforeWindow(rowIndex: nat, n: nat, lo: nat)
      requires lo <= n
      ensures var first: int := if rowIndex + 1 > n then rowIndex + 1 - n else 1;
        var last: int := if rowIndex + 1 - lo < |rows| then rowIndex + 1 - lo else |rows|;
        (first <= last ==> BeforeSteps(rowIndex, n, lo) == Lines(first, last))
        && (first > last ==> BeforeSteps(rowIndex, n, lo) == [])
      decreases n - lo
    {
      if lo < n {
        BeforeWindow(rowIndex, n, lo + 1);
        var first: int := if rowIndex + 1 > n then rowIndex + 1 - n else 1;
        var last: int := if rowIndex + 1 - lo < |rows| then rowIndex + 1 - lo else |rows|;
        var last': int := if rowIndex - lo < |rows| then rowIndex - lo else |rows|;
        var row: int := rowIndex - lo;
        if 1 <= row < |rows| {
          assert first <= last' && last == last' + 1;
          assert BeforePart(rowIndex, lo + 1) == [RowLine(rows[row])];
          assert Lines(first, last) == Lines(first, last') + [RowLine(rows[row])];
        } else if row < 1 {
          assert BeforePart(rowIndex, lo + 1) == [];
          assert last <= 1 <= first;
        } else {
          assert BeforePart(rowIndex, lo + 1) == [];
          assert last == last';
        }
      }
    }

    /** The "after" window: the rows from `rowIndex + 2` on, at most `n` of them, clipped to the grid. */
    lemma {:induction false} AfterWindow(rowIndex: nat, hi: nat)
      ensures var first := rowIndex + 2;
        var last := if rowIndex + 2 + hi <= |rows| then rowIndex + 2 + hi else |rows|;
        (first <= last ==> AfterSteps(rowIndex, hi) == Lines(first, last))
        && (first > last ==> AfterSteps(rowIndex, hi) == [])
    {
      if hi > 0 {
        AfterWindow(rowIndex, hi - 1);
        var first := rowIndex + 2;
        var last' := if rowIndex + 1 + hi <= |rows| then rowIndex + 1 + hi else |rows|;
        if first <= last' && rowIndex + 1 + hi < |rows| {
          assert Lines(first, last' + 1) == Lines(first, last') + [RowLine(rows[rowIndex + 1 + hi])];
        }
      }
    }

    /** Both context lists have at most `n` lines; with `n = 0` both are empty. */
    lemma ContextBounded(rowIndex: nat, n: nat)
      ensures |BeforeSteps(rowIndex, n, 0)| <= n && |AfterSteps(rowIndex, n)| <= n
      ensures n == 0 ==> BeforeSteps(rowIndex, n, 0) == [] && AfterSteps(rowIndex, n) == []
    {
      BeforeWindow(rowIndex, n, 0);
      AfterWindow(rowIndex, n);
    }

    /**
     * As written, with a grid index in `rowIndex` the "before" list ends with
     * that row itself and the "after" list skips the next row.
     */
    lemma ContextOffByOne(rowIndex: nat, n: nat)
      requires 1 <= rowIndex && rowIndex + 2 < |rows| && n >= 1
      ensures var before := BeforeSteps(rowIndex, n, 0);
        |before| > 0 && before[|before| - 1] == RowLine(rows[rowIndex])
      ensures |AfterSteps(rowIndex, n)| > 0 && AfterSteps(rowIndex, n)[0] == RowLine(rows[rowIndex + 2])
    {
      BeforeWindow(rowIndex, n, 0);
      AfterWindow(rowIndex, n);
    }
  }

  /** `ExcelInfo`: sheet names in workbook order, each sheet's header and row count. */
  datatype ExcelInfo = ExcelInfo(
    sheetNames: seq<string>,
    sheetColumns: map<string, seq<string>>,
    sheetRowCounts: map<string, nat>)
  {
    /** `first_sheet_columns`: the header of the first sheet, if there is a sheet and its header is known. */
    function FirstSheetColumns(): (r: Option<seq<string>>)
      ensures r.None? <==> |sheetNames| == 0 || sheetNames[0] !in sheetColumns
      ensures r.Some? ==> r.value == sheetColumns[sheetNames[0]]
    {
      if |sheetNames| == 0 then None
      else if sheetNames[0] in sheetColumns then Some(sheetColumns[sheetNames[0]])
      else None
    }

    /** `total_row_count`: the sum of the per-sheet row counts. */
    ghost function TotalRowCount(): nat {
      SumValues(sheetRowCounts)
    }
  }

  /** The sum of a map's values. */
  ghost function SumValues(m: map<string, nat>): nat
    decreases m.Keys
  {
    if m == map[] then 0
    else
      var k :| k in m;
      m[k] + SumValues(m - {k})
  }

  /** Summing takes every value once, whichever key is taken first. */
  lemma {:induction false} SumValuesRemove(m: map<string, nat>, k: string)
    requires k in m
    ensures SumValues(m) == m[k] + SumValues(m - {k})
    decreases m.Keys
  {
    var j :| j in m && SumValues(m) == m[j] + SumValues(m - {j});
    if j != k {
      var mj := m - {j};
      var mk := m - {k};
      assert mj.Keys < m.Keys;
      assert mk.Keys < m.Keys;
      SumValuesRemove(mj, k);
      SumValuesRemove(mk, j);
      assert mj - {k} == mk - {j};
    }
  }

  function SumCounts(names: seq<string>, counts: map<string, nat>): nat
    requires forall k :: 0 <= k < |names| ==> names[k] in counts
  {
    if |names| == 0 then 0 else counts[names[0]] + SumCounts(names[1..], counts)
  }

  /**
   * When every sheet name has its row count and no other key is present,
   * the total is the sum of the sheets' counts in workbook order.
   */
  lemma {:induction false} TotalIsSumOverSheets(names: seq<string>, counts: map<string, nat>)
    requires forall i, j :: 0 <= i < j < |names| ==> names[i] != names[j]
    requires counts.Keys == set k | 0 <= k < |names| :: names[k]
    ensures forall k :: 0 <= k < |names| ==> names[k] in counts
    ensures SumValues(counts) == SumCounts(names, counts)
    decreases |names|
  {
    if |names| == 0 {
      assert counts.Keys == {};
      assert |counts| == 0;
    } else {
      forall k | 0 <= k < |names|
        ensures names[k] in counts
      {
      }
      var rest := counts - {names[0]};
      forall i, j | 0 <= i < j < |names[1..]|
        ensures names[1..][i] != names[1..][j]
      {
        assert names[1..][i] == names[i + 1] && names[1..][j] == names[j + 1];
      }
      assert rest.Keys == set k | 0 <= k < |names[1..]| :: names[1..][k] by {
        forall x | x in rest.Keys
          ensures x in set k | 0 <= k < |names[1..]| :: names[1..][k]
        {
          var k :| 0 <= k < |names| && names[k] == x;
          assert k != 0;
          assert names[1..][k - 1] == x;
        }
      }
      SumValuesRemove(counts, names[0]);
      TotalIsSumOverSheets(names[1..], rest);
      assert SumCounts(names[1..], rest) == SumCounts(names[1..], counts) by {
        SumCountsSameOn(names[1..], rest, counts);
      }
    }
  }

  lemma {:induction false} SumCountsSameOn(names: seq<string>, a: map<string, nat>, b: map<string, nat>)
    requires forall k :: 0 <= k < |names| ==> names[k] in a && names[k] in b && a[names[k]] == b[names[k]]
    ensures SumCounts(names, a) == SumCounts(names, b)
  {
    if |names| > 0 {
      SumCountsSameOn(names[1..], a, b);
    }
  }
}
