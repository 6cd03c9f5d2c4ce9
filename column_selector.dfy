/** Choosing the target column in the column picker (`src/gui/column_selector.rs`). */
module ColumnSelector {
  import opened Wrappers
  import opened Strings
  import opened ConfigModel

  predicate IsRecommended(col: string) {
    Contains(col, MessageColumn)
  }

  /** No column before index `k` is recommended. */
  predicate FirstRecommended(columns: seq<string>, k: nat)
    requires k <= |columns|
  {
    forall j :: 0 <= j < k ==> !IsRecommended(columns[j])
  }

  /** `find_recommended_column`: the first column whose name contains 消息内容. */
  function FindRecommendedColumn(columns: seq<string>): (r: Option<string>)
    ensures r.None? <==> forall k :: 0 <= k < |columns| ==> !IsRecommended(columns[k])
    ensures r.Some? ==> IsRecommended(r.value)
    ensures r.Some? ==> exists k :: 0 <= k < |columns| && columns[k] == r.value && FirstRecommended(columns, k)
  {
    if |columns| == 0 then None
    else if IsRecommended(columns[0]) then Some(columns[0])
    else
      var r := FindRecommendedColumn(columns[1..]);
      assert forall k :: 1 <= k < |columns| ==> columns[1..][k - 1] == columns[k];
      if r.Some? then
        var k :| 0 <= k < |columns[1..]| && columns[1..][k] == r.value && FirstRecommended(columns[1..], k);
        assert columns[k + 1] == r.value && FirstRecommended(columns, k + 1);
        r
      else
        r
  }

  /**
   * What `smart_select_column` leaves in the selection: a non-empty current
   * choice that is one of the columns is kept; otherwise the recommended
   * column; otherwise the first column if its name is not empty; otherwise the
   * selection is left as it was.
   */
  function SmartSelection(columns: seq<string>, current: string): (r: string)
    ensures r == current || r in columns
    ensures current != "" && current in columns ==> r == current
    ensures r != current ==> r != ""
    ensures !(current != "" && current in columns) && (exists k :: 0 <= k < |columns| && IsRecommended(columns[k])) ==>
      exists k :: 0 <= k < |columns| && columns[k] == r && IsRecommended(r) && FirstRecommended(columns, k)
    ensures !(current != "" && current in columns) && (forall k :: 0 <= k < |columns| ==> !IsRecommended(columns[k])) ==>
      r == if |columns| > 0 && columns[0] != "" then columns[0] else current
  {
    if current != "" && current in columns then current
    else match FindRecommendedColumn(columns)
      case Some(rec) => RecommendedNotEmpty(rec); rec
      case None => if |columns| > 0 && columns[0] != "" then columns[0] else current
  }

  /** `smart_select_column`, overwriting the selection in place with early returns. */
  method SmartSelectColumn(columns: seq<string>, current: string) returns (selection: string)
    ensures selection == SmartSelection(columns, current)
  {
    selection := current;
    if selection != "" && selection in columns {
      return;
    }
    var recommended := FindRecommendedColumn(columns);
    if recommended.Some? {
      selection := recommended.value;
      return;
    }
    if |columns| > 0 {
      var first := columns[0];
      if first != "" {
        selection := first;
      }
    }
  }

  /** A recommended column name is never empty: it contains 消息内容. */
  lemma RecommendedNotEmpty(col: string)
    requires IsRecommended(col)
    ensures col != ""
  {
    var i :| 0 <= i <= |col| && OccursAt(col, MessageColumn, i);
  }

  /** Selecting again changes nothing. */
  lemma {:induction false} SmartSelectionIdempotent(columns: seq<string>, current: string)
    ensures SmartSelection(columns, SmartSelection(columns, current)) == SmartSelection(columns, current)
  {
  }

  /** `test_find_recommended_column`: among 姓名, 消息内容 and 时间, 消息内容 is recommended. */
  lemma FindRecommendedColumnExample()
    ensures FindRecommendedColumn(["姓名", "消息内容", "时间"]) == Some("消息内容")
  {
    NotRecommendedShort("姓名");
    assert OccursAt("消息内容", MessageColumn, 0);
  }

  /**
   * `test_smart_select_column`: with the columns 姓名 and 消息内容, an empty
   * selection becomes 消息内容, and 姓名 is kept.
   */
  lemma SmartSelectionExample()
    ensures SmartSelection(["姓名", "消息内容"], "") == "消息内容"
    ensures SmartSelection(["姓名", "消息内容"], "姓名") == "姓名"
  {
    NotRecommendedShort("姓名");
    assert OccursAt("消息内容", MessageColumn, 0);
  }

  /** A name shorter than 消息内容 cannot contain it. */
  lemma NotRecommendedShort(col: string)
    requires |col| < |MessageColumn|
    ensures !IsRecommended(col)
  {
  }
}
