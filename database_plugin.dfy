/** The database plugin: `execute_query` cleans the statement text, runs it
    and shapes the fetched rows into the result envelope every later stage
    reads; `check_result_size` gates on the row count. The database itself
    is a parameter: a function from the statement text that is run to
    either a failure message or the column names and raw rows. */
module DatabasePlugin {
  import opened Common
  import opened Text

  /** `.replace('```', '').replace('sql', '').replace("`", "").strip()` */
  function CleanQuery(sqlQuery: string): (r: string)
    ensures '`' !in r && Stripped(r)
  {
    var t := RemoveAll(RemoveAll(RemoveAll(sqlQuery, Fence), "sql"), "`");
    RemoveAllCharAbsent(RemoveAll(RemoveAll(sqlQuery, Fence), "sql"), '`');
    TrimKeepsAbsentChar(t, '`');
    Trim(t)
  }

  /** A statement with no backtick and no "sql" only loses its surrounding
      whitespace. */
  lemma CleanQueryKeepsPlainText(sqlQuery: string)
    requires '`' !in sqlQuery && !Contains(sqlQuery, "sql")
    ensures CleanQuery(sqlQuery) == Trim(sqlQuery)
  {
    RemoveAllAbsentHead(sqlQuery, Fence);
    RemoveAllAbsent(sqlQuery, "sql");
    RemoveAllAbsentHead(sqlQuery, "`");
  }

  /** What the driver gave: an exception's text, or the column names of the
      cursor description and the fetched rows. */
  datatype DbOutcome = DbFailed(message: string) | Fetched(columns: seq<string>, rows: seq<seq<Value>>)

  /** Sets and complex numbers become their text; every other value is
      kept as it is. */
  function Convert(v: Value): (w: Value)
    ensures !w.SetValue? && !w.ComplexValue?
    ensures v.SetValue? || v.ComplexValue? ==> w == Str(v.text)
    ensures !v.SetValue? && !v.ComplexValue? ==> w == v
  {
    match v
    case SetValue(t) => Str(t)
    case ComplexValue(t) => Str(t)
    case _ => v
  }

  /** The row dictionary after the first `n` columns have been stored, in
      column order (a repeated name is overwritten by the later column). */
  function RowUpTo(columns: seq<string>, row: seq<Value>, n: nat): Row
    requires n <= |columns| && n <= |row|
  {
    if n == 0 then map[] else RowUpTo(columns, row, n - 1)[columns[n - 1] := Convert(row[n - 1])]
  }

  /** `json_row` for a row with at least one value per column. */
  function RowOf(columns: seq<string>, row: seq<Value>): Row
    requires |columns| <= |row|
  {
    RowUpTo(columns, row, |columns|)
  }

  /** The row dictionary has exactly the stored column names as keys. */
  lemma {:induction false} RowUpToKeys(columns: seq<string>, row: seq<Value>, n: nat)
    requires n <= |columns| && n <= |row|
    ensures RowUpTo(columns, row, n).Keys == set k | 0 <= k < n :: columns[k]
  {
    if n > 0 {
      RowUpToKeys(columns, row, n - 1);
      assert (set k | 0 <= k < n :: columns[k]) == (set k | 0 <= k < n - 1 :: columns[k]) + {columns[n - 1]};
    }
  }

  /** Each column name maps to the converted value of its last column:
      a value is overwritten by a later column of the same name only. */
  lemma {:induction false} RowUpToValues(columns: seq<string>, row: seq<Value>, n: nat, k: nat)
    requires n <= |columns| && n <= |row|
    requires k < n && forall j :: k < j < n ==> columns[j] != columns[k]
    ensures columns[k] in RowUpTo(columns, row, n)
    ensures RowUpTo(columns, row, n)[columns[k]] == Convert(row[k])
  {
    if k < n - 1 {
      RowUpToValues(columns, row, n - 1, k);
    }
  }

  /** Every fetched row has a value for every column. */
  predicate RowsAreFull(columns: seq<string>, rows: seq<seq<Value>>) {
    forall k :: 0 <= k < |rows| ==> |columns| <= |rows[k]|
  }

  /** The text of the `IndexError` raised for a row shorter than the
      column list. */
  const ShortRowError: string := "tuple index out of range"

  /** `{"success": False, "error": msg}` */
  function Failure(message: string): ResultDoc {
    Doc(Some(false), None, None, None, Some(message))
  }

  /** The envelope `execute_query` produces for a driver outcome. */
  function Envelope(outcome: DbOutcome): (r: ResultDoc)
    ensures r.Doc? && r.success.Some?
    ensures r.Succeeded() ==>
      outcome.Fetched? && r.columnNames == Some(outcome.columns)
      && r.rows.Some? && |r.rows.value| == |outcome.rows|
      && r.rowCount == Some(|r.rows.value|) && r.error.None?
    ensures !r.Succeeded() ==>
      r.columnNames.None? && r.rows.None? && r.rowCount.None? && r.error.Some?
  {
    match outcome
    case DbFailed(message) => Failure(message)
    case Fetched(columns, rows) =>
      if RowsAreFull(columns, rows) then
        Doc(Some(true), Some(columns),
            Some(seq(|rows|, k requires 0 <= k < |rows| && RowsAreFull(columns, rows) => RowOf(columns, rows[k]))),
            Some(|rows|), None)
      else Failure(ShortRowError)
  }

  /** The result of running a statement: the cleaned text is what reaches
      the database. */
  function QueryResult(sqlQuery: string, database: string -> DbOutcome): ResultDoc {
    Envelope(database(CleanQuery(sqlQuery)))
  }

  /** `execute_query`: the nested loops that build `json_row` and
      `json_data`. */
  method ExecuteQuery(sqlQuery: string, database: string -> DbOutcome) returns (result: ResultDoc)
    ensures result == QueryResult(sqlQuery, database)
  {
    var cleanedQuery := CleanQuery(sqlQuery);
    var outcome := database(cleanedQuery);
    if outcome.DbFailed? {
      return Failure(outcome.message);
    }
    var columnNames := outcome.columns;
    var rows := outcome.rows;
    var jsonData: seq<Row> := [];
    for r := 0 to |rows|
      invariant |jsonData| == r
      invariant forall k :: 0 <= k < r ==> |columnNames| <= |rows[k]| && jsonData[k] == RowOf(columnNames, rows[k])
    {
      var row := rows[r];
      var jsonRow: Row := map[];
      for i := 0 to |columnNames|
        invariant i <= |row|
        invariant jsonRow == RowUpTo(columnNames, row, i)
      {
        if i >= |row| {
          assert !RowsAreFull(columnNames, rows);
          return Failure(ShortRowError);
        }
        jsonRow := jsonRow[columnNames[i] := Convert(row[i])];
      }
      jsonData := jsonData + [jsonRow];
    }
    result := Doc(Some(true), Some(columnNames), Some(jsonData), Some(|rows|), None);
    assert RowsAreFull(columnNames, rows);
    assert jsonData == Envelope(outcome).rows.value;
  }

  /** A successful result shapes fetched row `k` as the map of every column
      name to the converted value at that column's index (the last such
      index for a repeated name). */
  lemma ResultRowsAreShapedRows(outcome: DbOutcome, k: nat)
    requires Envelope(outcome).Succeeded() && k < |outcome.rows|
    ensures var row := Envelope(outcome).rows.value[k];
      |outcome.columns| <= |outcome.rows[k]|
      && row.Keys == set c | c in outcome.columns
      && forall i :: 0 <= i < |outcome.columns| && (forall j :: i < j < |outcome.columns| ==> outcome.columns[j] != outcome.columns[i]) ==>
           outcome.columns[i] in row && row[outcome.columns[i]] == Convert(outcome.rows[k][i])
  {
    var columns := outcome.columns;
    var n := |columns|;
    RowUpToKeys(columns, outcome.rows[k], n);
    forall i | 0 <= i < n && (forall j :: i < j < n ==> columns[j] != columns[i])
      ensures columns[i] in RowOf(columns, outcome.rows[k])
      ensures RowOf(columns, outcome.rows[k])[columns[i]] == Convert(outcome.rows[k][i])
    {
      RowUpToValues(columns, outcome.rows[k], n, i);
    }
    assert (set c | c in columns) == (set i | 0 <= i < |columns| :: columns[i]) by {
      forall c | c in columns ensures c in (set i | 0 <= i < |columns| :: columns[i]) {
        var i :| 0 <= i < |columns| && columns[i] == c;
      }
    }
  }

  /** A failing driver gives only the failure flag and its message. */
  lemma DriverFailureIsReported(message: string)
    ensures Envelope(DbFailed(message)) == Doc(Some(false), None, None, None, Some(message))
  {
  }

  // ---------------------------------------------------------------------
  // check_result_size
  // ---------------------------------------------------------------------

  const MaxRows: int := 10000

  datatype SizeVerdict = SizeVerdict(isTooLarge: bool, message: string)

  const TooManyRecords: string :=
    "Too many records found for the prompt (exceeds 10000 records). Please refine your query."
  const SizeAcceptable: string := "Result size is acceptable."

  /** `check_result_size`: too large above 10000 rows, a missing count read
      as 0; a result that does not parse counts as too large. */
  function CheckResultSize(result: ResultDoc): (v: SizeVerdict)
    ensures result.Doc? ==> (v.isTooLarge <==> result.rowCount.GetOr(0) > MaxRows)
    ensures result.Unreadable? ==> v.isTooLarge && v.message == "Error processing results: " + result.reason
    ensures result.Doc? ==> v.message == (if v.isTooLarge then TooManyRecords else SizeAcceptable)
  {
    match result
    case Unreadable(reason) => SizeVerdict(true, "Error processing results: " + reason)
    case Doc(_, _, _, rowCount, _) =>
      if rowCount.GetOr(0) > MaxRows then SizeVerdict(true, TooManyRecords)
      else SizeVerdict(false, SizeAcceptable)
  }

  /** Executed results are gated on their true row count: the number of
      rows fetched. */
  lemma SizeGateCountsFetchedRows(outcome: DbOutcome)
    requires outcome.Fetched?
    ensures CheckResultSize(Envelope(outcome)).isTooLarge <==>
      Envelope(outcome).Succeeded() && |outcome.rows| > MaxRows
  {
  }
}
