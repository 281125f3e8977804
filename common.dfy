/** Data shared by the plugins of the reconciliation agent: optional values,
    database cells, the JSON envelope that `execute_query` produces and the
    other plugins read back, and the outcome of a call to the hosted model. */
module Common {

  datatype Option<+T> = None | Some(value: T) {
    /** Python's `d.get(key, default)` on a key that may be absent. */
    function GetOr(default: T): T {
      match this
      case Some(v) => v
      case None => default
    }
  }

  /** One cell as the database driver returns it. Sets and complex numbers
      are not JSON-serialisable and carry their `str()` rendering; `Other`
      stands for every remaining driver type (Decimal, datetime, ...),
      likewise carried by its text. */
  datatype Value =
    | Null
    | Bool(b: bool)
    | Int(i: int)
    | Str(s: string)
    | SetValue(text: string)
    | ComplexValue(text: string)
    | Other(text: string)

  /** A result row as a column-name to value mapping. */
  type Row = map<string, Value>

  /** A query result as a consumer sees it after `json.loads`. Every key may
      be missing; `Unreadable` stands for text that does not parse, or whose
      keys have types the consumer's code trips over, with the exception text. */
  datatype ResultDoc =
    | Unreadable(reason: string)
    | Doc(success: Option<bool>, columnNames: Option<seq<string>>,
          rows: Option<seq<Row>>, rowCount: Option<int>, error: Option<string>)
  {
    /** `result_data.get("success", False)` */
    predicate Succeeded() {
      Doc? && success.GetOr(false)
    }
  }

  /** What a call to the hosted language model gave: either an exception
      (transport failure, empty content) with its text, or the reply text. */
  datatype Completion = CallFailed(error: string) | Completed(content: string)
}
