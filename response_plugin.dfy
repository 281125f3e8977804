/** The response plugin's `format_response`: fixed replies for results that
    need no wording (an error, no rows, too many rows), otherwise one call
    to the hosted model over at most the first 50 rows, whose answer gets
    the download address appended when it lacks one. The model is a
    parameter: a function from the prompt's contents to the call outcome. */
module ResponsePlugin {
  import opened Common
  import opened Text
  import opened ChatHistory

  /** What the answer prompt is built from. */
  datatype AnswerPrompt = AnswerPrompt(
    history: string, question: string, sqlQuery: string, sample: seq<Row>,
    columnNames: seq<string>, totalRows: int, csvUrl: string)

  /** Rows shown to the model. */
  const SampleSize: nat := 50

  /** Above this many rows no answer is worded. */
  const MaxRows: int := 10000

  const QueryErrorPrefix: string := "I encountered an error executing your query: "
  const UnknownError: string := "Unknown error"
  const NoData: string := "No data found for the prompt."
  const TooManyRecords: string :=
    "Too many records found for the prompt (exceeds 10000). Please refine your query."
  const ApologyPrefix: string :=
    "I apologize, but I encountered an error processing your request. "
    + "Please try again or rephrase your question. Error details: "

  const DownloadMarker: string := "Download URL:"
  const DownloadLead: string := "\n\n" + DownloadMarker + " "

  /** The post-processing step: a non-empty address is appended, after a
      blank line and the marker, to an answer that does not already carry
      the marker. */
  function AppendDownloadUrl(answer: string, csvUrl: string): (r: string)
    ensures csvUrl != "" ==> Contains(r, DownloadMarker)
    ensures csvUrl == "" || Contains(answer, DownloadMarker) ==> r == answer
    ensures r == answer || r == answer + DownloadLead + csvUrl
  {
    if csvUrl != "" && !Contains(answer, DownloadMarker) then
      MarkerInLead(answer, csvUrl);
      answer + DownloadLead + csvUrl
    else answer
  }

  lemma MarkerInLead(answer: string, csvUrl: string)
    ensures Contains(answer + DownloadLead + csvUrl, DownloadMarker)
  {
    ContainsInfix("\n\n", DownloadMarker, " ");
    ContainsInSuffix(answer, DownloadLead, DownloadMarker);
    ContainsInPrefix(answer + DownloadLead, csvUrl, DownloadMarker);
  }

  /** Appending the address twice is appending it once. */
  lemma AppendDownloadUrlIdempotent(answer: string, csvUrl: string)
    ensures AppendDownloadUrl(AppendDownloadUrl(answer, csvUrl), csvUrl) == AppendDownloadUrl(answer, csvUrl)
  {
  }

  /** The fixed reply for a result that needs no model call, if any: the
      apology for a result that does not parse, the error report for a
      failed query, then "no data" for no rows, and only then the size
      gate. */
  function EarlyReply(result: ResultDoc): Option<string> {
    match result
    case Unreadable(reason) => Some(ApologyPrefix + reason)
    case Doc(success, _, rows, rowCount, error) =>
      if !success.GetOr(false) then Some(QueryErrorPrefix + error.GetOr(UnknownError))
      else if rows.GetOr([]) == [] then Some(NoData)
      else if rowCount.GetOr(0) > MaxRows then Some(TooManyRecords)
      else None
  }

  function Min(a: int, b: int): int {
    if a <= b then a else b
  }

  /** The prompt contents for a result that reaches the model. */
  function PromptFor(userInput: string, result: ResultDoc, sqlQuery: string,
                     history: HistoryJson, csvUrl: string): AnswerPrompt
    requires result.Doc?
  {
    var rows := result.rows.GetOr([]);
    AnswerPrompt(FormattedHistory(history), userInput, sqlQuery,
                 rows[..Min(SampleSize, |rows|)], result.columnNames.GetOr([]),
                 result.rowCount.GetOr(0), csvUrl)
  }

  /** The reply made from the model call: its text stripped and given the
      download address, or the apology carrying the call's error. */
  function Reply(answer: Completion, csvUrl: string): string {
    match answer
    case CallFailed(e) => ApologyPrefix + e
    case Completed(text) => AppendDownloadUrl(Trim(text), csvUrl)
  }

  /** `format_response`. */
  function FormatResponse(userInput: string, result: ResultDoc, sqlQuery: string,
                          history: HistoryJson, csvUrl: string,
                          model: AnswerPrompt -> Completion): (r: string)
    ensures result.Unreadable? ==> r == ApologyPrefix + result.reason
    ensures result.Doc? && !result.Succeeded() ==>
      r == QueryErrorPrefix + result.error.GetOr(UnknownError)
    ensures result.Succeeded() && result.rows.GetOr([]) == [] ==> r == NoData
    ensures result.Succeeded() && result.rows.GetOr([]) != [] && result.rowCount.GetOr(0) > MaxRows ==>
      r == TooManyRecords
  {
    match EarlyReply(result)
    case Some(reply) => reply
    case None => Reply(model(PromptFor(userInput, result, sqlQuery, history, csvUrl)), csvUrl)
  }

  /** The fixed replies make no model call: any two models give the same
      reply. */
  lemma EarlyRepliesIgnoreModel(userInput: string, result: ResultDoc, sqlQuery: string,
                                history: HistoryJson, csvUrl: string,
                                model1: AnswerPrompt -> Completion, model2: AnswerPrompt -> Completion)
    requires !result.Succeeded() || result.rows.GetOr([]) == [] || result.rowCount.GetOr(0) > MaxRows
    ensures FormatResponse(userInput, result, sqlQuery, history, csvUrl, model1)
         == FormatResponse(userInput, result, sqlQuery, history, csvUrl, model2)
  {
  }

  /** A result with rows and at most 10000 of them reaches the model, which
      sees at most the first 50 rows, in order, together with the total
      count and the download address. */
  lemma ModelSeesFirstRows(userInput: string, result: ResultDoc, sqlQuery: string,
                           history: HistoryJson, csvUrl: string, model: AnswerPrompt -> Completion)
    requires result.Succeeded() && result.rows.GetOr([]) != [] && result.rowCount.GetOr(0) <= MaxRows
    ensures var p := PromptFor(userInput, result, sqlQuery, history, csvUrl);
      var rows := result.rows.value;
      FormatResponse(userInput, result, sqlQuery, history, csvUrl, model) == Reply(model(p), csvUrl)
      && |p.sample| == (if |rows| < SampleSize then |rows| else SampleSize)
      && (forall i :: 0 <= i < |p.sample| ==> p.sample[i] == rows[i])
      && p.totalRows == result.rowCount.GetOr(0) && p.csvUrl == csvUrl
  {
  }

  /** A worded answer always carries the download address when one is
      given; a failed call carries its error text. */
  lemma ReplyCarriesUrlOrError(answer: Completion, csvUrl: string)
    ensures answer.Completed? && csvUrl != "" ==> Contains(Reply(answer, csvUrl), DownloadMarker)
    ensures answer.CallFailed? ==> Reply(answer, csvUrl) == ApologyPrefix + answer.error
  {
  }

  /** An answer the model words for a non-empty address always carries the
      download marker. */
  lemma WordedAnswerCarriesUrl(userInput: string, result: ResultDoc, sqlQuery: string,
                               history: HistoryJson, csvUrl: string, model: AnswerPrompt -> Completion)
    requires result.Succeeded() && result.rows.GetOr([]) != [] && result.rowCount.GetOr(0) <= MaxRows
    requires csvUrl != "" && model(PromptFor(userInput, result, sqlQuery, history, csvUrl)).Completed?
    ensures Contains(FormatResponse(userInput, result, sqlQuery, history, csvUrl, model), DownloadMarker)
  {
  }

  /** Exactly 10000 rows are worded; 10001 are refused. */
  lemma SizeGateIsStrict(result: ResultDoc)
    requires result.Succeeded() && result.rows.GetOr([]) != []
    ensures result.rowCount == Some(10000) ==> EarlyReply(result).None?
    ensures result.rowCount == Some(10001) ==> EarlyReply(result) == Some(TooManyRecords)
  {
  }
}
