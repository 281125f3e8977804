/** The `/recon_agent` endpoint of main.py: it reads the request, asks the
    query plugin to classify it, and then either answers at once (not
    relevant), hands over to the list plugin (a list request), or runs the
    query pipeline: write SQL, execute it, decide on an export, export, and
    word the answer. Everything outside the code (the model calls, the
    database, the clock, the storage settings and I/O) is a `World`; the
    blob container is the state the export changes. */
module Endpoint {
  import opened Common
  import opened Text
  import opened ChatHistory
  import QueryPlugin
  import DatabasePlugin
  import ResponsePlugin
  import StoragePlugin

  /** The request body after `await request.json()`: `Malformed` carries
      the text of the exception that reading it raised. */
  datatype Request =
    | Malformed(error: string)
    | Body(chatInput: Option<string>, chatHistory: HistoryJson, userName: string)

  /** What the endpoint returns: the JSON answer (a missing `csv_url` is
      JSON null) or an HTTP error. */
  datatype Response = Answer(chatOutput: string, csvUrl: Option<string>) | HttpError(status: int, detail: string)

  /** Everything outside the code: the model calls' outcomes, the
      database, the clock readings and the storage environment. */
  datatype World = World(
    classifier: QueryPlugin.ClassifierReply,
    rephrase: Completion, sqlWriter: Completion, listSqlWriter: Completion,
    database: string -> DatabasePlugin.DbOutcome,
    fileStamp: string, blobStamp: string, storage: StoragePlugin.StorageEnv,
    answerModel: ResponsePlugin.AnswerPrompt -> Completion)

  /** The kernel context `variables`; the last three are set as the query
      pipeline runs. */
  datatype Context = Context(
    userInput: string, chatHistory: HistoryJson, userName: string,
    sqlQuery: Option<string>, queryResult: Option<ResultDoc>, csvUrl: Option<string>)

  /** A response and the blob the export uploaded, if any. */
  datatype Outcome = Outcome(response: Response, published: Option<(string, StoragePlugin.CsvFile)>)

  const ErrorPrefix: string := "Error processing request: "

  /** The detail of the 500 a missing question ends in: the 400 raised
      inside the `try` is caught by the catch-all, which renders it as
      "<status>: <detail>". */
  const MissingInputDetail: string :=
    ErrorPrefix + "400: " + "Please provide a valid question in the request body"

  /** `str(should_generate_csv).lower() == "true"` */
  predicate ExportRequested(decision: string) {
    Lower(decision) == "true"
  }

  /** The plugin answers "true" or "false" in lower case, so the
      endpoint's case-insensitive test accepts exactly its "true". */
  lemma ExportFollowsDecision(userInput: string, result: ResultDoc)
    ensures ExportRequested(QueryPlugin.CsvDecision(userInput, result)) <==>
      QueryPlugin.CsvDecision(userInput, result) == "true"
  {
    LowerOfLowerCase("true");
    LowerOfLowerCase("false");
  }

  /** The query pipeline for a relevant, non-list question. */
  function QueryPipeline(userInput: string, history: HistoryJson, w: World): Outcome {
    var sqlQuery := QueryPlugin.GenerateSql(w.rephrase, w.sqlWriter);
    var queryResult := DatabasePlugin.QueryResult(sqlQuery, w.database);
    var exported := ExportRequested(QueryPlugin.CsvDecision(userInput, queryResult));
    var upload := StoragePlugin.ExportOf(queryResult, w.fileStamp, w.blobStamp, w.storage);
    var csvUrl := if exported then Some(upload.url) else None;
    var output := ResponsePlugin.FormatResponse(userInput, queryResult, sqlQuery, history,
                                                csvUrl.GetOr(""), w.answerModel);
    Outcome(Answer(output, csvUrl), if exported then upload.published else None)
  }

  /** What `recon_agent_endpoint` answers for a request. */
  function Respond(req: Request, w: World): Outcome {
    match req
    case Malformed(e) => Outcome(HttpError(500, ErrorPrefix + e), None)
    case Body(chatInput, chatHistory, userName) =>
      if chatInput.GetOr("") == "" then Outcome(HttpError(500, MissingInputDetail), None)
      else
        var relevance := QueryPlugin.Classified(w.classifier, chatHistory, userName);
        if !relevance.isRelevant.GetOr(false) then
          Outcome(Answer(relevance.response.GetOr(""), None), None)
        else if relevance.isListRequest.GetOr(false) then
          var listData := QueryPlugin.ProcessListQuery(w.listSqlWriter);
          Outcome(Answer(listData.response, listData.csvUrl), None)
        else QueryPipeline(chatInput.value, chatHistory, w)
  }

  /** `recon_agent_endpoint`: the context is filled in stage by stage,
      every branch but the last returns early, and an export uploads to the
      container. */
  method ReconAgentEndpoint(req: Request, w: World, container: StoragePlugin.BlobContainer)
    returns (response: Response)
    modifies container
    ensures response == Respond(req, w).response
    ensures container.blobs ==
      match Respond(req, w).published
      case Some(blob) => old(container.blobs)[blob.0 := blob.1]
      case None => old(container.blobs)
  {
    if req.Malformed? {
      return HttpError(500, ErrorPrefix + req.error);
    }
    if req.chatInput.GetOr("") == "" {
      return HttpError(500, MissingInputDetail);
    }
    var variables := Context(req.chatInput.value, req.chatHistory, req.userName, None, None, None);
    var relevanceData := QueryPlugin.CheckRelevance(w.classifier, variables.chatHistory, variables.userName);
    var isRelevant := relevanceData.isRelevant.GetOr(false);
    var generalResponse := relevanceData.response.GetOr("");
    var isListRequest := relevanceData.isListRequest.GetOr(false);
    if !isRelevant {
      return Answer(generalResponse, None);
    }
    if isListRequest {
      var listData := QueryPlugin.ProcessListQuery(w.listSqlWriter);
      return Answer(listData.response, listData.csvUrl);
    }
    response := RunQueryPipeline(variables, w, container);
  }

  /** The query branch of `recon_agent_endpoint`, from the classified
      context on. */
  method RunQueryPipeline(variables: Context, w: World, container: StoragePlugin.BlobContainer)
    returns (response: Response)
    modifies container
    ensures response == QueryPipeline(variables.userInput, variables.chatHistory, w).response
    ensures container.blobs ==
      match QueryPipeline(variables.userInput, variables.chatHistory, w).published
      case Some(blob) => old(container.blobs)[blob.0 := blob.1]
      case None => old(container.blobs)
  {
    var variables := variables;
    var sqlResult := QueryPlugin.GenerateSql(w.rephrase, w.sqlWriter);
    variables := variables.(sqlQuery := Some(sqlResult));
    var queryResult := DatabasePlugin.ExecuteQuery(variables.sqlQuery.value, w.database);
    variables := variables.(queryResult := Some(queryResult));
    var shouldGenerateCsv := QueryPlugin.ShouldGenerateCsv(variables.userInput, variables.queryResult.value);
    var csvUrl: Option<string> := None;
    if ExportRequested(shouldGenerateCsv) {
      var csvResult := StoragePlugin.GenerateCsv(variables.queryResult.value, w.fileStamp, w.blobStamp,
                                                 w.storage, container);
      csvUrl := Some(csvResult);
    }
    variables := variables.(csvUrl := Some(csvUrl.GetOr("")));
    var output := ResponsePlugin.FormatResponse(variables.userInput, variables.queryResult.value,
                                                variables.sqlQuery.value, variables.chatHistory,
                                                variables.csvUrl.value, w.answerModel);
    response := Answer(output, csvUrl);
  }

  // ---------------------------------------------------------------------
  // Routing
  // ---------------------------------------------------------------------

  /** A missing or empty question never reaches a plugin and ends in a 500
      whose detail carries the 400's rendering. */
  lemma MissingInputIsServerError(chatHistory: HistoryJson, userName: string, w: World)
    ensures Respond(Body(None, chatHistory, userName), w) == Outcome(HttpError(500, MissingInputDetail), None)
    ensures Respond(Body(Some(""), chatHistory, userName), w) == Outcome(HttpError(500, MissingInputDetail), None)
  {
  }

  /** A question the classifier calls not relevant is answered with the
      classifier's response and no download address, and nothing is
      uploaded; when an earlier answered interaction exists, that response
      is the greeting naming its question. */
  lemma NotRelevantAnswersAtOnce(req: Request, w: World)
    requires req.Body? && req.chatInput.GetOr("") != ""
    requires w.classifier.Verdict? && w.classifier.verdict.isRelevant == Some(false)
    ensures var o := Respond(req, w);
      o.published.None? && o.response.Answer? && o.response.csvUrl.None?
      && (LastInteraction(req.chatHistory).Some? ==>
            o.response.chatOutput == QueryPlugin.Greeting(req.userName, LastInteraction(req.chatHistory).value.question))
      && (LastInteraction(req.chatHistory).None? ==>
            o.response.chatOutput == w.classifier.verdict.response.GetOr(""))
  {
  }

  /** Two worlds with the same classifier reply agree on the answer to a
      question classified as not relevant: no other stage is consulted. */
  lemma NotRelevantConsultsOnlyClassifier(req: Request, w1: World, w2: World)
    requires req.Body? && req.chatInput.GetOr("") != ""
    requires w1.classifier == w2.classifier
    requires !QueryPlugin.Classified(w1.classifier, req.chatHistory, req.userName).isRelevant.GetOr(false)
    ensures Respond(req, w1) == Respond(req, w2)
  {
  }

  /** The classifier replies that send a question down the query pipeline:
      a failed classification, one without `is_relevant`, or a relevant
      question that is not a list request. */
  predicate RoutesToQuery(reply: QueryPlugin.ClassifierReply) {
    reply.NoVerdict? || reply.verdict.isRelevant.None?
    || (reply.verdict.isRelevant == Some(true) && !reply.verdict.isListRequest.GetOr(false))
  }

  /** Exactly those replies run the query pipeline, whatever the history
      and the user's name. */
  lemma QueryRouteRunsPipeline(req: Request, w: World)
    requires req.Body? && req.chatInput.GetOr("") != ""
    ensures RoutesToQuery(w.classifier) ==>
      Respond(req, w) == QueryPipeline(req.chatInput.value, req.chatHistory, w)
    ensures !RoutesToQuery(w.classifier) ==>
      Respond(req, w).published.None? && Respond(req, w).response.Answer?
      && Respond(req, w).response.csvUrl.None?
  {
    if w.classifier.Verdict? && w.classifier.verdict.isRelevant.Some? {
      QueryPlugin.ClassifiedKeepsVerdict(w.classifier.verdict, req.chatHistory, req.userName);
    }
  }

  /** A list request is answered with the list plugin's placeholder, or
      its apology carrying the error, with no download address, and
      nothing is uploaded. */
  lemma ListRequestIsPlaceholder(req: Request, w: World)
    requires req.Body? && req.chatInput.GetOr("") != ""
    requires w.classifier.Verdict? && w.classifier.verdict.isRelevant == Some(true)
    requires w.classifier.verdict.isListRequest == Some(true)
    ensures var o := Respond(req, w);
      o.published.None? && o.response.Answer? && o.response.csvUrl.None?
      && (w.listSqlWriter.Completed? ==> o.response.chatOutput == QueryPlugin.ListPlaceholder)
      && (w.listSqlWriter.CallFailed? ==>
            o.response.chatOutput == QueryPlugin.ListErrorPrefix + w.listSqlWriter.error)
  {
  }

  /** A list request never runs SQL, never exports and never words an
      answer: two worlds that differ only in the database, the rephrasing
      and SQL calls, the clock, the storage and the answering model give
      the same outcome. */
  lemma ListRequestRunsNoQuery(req: Request, w1: World, w2: World)
    requires req.Body? && req.chatInput.GetOr("") != ""
    requires w1.classifier == w2.classifier && w1.listSqlWriter == w2.listSqlWriter
    requires var c := QueryPlugin.Classified(w1.classifier, req.chatHistory, req.userName);
      c.isRelevant.GetOr(false) && c.isListRequest.GetOr(false)
    ensures Respond(req, w1) == Respond(req, w2)
  {
  }

  // ---------------------------------------------------------------------
  // The query pipeline
  // ---------------------------------------------------------------------

  /** The result of running the written SQL, cleaned. */
  function ExecutedResult(w: World): ResultDoc {
    DatabasePlugin.QueryResult(QueryPlugin.GenerateSql(w.rephrase, w.sqlWriter), w.database)
  }

  /** The export's address is answered exactly when the decision reads
      "true" in any letter case; only then can anything be uploaded, and
      what is uploaded sits at the answered address, which is then not
      "null". */
  lemma ExportIffRequested(userInput: string, history: HistoryJson, w: World)
    ensures var o := QueryPipeline(userInput, history, w);
      var result := ExecutedResult(w);
      var exported := ExportRequested(QueryPlugin.CsvDecision(userInput, result));
      o.response.Answer?
      && (exported <==> o.response.csvUrl.Some?)
      && (exported ==> o.response.csvUrl.value == StoragePlugin.ExportOf(result, w.fileStamp, w.blobStamp, w.storage).url)
      && (o.published.Some? ==> exported && o.response.csvUrl != Some(StoragePlugin.NullUrl))
  {
    var result := ExecutedResult(w);
    StoragePlugin.NullIffNothingPublished(result, w.fileStamp, w.blobStamp, w.storage);
  }

  /** The answer is worded from the executed result, the written SQL and
      the export's address, or "" when there was no export. */
  lemma AnswerWordsExecutedResult(userInput: string, history: HistoryJson, w: World)
    ensures var o := QueryPipeline(userInput, history, w);
      o.response.Answer?
      && o.response.chatOutput == ResponsePlugin.FormatResponse(
           userInput, ExecutedResult(w), QueryPlugin.GenerateSql(w.rephrase, w.sqlWriter), history,
           o.response.csvUrl.GetOr(""), w.answerModel)
  {
  }

  /** A statement the database rejects is reported with its message, with
      no export and no download address. */
  lemma DatabaseErrorIsReported(userInput: string, history: HistoryJson, w: World)
    requires w.database(DatabasePlugin.CleanQuery(QueryPlugin.GenerateSql(w.rephrase, w.sqlWriter))).DbFailed?
    ensures var message := w.database(DatabasePlugin.CleanQuery(QueryPlugin.GenerateSql(w.rephrase, w.sqlWriter))).message;
      QueryPipeline(userInput, history, w) == Outcome(Answer(ResponsePlugin.QueryErrorPrefix + message, None), None)
  {
    ExportFollowsDecision(userInput, ExecutedResult(w));
  }

  /** A failed export still answers with the text "null" as its address,
      and the composer, taking it for a real address, tells the user to
      download from "null". */
  lemma FailedExportAdvertisesNull(userInput: string, history: HistoryJson, w: World)
    requires var outcome := w.database(DatabasePlugin.CleanQuery(QueryPlugin.GenerateSql(w.rephrase, w.sqlWriter)));
      outcome.Fetched? && DatabasePlugin.RowsAreFull(outcome.columns, outcome.rows)
      && 20 < |outcome.rows| <= 10000
    requires !StoragePlugin.ConfigComplete(w.storage)
    requires forall prompt :: w.answerModel(prompt).Completed?
    ensures var o := QueryPipeline(userInput, history, w);
      o.response.Answer? && o.response.csvUrl == Some(StoragePlugin.NullUrl)
      && Contains(o.response.chatOutput, ResponsePlugin.DownloadMarker)
      && o.published.None?
  {
    var sql := QueryPlugin.GenerateSql(w.rephrase, w.sqlWriter);
    var outcome := w.database(DatabasePlugin.CleanQuery(sql));
    var result := ExecutedResult(w);
    assert result.Succeeded() && result.rowCount == Some(|outcome.rows|) && |result.rows.value| == |outcome.rows|;
    assert result.rows.GetOr([]) != [];
    assert QueryPlugin.CsvDecision(userInput, result) == "true";
    ExportFollowsDecision(userInput, result);
    ExportIffRequested(userInput, history, w);
    AnswerWordsExecutedResult(userInput, history, w);
    assert QueryPipeline(userInput, history, w).response.csvUrl == Some(StoragePlugin.NullUrl);
    var prompt := ResponsePlugin.PromptFor(userInput, result, sql, history, StoragePlugin.NullUrl);
    assert w.answerModel(prompt).Completed?;
    ResponsePlugin.WordedAnswerCarriesUrl(userInput, result, sql, history, StoragePlugin.NullUrl, w.answerModel);
  }

  /** More than 10000 rows are still exported (the decision only asks for
      more than 20), although the answer refuses to word them. */
  lemma OversizedResultIsStillExported(userInput: string, history: HistoryJson, w: World)
    requires var outcome := w.database(DatabasePlugin.CleanQuery(QueryPlugin.GenerateSql(w.rephrase, w.sqlWriter)));
      outcome.Fetched? && DatabasePlugin.RowsAreFull(outcome.columns, outcome.rows)
      && |outcome.rows| > 10000
    ensures var o := QueryPipeline(userInput, history, w);
      o.response.Answer? && o.response.chatOutput == ResponsePlugin.TooManyRecords
      && o.response.csvUrl.Some?
  {
    var outcome := w.database(DatabasePlugin.CleanQuery(QueryPlugin.GenerateSql(w.rephrase, w.sqlWriter)));
    var result := ExecutedResult(w);
    assert result.Succeeded() && result.rowCount == Some(|outcome.rows|) && |result.rows.value| == |outcome.rows|;
    assert result.rows.GetOr([]) != [];
    assert QueryPlugin.CsvDecision(userInput, result) == "true";
    ExportFollowsDecision(userInput, result);
    ExportIffRequested(userInput, history, w);
    AnswerWordsExecutedResult(userInput, history, w);
  }
}
