/** The deterministic parts of the query plugin: what `check_relevance` does
    with the classifier's verdict, the clean-up and fallback around the two
    SQL-writing calls (`generate_sql`, `process_list_query`), and the
    export decision `should_generate_csv`. The model calls themselves are
    inputs (`Completion` values and a parsed `ClassifierReply`). */
module QueryPlugin {
  import opened Common
  import opened Text
  import opened ChatHistory

  // ---------------------------------------------------------------------
  // check_relevance
  // ---------------------------------------------------------------------

  /** The three keys of the classification the router reads; any other key
      of the classifier's object passes through and is not modelled. */
  datatype Classification = Classification(
    isRelevant: Option<bool>, response: Option<string>, isListRequest: Option<bool>)

  /** The classifier call after `json.loads`: `NoVerdict` when the call
      failed, its content was empty or was not a JSON object; otherwise the
      object's three keys, each possibly missing. */
  datatype ClassifierReply = NoVerdict(error: string) | Verdict(verdict: Classification)

  /** What the error handler returns: treat the query as relevant, not a
      list request, with an empty response. */
  const FailOpen: Classification := Classification(Some(true), Some(""), Some(false))

  /** `greeting_name`: ", name" for a name with some non-space text. */
  function GreetingName(userName: string): string {
    if Trim(userName) != "" then ", " + userName else ""
  }

  /** The indentation that the triple-quoted greeting carries on its second
      line (38 spaces). */
  const GreetingIndent: string := "                                      "

  /** The personalised greeting that names the previous question. */
  function Greeting(userName: string, previousQuestion: string): string {
    "Hi" + GreetingName(userName) + "!" + GreetingBody(previousQuestion)
  }

  const GreetingIntro: string :=
    " I'm your Financial Reconciliation Agent. In our previous conversation, you asked about "
  const GreetingOutro: string :=
    "\n" + GreetingIndent + "How can I help you with your financial data analysis today?"

  /** The greeting from the text after "Hi, name!" on. */
  function GreetingBody(previousQuestion: string): string {
    GreetingIntro + previousQuestion + GreetingOutro
  }

  /** What `check_relevance` returns: the fail-open value when there is no
      usable verdict (a missing `is_relevant` raises in the code), else the
      verdict with its response replaced by the greeting when the query is
      not relevant and an answered earlier interaction exists. */
  function Classified(reply: ClassifierReply, history: HistoryJson, userName: string): Classification {
    match reply
    case NoVerdict(_) => FailOpen
    case Verdict(c) =>
      if c.isRelevant.None? then FailOpen
      else if !c.isRelevant.value && LastInteraction(history).Some? then
        c.(response := Some(Greeting(userName, LastInteraction(history).value.question)))
      else c
  }

  /** `check_relevance`: looks up the last interaction, then patches the
      verdict's `response` in place. */
  method CheckRelevance(reply: ClassifierReply, history: HistoryJson, userName: string)
    returns (result: Classification)
    ensures result == Classified(reply, history, userName)
  {
    var lastInteraction := ExtractLastInteraction(history);
    if reply.NoVerdict? || reply.verdict.isRelevant.None? {
      return FailOpen;
    }
    result := reply.verdict;
    if !result.isRelevant.value && lastInteraction.Some? {
      result := result.(response := Some(Greeting(userName, lastInteraction.value.question)));
    }
  }

  /** Any failure to classify gives exactly the fail-open value, which the
      router reads as a relevant, non-list query. */
  lemma FailureFailsOpen(reply: ClassifierReply, history: HistoryJson, userName: string)
    requires reply.NoVerdict? || reply.verdict.isRelevant.None?
    ensures Classified(reply, history, userName) == FailOpen
    ensures FailOpen.isRelevant == Some(true) && FailOpen.isListRequest == Some(false)
  {
  }

  /** The classification always carries `is_relevant` and the verdict's
      list flag; its response differs from the verdict's only when the query
      is not relevant and an earlier answered interaction exists. */
  lemma ClassifiedKeepsVerdict(c: Classification, history: HistoryJson, userName: string)
    requires c.isRelevant.Some?
    ensures var r := Classified(Verdict(c), history, userName);
      r.isRelevant == c.isRelevant && r.isListRequest == c.isListRequest
      && (r.response != c.response ==>
            c.isRelevant == Some(false) && LastInteraction(history).Some?)
  {
  }

  /** When the greeting is used, it names the question of the last
      interaction. */
  lemma GreetingNamesLastQuestion(c: Classification, history: HistoryJson, userName: string)
    requires c.isRelevant == Some(false) && LastInteraction(history).Some?
    ensures var r := Classified(Verdict(c), history, userName);
      r.response.Some? && Contains(r.response.value, LastInteraction(history).value.question)
  {
    var q := LastInteraction(history).value.question;
    ContainsInfix(GreetingIntro, q, GreetingOutro);
    ContainsInSuffix("Hi" + GreetingName(userName) + "!", GreetingBody(q), q);
  }

  /** ", name" appears in the greeting exactly when the name has some
      non-space text. */
  lemma GreetingNamesOnlyRealNames(userName: string, previousQuestion: string)
    ensures Trim(userName) != "" ==>
      Greeting(userName, previousQuestion)[..4 + |userName|] == "Hi, " + userName
    ensures Trim(userName) == "" ==> Greeting(userName, previousQuestion)[..3] == "Hi!"
  {
    var body := GreetingBody(previousQuestion);
    if Trim(userName) == "" {
      assert "Hi" + GreetingName(userName) == "Hi";
      assert ("Hi" + "!" + body)[..3] == "Hi" + "!";
    } else {
      var head := "Hi" + (", " + userName);
      assert "Hi" + GreetingName(userName) == head;
      assert (head + "!" + body)[..4 + |userName|] == head;
    }
  }

  // ---------------------------------------------------------------------
  // generate_sql and process_list_query
  // ---------------------------------------------------------------------

  /** The statement both SQL writers fall back to when anything fails. */
  const FallbackSql: string :=
    "SELECT TOP 10 * FROM AdyenPaymentTransaction; -- Error generating specific query"

  /** `.replace('```sql', '').replace('```', '').strip()` */
  function StripFences(s: string): (r: string)
    ensures !Contains(r, Fence) && Stripped(r)
  {
    var t := RemoveAll(RemoveAll(s, "```sql"), Fence);
    RemoveFenceLeavesNoFence(RemoveAll(s, "```sql"));
    AbsentAfterTrim(t, Fence);
    Trim(t)
  }

  /** Text without backticks only loses its surrounding whitespace. */
  lemma StripFencesKeepsPlainText(s: string)
    requires '`' !in s
    ensures StripFences(s) == Trim(s)
  {
    RemoveAllAbsentHead(s, "```sql");
    RemoveAllAbsentHead(s, Fence);
  }

  /** `generate_sql`: the rephrasing call, then the SQL call whose reply is
      stripped and cleaned; any failure gives the fallback statement. */
  function GenerateSql(rephrase: Completion, sql: Completion): (r: string)
    ensures rephrase.CallFailed? || sql.CallFailed? ==> r == FallbackSql
    ensures rephrase.Completed? && sql.Completed? ==> !Contains(r, Fence) && Stripped(r)
  {
    if rephrase.CallFailed? || sql.CallFailed? then FallbackSql
    else StripFences(Trim(sql.content))
  }

  /** The object `process_list_query` returns. */
  datatype ListReply = ListReply(sqlQuery: string, response: string, csvUrl: Option<string>)

  const ListPlaceholder: string := "This is a list request that requires CSV generation."

  const ListErrorPrefix: string :=
    "I encountered an error while processing your request for a list of transactions. "
    + "Please try again with more specific criteria.\n\nError details: "

  /** `process_list_query`: the SQL is written and cleaned but not run; the
      reply is a fixed placeholder, or an apology carrying the error text. */
  function ProcessListQuery(sql: Completion): (r: ListReply)
    ensures r.csvUrl.None?
    ensures sql.Completed? ==>
      r.response == ListPlaceholder && !Contains(r.sqlQuery, Fence) && Stripped(r.sqlQuery)
    ensures sql.CallFailed? ==>
      r.sqlQuery == FallbackSql && r.response == ListErrorPrefix + sql.error
  {
    match sql
    case Completed(content) => ListReply(StripFences(Trim(content)), ListPlaceholder, None)
    case CallFailed(e) => ListReply(FallbackSql, ListErrorPrefix + e, None)
  }

  // ---------------------------------------------------------------------
  // should_generate_csv
  // ---------------------------------------------------------------------

  const ListIndicators: seq<string> := ["list", "all transactions", "download", "csv", "excel", "export"]

  /** Some list indicator occurs in the text. */
  predicate MentionsList(text: string) {
    exists j :: 0 <= j < |ListIndicators| && Contains(text, ListIndicators[j])
  }

  /** The rows-above-which an export is made regardless of wording. */
  const ExportRowThreshold: int := 20

  /** What `should_generate_csv` answers: "false" for a result that did not
      succeed or did not parse; otherwise "true" exactly when the lower-cased
      question mentions a list indicator or there are more than 20 rows. */
  function CsvDecision(userInput: string, result: ResultDoc): string {
    if !result.Succeeded() then "false"
    else if MentionsList(Lower(userInput)) || result.rowCount.GetOr(0) > ExportRowThreshold then "true"
    else "false"
  }

  /** `should_generate_csv`: the flag is set by a scan over the indicators
      and then forced on by the row count. */
  method ShouldGenerateCsv(userInput: string, result: ResultDoc) returns (decision: string)
    ensures decision == CsvDecision(userInput, result)
  {
    if !result.Succeeded() {
      return "false";
    }
    var rowCount := result.rowCount.GetOr(0);
    var lowered := Lower(userInput);
    var shouldGenerate := false;
    for k := 0 to |ListIndicators|
      invariant shouldGenerate <==> exists j :: 0 <= j < k && Contains(lowered, ListIndicators[j])
    {
      if Contains(lowered, ListIndicators[k]) {
        shouldGenerate := true;
      }
    }
    if rowCount > ExportRowThreshold {
      shouldGenerate := true;
    }
    decision := if shouldGenerate then "true" else "false";
  }

  /** The decision does not depend on letter case in the question. */
  lemma CsvDecisionIgnoresCase(userInput: string, result: ResultDoc)
    ensures CsvDecision(userInput, result) == CsvDecision(Lower(userInput), result)
  {
    LowerIdempotent(userInput);
  }

  /** Adding words to a question that asks for an export still asks for one. */
  lemma MoreWordsKeepExport(userInput: string, extra: string, result: ResultDoc)
    requires CsvDecision(userInput, result) == "true"
    ensures CsvDecision(userInput + extra, result) == "true"
  {
    if MentionsList(Lower(userInput)) {
      var j :| 0 <= j < |ListIndicators| && Contains(Lower(userInput), ListIndicators[j]);
      LowerAppend(userInput, extra);
      ContainsInPrefix(Lower(userInput), Lower(extra), ListIndicators[j]);
    }
  }

  /** The row threshold is strict: without an indicator, 20 rows give
      "false" and 21 give "true". */
  lemma ExportThresholdIsStrict(userInput: string, result: ResultDoc)
    requires result.Succeeded() && !MentionsList(Lower(userInput))
    ensures result.rowCount == Some(20) ==> CsvDecision(userInput, result) == "false"
    ensures result.rowCount == Some(21) ==> CsvDecision(userInput, result) == "true"
  {
  }
}
