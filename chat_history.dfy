/** The chat-history helpers of the query plugin (`_format_chat_history`,
    `_extract_last_interaction`). The response plugin carries a textually
    identical `_format_chat_history`, which this module models as well.
    The two helpers read the same JSON but fail on different inputs: the
    formatter walks every element forwards, the extractor walks backwards
    and stops at the first answered entry, and only the extractor calls
    `strip()` on the fields. */
module ChatHistory {
  import opened Common
  import opened Text

  /** A `question` or `answer` field as `entry.get(key, "")` sees it: the key
      is missing (the default "" is used), holds a JSON string, or holds
      another JSON value (null, a number, a boolean, a list, an object),
      given by its `str()` rendering and its Python truthiness. */
  datatype Field = Missing | Text(text: string) | NotText(rendered: string, truthy: bool)

  /** One element of the history list: a JSON object, or any other JSON
      value (which has no `get` method, so touching it raises). */
  datatype Item = NonObject | Object(question: Field, answer: Field)

  /** The history after `json.loads`. `Entries` is a JSON list (a falsy value
      such as null, "" or {} behaves as the empty list); `Unreadable` is a
      truthy value that is not a list, on which both helpers raise. */
  datatype HistoryJson = Unreadable | Entries(items: seq<Item>)

  const NoConversation: string := "No previous conversation."

  /** Python's `if field:` on the value `get` returns. */
  predicate Truthy(f: Field) {
    match f
    case Missing => false
    case Text(s) => s != ""
    case NotText(_, truthy) => truthy
  }

  /** The value as an f-string renders it. */
  function Rendered(f: Field): string {
    match f
    case Missing => ""
    case Text(s) => s
    case NotText(rendered, _) => rendered
  }

  /** The `User:` line of an entry; none for a falsy question. */
  function UserLine(e: Item): string {
    if e.Object? && Truthy(e.question) then "User: " + Rendered(e.question) + "\n" else ""
  }

  /** The `Assistant:` line of an entry; none for a falsy answer. */
  function AssistantLine(e: Item): string {
    if e.Object? && Truthy(e.answer) then "Assistant: " + Rendered(e.answer) + "\n" else ""
  }

  /** The transcript of a list of entries, oldest first: each entry's
      `User:` line, then its `Assistant:` line. */
  function Transcript(es: seq<Item>): string {
    if es == [] then "" else Transcript(es[..|es| - 1]) + UserLine(es[|es| - 1]) + AssistantLine(es[|es| - 1])
  }

  lemma Regroup(a: string, b: string, c: string, d: string)
    ensures a + b + c + d == a + (b + c + d)
  {
  }

  /** Every element is an object, so the formatter's loop never raises. */
  predicate AllObjects(es: seq<Item>) {
    forall k :: 0 <= k < |es| ==> es[k].Object?
  }

  /** What `_format_chat_history` returns for a given history: the fixed
      sentence when the history is empty or the loop raises on an element
      that is not an object, otherwise the transcript. */
  function FormattedHistory(h: HistoryJson): string {
    match h
    case Unreadable => NoConversation
    case Entries(es) => if es == [] || !AllObjects(es) then NoConversation else Transcript(es)
  }

  /** `_format_chat_history`: the accumulating loop over the entries. */
  method FormatChatHistory(h: HistoryJson) returns (formatted: string)
    ensures formatted == FormattedHistory(h)
  {
    if h.Unreadable? || h.items == [] {
      return NoConversation;
    }
    var es := h.items;
    formatted := "";
    for i := 0 to |es|
      invariant formatted == Transcript(es[..i])
      invariant AllObjects(es[..i])
    {
      var entry := es[i];
      if entry.NonObject? {
        // `entry.get` raises; the handler answers the fixed sentence
        assert !AllObjects(es);
        return NoConversation;
      }
      ghost var next := es[..i + 1];
      assert AllObjects(next) by {
        forall k | 0 <= k < |next| ensures next[k].Object? {
          if k < i {
            assert next[k] == es[..i][k];
          } else {
            assert next[k] == entry;
          }
        }
      }
      ghost var before := formatted;
      if Truthy(entry.question) {
        formatted := formatted + "User: " + Rendered(entry.question) + "\n";
        Regroup(before, "User: ", Rendered(entry.question), "\n");
      } else {
        assert before + UserLine(entry) == before;
      }
      ghost var middle := formatted;
      assert middle == before + UserLine(entry);
      if Truthy(entry.answer) {
        formatted := formatted + "Assistant: " + Rendered(entry.answer) + "\n";
        Regroup(middle, "Assistant: ", Rendered(entry.answer), "\n");
      } else {
        assert middle + AssistantLine(entry) == middle;
      }
      assert formatted == before + UserLine(entry) + AssistantLine(entry);
      assert es[..i + 1][..i] == es[..i];
      assert Transcript(es[..i + 1]) == Transcript(es[..i]) + UserLine(entry) + AssistantLine(entry);
    }
    assert es[..|es|] == es;
  }

  /** The transcript of two histories one after the other is the two
      transcripts one after the other. */
  lemma {:induction false} TranscriptAppend(a: seq<Item>, b: seq<Item>)
    ensures Transcript(a + b) == Transcript(a) + Transcript(b)
    decreases |b|
  {
    if b == [] {
      assert a + b == a;
    } else {
      var b' := b[..|b| - 1];
      assert (a + b)[..|a + b| - 1] == a + b';
      TranscriptAppend(a, b');
      var e := b[|b| - 1];
      Regroup(Transcript(a), Transcript(b'), UserLine(e), AssistantLine(e));
    }
  }

  /** A single entry formats to its `User:` line followed by its
      `Assistant:` line. */
  lemma TranscriptOne(e: Item)
    ensures Transcript([e]) == UserLine(e) + AssistantLine(e)
  {
    assert [e][..0] == [];
  }

  /** A list of objects formats to "" exactly when every question and every
      answer in it is falsy. */
  lemma {:induction false} TranscriptEmptyIff(es: seq<Item>)
    requires AllObjects(es)
    ensures Transcript(es) == "" <==>
      forall k :: 0 <= k < |es| ==> !Truthy(es[k].question) && !Truthy(es[k].answer)
    decreases |es|
  {
    if es != [] {
      var init := es[..|es| - 1];
      assert AllObjects(init) by {
        forall k | 0 <= k < |init| ensures init[k].Object? {
          assert init[k] == es[k];
        }
      }
      TranscriptEmptyIff(init);
      var e := es[|es| - 1];
      assert UserLine(e) + AssistantLine(e) == "" <==> !Truthy(e.question) && !Truthy(e.answer);
      if Transcript(es) == "" {
        forall k | 0 <= k < |es| ensures !Truthy(es[k].question) && !Truthy(es[k].answer) {
          if k < |es| - 1 {
            assert es[k] == init[k];
          }
        }
      }
    }
  }

  /** An unreadable or empty history, or one with an element that is not an
      object, formats to the fixed sentence. */
  lemma NoHistoryFormatsToSentence(h: HistoryJson)
    requires h.Unreadable? || h.items == [] || exists k :: 0 <= k < |h.items| && h.items[k].NonObject?
    ensures FormattedHistory(h) == NoConversation
  {
  }

  /** A previous exchange, both halves stripped. */
  datatype Interaction = Interaction(question: string, answer: string)

  /** `entry.get(key, "").strip()`: the stripped text, or None where `strip`
      raises because the value is not a string. */
  function StripField(f: Field): Option<string> {
    match f
    case Missing => Some("")
    case Text(s) => Some(Trim(s))
    case NotText(_, _) => None
  }

  /** The scan raises on this element: it is not an object, or one of its
      fields is not a string. */
  predicate Raises(e: Item) {
    e.NonObject? || StripField(e.question).None? || StripField(e.answer).None?
  }

  /** The element is an object whose question and answer are strings with
      text once stripped. */
  predicate Answered(e: Item) {
    !Raises(e) && StripField(e.question).value != "" && StripField(e.answer).value != ""
  }

  function Trimmed(e: Item): Interaction
    requires !Raises(e)
  {
    Interaction(StripField(e.question).value, StripField(e.answer).value)
  }

  /** The scan from the newest element back: the first answered entry,
      stripped, or None when the scan raises first or runs out. */
  function LatestAnswered(es: seq<Item>): Option<Interaction> {
    if es == [] then None
    else if Raises(es[|es| - 1]) then None
    else if Answered(es[|es| - 1]) then Some(Trimmed(es[|es| - 1]))
    else LatestAnswered(es[..|es| - 1])
  }

  /** What `_extract_last_interaction` returns for a given history. */
  function LastInteraction(h: HistoryJson): Option<Interaction> {
    match h
    case Unreadable => None
    case Entries(es) => LatestAnswered(es)
  }

  /** `_extract_last_interaction`: the scan from the newest entry back,
      stopping at the first one that is answered; an exception on the way
      is answered with None. */
  method ExtractLastInteraction(h: HistoryJson) returns (last: Option<Interaction>)
    ensures last == LastInteraction(h)
  {
    if h.Unreadable? || h.items == [] {
      return None;
    }
    var es := h.items;
    last := None;
    var i := |es|;
    assert es[..i] == es;
    while i > 0
      invariant 0 <= i <= |es|
      invariant last == None
      invariant LatestAnswered(es) == LatestAnswered(es[..i])
      decreases i
    {
      var entry := es[i - 1];
      assert es[..i][i - 1] == entry;
      if entry.NonObject? {
        return None;
      }
      var question := StripField(entry.question);
      if question.None? {
        return None;
      }
      var answer := StripField(entry.answer);
      if answer.None? {
        return None;
      }
      if question.value != "" && answer.value != "" {
        last := Some(Interaction(question.value, answer.value));
        break;
      }
      assert es[..i][..i - 1] == es[..i - 1];
      i := i - 1;
    }
  }

  /** The scan reaches entry `k` (nothing newer raises) and finds it
      answered, with nothing newer answered. */
  predicate NewestAnsweredAt(es: seq<Item>, k: int) {
    0 <= k < |es| && Answered(es[k]) && forall j :: k < j < |es| ==> !Answered(es[j]) && !Raises(es[j])
  }

  /** An entry the scan passes over keeps the newest answered entry below
      it the newest. */
  lemma NewestExtends(es: seq<Item>, k: int)
    requires es != [] && !Answered(es[|es| - 1]) && !Raises(es[|es| - 1])
    requires NewestAnsweredAt(es[..|es| - 1], k)
    ensures NewestAnsweredAt(es, k) && es[k] == es[..|es| - 1][k]
  {
    var init := es[..|es| - 1];
    forall j | k < j < |es| ensures !Answered(es[j]) && !Raises(es[j]) {
      if j < |es| - 1 {
        assert es[j] == init[j];
      }
    }
  }

  /** When there is a last interaction, it is the newest answered entry,
      stripped, and nothing newer raises. */
  lemma {:induction false} LatestIsNewestAnswered(es: seq<Item>)
    ensures LatestAnswered(es).Some? ==>
      exists k :: NewestAnsweredAt(es, k) && LatestAnswered(es).value == Trimmed(es[k])
    decreases |es|
  {
    if es != [] {
      var n := |es| - 1;
      var init := es[..n];
      if Answered(es[n]) {
        assert NewestAnsweredAt(es, n);
      } else if !Raises(es[n]) {
        LatestIsNewestAnswered(init);
        if LatestAnswered(init).Some? {
          var k :| NewestAnsweredAt(init, k) && LatestAnswered(init).value == Trimmed(init[k]);
          NewestExtends(es, k);
        }
      }
    }
  }

  /** An answered entry that the scan reaches (nothing newer raises) makes
      the scan find something. */
  lemma {:induction false} ReachedAnsweredIsFound(es: seq<Item>, k: int)
    requires 0 <= k < |es| && Answered(es[k])
    requires forall j :: k < j < |es| ==> !Raises(es[j])
    ensures LatestAnswered(es).Some?
    decreases |es|
  {
    var n := |es| - 1;
    if k < n && !Answered(es[n]) {
      var init := es[..n];
      assert init[k] == es[k];
      forall j | k < j < |init| ensures !Raises(init[j]) {
        assert init[j] == es[j];
      }
      ReachedAnsweredIsFound(init, k);
    }
  }

  /** There is no last interaction exactly when every answered entry has a
      newer entry that raises; in a history where nothing raises, exactly
      when no entry is answered. */
  lemma NoneIffNoneReached(es: seq<Item>)
    ensures LatestAnswered(es).None? <==>
      forall k :: 0 <= k < |es| && Answered(es[k]) ==> exists j :: k < j < |es| && Raises(es[j])
    ensures (forall k :: 0 <= k < |es| ==> !Raises(es[k])) ==>
      (LatestAnswered(es).None? <==> forall k :: 0 <= k < |es| ==> !Answered(es[k]))
  {
    if LatestAnswered(es).Some? {
      LatestIsNewestAnswered(es);
      var k :| NewestAnsweredAt(es, k) && LatestAnswered(es).value == Trimmed(es[k]);
      assert !exists j :: k < j < |es| && Raises(es[j]);
    } else {
      forall k | 0 <= k < |es| && Answered(es[k]) ensures exists j :: k < j < |es| && Raises(es[j]) {
        if forall j :: k < j < |es| ==> !Raises(es[j]) {
          ReachedAnsweredIsFound(es, k);
        }
      }
    }
  }

  /** The scan stops at the newest answered entry: whatever precedes it,
      even elements the formatter raises on, changes nothing. */
  lemma {:induction false} OlderEntriesUnread(older: seq<Item>, newer: seq<Item>)
    requires LatestAnswered(newer).Some?
    ensures LatestAnswered(older + newer) == LatestAnswered(newer)
    decreases |newer|
  {
    var all := older + newer;
    var n := |newer| - 1;
    assert all[|all| - 1] == newer[n];
    if !Answered(newer[n]) {
      assert all[..|all| - 1] == older + newer[..n];
      OlderEntriesUnread(older, newer[..n]);
    }
  }

  /** The two helpers fail on different inputs. A non-object element older
      than the newest answered entry silences the transcript but not the
      extractor. */
  lemma OlderNonObjectSilencesOnlyTranscript()
    ensures var h := Entries([NonObject, Object(Text("q"), Text("a"))]);
      FormattedHistory(h) == NoConversation && LastInteraction(h) == Some(Interaction("q", "a"))
  {
    var answered := Object(Text("q"), Text("a"));
    assert Trim("q") == "q" && Trim("a") == "a";
    assert [NonObject, answered][1] == answered;
  }

  /** A null question silences the extractor, whose `strip()` raises, but
      not the transcript, which skips the falsy value. */
  lemma NullQuestionSilencesOnlyExtractor(q: string, a: string, x: string)
    requires q != "" && a != "" && x != ""
    ensures var h := Entries([Object(Text(q), Text(a)), Object(NotText("None", false), Text(x))]);
      FormattedHistory(h) == "User: " + q + "\n" + "Assistant: " + a + "\n" + "Assistant: " + x + "\n"
      && LastInteraction(h).None?
  {
    var answered := Object(Text(q), Text(a));
    var h2 := [answered, Object(NotText("None", false), Text(x))];
    assert AllObjects(h2);
    assert h2[..1] == [answered];
    TranscriptOne(answered);
    var u, v, w := "User: " + q + "\n", "Assistant: " + a + "\n", "Assistant: " + x + "\n";
    assert UserLine(answered) == u && AssistantLine(answered) == v;
    assert UserLine(h2[1]) == "" && AssistantLine(h2[1]) == w;
    assert Transcript(h2) == u + v + w;
  }

  /** Both halves of the last interaction have text and no surrounding
      whitespace. */
  lemma LastInteractionIsStripped(h: HistoryJson)
    requires LastInteraction(h).Some?
    ensures var x := LastInteraction(h).value;
      x.question != "" && x.answer != "" && Stripped(x.question) && Stripped(x.answer)
  {
    var es := h.items;
    LatestIsNewestAnswered(es);
    var k :| NewestAnsweredAt(es, k) && LatestAnswered(es).value == Trimmed(es[k]);
  }
}
