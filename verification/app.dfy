/**
 * The application state (App.tsx): normalizing the parsed CSV rows, the
 * upload and reset handlers, and the chat-history updates made while a
 * question is answered.
 */
module App {
  import opened Types
  import opened Seqs
  import opened DataService
  import opened GeminiService

  // ---------------------------------------------------------------------
  // The value normalizer
  // ---------------------------------------------------------------------

  /**
   * One raw cell: an empty string becomes `null`; otherwise `Number(value)`
   * unless that is NaN, in which case the original string stays.
   */
  function CleanValue(value: string, toNumber: string -> JsNumber): (v: DataValue)
    ensures v == Null <==> value == ""
    ensures v.Num? <==> value != "" && toNumber(value) != NaN
    ensures v.Num? ==> v.number == toNumber(value)
    ensures v.Str? ==> v.text == value
    ensures v != Undefined
  {
    if value == "" then Null
    else if toNumber(value) != NaN then Num(toNumber(value))
    else Str(value)
  }

  /** The cleaned row: the same keys in the same order, each value normalized. */
  function Cleaned(row: RawRow, toNumber: string -> JsNumber): Record
  {
    seq(|row|, k requires 0 <= k < |row| => (row[k].0, CleanValue(row[k].1, toNumber)))
  }

  /** `row[key]` on a raw row: the first matching cell, if any. */
  function RawGet(row: RawRow, key: string): Option<string>
  {
    if |row| == 0 then None
    else if row[0].0 == key then Some(row[0].1)
    else RawGet(row[1..], key)
  }

  /** Cleaning keeps the keys, in order. */
  lemma CleanedKeys(row: RawRow, toNumber: string -> JsNumber)
    ensures Keys(Cleaned(row, toNumber)) == Keys(row)
  {
  }

  /**
   * Reading a key of the cleaned row gives the normalized raw cell, and
   * `undefined` for a key the row does not have.
   */
  lemma {:induction false} CleanedGet(row: RawRow, toNumber: string -> JsNumber, key: string)
    ensures Get(Cleaned(row, toNumber), key)
         == match RawGet(row, key)
            case Some(value) => CleanValue(value, toNumber)
            case None => Undefined
  {
    if |row| > 0 {
      assert Cleaned(row, toNumber)[1..] == Cleaned(row[1..], toNumber);
      CleanedGet(row[1..], toNumber, key);
    }
  }

  /** The loop `for (const key in row)` filling a fresh `newRow`. */
  method CleanRow(row: RawRow, toNumber: string -> JsNumber) returns (newRow: Record)
    ensures newRow == Cleaned(row, toNumber)
  {
    newRow := [];
    for i := 0 to |row|
      invariant newRow == Cleaned(row[..i], toNumber)
    {
      var (key, value) := row[i];
      var cell: DataValue;
      if value == "" {
        cell := Null;
      } else if toNumber(value) != NaN {
        cell := Num(toNumber(value));
      } else {
        cell := Str(value);
      }
      newRow := newRow + [(key, cell)];
      assert row[..i + 1][..i] == row[..i];
    }
    assert row[..|row|] == row;
  }

  /** `parsedData.map(...)` over the rows. */
  function CleanedData(parsed: seq<RawRow>, toNumber: string -> JsNumber): seq<Record>
  {
    seq(|parsed|, k requires 0 <= k < |parsed| => Cleaned(parsed[k], toNumber))
  }

  /** Cleaning every row, in row order. */
  method CleanData(parsed: seq<RawRow>, toNumber: string -> JsNumber) returns (cleaned: seq<Record>)
    ensures cleaned == CleanedData(parsed, toNumber)
    ensures |cleaned| == |parsed|
    ensures forall k :: 0 <= k < |cleaned| ==> Keys(cleaned[k]) == Keys(parsed[k])
  {
    cleaned := [];
    for i := 0 to |parsed|
      invariant cleaned == CleanedData(parsed[..i], toNumber)
    {
      var newRow := CleanRow(parsed[i], toNumber);
      cleaned := cleaned + [newRow];
    }
    assert parsed[..|parsed|] == parsed;
    forall k | 0 <= k < |cleaned| ensures Keys(cleaned[k]) == Keys(parsed[k]) {
      CleanedKeys(parsed[k], toNumber);
    }
  }

  // ---------------------------------------------------------------------
  // The chat-history updates, on message values
  // ---------------------------------------------------------------------

  /** `[...prev, userMessage, { role: 'model', content: '' }]`. */
  function WithQuestion(h: seq<Message>, question: string): (r: seq<Message>)
    ensures |r| == |h| + 2 && r[..|h|] == h
    ensures r[|h|] == Message(User, question, false) && r[|h| + 1] == Message(Model, "", false)
  {
    h + [Message(User, question, false), Message(Model, "", false)]
  }

  /** A streamed chunk: appended to a last model message, otherwise ignored. */
  function WithChunk(h: seq<Message>, chunk: string): (r: seq<Message>)
    ensures |r| == |h|
    ensures |h| > 0 ==> r[..|h| - 1] == h[..|h| - 1]
    ensures |h| > 0 && h[|h| - 1].role == Model ==>
              r[|h| - 1] == h[|h| - 1].(content := h[|h| - 1].content + chunk)
    ensures (|h| == 0 || h[|h| - 1].role != Model) ==> r == h
  {
    var n := |h|;
    if n > 0 && h[n - 1].role == Model then h[..n - 1] + [h[n - 1].(content := h[n - 1].content + chunk)]
    else h
  }

  /** The chunks, concatenated in arrival order. */
  function Concat(chunks: seq<string>): string
  {
    if |chunks| == 0 then "" else Concat(chunks[..|chunks| - 1]) + chunks[|chunks| - 1]
  }

  /** Applying the chunks one after another, in arrival order. */
  function WithChunks(h: seq<Message>, chunks: seq<string>): seq<Message>
  {
    if |chunks| == 0 then h else WithChunk(WithChunks(h, chunks[..|chunks| - 1]), chunks[|chunks| - 1])
  }

  /** Two chunks in a row have the effect of their concatenation. */
  lemma ChunksAccumulate(h: seq<Message>, a: string, b: string)
    ensures WithChunk(WithChunk(h, a), b) == WithChunk(h, a + b)
  {
    var n := |h|;
    if n > 0 && h[n - 1].role == Model {
      assert (h[n - 1].content + a) + b == h[n - 1].content + (a + b);
    }
  }

  /**
   * After a question, the streamed answer is the model message holding the
   * concatenated chunks, right after the question; the earlier history is
   * untouched.
   */
  lemma {:induction false} StreamedAnswer(h: seq<Message>, question: string, chunks: seq<string>)
    ensures WithChunks(WithQuestion(h, question), chunks)
         == h + [Message(User, question, false), Message(Model, Concat(chunks), false)]
  {
    if |chunks| > 0 {
      var init := chunks[..|chunks| - 1];
      StreamedAnswer(h, question, init);
      var h' := h + [Message(User, question, false), Message(Model, Concat(init), false)];
      assert h'[..|h'| - 1] == h + [Message(User, question, false)];
    }
  }

  /** `Error: ${message}`, with the fallback text for a thrown non-`Error`. */
  function ErrorText(err: Option<string>): (t: string)
    ensures |t| >= 7 && t[..7] == "Error: "
    ensures err.Some? ==> t[7..] == err.value
    ensures err.None? ==> t[7..] == "An unknown error occurred."
  {
    "Error: " + match err
      case Some(message) => message
      case None => "An unknown error occurred."
  }

  /** The error update: a last model message is overwritten, otherwise one is appended. */
  function WithError(h: seq<Message>, text: string): (r: seq<Message>)
    ensures |h| > 0 && h[|h| - 1].role == Model ==> |r| == |h|
    ensures (|h| == 0 || h[|h| - 1].role != Model) ==> r == h + [Message(Model, text, true)]
    ensures |r| > 0 && r[|r| - 1] == Message(Model, text, true)
    ensures |h| > 0 ==> r[..|h| - 1] == h[..|h| - 1]
  {
    var n := |h|;
    if n > 0 && h[n - 1].role == Model then h[..n - 1] + [h[n - 1].(content := text, isError := true)]
    else h + [Message(Model, text, true)]
  }

  /** An error after some streamed chunks replaces the partial answer. */
  lemma StreamThenError(h: seq<Message>, question: string, chunks: seq<string>, err: Option<string>)
    ensures WithError(WithChunks(WithQuestion(h, question), chunks), ErrorText(err))
         == h + [Message(User, question, false), Message(Model, ErrorText(err), true)]
  {
    StreamedAnswer(h, question, chunks);
    var h' := h + [Message(User, question, false), Message(Model, Concat(chunks), false)];
    assert h'[..|h'| - 1] == h + [Message(User, question, false)];
  }

  // ---------------------------------------------------------------------
  // The application state, as values
  // ---------------------------------------------------------------------

  /** The values of the messages, in history order. */
  function Views(h: seq<ChatMessage>): (r: seq<Message>)
    reads h
    ensures |r| == |h|
  {
    seq(|h|, k requires 0 <= k < |h| reads h => h[k].View())
  }

  const FileEmptyError: string := "Error parsing CSV: File is empty or could not be read."
  const NoRowsError: string := "Error parsing CSV: CSV file contains no data rows."

  /** The eight state hooks of `App` at one moment. */
  datatype AppState = AppState(
    data: seq<Record>,
    fileName: string,
    error: Option<string>,
    isLoading: bool,
    columnStats: seq<ColumnStats>,
    correlationMatrix: Option<CorrelationMatrix>,
    chatHistory: seq<ChatMessage>,
    isAnswering: bool)
  {
    /** No data, statistics, matrix or history. */
    predicate Cleared()
    {
      data == [] && fileName == "" && columnStats == [] && correlationMatrix == None && chatHistory == []
    }
  }

  /** The initial hooks, which `resetState` also restores. */
  const Initial: AppState := AppState([], "", None, false, [], None, [], false)

  /** The synchronous start of `handleFileUpload`. */
  function UploadStarted(s: AppState): AppState
  {
    s.(isLoading := true, error := None, data := [], fileName := "", columnStats := [],
       correlationMatrix := None, chatHistory := [])
  }

  /** The `try` block after cleaning: no rows set the error, otherwise the rows and their insights are stored. */
  function RowsStored(s: AppState, name: string, cleaned: seq<Record>): AppState
  {
    if |cleaned| == 0 then s.(error := Some(NoRowsError))
    else
      var insights := InsightsOf(cleaned);
      s.(data := cleaned, fileName := name, columnStats := insights.stats,
         correlationMatrix := Some(insights.matrix))
  }

  /** `reader.onload`, with the text read (`None` when there is none) and the CSV reader. */
  function Loaded(s: AppState, name: string, contents: Option<string>,
                  csvParse: string -> seq<RawRow>, toNumber: string -> JsNumber): AppState
  {
    var s' := if contents.None? || contents.value == "" then s.(error := Some(FileEmptyError))
              else RowsStored(s, name, CleanedData(csvParse(contents.value), toNumber));
    s'.(isLoading := false)
  }

  /**
   * Both resets clear the data, statistics, matrix and history, and a
   * reset leaves nothing loading or answering.
   */
  lemma ResetsClear(s: AppState)
    ensures Initial.Cleared() && !Initial.isLoading && !Initial.isAnswering && Initial.error.None?
    ensures UploadStarted(s).Cleared() && UploadStarted(s).isLoading && UploadStarted(s).error.None?
  {
  }

  /**
   * The outcome of an upload: either an error with nothing stored, the
   * engine never having run, or the cleaned rows (at least one) with
   * exactly the engine's statistics and matrix. Loading has ended and the
   * history is empty either way.
   */
  lemma UploadOutcome(s: AppState, name: string, contents: Option<string>,
                      csvParse: string -> seq<RawRow>, toNumber: string -> JsNumber)
    ensures var r := Loaded(UploadStarted(s), name, contents, csvParse, toNumber);
            && !r.isLoading && r.chatHistory == [] && r.isAnswering == s.isAnswering
            && (r.error.Some? <==>
                  contents.None? || contents == Some("") || |csvParse(contents.value)| == 0)
            && (r.error.Some? ==> r.Cleared() && r.error.value in {FileEmptyError, NoRowsError})
            && (r.error.None? ==>
                  && contents.Some?
                  && r.data == CleanedData(csvParse(contents.value), toNumber)
                  && |r.data| == |csvParse(contents.value)| > 0
                  && r.fileName == name
                  && r.columnStats == InsightsOf(r.data).stats
                  && r.correlationMatrix == Some(InsightsOf(r.data).matrix))
  {
    var r := Loaded(UploadStarted(s), name, contents, csvParse, toNumber);
    if r.error.None? {
      assert contents.Some? && contents.value != "";
    }
  }

  // ---------------------------------------------------------------------
  // The application state, as an object
  // ---------------------------------------------------------------------

  /** The state hooks of the `App` component. */
  class App {
    var data: seq<Record>
    var fileName: string
    var error: Option<string>
    var isLoading: bool
    var columnStats: seq<ColumnStats>
    var correlationMatrix: Option<CorrelationMatrix>
    var chatHistory: seq<ChatMessage>
    var isAnswering: bool

    /** Every message of the history is its own object. */
    predicate Valid()
      reads this
    {
      Distinct(chatHistory)
    }

    function State(): AppState
      reads this
    {
      AppState(data, fileName, error, isLoading, columnStats, correlationMatrix, chatHistory, isAnswering)
    }

    /** The message the streaming updaters may change. */
    function LastMessage(): set<ChatMessage>
      reads this
    {
      if |chatHistory| > 0 then {chatHistory[|chatHistory| - 1]} else {}
    }

    /** The initial state (App.tsx:15-22). */
    constructor ()
      ensures Valid() && State() == Initial
    {
      data := [];
      fileName := "";
      error := None;
      isLoading := false;
      columnStats := [];
      correlationMatrix := None;
      chatHistory := [];
      isAnswering := false;
    }

    /** `resetState`. */
    method ResetState()
      modifies this
      ensures Valid() && State() == Initial
    {
      data := [];
      fileName := "";
      error := None;
      isLoading := false;
      columnStats := [];
      correlationMatrix := None;
      chatHistory := [];
      isAnswering := false;
    }

    /** The start of `handleFileUpload`, before the file is read. */
    method BeginUpload()
      modifies this
      ensures Valid() && State() == UploadStarted(old(State()))
    {
      isLoading := true;
      error := None;
      data := [];
      fileName := "";
      columnStats := [];
      correlationMatrix := None;
      chatHistory := [];
    }

    /** `reader.onload`. */
    method OnLoad(name: string, contents: Option<string>, csvParse: string -> seq<RawRow>,
                  toNumber: string -> JsNumber)
      modifies this
      ensures State() == Loaded(old(State()), name, contents, csvParse, toNumber)
    {
      if contents.None? || contents.value == "" {
        error := Some(FileEmptyError);
      } else {
        var parsedData := csvParse(contents.value);
        var cleanedData := CleanData(parsedData, toNumber);
        StoreRows(name, cleanedData);
      }
      isLoading := false;
    }

    /** The rest of the `try` block, once the rows are cleaned. */
    method StoreRows(name: string, cleanedData: seq<Record>)
      modifies this
      ensures State() == RowsStored(old(State()), name, cleanedData)
    {
      if |cleanedData| == 0 {
        error := Some(NoRowsError);
      } else {
        data := cleanedData;
        fileName := name;
        var insights := ProcessDataForInsights(cleanedData);
        columnStats := insights.stats;
        correlationMatrix := Some(insights.matrix);
      }
    }

    /** `handleFileUpload` followed by the reader's `onload`. */
    method HandleFileUpload(name: string, contents: Option<string>, csvParse: string -> seq<RawRow>,
                            toNumber: string -> JsNumber)
      modifies this
      ensures Valid()
      ensures State() == Loaded(UploadStarted(old(State())), name, contents, csvParse, toNumber)
    {
      BeginUpload();
      OnLoad(name, contents, csvParse, toNumber);
    }

    /**
     * The start of `handleAskQuestion`: answering begins, the optimistic
     * update appends the question and an empty model message, and the
     * prompt for the rows is returned (`showNumber` writes a finite number).
     */
    method AskQuestion(question: string, showNumber: real -> string) returns (prompt: string)
      requires Valid()
      modifies this
      ensures Valid()
      ensures prompt == FullPrompt(question, data, showNumber)
      ensures Views(chatHistory) == WithQuestion(old(Views(chatHistory)), question)
      ensures State() == old(State()).(isAnswering := true, chatHistory := chatHistory)
    {
      isAnswering := true;
      AppendQuestion(question);
      prompt := FullPrompt(question, data, showNumber);
    }

    /** The optimistic update: two fresh messages after the history. */
    method AppendQuestion(question: string)
      requires Valid()
      modifies this
      ensures Valid()
      ensures Views(chatHistory) == WithQuestion(old(Views(chatHistory)), question)
      ensures |chatHistory| == |old(chatHistory)| + 2
      ensures fresh(chatHistory[|chatHistory| - 2]) && fresh(chatHistory[|chatHistory| - 1])
      ensures State() == old(State()).(chatHistory := chatHistory)
    {
      var userMessage := new ChatMessage(User, question, false);
      var placeholder := new ChatMessage(Model, "", false);
      ghost var before := chatHistory;
      chatHistory := chatHistory + [userMessage, placeholder];
      forall k | 0 <= k < |before| ensures chatHistory[k].View() == old(before[k].View()) {
        assert chatHistory[k] == before[k];
      }
    }

    /** The updater for one streamed chunk. */
    method ReceiveChunk(chunk: string)
      requires Valid()
      modifies LastMessage()
      ensures Valid()
      ensures Views(chatHistory) == WithChunk(old(Views(chatHistory)), chunk)
    {
      var n := |chatHistory|;
      if n > 0 && chatHistory[n - 1].role == Model {
        var lastMessage := chatHistory[n - 1];
        lastMessage.content := lastMessage.content + chunk;
        forall k | 0 <= k < n - 1 ensures chatHistory[k].View() == old(chatHistory[k].View()) {
          assert chatHistory[k] != lastMessage;
        }
      }
    }

    /** The updater in the `catch` branch; `None` is a thrown value that is not an `Error`. */
    method ReceiveError(err: Option<string>)
      requires Valid()
      modifies this, LastMessage()
      ensures Valid()
      ensures Views(chatHistory) == WithError(old(Views(chatHistory)), ErrorText(err))
      ensures State() == old(State()).(chatHistory := chatHistory)
    {
      var n := |chatHistory|;
      var text := ErrorText(err);
      if n > 0 && chatHistory[n - 1].role == Model {
        var lastMessage := chatHistory[n - 1];
        lastMessage.content := text;
        lastMessage.isError := true;
        forall k | 0 <= k < n - 1 ensures chatHistory[k].View() == old(chatHistory[k].View()) {
          assert chatHistory[k] != lastMessage;
        }
      } else {
        var message := new ChatMessage(Model, text, true);
        chatHistory := chatHistory + [message];
      }
    }

    /** The `finally` branch of `handleAskQuestion`. */
    method FinishAnswer()
      modifies this
      ensures State() == old(State()).(isAnswering := false)
    {
      isAnswering := false;
    }
  }
}
