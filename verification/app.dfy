/**
 * The orchestrator: the application state and one transition per handler
 * branch. Results from the outside world (the parsed pages of a PDF, the
 * outcome of fetching a path, the chunks of a streamed reply) are inputs.
 *
 * React's state setters are folded into plain record updates. Every change
 * of the file set also runs the files effect, so `SetFiles` is the setter
 * followed by that effect.
 */
module App {
  import opened Wrappers
  import opened Types
  import opened JsStrings
  import PdfUtils
  import GeminiService
  import ChatWindow
  import ChatMessage

  type Bytes = seq<bv8>

  /** An uploaded or downloaded document: its name and raw content. */
  datatype File = File(name: string, content: Bytes)

  /** A named group of document paths from the manifest; `files` may be missing. */
  datatype DocumentSet = DocumentSet(name: string, files: Option<seq<string>>)

  /** The outcome of fetching one path: whether the server answered with success, and the body. */
  datatype Response = Response(ok: bool, body: Bytes)

  /** The error banner's causes; the wording of each message is not modelled, except that a fetch failure names its path. */
  datatype AppError =
    | SetNotFound(setName: string)
    | NoFilesListed(setName: string)
    | FetchFailed(path: string)
    | ProcessingFailed
    | NoSession
    | ChatFailed

  /** The orchestrator's state. */
  datatype AppState = AppState(
    files: seq<File>,
    session: Option<GeminiService.Chat>,
    messages: seq<Message>,
    isLoading: bool,
    isParsing: bool,
    error: Option<AppError>)

  /** Placed between consecutive documents' texts. */
  const DOCUMENT_SEPARATOR := "\n\n---\n\n"

  /** Used when a path's last segment is empty. */
  const DEFAULT_FILE_NAME := "document.pdf"

  /** The model-role transcript entry added when a reply fails. */
  const CHAT_ERROR_TEXT := "An error occurred while communicating with the AI. Please try again."

  /** The state on start-up. */
  const INITIAL := AppState([], None, [], false, false, None)

  /** The chat pane accepts messages when a session exists and no parsing is under way. */
  predicate IsChatReady(s: AppState)
  {
    s.session.Some? && !s.isParsing
  }

  /** The names of the files, in selection order. */
  function FileNames(files: seq<File>): seq<string>
  {
    seq(|files|, k requires 0 <= k < |files| => files[k].name)
  }

  /** The greeting's text before the bold file names. */
  const GREETING_LEAD := "I've finished reading "

  /** The greeting's text after the bold file names. */
  const GREETING_TRAIL := ". What would you like to know?"

  /** The greeting that opens a transcript, naming the files between `**` markers. */
  function Greeting(fileNames: seq<string>): string
  {
    GREETING_LEAD + "**" + Join(fileNames, ", ") + "**" + GREETING_TRAIL
  }

  // ---------------------------------------------------------------------
  // Processing the file set
  // ---------------------------------------------------------------------

  /** Processing begins: parsing, no error, no messages, no session. */
  function ProcessStart(s: AppState): (r: AppState)
    ensures r.isParsing && r.error.None? && r.messages == [] && r.session.None?
    ensures r.files == s.files && r.isLoading == s.isLoading
  {
    s.(isParsing := true, error := None, messages := [], session := None)
  }

  /** The files effect: a non-empty set starts processing; an empty one drops the session and the transcript. */
  function FilesEffect(s: AppState): AppState
  {
    if |s.files| > 0 then ProcessStart(s) else s.(session := None, messages := [])
  }

  /** Replaces the file set and runs the files effect. */
  function SetFiles(s: AppState, files: seq<File>): AppState
  {
    FilesEffect(s.(files := files))
  }

  /** The user picked files in the upload panel. */
  function HandleFilesChange(s: AppState, selected: seq<File>): AppState
  {
    SetFiles(s, selected)
  }

  /** The user cleared the file set. */
  function HandleClearFiles(s: AppState): AppState
  {
    SetFiles(s, [])
  }

  /**
   * Extracts every file's text with the given parser, all or nothing: None as
   * soon as one file fails to parse, otherwise the texts in file order.
   */
  function ExtractAll(files: seq<File>, parse: Bytes -> Option<seq<PdfUtils.Page>>): (r: Option<seq<string>>)
    ensures r.Some? <==> forall k :: 0 <= k < |files| ==> parse(files[k].content).Some?
    ensures r.Some? ==> |r.value| == |files|
    ensures r.Some? ==> forall k :: 0 <= k < |files| ==>
      r.value[k] == PdfUtils.ExtractedText(parse(files[k].content).value)
  {
    if |files| == 0 then Some([])
    else
      match parse(files[0].content)
      case None => None
      case Some(pages) =>
        match ExtractAll(files[1..], parse)
        case None => None
        case Some(rest) => Some([PdfUtils.ExtractedText(pages)] + rest)
  }

  /** The documents' texts combined in file order, separated by a horizontal rule between blank lines. */
  function CombinedContent(texts: seq<string>): string
  {
    Join(texts, DOCUMENT_SEPARATOR)
  }

  /**
   * Processing ends. On success a session is opened for the file names and
   * the combined text, and the transcript is the greeting alone. On failure
   * the file set is emptied and the error is set. Either way parsing stops.
   */
  function ProcessFinish(s: AppState, parse: Bytes -> Option<seq<PdfUtils.Page>>): (r: AppState)
    requires |s.files| > 0
    ensures !r.isParsing && r.isLoading == s.isLoading
    ensures r.session.Some? <==> forall k :: 0 <= k < |s.files| ==> parse(s.files[k].content).Some?
    ensures r.session.Some? ==>
      && r.files == s.files
      && r.error == s.error
      && r.messages == [Message(Model, Greeting(FileNames(s.files)))]
      && r.session.value == GeminiService.StartChat(FileNames(s.files), CombinedContent(ExtractAll(s.files, parse).value))
    ensures r.session.None? ==> r.files == [] && r.messages == [] && r.error == Some(ProcessingFailed)
  {
    match ExtractAll(s.files, parse)
    case Some(texts) =>
      var names := FileNames(s.files);
      s.(session := Some(GeminiService.StartChat(names, CombinedContent(texts))),
         messages := [Message(Model, Greeting(names))],
         isParsing := false)
    case None =>
      SetFiles(s.(error := Some(ProcessingFailed)), []).(isParsing := false)
  }

  // ---------------------------------------------------------------------
  // Loading a predefined document set
  // ---------------------------------------------------------------------

  /** The first step of loading a set: rejected with an error, or the paths to fetch. */
  datatype LoadStart = Rejected(state: AppState) | Fetching(state: AppState, paths: seq<string>)

  /** The set's file list exists and is non-empty. */
  predicate HasFiles(docSet: DocumentSet)
  {
    docSet.files.Some? && |docSet.files.value| > 0
  }

  /**
   * Validates the chosen set. An unknown name or an empty file list changes
   * only the error; otherwise processing begins and the set's paths are fetched.
   */
  function LoadSetStart(s: AppState, documentSets: map<string, DocumentSet>, setName: string): (r: LoadStart)
    ensures r.Rejected? <==> setName !in documentSets || !HasFiles(documentSets[setName])
    ensures setName !in documentSets ==> r == Rejected(s.(error := Some(SetNotFound(setName))))
    ensures setName in documentSets && !HasFiles(documentSets[setName]) ==>
      r == Rejected(s.(error := Some(NoFilesListed(setName))))
    ensures r.Fetching? ==>
      && r.paths == documentSets[setName].files.value
      && r.state == ProcessStart(s)
  {
    if setName !in documentSets then Rejected(s.(error := Some(SetNotFound(setName))))
    else
      var docSet := documentSets[setName];
      if !HasFiles(docSet) then Rejected(s.(error := Some(NoFilesListed(setName))))
      else Fetching(ProcessStart(s), docSet.files.value)
  }

  /** A downloaded file's name: the path's last `/`-separated segment, or the default name when that is empty. */
  function FileName(path: string): string
  {
    var segments := Split(path, "/");
    var last := segments[|segments| - 1];
    if last == "" then DEFAULT_FILE_NAME else last
  }

  /** A path without `/` names itself (or the default when empty). */
  lemma FileNameWithoutSlash(path: string)
    requires '/' !in path
    ensures FileName(path) == if path == "" then DEFAULT_FILE_NAME else path
  {
    IndexOfAbsent(path, "/");
  }

  /** A path `dir/base` with `base` free of `/` is named `base` (or the default when `base` is empty). */
  lemma FileNameAfterLastSlash(dir: string, base: string)
    requires '/' !in base
    ensures FileName(dir + "/" + base) == if base == "" then DEFAULT_FILE_NAME else base
  {
    SplitAtSeparator(dir, base, "/");
    IndexOfAbsent(base, "/");
  }

  /** The files made from the fetched bodies, one per path, in path order. */
  function Downloads(paths: seq<string>, fetch: string -> Response): (r: seq<File>)
    ensures |r| == |paths|
    ensures forall k :: 0 <= k < |paths| ==> r[k] == File(FileName(paths[k]), fetch(paths[k]).body)
  {
    seq(|paths|, k requires 0 <= k < |paths| => File(FileName(paths[k]), fetch(paths[k]).body))
  }

  /** The position of the first path whose fetch did not succeed, if any. */
  function FirstFailure(paths: seq<string>, fetch: string -> Response): (r: Option<nat>)
    ensures r.None? <==> forall k :: 0 <= k < |paths| ==> fetch(paths[k]).ok
    ensures r.Some? ==> r.value < |paths| && !fetch(paths[r.value]).ok
    ensures r.Some? ==> forall k :: 0 <= k < r.value ==> fetch(paths[k]).ok
  {
    if |paths| == 0 then None
    else if !fetch(paths[0]).ok then Some(0)
    else
      match FirstFailure(paths[1..], fetch)
      case None => None
      case Some(i) => Some(i + 1)
  }

  /**
   * The fetches have come back, all or nothing: when every one succeeded the
   * downloads become the file set; otherwise the file set is emptied, parsing
   * stops and the error names a path that failed.
   */
  function LoadSetFinish(s: AppState, paths: seq<string>, fetch: string -> Response): (r: AppState)
    ensures (forall k :: 0 <= k < |paths| ==> fetch(paths[k]).ok) ==> r == SetFiles(s, Downloads(paths, fetch))
    ensures !(forall k :: 0 <= k < |paths| ==> fetch(paths[k]).ok) ==>
      && r.files == [] && !r.isParsing && r.session.None? && r.messages == []
      && r.error.Some? && r.error.value.FetchFailed?
      && exists k :: 0 <= k < |paths| && paths[k] == r.error.value.path && !fetch(paths[k]).ok
  {
    match FirstFailure(paths, fetch)
    case None => SetFiles(s, Downloads(paths, fetch))
    case Some(i) => SetFiles(s.(error := Some(FetchFailed(paths[i])), isParsing := false), [])
  }

  /** The whole set-loading handler: validation, then the fetch outcome. */
  function HandleLoadPredefinedSet(s: AppState, documentSets: map<string, DocumentSet>, setName: string,
                                   fetch: string -> Response): AppState
  {
    match LoadSetStart(s, documentSets, setName)
    case Rejected(t) => t
    case Fetching(t, paths) => LoadSetFinish(t, paths, fetch)
  }

  // ---------------------------------------------------------------------
  // Sending a message
  // ---------------------------------------------------------------------

  /**
   * The send handler's first step. Without a session only the error changes.
   * Otherwise loading begins and the transcript gains the user message and an
   * empty model placeholder.
   */
  function SendStart(s: AppState, text: string): (r: AppState)
    ensures s.session.None? ==> r.messages == s.messages && r.error == Some(NoSession) && r == s.(error := r.error)
    ensures s.session.Some? ==>
      && |r.messages| == |s.messages| + 2
      && r.messages[..|s.messages|] == s.messages
      && r.messages[|s.messages|] == Message(User, text)
      && r.messages[|s.messages| + 1] == Message(Model, "")
      && r.isLoading && r.error.None?
      && r.session == s.session && r.files == s.files && r.isParsing == s.isParsing
  {
    if s.session.None? then s.(error := Some(NoSession))
    else s.(isLoading := true, error := None,
            messages := s.messages + [Message(User, text), Message(Model, "")])
  }

  /** A streamed chunk is appended to the last message's text; nothing else changes. */
  function AppendChunk(s: AppState, chunk: string): (r: AppState)
    requires |s.messages| > 0
    ensures var n := |s.messages|;
      && r == s.(messages := r.messages)
      && |r.messages| == n
      && r.messages[..n - 1] == s.messages[..n - 1]
      && r.messages[n - 1].role == s.messages[n - 1].role
      && r.messages[n - 1].text == s.messages[n - 1].text + chunk
  {
    var n := |s.messages|;
    var last := s.messages[n - 1];
    s.(messages := s.messages[..n - 1] + [last.(text := last.text + chunk)])
  }

  /**
   * The chunks, appended one after another in arrival order. Appending them
   * one at a time is the same as appending their concatenation once.
   */
  function StreamChunks(s: AppState, chunks: seq<string>): (r: AppState)
    requires |s.messages| > 0
    ensures r == AppendChunk(s, Join(chunks, ""))
    decreases |chunks|
  {
    if |chunks| == 0 then
      AppendNothing(s);
      s
    else
      var rest := Join(chunks[1..], "");
      assert Join(chunks, "") == chunks[0] + rest;
      AppendTwice(s, chunks[0], rest);
      StreamChunks(AppendChunk(s, chunks[0]), chunks[1..])
  }

  /** Appending an empty chunk changes nothing. */
  lemma AppendNothing(s: AppState)
    requires |s.messages| > 0
    ensures AppendChunk(s, "") == s
  {
    var n := |s.messages|;
    assert s.messages[n - 1].text + "" == s.messages[n - 1].text;
    assert AppendChunk(s, "").messages == s.messages;
  }

  /** Appending two chunks in turn is appending their concatenation. */
  lemma AppendTwice(s: AppState, a: string, b: string)
    requires |s.messages| > 0
    ensures AppendChunk(AppendChunk(s, a), b) == AppendChunk(s, a + b)
  {
    var n := |s.messages|;
    var last := s.messages[n - 1];
    assert last.text + a + b == last.text + (a + b);
    assert AppendChunk(s, a).messages[..n - 1] == s.messages[..n - 1];
  }

  /**
   * The stream failed: the last message is dropped if its text is still
   * empty, one model-role error message is appended, and the error is set.
   */
  function StreamFailed(s: AppState): (r: AppState)
    requires |s.messages| > 0
    ensures var n := |s.messages|;
      && |r.messages| > 0
      && r.messages[|r.messages| - 1] == Message(Model, CHAT_ERROR_TEXT)
      && (s.messages[n - 1].text == "" ==> r.messages[..|r.messages| - 1] == s.messages[..n - 1])
      && (s.messages[n - 1].text != "" ==> r.messages[..|r.messages| - 1] == s.messages)
    ensures r.error == Some(ChatFailed) && r.(messages := s.messages, error := s.error) == s
  {
    var n := |s.messages|;
    var kept := if s.messages[n - 1].text == "" then s.messages[..n - 1] else s.messages;
    s.(error := Some(ChatFailed), messages := kept + [Message(Model, CHAT_ERROR_TEXT)])
  }

  /** The send handler finishes, successful or not: loading stops. */
  function StreamDone(s: AppState): AppState
  {
    s.(isLoading := false)
  }

  /**
   * The whole send handler: the first step, then (with a session) the chunks
   * that arrived, then the failure branch if the stream failed, then the
   * final step.
   */
  function HandleSendMessage(s: AppState, text: string, chunks: seq<string>, failed: bool): AppState
  {
    var started := SendStart(s, text);
    if s.session.None? then started
    else
      var streamed := StreamChunks(started, chunks);
      StreamDone(if failed then StreamFailed(streamed) else streamed)
  }

  /** A submit from the chat pane: the pane's guard first, then the send handler's first step. */
  function UiSubmit(s: AppState, input: string): AppState
  {
    match ChatWindow.HandleSubmit(input, s.isLoading, IsChatReady(s)).sent
    case None => s
    case Some(text) => SendStart(s, text)
  }

  // ---------------------------------------------------------------------
  // Properties
  // ---------------------------------------------------------------------

  /** Document k's text sits after the earlier documents and separators, followed by a separator unless it is last. */
  lemma CombinedContentInOrder(texts: seq<string>, k: nat)
    requires k < |texts|
    ensures var at := TotalLength(texts[..k]) + k * |DOCUMENT_SEPARATOR|;
      var c := CombinedContent(texts);
      && at + |texts[k]| <= |c|
      && c[at..at + |texts[k]|] == texts[k]
      && (k + 1 < |texts| ==>
            && at + |texts[k]| + |DOCUMENT_SEPARATOR| <= |c|
            && c[at + |texts[k]|..at + |texts[k]| + |DOCUMENT_SEPARATOR|] == DOCUMENT_SEPARATOR)
  {
    JoinPlacesParts(texts, DOCUMENT_SEPARATOR, k);
  }

  /** The fixed greeting texts hold no `*`. */
  lemma GreetingTextHasNoStar()
    ensures '*' !in GREETING_LEAD && '*' !in GREETING_TRAIL
  {
  }

  /** With file names free of `*`, the greeting renders as plain text, the comma-joined names in bold, plain text. */
  lemma GreetingShowsNamesInBold(fileNames: seq<string>)
    requires forall k :: 0 <= k < |fileNames| ==> '*' !in fileNames[k]
    ensures ChatMessage.Segments(Greeting(fileNames)) ==
      [ChatMessage.Plain(GREETING_LEAD), ChatMessage.Bold(Join(fileNames, ", ")), ChatMessage.Plain(GREETING_TRAIL)]
  {
    var names := Join(fileNames, ", ");
    JoinExcludes(fileNames, ", ", '*');
    GreetingTextHasNoStar();
    ChatMessage.SegmentsOfBoldRun(GREETING_LEAD, names, GREETING_TRAIL);
  }

  /** Clearing the files, or selecting none, leaves no session and an empty transcript. */
  lemma EmptyFileSetIsIdle(s: AppState)
    ensures var r := HandleClearFiles(s);
      && r.files == [] && r.session.None? && r.messages == []
      && r.isParsing == s.isParsing && r.isLoading == s.isLoading && r.error == s.error
    ensures HandleFilesChange(s, []) == HandleClearFiles(s)
  {
  }

  /**
   * Loading a set is all or nothing: when every fetch succeeds the file set is
   * the downloads in path order and processing has begun; otherwise the file
   * set is empty, parsing has stopped and the error names a failed path.
   */
  lemma LoadSetAllOrNothing(s: AppState, documentSets: map<string, DocumentSet>, setName: string,
                            fetch: string -> Response)
    requires setName in documentSets && HasFiles(documentSets[setName])
    ensures var paths := documentSets[setName].files.value;
      var r := HandleLoadPredefinedSet(s, documentSets, setName, fetch);
      && ((forall k :: 0 <= k < |paths| ==> fetch(paths[k]).ok) ==>
            r.files == Downloads(paths, fetch) && r.isParsing && r.session.None? && r.messages == [] && r.error.None?)
      && (!(forall k :: 0 <= k < |paths| ==> fetch(paths[k]).ok) ==>
            r.files == [] && !r.isParsing && r.error.Some? && r.error.value.FetchFailed?)
  {
  }

  /**
   * The transcript after a send. Without a session it is unchanged. After a
   * completed stream it has grown by the user message and the whole reply.
   * After a failed stream it has grown by the user message, the partial reply
   * if it is not empty, and exactly one error message.
   */
  lemma SendTranscript(s: AppState, text: string, chunks: seq<string>, failed: bool)
    ensures var r := HandleSendMessage(s, text, chunks, failed);
      var reply := Join(chunks, "");
      && (s.session.Some? ==> !r.isLoading)
      && (s.session.None? ==> r == s.(error := Some(NoSession)))
      && (s.session.Some? && !failed ==>
            r.messages == s.messages + [Message(User, text), Message(Model, reply)] && r.error.None?)
      && (s.session.Some? && failed && reply == "" ==>
            r.messages == s.messages + [Message(User, text), Message(Model, CHAT_ERROR_TEXT)]
            && r.error == Some(ChatFailed))
      && (s.session.Some? && failed && reply != "" ==>
            r.messages == s.messages + [Message(User, text), Message(Model, reply), Message(Model, CHAT_ERROR_TEXT)]
            && r.error == Some(ChatFailed))
  {
    if s.session.Some? {
      StreamedReply(s, text, chunks);
      if failed && Join(chunks, "") == "" {
        FailedBeforeReply(s, text, chunks);
      } else if failed {
        FailedDuringReply(s, text, chunks);
      }
    }
  }

  /** With a session, the streamed chunks complete the placeholder into the reply after the user's message. */
  lemma StreamedReply(s: AppState, text: string, chunks: seq<string>)
    requires s.session.Some?
    ensures var streamed := StreamChunks(SendStart(s, text), chunks);
      && streamed.messages == s.messages + [Message(User, text), Message(Model, Join(chunks, ""))]
      && streamed.error.None?
  {
    var started := SendStart(s, text);
    var reply := Join(chunks, "");
    var prefix := s.messages + [Message(User, text)];
    assert started.messages == prefix + [Message(Model, "")];
    assert AppendChunk(started, reply).messages == prefix + [Message(Model, "" + reply)];
    assert "" + reply == reply;
  }

  /** With a session and no reply text yet, a failed stream replaces the placeholder with one error message. */
  lemma FailedBeforeReply(s: AppState, text: string, chunks: seq<string>)
    requires s.session.Some? && Join(chunks, "") == ""
    ensures StreamFailed(StreamChunks(SendStart(s, text), chunks)).messages ==
      s.messages + [Message(User, text), Message(Model, CHAT_ERROR_TEXT)]
  {
    var streamed := StreamChunks(SendStart(s, text), chunks);
    StreamedReply(s, text, chunks);
    var prefix := s.messages + [Message(User, text)];
    var m := streamed.messages;
    assert m == prefix + [Message(Model, "")];
    assert m[..|m| - 1] == prefix;
  }

  /** With a session and some reply text, a failed stream keeps the partial reply and adds one error message. */
  lemma FailedDuringReply(s: AppState, text: string, chunks: seq<string>)
    requires s.session.Some? && Join(chunks, "") != ""
    ensures StreamFailed(StreamChunks(SendStart(s, text), chunks)).messages ==
      s.messages + [Message(User, text), Message(Model, Join(chunks, "")), Message(Model, CHAT_ERROR_TEXT)]
  {
    var streamed := StreamChunks(SendStart(s, text), chunks);
    StreamedReply(s, text, chunks);
    var m := streamed.messages;
    assert m[|m| - 1].text != "";
  }

  /**
   * The pane's guard is the only protection against a second send while one
   * is in flight: a ready state that is loading is still ready, the send
   * handler would accept the message, and only the pane refuses it.
   */
  lemma OnlyThePaneGuardsConcurrentSends(s: AppState, input: string)
    requires s.session.Some? && !s.isParsing && s.isLoading
    ensures IsChatReady(s)
    ensures SendStart(s, Trim(input)).messages == s.messages + [Message(User, Trim(input)), Message(Model, "")]
    ensures UiSubmit(s, input) == s
  {
  }

  /** When nothing is loading and the chat is ready, a submit with content starts a send of the trimmed text. */
  lemma UiSubmitSends(s: AppState, input: string)
    requires IsChatReady(s) && !s.isLoading && Trim(input) != ""
    ensures UiSubmit(s, input).messages == s.messages + [Message(User, Trim(input)), Message(Model, "")]
    ensures UiSubmit(s, input).isLoading
  {
  }

  /** A one-page document whose page holds the single text run `text`. */
  function OneRunDocument(text: string): seq<PdfUtils.Page>
  {
    [[PdfUtils.TextItem(text)]]
  }

  /** A one-page document with a single run extracts to that run when it has no surrounding whitespace. */
  lemma OneRunDocumentText(text: string)
    requires |text| > 0 && !IsWhitespace(text[0]) && !IsWhitespace(text[|text| - 1])
    ensures PdfUtils.ExtractedText(OneRunDocument(text)) == text
  {
    var page := [PdfUtils.TextItem(text)];
    assert PdfUtils.PageText(page) == text by {
      assert PdfUtils.ItemTexts(page) == [text];
    }
    assert PdfUtils.Accumulated([page]) == text + PdfUtils.PAGE_BREAK by {
      assert [page][..0] == [];
    }
    TrimPadded(text, PdfUtils.PAGE_BREAK);
  }

  /** The parser of the two-document example: content [1] reads "X", anything else reads "Y". */
  function ExampleParse(content: Bytes): Option<seq<PdfUtils.Page>>
  {
    if content == [1] then Some(OneRunDocument("X")) else Some(OneRunDocument("Y"))
  }

  /** The two files of the example. */
  const EXAMPLE_FILES := [File("a.pdf", [1]), File("b.pdf", [2])]

  /** Two files that parse to one-run documents extract to those runs, in file order. */
  lemma TwoRunExtraction(a: File, b: File, parse: Bytes -> Option<seq<PdfUtils.Page>>, x: string, y: string)
    requires parse(a.content) == Some(OneRunDocument(x)) && parse(b.content) == Some(OneRunDocument(y))
    requires |x| > 0 && !IsWhitespace(x[0]) && !IsWhitespace(x[|x| - 1])
    requires |y| > 0 && !IsWhitespace(y[0]) && !IsWhitespace(y[|y| - 1])
    ensures ExtractAll([a, b], parse) == Some([x, y])
  {
    var r := ExtractAll([a, b], parse);
    assert forall k :: 0 <= k < 2 ==> parse([a, b][k].content).Some?;
    OneRunDocumentText(x);
    OneRunDocumentText(y);
    assert r.value[0] == x && r.value[1] == y;
    assert r.value == [r.value[0], r.value[1]];
  }

  /** The example's files extract to "X" and "Y", in that order. */
  lemma ExampleExtraction()
    ensures ExtractAll(EXAMPLE_FILES, ExampleParse) == Some(["X", "Y"])
  {
    TwoRunExtraction(EXAMPLE_FILES[0], EXAMPLE_FILES[1], ExampleParse, "X", "Y");
    assert EXAMPLE_FILES == [EXAMPLE_FILES[0], EXAMPLE_FILES[1]];
  }

  /** The example's file names, in order. */
  lemma ExampleNames()
    ensures FileNames(EXAMPLE_FILES) == ["a.pdf", "b.pdf"]
  {
  }

  /** The example's file list is the two names separated by a comma and a space. */
  lemma ExampleFileList()
    ensures GeminiService.FileList(FileNames(EXAMPLE_FILES)) == "a.pdf, b.pdf"
  {
    ExampleNames();
    JoinPair("a.pdf", "b.pdf", ", ");
    assert "a.pdf" + ", " + "b.pdf" == "a.pdf, b.pdf";
  }

  /** Processing the example opens a session for both names over "X", the document separator and "Y". */
  lemma ExampleSession()
    ensures ProcessFinish(HandleFilesChange(INITIAL, EXAMPLE_FILES), ExampleParse).session ==
      Some(GeminiService.StartChat(["a.pdf", "b.pdf"], "X\n\n---\n\nY"))
  {
    var started := HandleFilesChange(INITIAL, EXAMPLE_FILES);
    assert started.files == EXAMPLE_FILES;
    ExampleNames();
    ExampleExtraction();
    ExampleContent();
    assert ExtractAll(started.files, ExampleParse) == Some(["X", "Y"]);
  }

  /** The example's two texts combine to "X", the document separator and "Y". */
  lemma ExampleContent()
    ensures CombinedContent(["X", "Y"]) == "X\n\n---\n\nY"
  {
    JoinPair("X", "Y", DOCUMENT_SEPARATOR);
    assert "X" + DOCUMENT_SEPARATOR + "Y" == "X\n\n---\n\nY";
  }

  /** The example's two chunks make the reply "Hi there". */
  lemma ExampleReply()
    ensures Join(["Hi ", "there"], "") == "Hi there"
  {
    JoinPair("Hi ", "there", "");
    assert "Hi " + "" + "there" == "Hi there";
  }

  /**
   * Two uploaded documents "a.pdf" and "b.pdf" whose pages read "X" and "Y":
   * the session lists "a.pdf, b.pdf" and holds "X", the document separator
   * and "Y"; a reply streamed as two chunks follows the greeting and the
   * user's message.
   */
  lemma TwoDocumentConversation()
    ensures var ready := ProcessFinish(HandleFilesChange(INITIAL, EXAMPLE_FILES), ExampleParse);
      && GeminiService.FileList(FileNames(EXAMPLE_FILES)) == "a.pdf, b.pdf"
      && ready.session == Some(GeminiService.StartChat(["a.pdf", "b.pdf"], "X\n\n---\n\nY"))
      && HandleSendMessage(ready, "hello", ["Hi ", "there"], false).messages ==
           [Message(Model, Greeting(["a.pdf", "b.pdf"])), Message(User, "hello"), Message(Model, "Hi there")]
  {
    ExampleFileList();
    ExampleSession();
    ExampleNames();
    var ready := ProcessFinish(HandleFilesChange(INITIAL, EXAMPLE_FILES), ExampleParse);
    assert ready.messages == [Message(Model, Greeting(["a.pdf", "b.pdf"]))];
    SendTranscript(ready, "hello", ["Hi ", "there"], false);
    ExampleReply();
  }

  // ---------------------------------------------------------------------
  // The state invariant
  // ---------------------------------------------------------------------

  /** Things the handlers can deliver, in the order they happen. */
  datatype Event =
    | FilesSelected(selected: seq<File>)
    | FilesCleared
    | ProcessingDone(parse: Bytes -> Option<seq<PdfUtils.Page>>)
    | SetChosen(documentSets: map<string, DocumentSet>, setName: string)
    | SetFetched(paths: seq<string>, fetch: string -> Response)
    | MessageSent(text: string)
    | ChunkArrived(chunk: string)
    | StreamErrored
    | StreamEnded

  /** An event can occur: processing ends only for a non-empty file set; stream events need a transcript entry to write to. */
  predicate Enabled(s: AppState, e: Event)
  {
    match e
    case ProcessingDone(_) => |s.files| > 0
    case ChunkArrived(_) => |s.messages| > 0
    case StreamErrored => |s.messages| > 0
    case _ => true
  }

  /** The state after one event. */
  function Step(s: AppState, e: Event): AppState
    requires Enabled(s, e)
  {
    match e
    case FilesSelected(selected) => HandleFilesChange(s, selected)
    case FilesCleared => HandleClearFiles(s)
    case ProcessingDone(parse) => ProcessFinish(s, parse)
    case SetChosen(documentSets, setName) =>
      (match LoadSetStart(s, documentSets, setName)
       case Rejected(t) => t
       case Fetching(t, _) => t)
    case SetFetched(paths, fetch) => LoadSetFinish(s, paths, fetch)
    case MessageSent(text) => SendStart(s, text)
    case ChunkArrived(chunk) => AppendChunk(s, chunk)
    case StreamErrored => StreamFailed(s)
    case StreamEnded => StreamDone(s)
  }

  /** The state after a run of events, or None when one of them could not occur. */
  function Run(s: AppState, events: seq<Event>): Option<AppState>
    decreases |events|
  {
    if |events| == 0 then Some(s)
    else if !Enabled(s, events[0]) then None
    else Run(Step(s, events[0]), events[1..])
  }

  /**
   * A session exists only after processing ended successfully: then parsing
   * is over, there are files and the transcript is not empty. Without a
   * session the transcript is empty. The last transcript entry, if any, is
   * the model's: the greeting, a reply placeholder, a reply or an error.
   */
  predicate Inv(s: AppState)
  {
    && (s.session.Some? ==> !s.isParsing && |s.files| > 0 && |s.messages| > 0)
    && (s.session.None? ==> s.messages == [])
    && (|s.messages| > 0 ==> s.messages[|s.messages| - 1].role == Model)
  }

  /** Every event keeps the invariant. */
  lemma StepKeepsInv(s: AppState, e: Event)
    requires Inv(s) && Enabled(s, e)
    ensures Inv(Step(s, e))
  {
  }

  /** Every run of events from the start-up state ends in a state satisfying the invariant. */
  lemma {:induction false} RunKeepsInv(s: AppState, events: seq<Event>)
    requires Inv(s)
    ensures Run(s, events).Some? ==> Inv(Run(s, events).value)
    decreases |events|
  {
    if |events| > 0 && Enabled(s, events[0]) {
      StepKeepsInv(s, events[0]);
      RunKeepsInv(Step(s, events[0]), events[1..]);
    }
  }

  /** The start-up state satisfies the invariant. */
  lemma InitialInv()
    ensures Inv(INITIAL)
  {
  }

  /**
   * The chat pane's extra typing bubble, which needs a user entry last, is
   * never shown in a state satisfying the invariant: the send handler adds
   * the model placeholder together with the user message.
   */
  lemma TypingBubbleNeverShown(events: seq<Event>)
    requires Run(INITIAL, events).Some?
    ensures var s := Run(INITIAL, events).value;
      !ChatWindow.ShowTypingBubble(s.messages, s.isLoading)
  {
    RunKeepsInv(INITIAL, events);
  }

  /** Under the invariant the chat is ready exactly when a session exists, and stream events always have an entry to write to. */
  lemma ReadyMeansSession(s: AppState)
    requires Inv(s)
    ensures IsChatReady(s) <==> s.session.Some?
    ensures s.session.Some? ==> Enabled(s, ChunkArrived("")) && Enabled(s, StreamErrored)
  {
  }
}
