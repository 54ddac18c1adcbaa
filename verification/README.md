# Sehested AI chat client — Dafny model

The application is a single-page chat client. The user uploads PDF documents
or picks a predefined document set. The client extracts the documents' text
and opens a chat session with a hosted language model, using a system
instruction built from the file names and that text. Replies stream back
into the transcript chunk by chunk.

This project models the client's logic as pure functions over explicit state:

- `App` (App.tsx): the application state `AppState` has the fields files,
  session, messages, isLoading, isParsing and error. There is one
  transition per handler branch:
  - the files effect: processing start, success, failure, and the empty set;
  - clearing the files;
  - loading a predefined set: not found, no files, every download ok, or
    some download failed;
  - sending: no session, start, chunk appended, stream failure, finish.
  An event-driven `Step`/`Run` keeps a state invariant. Two lemmas relate
  App to the chat pane: the pane's guard is the only protection against a
  second concurrent send, and the pane's extra typing bubble never shows.
- `ChatWindow` (components/ChatWindow.tsx): the submit guard, the
  Enter/Shift key rule, the typing bubble, the disabled states and the
  transcript pane.
- `ChatMessage` (components/ChatMessage.tsx): cutting the text into plain
  and bold segments at `**`, and the icon, side and typing-indicator choice.
- `GeminiService` (services/geminiService.ts): the file list and the system
  instruction template.
- `PdfUtils` (utils/pdfUtils.ts): page text from text items, accumulation
  over the pages, and the final trim. Both a loop method and a functional
  definition are given.
- `JsStrings`: the JavaScript built-ins used above, written out with their
  JavaScript meaning:
  - `join`;
  - `indexOf` and `split` with a non-empty separator (left to right,
    non-overlapping matches);
  - `trim`, which removes the WhiteSpace and LineTerminator characters of
    ECMA-262.
- `Types`: the `Message` record (role `User` or `Model`, and the text).
  `Wrappers`: `Option`.

The outside world is not called. It enters only as plain inputs:

- the PDF parser is a function from bytes to an optional sequence of pages,
  where None means the parser threw;
- each fetch is a function from a path to a response (ok flag and body);
- a streamed reply is a sequence of chunks plus a flag saying whether the
  stream failed after them.

Two facts about the code that the model keeps:

- After a send, the transcript still starts with the greeting
  (App.tsx:65-70, 146): the send handler appends to the existing
  transcript. `App.TwoDocumentConversation` shows the greeting first.
- The code has no staleness guard against an earlier extraction or stream
  finishing after a newer file set. The model is sequential and adds no
  guard.

The set download fails as soon as any fetch fails: `Promise.all`
(App.tsx:114-125) rejects with whichever fetch fails first in time, which
need not be the first failing path in list order. The model names the first
failing path in list order; the `App.LoadSetFinish:` line under "Left out"
records the difference.

The invariant shows that the chat pane's extra typing bubble
(components/ChatWindow.tsx:56) never appears in a reachable state. Its
condition needs a user message last in the transcript. But the send handler
appends the user message and an empty model placeholder in a single update
(App.tsx:146), so the last entry is always the model's. While a reply is
awaited, the pane shows the empty placeholder bubble instead.

## Model

| member | source | states |
|---|---|---|
| JsStrings.IndexOfSpec | components/ChatMessage.tsx:22 | The match `split` looks for is the first occurrence of the separator: it occurs there, at no earlier index, and None means it occurs nowhere |
| JsStrings.IndexOfIs | components/ChatMessage.tsx:22 | Conversely, an occurrence with none before it is exactly the one the search returns |
| JsStrings.OccurrencesAfterFirst | components/ChatMessage.tsx:22 | The left-to-right count from any index is one for the first occurrence the search from there finds plus the count right after it, and zero when the search finds none |
| JsStrings.SplitCount | components/ChatMessage.tsx:22 | `split` returns one more piece than the number of non-overlapping occurrences, counted by an independent left-to-right scan |
| JsStrings.JoinSplit | components/ChatMessage.tsx:22 | Joining the pieces of a split with the same separator gives back the original text |
| JsStrings.SplitPartsFree | components/ChatMessage.tsx:22 | No piece of a split contains the separator |
| JsStrings.SplitJoin | services/geminiService.ts:9 | Splitting the join of a non-empty list of parts gives back the parts when no part contains the separator's first character |
| JsStrings.JoinLength | utils/pdfUtils.ts:22 | k >= 1 joined parts carry exactly k - 1 separators |
| JsStrings.JoinConcat | utils/pdfUtils.ts:22 | Joining two non-empty runs of parts is their joins with one separator between them |
| JsStrings.JoinPlacesParts | App.tsx:60 | Part k of a join sits after the k earlier parts and k separators, and a separator follows every part but the last |
| JsStrings.SplitAtSeparator | App.tsx:122 | With a one-character separator, splitting `x + sep + y` gives the pieces of `x` followed by the pieces of `y` |
| JsStrings.TrimStart | utils/pdfUtils.ts:26 | Drops leading whitespace: the result is a suffix, everything dropped is whitespace, and the result does not start with whitespace |
| JsStrings.TrimEnd | utils/pdfUtils.ts:26 | Drops trailing whitespace: the result is a prefix, everything dropped is whitespace, and the result does not end with whitespace |
| JsStrings.Trim | utils/pdfUtils.ts:26 | Neither end of the result is whitespace; the result is empty exactly when the input is all whitespace |
| JsStrings.TrimIsSlice | utils/pdfUtils.ts:26 | The trimmed text is a contiguous slice of the input with only whitespace outside it |
| JsStrings.TrimIdempotent | utils/pdfUtils.ts:26 | Trimming twice is the same as trimming once |
| JsStrings.TrimPadded | utils/pdfUtils.ts:26 | Trimming a text whose ends are not whitespace, followed by whitespace only, gives back the text |
| PdfUtils.ExtractTextFromPdf | utils/pdfUtils.ts:16-26 | The page loop computes the functional extraction (the accumulation, then trimmed); zero pages give ""; the result has no surrounding whitespace |
| PdfUtils.PageTextLength | utils/pdfUtils.ts:22 | A page of k >= 1 items is the item texts (`str`, or "" without one) plus exactly k - 1 single spaces |
| PdfUtils.AccumulatedIsJoin | utils/pdfUtils.ts:18-24 | For at least one page, the text before trimming is the page texts in page order joined by blank lines, with one more blank line after the last page |
| PdfUtils.ExtractedTextIsTrimmedSlice | utils/pdfUtils.ts:26 | The extracted text is a slice of the accumulation with only whitespace outside it, and trimming it again changes nothing |
| GeminiService.FileList | services/geminiService.ts:9 | No names give the placeholder; one name gives that name unchanged; more names give the first name, ", " and the list of the rest |
| GeminiService.FileListRoundTrip | services/geminiService.ts:9 | A non-empty list of names without commas is recovered in order by splitting the file list at ", " |
| GeminiService.Compose | services/geminiService.ts:10-17 | An instruction is the fixed head, the file list verbatim, the fixed middle wording, then the document content verbatim with a "---" line just before it and just after it, and finally the fixed tail |
| GeminiService.ContentRoundTrip | services/geminiService.ts:10-17 | Whatever the fixed wording and file list, the document content can be read back out of the instruction |
| GeminiService.ServiceContentRoundTrip | services/geminiService.ts:8-17 | In the service's own wording, the document content is read back out of the instruction built for the file names |
| GeminiService.InstructionDeterminesContent | services/geminiService.ts:10-17 | For the same wording and file list, two instructions are equal exactly when their document contents are equal |
| GeminiService.SessionInstructionsDiffer | services/geminiService.ts:8-22 | Two sessions opened for the same file names carry the same system instruction exactly when their document contents are equal |
| ChatMessage.SegmentsShape | components/ChatMessage.tsx:22-24 | There is one segment per `**` occurrence plus one; odd positions are bold and even positions plain; no segment contains `**` |
| ChatMessage.SegmentsWithoutMarker | components/ChatMessage.tsx:22 | Text without `**` is a single plain segment equal to the text |
| ChatMessage.SegmentsRejoin | components/ChatMessage.tsx:22 | Joining the segment texts with `**` gives back the message text |
| ChatMessage.SegmentsOfBoldRun | components/ChatMessage.tsx:22-24 | Plain text, `**`, text, `**`, plain text (none holding `*`) renders as plain, bold, plain |
| ChatMessage.Render | components/ChatMessage.tsx:21-49 | The bot icon is shown exactly for the model role and the user icon, right-aligned, otherwise; the typing indicator replaces the text exactly when loading, otherwise the body is the `**` pieces |
| ChatWindow.HandleSubmit | components/ChatWindow.tsx:33-39 | A send fires exactly when the input has a non-whitespace character, nothing is loading and the chat is ready; it sends the trimmed input and clears the box; otherwise the box is untouched |
| ChatWindow.HandleKeyDown | components/ChatWindow.tsx:41-46 | Enter without Shift prevents the default and submits; Shift+Enter and every other key never send and leave the input alone |
| ChatWindow.Conversation | components/ChatWindow.tsx:51-63 | The welcome panel exactly when the chat is not ready; otherwise one view per message in order, plus a bot typing bubble when loading with a user message last |
| ChatWindow.SendButtonMatchesSubmit | components/ChatWindow.tsx:81 | The send button is enabled exactly when pressing it would send |
| ChatWindow.LoadingBlocksSend | components/ChatWindow.tsx:35-45 | While loading, neither a submit nor Enter sends, and the input box is disabled |
| App.ProcessStart | App.tsx:51-54 | Processing start sets parsing and clears the error, the transcript and the session, keeping the files |
| App.ExtractAll | App.tsx:57-59 | Extraction is all or nothing: it succeeds exactly when every file parses, and then gives each file's extracted text in selection order |
| App.CombinedContentInOrder | App.tsx:60 | In the combined content, document k follows the earlier documents and separators, and exactly "\n\n---\n\n" follows every document but the last |
| App.ProcessFinish | App.tsx:56-77 | For a non-empty file set, parsing always ends false. With every file parsed, the session is opened for the names and the combined content, and the transcript is the greeting alone. Otherwise the file set and transcript are empty and the fixed error is set |
| App.GreetingShowsNamesInBold | App.tsx:65-70 | For file names without `*`, the greeting renders as plain lead-in, the ", "-joined names in bold, plain question |
| App.EmptyFileSetIsIdle | App.tsx:80-92 | Clearing or selecting no files leaves no session and an empty transcript, and leaves parsing, loading and the error unchanged |
| App.LoadSetStart | App.tsx:95-110 | An unknown set name or a missing or empty file list changes only the error: no fetch happens. Otherwise processing starts and the set's paths are fetched |
| App.FileNameWithoutSlash | App.tsx:122 | A path without "/" is its own file name, or "document.pdf" when empty |
| App.FileNameAfterLastSlash | App.tsx:122 | The file name of `dir/base` (base without "/") is base, or "document.pdf" when base is empty |
| App.Downloads | App.tsx:114-125 | One file per path, in path order, named after the path and holding the fetched body |
| App.FirstFailure | App.tsx:115-120 | None exactly when every fetch is ok; otherwise a failing position with every earlier fetch ok |
| App.LoadSetFinish | App.tsx:112-133 | All ok: the downloads become the file set, which starts processing. Otherwise the file set and transcript are empty, parsing is off and the error names a path whose fetch failed |
| App.LoadSetAllOrNothing | App.tsx:95-133 | The whole handler for a valid set: either the files are the downloads in path order with processing begun, or no files, parsing off and a fetch error |
| App.SendStart | App.tsx:136-146 | Without a session only the error changes. Otherwise the transcript grows by exactly the user text and an empty model placeholder, loading starts and the error clears |
| App.AppendChunk | App.tsx:151-157 | A chunk extends only the last message's text; every earlier message and every other field is unchanged |
| App.StreamChunks | App.tsx:151-158 | On a non-empty transcript, appending the chunks one at a time in arrival order is the same as appending their concatenation once |
| App.AppendTwice | App.tsx:151-157 | On a non-empty transcript, appending two chunks in turn is appending their concatenation |
| App.StreamFailed | App.tsx:159-170 | The last message is dropped only if its text is empty; exactly one model error message is appended; the error is set; nothing else changes |
| App.SendTranscript | App.tsx:136-174 | After a send: no session leaves the transcript alone; a completed stream adds the user text and the whole reply; a failed one adds the user text, the partial reply if non-empty, and one error message; with a session, loading ends, and without one it is unchanged |
| App.OnlyThePaneGuardsConcurrentSends | App.tsx:136-146 | A ready state that is loading stays ready (App.tsx:191), and the send handler would still accept a message; only the pane's guard (components/ChatWindow.tsx:35) refuses it |
| App.UiSubmitSends | components/ChatWindow.tsx:35-37 | When ready and not loading, a submit with content starts a send of the trimmed text |
| App.TwoRunExtraction | App.tsx:57-59 | Two files that each parse to one non-empty text run with no whitespace at either end extract, in order, to exactly those runs |
| App.TwoDocumentConversation | App.tsx:56-70 | Uploading "a.pdf" and "b.pdf" reading "X" and "Y" opens a session for "a.pdf, b.pdf" over "X\n\n---\n\nY"; a streamed reply follows the greeting and the user message |
| App.StepKeepsInv | App.tsx:48-174 | Every handler step enabled in the state keeps the invariant: a session implies parsing is over, files exist and the transcript is non-empty; no session implies an empty transcript; the last entry is the model's |
| App.RunKeepsInv | App.tsx:48-174 | Every run of handler events keeps the invariant |
| App.InitialInv | App.tsx:13-18 | The start-up state satisfies the invariant |
| App.TypingBubbleNeverShown | components/ChatWindow.tsx:56 | In every state reachable from start-up, the extra typing bubble's condition is false |
| App.ReadyMeansSession | App.tsx:191 | Under the invariant the chat is ready exactly when a session exists, and a stream event always has an entry to write to |

## Left out

- The manifest fetch at start-up (App.tsx:24-45) and every fetch of a PDF
  are network I/O. The set handler takes the manifest's sets as a map and
  each fetch as a path-to-response function.
- A set that lists the same path twice: the code fetches it twice
  (App.tsx:115-117), and the two outcomes can differ. Because each fetch is a
  function of the path, the model gives both the same outcome.
- `encodeURI` of a path (App.tsx:116). It only changes what is requested,
  not the file name, which is derived from the unencoded path.
- pdf.js parsing, its worker set-up and `getPage`. A parsed document is
  given as its pages of text items.
- The GoogleGenAI client, the model name and the streaming transport
  (services/geminiService.ts:6, 19-24). A session is represented by the
  file names and content it was opened with, from which its system
  instruction follows. A reply is a sequence of chunks plus a failure flag.
- Async interleaving of effects and handlers, such as a stale extraction or
  stream finishing after a newer file set. The model is sequential.
- App.AppendChunk: requires a non-empty transcript. The code would throw on
  an empty one, which only a concurrent clear during a stream can cause.
- App.AppendChunk: every chunk is a string. The SDK's `chunk.text` can be
  undefined for a chunk without a text part, and then `+=` appends the
  literal text "undefined" (App.tsx:152-155); the model does not cover that.
- App.AppendChunk: is one pure record update. The code copies the array
  shallowly and mutates the last message object in place, which the
  previous state shares, so an updater run twice (React's development
  double invocation) would append the chunk twice.
- App.StreamFailed: requires a non-empty transcript, for the same reason.
- App.ProcessFinish: requires a non-empty file set, because the effect
  starts processing only then (App.tsx:49).
- App.LoadSetFinish: names the first failing path in list order. The code
  names whichever fetch rejected first in time. Only non-ok responses are
  modelled: a `fetch` or `response.blob()` that itself rejects
  (App.tsx:117, 121) makes the banner carry the runtime's message
  (App.tsx:129-130), which does not name the path.
- The wording of the error banner texts. Errors are an `AppError` datatype,
  and the fetch failure carries its path.
- FileUpload.tsx, all layout, styling and icons, scrolling, `console.error`
  logging and vite.config.ts: presentation and build configuration.
- `split` and `indexOf` with an empty separator. The code never uses one.
- UTF-16 code units. Strings are sequences of Unicode scalar values, so a
  lone surrogate cannot be represented. Every separator and every character
  `trim` removes is a single code unit of the Basic Multilingual Plane, so
  `split`, `indexOf` and `trim` agree with JavaScript on every text the
  model can express.
- Object-key lookups that hit JavaScript prototype properties (a set named
  `toString`). The manifest is modelled as a map.
