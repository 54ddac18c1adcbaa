/**
 * The chat pane: the submit guard, the Enter-key rule, the typing bubble and
 * the disabled states of the input box and the send button.
 */
module ChatWindow {
  import opened Wrappers
  import opened Types
  import opened JsStrings
  import ChatMessage

  /** The outcome of a submit: the text handed to the send callback, if any, and the input box afterwards. */
  datatype Submission = Submission(sent: Option<string>, input: string)

  /** The outcome of a key press in the input box: whether the default action is suppressed, and the submit it caused. */
  datatype KeyOutcome = KeyOutcome(defaultPrevented: bool, submission: Submission)

  /** What the transcript area shows: the welcome panel, or the message views. */
  datatype Pane = Welcome | Transcript(views: seq<ChatMessage.View>)

  /** The input holds a character that is not whitespace. */
  predicate HasContent(input: string)
  {
    exists k :: 0 <= k < |input| && !IsWhitespace(input[k])
  }

  /** Submit: sends the trimmed input and clears the box only when there is content, nothing is loading and the chat is ready. */
  function HandleSubmit(input: string, isLoading: bool, isChatReady: bool): (r: Submission)
    ensures r.sent.Some? <==> HasContent(input) && !isLoading && isChatReady
    ensures r.sent.Some? ==> r.sent.value == Trim(input) && r.input == ""
    ensures r.sent.Some? ==> |r.sent.value| > 0 && !IsWhitespace(r.sent.value[0]) && !IsWhitespace(r.sent.value[|r.sent.value| - 1])
    ensures r.sent.None? ==> r.input == input
  {
    var trimmed := Trim(input);
    if trimmed != "" && !isLoading && isChatReady then Submission(Some(trimmed), "") else Submission(None, input)
  }

  /** Enter without Shift suppresses the newline and submits; every other key leaves input and sending alone. */
  function HandleKeyDown(key: string, shiftKey: bool, input: string, isLoading: bool, isChatReady: bool): (r: KeyOutcome)
    ensures r.defaultPrevented <==> key == "Enter" && !shiftKey
    ensures r.defaultPrevented ==> r.submission == HandleSubmit(input, isLoading, isChatReady)
    ensures !r.defaultPrevented ==> r.submission == Submission(None, input)
  {
    if key == "Enter" && !shiftKey then KeyOutcome(true, HandleSubmit(input, isLoading, isChatReady))
    else KeyOutcome(false, Submission(None, input))
  }

  /** The extra typing bubble: shown while loading when the last message is the user's. */
  predicate ShowTypingBubble(messages: seq<Message>, isLoading: bool)
  {
    isLoading && |messages| > 0 && messages[|messages| - 1].role == User
  }

  /** The input box is disabled until the chat is ready and while a reply is loading. */
  predicate InputDisabled(isChatReady: bool, isLoading: bool)
  {
    !isChatReady || isLoading
  }

  /** The send button is disabled as the input box is, and also when the input has no content. */
  predicate SendButtonDisabled(input: string, isChatReady: bool, isLoading: bool)
  {
    InputDisabled(isChatReady, isLoading) || Trim(input) == ""
  }

  /** The transcript area: the welcome panel until the chat is ready, then every message, plus the typing bubble when it is due. */
  function Conversation(messages: seq<Message>, isLoading: bool, isChatReady: bool): (p: Pane)
    ensures p.Welcome? <==> !isChatReady
    ensures isChatReady ==> |p.views| == |messages| + (if ShowTypingBubble(messages, isLoading) then 1 else 0)
    ensures isChatReady ==> forall k :: 0 <= k < |messages| ==> p.views[k] == ChatMessage.Render(messages[k], false)
    ensures isChatReady && ShowTypingBubble(messages, isLoading) ==>
      p.views[|messages|] == ChatMessage.View(ChatMessage.BotIcon, false, ChatMessage.TypingIndicator)
  {
    if !isChatReady then Welcome
    else
      var views := seq(|messages|, k requires 0 <= k < |messages| => ChatMessage.Render(messages[k], false));
      var bubble := if ShowTypingBubble(messages, isLoading) then [ChatMessage.Render(Message(Model, ""), true)] else [];
      Transcript(views + bubble)
  }

  /** The send button is enabled exactly when pressing it would send. */
  lemma SendButtonMatchesSubmit(input: string, isChatReady: bool, isLoading: bool)
    ensures !SendButtonDisabled(input, isChatReady, isLoading) <==> HandleSubmit(input, isLoading, isChatReady).sent.Some?
  {
  }

  /** While a reply is loading, neither a submit nor a key press sends, and the input box is disabled. */
  lemma LoadingBlocksSend(key: string, shiftKey: bool, input: string, isChatReady: bool)
    ensures HandleSubmit(input, true, isChatReady).sent.None?
    ensures HandleKeyDown(key, shiftKey, input, true, isChatReady).submission.sent.None?
    ensures InputDisabled(isChatReady, true)
  {
  }
}
