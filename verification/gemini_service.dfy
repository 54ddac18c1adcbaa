/**
 * Session creation against the hosted model. Only the system instruction is
 * modelled: the client object, the model name and the transport are outside
 * the model, so a chat session is represented by what it was opened with,
 * from which its instruction follows.
 */
module GeminiService {
  import opened Wrappers
  import opened JsStrings

  /**
   * A chat session, identified by the file names and document text it was
   * opened with; its system instruction is derived from them.
   */
  datatype Chat = Chat(fileNames: seq<string>, documentContent: string) {
    /** The system instruction the session was created with. */
    function Instruction(): string
    {
      SystemInstruction(fileNames, documentContent)
    }
  }

  /** The file list used when no names are given. */
  const NO_DOCUMENTS := "No documents uploaded"

  /** Placed between consecutive file names. */
  const NAME_SEPARATOR := ", "

  /** The fixed wording of an instruction: before the file list, between it and the content, after the content. */
  datatype Template = Template(head: string, middle: string, tail: string)

  /** The wording the service uses. */
  const INSTRUCTION_TEMPLATE := Template(
    head := "You are a world-class expert specializing in analyzing and synthesizing information from multiple documents. The user has uploaded the following documents: ",
    middle := ".\n\nHere is the full content of these documents:\n",
    tail := "\n\nYour conversation must be strictly based on the content of these documents. When you don't have enough information from the documents, clearly state that the documents do not contain the answer. Do not use external knowledge unless the user explicitly asks you to search the web or use your general knowledge.")

  /** The line that opens the document content. */
  const OPENING_RULE := "---\n"

  /** The line that closes the document content. */
  const CLOSING_RULE := "\n---"

  /** The file list: the names joined by ", ", or a fixed placeholder when there are none. */
  function FileList(fileNames: seq<string>): (r: string)
    ensures |fileNames| == 0 ==> r == NO_DOCUMENTS
    ensures |fileNames| == 1 ==> r == fileNames[0]
    ensures |fileNames| > 1 ==> r == fileNames[0] + NAME_SEPARATOR + FileList(fileNames[1..])
  {
    if |fileNames| > 0 then Join(fileNames, NAME_SEPARATOR) else NO_DOCUMENTS
  }

  /** Where the document content begins inside an instruction with the given wording and file list. */
  function ContentStart(t: Template, fileList: string): nat
  {
    |t.head| + |fileList| + |t.middle| + |OPENING_RULE|
  }

  /**
   * An instruction: the head, the file list, the middle, the document
   * content verbatim between an opening and a closing rule, the tail.
   */
  function Compose(t: Template, fileList: string, documentContent: string): (r: string)
    ensures var at := ContentStart(t, fileList);
      && |r| == at + |documentContent| + |CLOSING_RULE| + |t.tail|
      && r[..|t.head|] == t.head
      && r[|t.head|..|t.head| + |fileList|] == fileList
      && r[|t.head| + |fileList|..at - |OPENING_RULE|] == t.middle
      && r[at - |OPENING_RULE|..at] == OPENING_RULE
      && r[at..at + |documentContent|] == documentContent
      && r[at + |documentContent|..at + |documentContent| + |CLOSING_RULE|] == CLOSING_RULE
      && r[|r| - |t.tail|..] == t.tail
  {
    Layout(t.head, fileList, t.middle, OPENING_RULE, documentContent, CLOSING_RULE, t.tail);
    t.head + fileList + t.middle + OPENING_RULE + documentContent + CLOSING_RULE + t.tail
  }

  /** Where each piece of a seven-piece concatenation lies. */
  lemma Layout(h: string, l: string, m: string, o: string, d: string, c: string, t: string)
    ensures var r := h + l + m + o + d + c + t;
      var at := |h| + |l| + |m| + |o|;
      && |r| == at + |d| + |c| + |t|
      && r[..|h|] == h
      && r[|h|..|h| + |l|] == l
      && r[|h| + |l|..at - |o|] == m
      && r[at - |o|..at] == o
      && r[at..at + |d|] == d
      && r[at + |d|..at + |d| + |c|] == c
      && r[|r| - |t|..] == t
  {
  }

  /** The system instruction for a set of file names and their combined text, in the service's wording. */
  function SystemInstruction(fileNames: seq<string>, documentContent: string): string
  {
    Compose(INSTRUCTION_TEMPLATE, FileList(fileNames), documentContent)
  }

  /** Opens a session for the file names and the combined document text. */
  function StartChat(fileNames: seq<string>, documentContent: string): Chat
  {
    Chat(fileNames, documentContent)
  }

  /**
   * Reads the document content back out of an instruction, given its
   * wording and file list; None when the instruction is too short to hold one.
   */
  function DocumentContentOf(t: Template, instruction: string, fileList: string): Option<string>
  {
    var at := ContentStart(t, fileList);
    var after := |CLOSING_RULE| + |t.tail|;
    if |instruction| < at + after then None
    else Some(instruction[at..|instruction| - after])
  }

  /** The document content can be read back out of the instruction, whatever the wording and file list. */
  lemma ContentRoundTrip(t: Template, fileList: string, documentContent: string)
    ensures DocumentContentOf(t, Compose(t, fileList, documentContent), fileList) == Some(documentContent)
  {
    var r := Compose(t, fileList, documentContent);
    assert |r| - (|CLOSING_RULE| + |t.tail|) == ContentStart(t, fileList) + |documentContent|;
  }

  /** With the same wording and file list, two instructions are equal exactly when their document contents are. */
  lemma InstructionDeterminesContent(t: Template, fileList: string, c1: string, c2: string)
    ensures Compose(t, fileList, c1) == Compose(t, fileList, c2) <==> c1 == c2
  {
    ContentRoundTrip(t, fileList, c1);
    ContentRoundTrip(t, fileList, c2);
  }

  /** In the service's wording, the document content is read back out of the instruction. */
  lemma ServiceContentRoundTrip(fileNames: seq<string>, documentContent: string)
    ensures DocumentContentOf(INSTRUCTION_TEMPLATE, SystemInstruction(fileNames, documentContent), FileList(fileNames))
      == Some(documentContent)
  {
    ContentRoundTrip(INSTRUCTION_TEMPLATE, FileList(fileNames), documentContent);
  }

  /** In the service's wording, two sessions over the same file names get the same instruction exactly when their contents are equal. */
  lemma SessionInstructionsDiffer(fileNames: seq<string>, c1: string, c2: string)
    ensures StartChat(fileNames, c1).Instruction() == StartChat(fileNames, c2).Instruction() <==> c1 == c2
  {
    InstructionDeterminesContent(INSTRUCTION_TEMPLATE, FileList(fileNames), c1, c2);
  }

  /** A non-empty list of names free of commas is recovered by splitting the file list at ", ". */
  lemma FileListRoundTrip(fileNames: seq<string>)
    requires |fileNames| > 0
    requires forall k :: 0 <= k < |fileNames| ==> ',' !in fileNames[k]
    ensures Split(FileList(fileNames), NAME_SEPARATOR) == fileNames
  {
    SplitJoin(fileNames, NAME_SEPARATOR);
  }
}
