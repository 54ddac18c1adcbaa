/**
 * Rendering of one transcript entry: which icon it gets, which side it sits
 * on, and how its text is cut at `**` markers into plain and bold runs.
 */
module ChatMessage {
  import opened Types
  import opened JsStrings

  /** The marker that toggles bold text. */
  const BOLD_MARKER := "**"

  /** A run of message text, shown plain or bold. */
  datatype Segment = Plain(text: string) | Bold(text: string)

  /** The icon beside a message. */
  datatype Icon = BotIcon | UserIcon

  /** What a message bubble shows: the typing indicator, or the text as segments. */
  datatype Body = TypingIndicator | Content(segments: seq<Segment>)

  /** A rendered message: its icon, whether it is pushed to the right edge, and its body. */
  datatype View = View(icon: Icon, alignRight: bool, body: Body)

  /** The text split at `**`; pieces at odd positions are bold, those at even positions plain. */
  function Segments(text: string): seq<Segment>
  {
    var parts := Split(text, BOLD_MARKER);
    seq(|parts|, k requires 0 <= k < |parts| => if k % 2 == 1 then Bold(parts[k]) else Plain(parts[k]))
  }

  /** The texts of the segments, in order. */
  function SegmentTexts(segments: seq<Segment>): seq<string>
  {
    seq(|segments|, k requires 0 <= k < |segments| => segments[k].text)
  }

  /** A message view: the bot icon on the left for the model, the user icon on the right otherwise; the typing indicator replaces the text while loading. */
  function Render(message: Message, isLoading: bool): (v: View)
    ensures v.icon == BotIcon <==> message.role == Model
    ensures v.alignRight <==> message.role != Model
    ensures isLoading <==> v.body == TypingIndicator
    ensures !isLoading ==> SegmentTexts(v.body.segments) == Split(message.text, BOLD_MARKER)
  {
    var isModel := message.role == Model;
    View(if isModel then BotIcon else UserIcon, !isModel, if isLoading then TypingIndicator else Content(Segments(message.text)))
  }

  /** There is one segment per `**` marker plus one; they alternate plain, bold, plain, ...; none holds a marker. */
  lemma SegmentsShape(text: string)
    ensures |Segments(text)| == Occurrences(text, BOLD_MARKER) + 1
    ensures forall k :: 0 <= k < |Segments(text)| ==> (Segments(text)[k].Bold? <==> k % 2 == 1)
    ensures forall k, j: nat :: 0 <= k < |Segments(text)| ==> !OccursAt(Segments(text)[k].text, BOLD_MARKER, j)
  {
    SplitCount(text, BOLD_MARKER);
    SplitPartsFree(text, BOLD_MARKER);
  }

  /** Text without a `**` marker is a single plain segment holding the whole text. */
  lemma SegmentsWithoutMarker(text: string)
    requires IndexOf(text, BOLD_MARKER).None?
    ensures Segments(text) == [Plain(text)]
  {
  }

  /** Joining the segment texts with `**` gives back the message text. */
  lemma SegmentsRejoin(text: string)
    ensures Join(SegmentTexts(Segments(text)), BOLD_MARKER) == text
  {
    assert SegmentTexts(Segments(text)) == Split(text, BOLD_MARKER);
    JoinSplit(text, BOLD_MARKER);
  }

  /** Text with one bold run between two plain runs, none holding a `*`, renders as exactly those three segments. */
  lemma SegmentsOfBoldRun(before: string, bold: string, after: string)
    requires '*' !in before && '*' !in bold && '*' !in after
    ensures Segments(before + BOLD_MARKER + bold + BOLD_MARKER + after) == [Plain(before), Bold(bold), Plain(after)]
  {
    var parts := [before, bold, after];
    var text := before + BOLD_MARKER + bold + BOLD_MARKER + after;
    assert Split(text, BOLD_MARKER) == parts by {
      assert Join(parts, BOLD_MARKER) == text by {
        assert parts[1..] == [bold, after];
        assert parts[1..][1..] == [after];
        assert Join(parts[1..], BOLD_MARKER) == bold + BOLD_MARKER + after;
      }
      assert BOLD_MARKER[0] == '*';
      SplitJoin(parts, BOLD_MARKER);
    }
    var segments := Segments(text);
    assert segments[0] == Plain(before) && segments[1] == Bold(bold) && segments[2] == Plain(after);
  }
}
