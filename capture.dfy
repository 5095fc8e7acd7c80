/**
 * Transcript shaping for the capture pipeline: the records of a conversation
 * log become role-tagged messages, and the messages become one labelled text
 * whose length is capped by keeping its tail behind a fixed marker.
 *
 * Records arrive already decoded from their JSON lines; a line that is not
 * valid JSON is `Unparsable`.
 */
module Capture {
  import opened Wrappers
  import opened Text

  const MaxTranscriptChars := 50000

  /** Put in front of a transcript whose head was cut off. */
  const TruncationMarker := "...[truncated]...\n\n"

  /** One element of a block-list content: its type tag and, for text blocks, its text. */
  datatype Block = Block(blockType: string, text: string)

  /** The two shapes of a record's content. */
  datatype Content = Str(s: string) | Blocks(blocks: seq<Block>)

  /** A decoded transcript record. */
  datatype Record = Record(recordType: string, content: Content, uuid: string, timestamp: string)

  /** A line of the log: not valid JSON, or a decoded record. */
  datatype Line = Unparsable | Decoded(record: Record)

  datatype Message = Message(role: string, content: string, uuid: string, timestamp: string)

  /** The texts of the text blocks, in order. */
  function TextBlocks(blocks: seq<Block>): (texts: seq<string>)
    ensures |texts| <= |blocks|
  {
    if blocks == [] then []
    else (if blocks[0].blockType == "text" then [blocks[0].text] else []) + TextBlocks(blocks[1..])
  }

  lemma {:induction false} TextBlocksAppend(xs: seq<Block>, ys: seq<Block>)
    ensures TextBlocks(xs + ys) == TextBlocks(xs) + TextBlocks(ys)
    decreases xs
  {
    if xs == [] {
      assert xs + ys == ys;
    } else {
      var head := if xs[0].blockType == "text" then [xs[0].text] else [];
      assert (xs + ys)[0] == xs[0];
      assert (xs + ys)[1..] == xs[1..] + ys;
      assert TextBlocks(xs + ys) == head + TextBlocks(xs[1..] + ys);
      TextBlocksAppend(xs[1..], ys);
      assert head + (TextBlocks(xs[1..]) + TextBlocks(ys)) == (head + TextBlocks(xs[1..])) + TextBlocks(ys);
    }
  }

  /** A message's text: a plain string as it is, or the text blocks joined by newlines. */
  function FlattenContent(content: Content): string {
    match content
    case Str(s) => s
    case Blocks(blocks) => Join(TextBlocks(blocks), "\n")
  }

  /** Blocks that are not text blocks (tool calls, tool results) leave the text unchanged wherever they occur. */
  lemma NonTextBlockDropped(xs: seq<Block>, b: Block, ys: seq<Block>)
    requires b.blockType != "text"
    ensures FlattenContent(Blocks(xs + [b] + ys)) == FlattenContent(Blocks(xs + ys))
  {
    TextBlocksAppend(xs + [b], ys);
    TextBlocksAppend(xs, [b]);
    assert [b][1..] == [];
    assert TextBlocks([b]) == [];
    TextBlocksAppend(xs, ys);
    assert TextBlocks(xs + [b] + ys) == TextBlocks(xs) + [] + TextBlocks(ys) == TextBlocks(xs + ys);
  }

  /** A text block placed after others is joined to them by one newline. */
  lemma TextBlockJoinedByNewline(xs: seq<Block>, b: Block)
    requires b.blockType == "text" && TextBlocks(xs) != []
    ensures FlattenContent(Blocks(xs + [b])) == FlattenContent(Blocks(xs)) + "\n" + b.text
  {
    TextBlocksAppend(xs, [b]);
    assert [b][1..] == [];
    assert TextBlocks([b]) == [b.text];
    JoinAppend(TextBlocks(xs), [b.text], "\n");
  }

  /** Only user and assistant records become messages. */
  predicate Kept(r: Record) {
    r.recordType == "user" || r.recordType == "assistant"
  }

  function ToMessage(r: Record): Message {
    Message(r.recordType, FlattenContent(r.content), r.uuid, r.timestamp)
  }

  /** The messages of some log lines, in log order. */
  function Messages(lines: seq<Line>): (ms: seq<Message>)
    ensures |ms| <= |lines|
    ensures forall i :: 0 <= i < |ms| ==> ms[i].role == "user" || ms[i].role == "assistant"
  {
    if lines == [] then []
    else
      var last := lines[|lines| - 1];
      Messages(lines[..|lines| - 1]) + (if last.Decoded? && Kept(last.record) then [ToMessage(last.record)] else [])
  }

  /** Messages of a concatenated log are the messages of each part, in order. */
  lemma {:induction false} MessagesAppend(xs: seq<Line>, ys: seq<Line>)
    ensures Messages(xs + ys) == Messages(xs) + Messages(ys)
    decreases ys
  {
    if ys == [] {
      assert xs + ys == xs;
    } else {
      var init := ys[..|ys| - 1];
      assert (xs + ys)[..|xs + ys| - 1] == xs + init;
      MessagesAppend(xs, init);
    }
  }

  /** A single line gives its message when it is a kept record, and nothing otherwise. */
  lemma SingleLine(l: Line)
    ensures Messages([l]) == if l.Decoded? && Kept(l.record) then [ToMessage(l.record)] else []
  {
    assert [l][..0] == [];
  }

  /**
   * Lines that are not valid JSON, and records of any other type, are skipped
   * wherever they occur.
   */
  lemma SkippedLine(xs: seq<Line>, l: Line, ys: seq<Line>)
    requires l.Unparsable? || !Kept(l.record)
    ensures Messages(xs + [l] + ys) == Messages(xs + ys)
  {
    MessagesAppend(xs + [l], ys);
    MessagesAppend(xs, [l]);
    SingleLine(l);
    MessagesAppend(xs, ys);
  }

  /** `parse_transcript`: a missing file (`None`) gives no messages. */
  function ParseTranscript(file: Option<seq<Line>>): (ms: seq<Message>)
    ensures file.None? ==> ms == []
    ensures file == Some([]) ==> ms == []
    ensures file.Some? ==> |ms| <= |file.value|
  {
    match file
    case None => []
    case Some(lines) => Messages(lines)
  }

  /**
   * A user turn with a plain string and an assistant turn with a text block and
   * a tool call give exactly the two messages, the tool call dropped.
   */
  lemma UserAndAssistantTurns(user: string, reply: string)
    ensures
      var u := Record("user", Str(user), "u1", "t1");
      var a := Record("assistant", Blocks([Block("text", reply), Block("tool_use", "")]), "u2", "t2");
      ParseTranscript(Some([Decoded(u), Decoded(a)])) ==
        [Message("user", user, "u1", "t1"), Message("assistant", reply, "u2", "t2")]
  {
    var u := Record("user", Str(user), "u1", "t1");
    var a := Record("assistant", Blocks([Block("text", reply), Block("tool_use", "")]), "u2", "t2");
    SingleLine(Decoded(u));
    SingleLine(Decoded(a));
    MessagesAppend([Decoded(u)], [Decoded(a)]);
    assert [Decoded(u)] + [Decoded(a)] == [Decoded(u), Decoded(a)];
    var blocks := [Block("text", reply), Block("tool_use", "")];
    assert blocks[1..][1..] == [];
    assert TextBlocks(blocks[1..]) == [];
    assert TextBlocks(blocks) == [reply];
    assert FlattenContent(a.content) == reply;
  }

  /** `[ROLE]: content` */
  function Label(m: Message): string {
    "[" + Upper(m.role) + "]: " + m.content
  }

  /** The labels of the messages whose content is not blank, in order. */
  function Labels(messages: seq<Message>): (ls: seq<string>)
    ensures |ls| <= |messages|
  {
    if messages == [] then []
    else (if IsBlank(messages[0].content) then [] else [Label(messages[0])]) + Labels(messages[1..])
  }

  lemma {:induction false} LabelsAppend(xs: seq<Message>, ys: seq<Message>)
    ensures Labels(xs + ys) == Labels(xs) + Labels(ys)
    decreases xs
  {
    if xs == [] {
      assert xs + ys == ys;
    } else {
      assert (xs + ys)[1..] == xs[1..] + ys;
      LabelsAppend(xs[1..], ys);
    }
  }

  /**
   * `assemble_transcript_text`: the labelled messages joined by blank lines,
   * and, when that is longer than `maxChars`, only its last `maxChars`
   * characters behind the truncation marker.
   */
  function AssembleTranscriptText(messages: seq<Message>, maxChars: nat): (r: string)
    ensures |r| <= maxChars + |TruncationMarker|
    ensures var text := Join(Labels(messages), "\n\n");
      if |text| <= maxChars then r == text
      else |r| == |TruncationMarker| + maxChars &&
           r[..|TruncationMarker|] == TruncationMarker &&
           r[|TruncationMarker|..] == text[|text| - maxChars..]
  {
    var text := Join(Labels(messages), "\n\n");
    if |text| > maxChars then TruncationMarker + text[|text| - maxChars..] else text
  }

  /** A message whose content is blank contributes nothing, wherever it occurs. */
  lemma BlankMessageIgnored(xs: seq<Message>, m: Message, ys: seq<Message>, maxChars: nat)
    requires IsBlank(m.content)
    ensures AssembleTranscriptText(xs + [m] + ys, maxChars) == AssembleTranscriptText(xs + ys, maxChars)
  {
    BlankLabelDropped(xs, m, ys);
  }

  lemma BlankLabelDropped(xs: seq<Message>, m: Message, ys: seq<Message>)
    requires IsBlank(m.content)
    ensures Labels(xs + [m] + ys) == Labels(xs + ys)
  {
    LabelsAppend(xs + [m], ys);
    LabelsAppend(xs, [m]);
    assert [m][1..] == [];
    assert Labels([m]) == [];
    LabelsAppend(xs, ys);
    assert Labels(xs + [m] + ys) == Labels(xs) + [] + Labels(ys) == Labels(xs + ys);
  }

  /** Two non-blank messages are labelled with their upper-cased roles and separated by a blank line. */
  lemma TwoMessagesLabelled(a: Message, b: Message)
    requires !IsBlank(a.content) && !IsBlank(b.content)
    ensures Join(Labels([a, b]), "\n\n") ==
      "[" + Upper(a.role) + "]: " + a.content + "\n\n[" + Upper(b.role) + "]: " + b.content
  {
    assert [a, b][1..] == [b];
    assert Labels([b]) == [Label(b)];
    assert Labels([a, b]) == [Label(a), Label(b)];
    assert [Label(a), Label(b)][1..] == [Label(b)];
  }

  /** Under the default cap, whatever the transcript, the text has at most 50,019 characters. */
  lemma DefaultCapBound(file: Option<seq<Line>>)
    ensures |AssembleTranscriptText(ParseTranscript(file), MaxTranscriptChars)| <= 50019
  {
  }
}
