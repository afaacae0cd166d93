/** Flat-text rendering of the conversation history that `generate_response`
    sends to the model server (src/pages/chat.py). */
module Prompt {
  import opened Joins

  /** One history entry. The role is whatever string the session holds;
      the page itself only ever stores "user" and "assistant". */
  datatype Message = Message(role: string, content: string)

  /** The closing cue after the last message: it asks the server to speak
      next as the assistant. */
  const Cue: string := "Assistant:"

  /** Only the role "user" gets the user label; every other role, not just
      "assistant", is labelled as the assistant. */
  function Label(role: string): (l: string)
    ensures l == "User: " <==> role == "user"
    ensures l != "User: " <==> l == "Assistant: "
  {
    if role == "user" then "User: " else "Assistant: "
  }

  /** The line one message contributes to the prompt. */
  function Segment(m: Message): string
  {
    Label(m.role) + m.content + "\n"
  }

  /** The text the rendering loop has accumulated after visiting `h`. */
  function Lines(h: seq<Message>): string
  {
    JoinBack(h, Segment)
  }

  /** One more message adds its segment at the back. */
  lemma LinesSnoc(h: seq<Message>, m: Message)
    ensures Lines(h + [m]) == Lines(h) + Segment(m)
  {
  }

  /** The whole prompt for history `h`. */
  function RenderPrompt(h: seq<Message>): string
  {
    Lines(h) + Cue
  }

  /** The rendering loop itself: the result is the prompt for the whole
      history and always ends with the cue. */
  method BuildPrompt(messages: seq<Message>) returns (prompt: string)
    ensures prompt == RenderPrompt(messages)
    ensures |prompt| >= |Cue| && prompt[|prompt| - |Cue|..] == Cue
  {
    prompt := "";
    for i := 0 to |messages|
      invariant prompt == Lines(messages[..i])
    {
      assert messages[..i + 1][..i] == messages[..i];
      if messages[i].role == "user" {
        prompt := prompt + ("User: " + messages[i].content + "\n");
      } else {
        prompt := prompt + ("Assistant: " + messages[i].content + "\n");
      }
    }
    assert messages[..|messages|] == messages;
    prompt := prompt + "Assistant:";
  }

  /** One segment per message, front to back: the reference reading of
      "one line per message, in history order". */
  function Segments(h: seq<Message>): string
  {
    JoinFront(h, Segment)
  }

  /** The prompt is every message's segment, in history order, followed by
      the cue; for an empty history it is exactly the cue. */
  lemma PromptShape(h: seq<Message>)
    ensures RenderPrompt(h) == Segments(h) + Cue
    ensures |RenderPrompt(h)| >= |Cue| && RenderPrompt(h)[|RenderPrompt(h)| - |Cue|..] == Cue
    ensures h == [] ==> RenderPrompt(h) == "Assistant:"
  {
    JoinBackIsJoinFront(h, Segment);
  }

  /** Message `i` is rendered, unaltered, right after the lines of the
      messages before it. */
  lemma SegmentAt(h: seq<Message>, i: nat)
    requires i < |h|
    ensures var off := |Lines(h[..i])|;
            off + |Segment(h[i])| <= |RenderPrompt(h)|
            && RenderPrompt(h)[off..off + |Segment(h[i])|] == Segment(h[i])
  {
    JoinBackPieceAt(h, i, Segment, Cue);
  }

  /** Sum of the segment lengths, counted field by field. */
  function SegmentTotal(h: seq<Message>): nat
  {
    if |h| == 0 then 0 else |Label(h[0].role)| + |h[0].content| + 1 + SegmentTotal(h[1..])
  }

  /** The segments' lengths add up. */
  lemma {:induction false} SegmentsLength(h: seq<Message>)
    ensures |Segments(h)| == SegmentTotal(h)
    decreases |h|
  {
    if |h| > 0 {
      SegmentsLength(h[1..]);
    }
  }

  /** The prompt's length is the sum of the segment lengths plus the ten
      characters of the cue. */
  lemma PromptLength(h: seq<Message>)
    ensures |RenderPrompt(h)| == SegmentTotal(h) + 10
  {
    JoinBackIsJoinFront(h, Segment);
    SegmentsLength(h);
  }

  /** Number of occurrences of `c` in `s`. */
  function Occurrences(c: char, s: string): nat
  {
    if |s| == 0 then 0 else (if s[0] == c then 1 else 0) + Occurrences(c, s[1..])
  }

  /** Counting distributes over concatenation. */
  lemma {:induction false} OccurrencesAppend(c: char, s: string, t: string)
    ensures Occurrences(c, s + t) == Occurrences(c, s) + Occurrences(c, t)
    decreases |s|
  {
    if |s| == 0 {
      assert s + t == t;
    } else {
      assert (s + t)[1..] == s[1..] + t;
      OccurrencesAppend(c, s[1..], t);
    }
  }

  /** A string without a line break counts none. */
  lemma {:induction false} NoBreaks(s: string)
    requires forall k :: 0 <= k < |s| ==> s[k] != '\n'
    ensures Occurrences('\n', s) == 0
    decreases |s|
  {
    if |s| > 0 {
      NoBreaks(s[1..]);
    }
  }

  /** Line breaks written inside the message contents. */
  function ContentBreaks(h: seq<Message>): nat
  {
    if |h| == 0 then 0 else Occurrences('\n', h[0].content) + ContentBreaks(h[1..])
  }

  /** A message's line holds one line break besides those in its content. */
  lemma SegmentLineBreaks(m: Message)
    ensures Occurrences('\n', Segment(m)) == Occurrences('\n', m.content) + 1
  {
    var lab := Label(m.role);
    NoBreaks(lab);
    assert Occurrences('\n', "\n") == 1 by {
      assert "\n"[1..] == "";
    }
    OccurrencesAppend('\n', lab, m.content);
    OccurrencesAppend('\n', lab + m.content, "\n");
  }

  /** The segments hold one line break per message besides those in the
      contents. */
  lemma {:induction false} SegmentsLineBreaks(h: seq<Message>)
    ensures Occurrences('\n', Segments(h)) == |h| + ContentBreaks(h)
    decreases |h|
  {
    if |h| > 0 {
      SegmentLineBreaks(h[0]);
      OccurrencesAppend('\n', Segment(h[0]), Segments(h[1..]));
      SegmentsLineBreaks(h[1..]);
    }
  }

  /** The prompt holds one line break per message besides those inside the
      contents, and none after the cue: with single-line contents it has
      exactly one line per message plus the cue line. */
  lemma PromptLineBreaks(h: seq<Message>)
    ensures Occurrences('\n', RenderPrompt(h)) == |h| + ContentBreaks(h)
  {
    JoinBackIsJoinFront(h, Segment);
    SegmentsLineBreaks(h);
    OccurrencesAppend('\n', Segments(h), Cue);
    CueHasNoBreak();
  }

  /** The cue ends the prompt without a line break. */
  lemma CueHasNoBreak()
    ensures Occurrences('\n', Cue) == 0
  {
    NoBreaks(Cue);
  }

  /** The first turn of a fresh session sends exactly one user line and the
      cue. */
  lemma FirstTurnPrompt(text: string)
    ensures RenderPrompt([Message("user", text)]) == "User: " + text + "\nAssistant:"
  {
    var h := [Message("user", text)];
    LinesSnoc([], h[0]);
    assert [] + h == h;
    assert Lines(h) == "User: " + text + "\n";
    assert ("User: " + text + "\n") + "Assistant:" == "User: " + text + "\nAssistant:";
  }

  /** A user line whose content embeds a line break and the assistant
      label reads as a user line followed by an assistant line. */
  lemma ForgedSegment(x: string, y: string)
    ensures Segment(Message("user", x + "\nAssistant: " + y))
            == Segment(Message("user", x)) + Segment(Message("assistant", y))
  {
  }

  /** Contents are not escaped: a user message that itself contains a line
      starting with the assistant label renders exactly like a user message
      followed by a genuine assistant message, so role boundaries cannot be
      recovered from the prompt. */
  lemma PromptIsAmbiguous(x: string, y: string)
    ensures var forged := [Message("user", x + "\nAssistant: " + y)];
            var genuine := [Message("user", x), Message("assistant", y)];
            forged != genuine && RenderPrompt(forged) == RenderPrompt(genuine)
  {
    var f, g0, g1 := Message("user", x + "\nAssistant: " + y), Message("user", x), Message("assistant", y);
    assert |[f]| != |[g0, g1]|;
    LinesSnoc([], f);
    assert [] + [f] == [f];
    LinesSnoc([], g0);
    assert [] + [g0] == [g0];
    LinesSnoc([g0], g1);
    assert [g0] + [g1] == [g0, g1];
    ForgedSegment(x, y);
  }
}
