/**
 When a message history is well-formed for the chat wire, what one model turn appends to it,
 and why windowing and flattening keep it well-formed.
 */
module History {
  import opened Common
  import opened Context

  // ---------------------------------------------------------------- well-formedness

  ghost predicate Distinct<T(!new)>(s: seq<T>) {
    forall i, j | 0 <= i < j < |s| :: s[i] != s[j]
  }

  predicate Replies(m: Message, id: string) {
    m.role == Tool && m.toolCallId == id
  }

  /** The front of `messages` answers `ids`, one message each, in order. */
  ghost predicate Answers(messages: seq<Message>, ids: seq<string>) {
    |ids| <= |messages| && forall k | 0 <= k < |ids| :: Replies(messages[k], ids[k])
  }

  /**
   Every assistant turn with tool calls is followed at once by exactly one reply per call, the
   ids within a turn being distinct, and no other tool message occurs.
   */
  ghost predicate Paired(body: seq<Message>)
    decreases |body|
  {
    if body == [] then true
    else if OpensGroup(body[0]) then
      var ids := Ids(body[0].toolCalls);
      Distinct(ids) && Answers(body[1..], ids) && Paired(body[1 + |ids|..])
    else body[0].role != Tool && Paired(body[1..])
  }

  /** A parts message the loop itself appends starts with `[name] result`. */
  predicate FollowUp(c: Content) {
    c.Parts? ==>
      && |c.parts| == 2 && c.parts[0].TextPart?
      && exists k :: 0 <= k < |c.parts[0].text| - 1 && c.parts[0].text[k] == ']' && c.parts[0].text[k + 1] == ' '
  }

  /**
   A history fit to be sent: system, user, then a paired body; the placeholder occurs at most
   once, at index 2, and never last.
   */
  ghost predicate Good(messages: seq<Message>) {
    && |messages| >= 2
    && messages[0].role == System && messages[1].role == User
    && Paired(messages[2..])
    && (forall i | 3 <= i < |messages| :: !IsPlaceholder(messages[i]))
    && (|messages| == 3 ==> !IsPlaceholder(messages[2]))
    && (forall i | 2 <= i < |messages| :: FollowUp(messages[i].content))
  }

  /** A turn and its replies, put in front of what is paired. */
  lemma GroupFirst(a: seq<Message>, b: seq<Message>, n: nat)
    requires a != [] && OpensGroup(a[0]) && Paired(a) && n == 1 + |a[0].toolCalls| <= |a| && Paired(a[n..] + b)
    ensures Paired(a + b)
  {
    var all, ids := a + b, Ids(a[0].toolCalls);
    assert all[n..] == a[n..] + b && all[0] == a[0];
    assert forall k | 0 <= k < |ids| :: all[1..][k] == a[1..][k];
    assert Answers(all[1..], ids);
    hide Answers, Distinct;
    assert all != [] && Paired(all[1 + |ids|..]);
  }

  lemma {:induction false} PairedConcat(a: seq<Message>, b: seq<Message>)
    requires Paired(a) && Paired(b)
    ensures Paired(a + b)
    decreases |a|
  {
    hide Distinct;
    if a == [] {
      assert a + b == b;
    } else if OpensGroup(a[0]) {
      var n := 1 + |a[0].toolCalls|;
      PairedConcat(a[n..], b);
      GroupFirst(a, b, n);
    } else {
      PairedConcat(a[1..], b);
      assert (a + b)[1..] == a[1..] + b;
    }
  }

  // ---------------------------------------------------------------- segments and units agree

  lemma {:induction false} ReplyRunExact(messages: seq<Message>, ids: seq<string>, expected: set<string>)
    requires Answers(messages, ids) && Distinct(ids)
    requires expected == set k | 0 <= k < |ids| :: ids[k]
    ensures ReplyRun(messages, expected) == |ids|
    decreases |ids|
  {
    if ids != [] {
      assert ids[0] in expected;
      var rest := expected - {ids[0]};
      forall x
        ensures x in rest <==> x in set k | 0 <= k < |ids[1..]| :: ids[1..][k]
      {
        if x in rest {
          var k :| 0 <= k < |ids| && ids[k] == x;
          assert ids[1..][k - 1] == x;
        }
      }
      ReplyRunExact(messages[1..], ids[1..], rest);
    }
  }

  /** In a paired body the droppable unit is exactly a turn with all its replies. */
  lemma {:induction false} UnitIsTurn(body: seq<Message>)
    requires Paired(body) && body != []
    ensures UnitLength(body) == if OpensGroup(body[0]) then 1 + |body[0].toolCalls| else 1
    ensures Paired(body[UnitLength(body)..])
  {
    if OpensGroup(body[0]) {
      var calls := body[0].toolCalls;
      forall x
        ensures x in IdSet(calls) <==> x in set k | 0 <= k < |Ids(calls)| :: Ids(calls)[k]
      {
        if x in IdSet(calls) {
          var k :| 0 <= k < |calls| && calls[k].id == x;
          assert Ids(calls)[k] == x;
        }
      }
      ReplyRunExact(body[1..], Ids(calls), IdSet(calls));
    }
  }

  /** Dropping leading segments of a paired body leaves a paired body. */
  lemma {:induction false} PairedTail(body: seq<Message>, cut: nat)
    requires Paired(body) && cut <= |Segments(body)|
    ensures Paired(Flatten(Segments(body)[cut..]))
    decreases |body|
  {
    if cut == 0 {
      assert Segments(body)[0..] == Segments(body);
      SegmentsPartition(body);
    } else {
      UnitIsTurn(body);
      var rest := body[UnitLength(body)..];
      PairedTail(rest, cut - 1);
      assert Segments(body)[cut..] == Segments(rest)[cut - 1..];
    }
  }

  /** An over-budget history with more than one segment always loses its first one. */
  lemma {:induction false} CutsSomething(messages: seq<Message>, budget: int, count: seq<Message> -> int, start: nat)
    requires Windows(messages, budget, count) && Estimated(messages, budget, count, start)
    ensures start > 0 || |Segments(messages[2..])| == 1
  {
    var sizes := Sizes(Segments(messages[2..]));
    assert sizes[..0] == [];
  }

  lemma {:induction false} OneSegmentPlaceholder(body: seq<Message>)
    requires body != [] && IsPlaceholder(body[0]) && |Segments(body)| == 1
    ensures |body| == 1
  {
    SegmentsPartition(body);
    assert Segments(body)[1..] == [];
    assert Flatten([]) == [];
    assert Segments(body)[0] == body[..1];
  }

  /** A head, a placeholder, and a non-empty paired tail without the old placeholder is well-formed. */
  lemma {:induction false} ElidedIsGood(messages: seq<Message>, from: nat)
    requires Good(messages) && 2 + from < |messages| && Paired(messages[2 + from..])
    requires from > 0 || !IsPlaceholder(messages[2])
    ensures Good(messages[..2] + [PLACEHOLDER] + messages[2 + from..])
  {
    var result := messages[..2] + [PLACEHOLDER] + messages[2 + from..];
    assert result[2..][1..] == messages[2 + from..];
    forall i | 3 <= i < |result|
      ensures !IsPlaceholder(result[i]) && FollowUp(result[i].content)
    {
      assert result[i] == messages[i - 1 + from];
    }
  }

  /**
   Windowing keeps a history well-formed, whatever the budget and the counter: turns go with
   all their replies, and a second placeholder never appears.
   */
  lemma {:induction false} WindowKeepsGood(messages: seq<Message>, budget: int, count: seq<Message> -> int,
      start: nat, cut: nat)
    requires Good(messages) && Windows(messages, budget, count) && Estimated(messages, budget, count, start)
    requires StopsAt(messages[..2], Segments(messages[2..]), start, cut, budget, count)
    ensures Good(Candidate(messages[..2], Segments(messages[2..]), cut))
  {
    var body := messages[2..];
    var from := TailOfBody(body, cut);
    CutsSomething(messages, budget, count, start);
    if IsPlaceholder(body[0]) && |Segments(body)| == 1 {
      OneSegmentPlaceholder(body);
    }
    PairedTail(body, cut);
    assert body[from..] == messages[2 + from..];
    ElidedIsGood(messages, from);
  }

  // ---------------------------------------------------------------- flattening

  function MediaText(m: Media): string {
    match m
    case Image => "[image attachment]"
    case Audio => "[audio attachment]"
    case Video => "[video attachment]"
    case Unknown => ""
  }

  function FlattenParts(parts: seq<Part>): string {
    if parts == [] then ""
    else
      (match parts[0] case TextPart(text) => text case MediaPart(m) => MediaText(m)) + FlattenParts(parts[1..])
  }

  function FlattenMessage(m: Message): Message {
    if m.content.Parts? then m.(content := Text(FlattenParts(m.content.parts))) else m
  }

  function FlattenAll(messages: seq<Message>): (r: seq<Message>)
    ensures |r| == |messages|
  {
    seq(|messages|, i requires 0 <= i < |messages| => FlattenMessage(messages[i]))
  }

  lemma {:induction false} FlattenMiddle(a: seq<Part>, p: Part, b: seq<Part>)
    ensures FlattenParts(a + [p] + b) == FlattenParts(a) + FlattenParts([p]) + FlattenParts(b)
    decreases |a|
  {
    hide MediaText;
    var all := a + [p] + b;
    if a == [] {
      assert all[1..] == b && all[0] == p;
    } else {
      assert all[1..] == a[1..] + [p] + b;
      FlattenMiddle(a[1..], p, b);
    }
  }

  /** What a part reads as once flattened, wherever it stands. */
  lemma {:induction false} FlattenReads(a: seq<Part>, p: Part, b: seq<Part>)
    ensures FlattenParts(a + [p] + b) ==
            FlattenParts(a) + (if p.TextPart? then p.text else if p.media.Image? then "[image attachment]"
                               else if p.media.Audio? then "[audio attachment]"
                               else if p.media.Video? then "[video attachment]" else "") + FlattenParts(b)
    ensures FlattenParts([]) == ""
  {
    FlattenMiddle(a, p, b);
    var one := if p.TextPart? then p.text else MediaText(p.media);
    assert [p][1..] == [] && FlattenParts([p]) == one + "";
    assert one + "" == one;
  }

  /** Flattening touches a message's content only, and that only when it has parts. */
  lemma FlattenTouches(m: Message)
    ensures FlattenMessage(m) == m.(content := FlattenMessage(m).content) && !FlattenMessage(m).content.Parts?
    ensures !m.content.Parts? ==> FlattenMessage(m) == m
    ensures m.content.Parts? ==> FlattenMessage(m).content == Text(FlattenParts(m.content.parts))
  {
  }

  lemma {:induction false} FlattenPaired(body: seq<Message>)
    requires Paired(body)
    ensures Paired(FlattenAll(body))
    decreases |body|
  {
    if body != [] {
      var n := if OpensGroup(body[0]) then 1 + |body[0].toolCalls| else 1;
      FlattenPaired(body[n..]);
      assert FlattenAll(body)[n..] == FlattenAll(body[n..]);
    }
  }

  lemma PlaceholderHasNoBracketInside()
    ensures |PLACEHOLDER_TEXT| == 48 && ']' !in PLACEHOLDER_TEXT[..47]
  {
    var a, b, c := "[earlier steps ", "elided to fit ", "the context ";
    assert ']' !in a && ']' !in b && ']' !in c && ']' !in "budget";
    assert PLACEHOLDER_TEXT == a + b + c + "budget" + "]";
    assert PLACEHOLDER_TEXT[..47] == a + b + c + "budget";
  }

  /** A flattened follow-up is never mistaken for the placeholder: the placeholder has no `] ` inside. */
  lemma {:induction false} FollowUpIsNotPlaceholder(m: Message)
    requires m.content.Parts? && FollowUp(m.content)
    ensures !IsPlaceholder(FlattenMessage(m))
  {
    var text := m.content.parts[0].text;
    var k :| 0 <= k < |text| - 1 && text[k] == ']' && text[k + 1] == ' ';
    var flat := FlattenParts(m.content.parts);
    assert flat[k] == ']' && flat[k + 1] == ' ';
    assert flat[..|flat| - 1][k] == ']';
    PlaceholderHasNoBracketInside();
  }

  lemma {:induction false} FlattenKeepsGood(messages: seq<Message>)
    requires Good(messages)
    ensures Good(FlattenAll(messages))
  {
    FlattenPaired(messages[2..]);
    assert FlattenAll(messages)[2..] == FlattenAll(messages[2..]);
    forall i | 2 <= i < |messages| && !IsPlaceholder(messages[i])
      ensures !IsPlaceholder(FlattenMessage(messages[i]))
    {
      if messages[i].content.Parts? {
        FollowUpIsNotPlaceholder(messages[i]);
      }
    }
  }

  // ---------------------------------------------------------------- what one turn appends

  /** What the loop made of one call: the tool reply, and possibly a media follow-up. */
  datatype Output = Output(text: string, media: Option<Part>)

  function AssistantMessage(content: string, calls: seq<ToolCall>): Message {
    Message(Assistant, Text(content), calls, "")
  }

  function ToolMessage(id: string, text: string): Message {
    Message(Tool, Text(text), [], id)
  }

  function MediaMessage(name: string, text: string, part: Part): Message {
    Message(User, Parts([TextPart("[" + name + "] " + text), part]), [], "")
  }

  function Emitted(call: ToolCall, out: Output): seq<Message> {
    [ToolMessage(call.id, out.text)]
    + (if out.media.Some? then [MediaMessage(call.name, out.text, out.media.value)] else [])
  }

  function EmittedAll(calls: seq<ToolCall>, outs: seq<Output>): seq<Message>
    requires |calls| == |outs|
  {
    if calls == [] then [] else Emitted(calls[0], outs[0]) + EmittedAll(calls[1..], outs[1..])
  }

  /** Only the last call of the turn carries a media part. */
  ghost predicate MediaOnlyLast(outs: seq<Output>) {
    forall k | 0 <= k < |outs| - 1 :: outs[k].media.None?
  }

  lemma {:induction false} EmittedPlain(calls: seq<ToolCall>, outs: seq<Output>)
    requires |calls| == |outs| && MediaOnlyLast(outs)
    ensures |calls| <= |EmittedAll(calls, outs)| <= |calls| + 1
    ensures forall k | 0 <= k < |calls| :: Replies(EmittedAll(calls, outs)[k], calls[k].id)
    ensures forall k | |calls| <= k < |EmittedAll(calls, outs)| ::
              EmittedAll(calls, outs)[k].role == User && EmittedAll(calls, outs)[k].toolCalls == []
  {
    if calls != [] {
      EmittedPlain(calls[1..], outs[1..]);
      var first, rest := Emitted(calls[0], outs[0]), EmittedAll(calls[1..], outs[1..]);
      if |calls| > 1 {
        assert first == [ToolMessage(calls[0].id, outs[0].text)];
        forall k | 0 <= k < |calls|
          ensures Replies((first + rest)[k], calls[k].id)
        {
          if k > 0 { assert Replies(rest[k - 1], calls[1..][k - 1].id); }
        }
      } else {
        assert rest == [];
      }
    }
  }

  /** If the emitted messages answer the calls in place, no earlier call carried media. */
  lemma {:induction false} AnswersForbidMedia(calls: seq<ToolCall>, outs: seq<Output>)
    requires |calls| == |outs|
    requires Answers(EmittedAll(calls, outs), Ids(calls))
    ensures MediaOnlyLast(outs)
  {
    if |calls| > 1 {
      var first, rest := Emitted(calls[0], outs[0]), EmittedAll(calls[1..], outs[1..]);
      assert Replies((first + rest)[1], Ids(calls)[1]);
      assert outs[0].media.None?;
      forall k | 0 <= k < |calls| - 1
        ensures Replies(rest[k], Ids(calls[1..])[k])
      {
        assert (first + rest)[k + 1] == rest[k] && Ids(calls)[k + 1] == Ids(calls[1..])[k];
      }
      LengthAtLeast(calls[1..], outs[1..]);
      AnswersForbidMedia(calls[1..], outs[1..]);
      forall k | 0 <= k < |outs| - 1
        ensures outs[k].media.None?
      {
        if k > 0 { assert outs[k] == outs[1..][k - 1]; }
      }
    }
  }

  lemma {:induction false} LengthAtLeast(calls: seq<ToolCall>, outs: seq<Output>)
    requires |calls| == |outs|
    ensures |EmittedAll(calls, outs)| >= |calls|
  {
    if calls != [] {
      LengthAtLeast(calls[1..], outs[1..]);
    }
  }

  /**
   Exactly when a turn with tool calls is well-formed on the wire: its call ids are distinct
   and no call but the last attaches media.
   */
  lemma {:induction false} TurnPairedIff(content: string, calls: seq<ToolCall>, outs: seq<Output>)
    requires |calls| == |outs| && calls != []
    ensures Paired([AssistantMessage(content, calls)] + EmittedAll(calls, outs))
            <==> Distinct(Ids(calls)) && MediaOnlyLast(outs)
  {
    var turn := [AssistantMessage(content, calls)] + EmittedAll(calls, outs);
    var ids := Ids(calls);
    assert OpensGroup(turn[0]) && turn[1..] == EmittedAll(calls, outs);
    if Distinct(ids) && MediaOnlyLast(outs) {
      EmittedPlain(calls, outs);
      var rest := turn[1 + |ids|..];
      assert |rest| <= 1;
      if rest != [] {
        assert rest[0] == EmittedAll(calls, outs)[|calls|] && rest[1..] == [];
        assert Paired(rest[1..]);
      }
      assert Paired(rest) && Answers(turn[1..], ids);
    } else if Paired(turn) {
      AnswersForbidMedia(calls, outs);
    }
  }

  /**
   What goes wrong otherwise: with media on the first of two calls, dropping the oldest segment
   leaves a tool message no assistant turn announces.
   */
  lemma {:induction false} MidTurnMediaOrphans(first: ToolCall, second: ToolCall, a: Output, b: Output)
    requires first.id != second.id && a.media.Some? && b.media.None?
    ensures var turn := [AssistantMessage("", [first, second])] + EmittedAll([first, second], [a, b]);
            && |Segments(turn)| == 3
            && Flatten(Segments(turn)[2..]) == [ToolMessage(second.id, b.text)]
            && !Paired(Flatten(Segments(turn)[2..]))
  {
    var calls, outs := [first, second], [a, b];
    var assistant := AssistantMessage("", calls);
    var media := MediaMessage(first.name, a.text, a.media.value);
    var r1, r2 := ToolMessage(first.id, a.text), ToolMessage(second.id, b.text);
    assert calls[1..] == [second] && outs[1..] == [b] && [second][1..] == [] && [b][1..] == [];
    assert EmittedAll([second], [b]) == [r2];
    var turn := [assistant] + EmittedAll(calls, outs);
    assert turn == [assistant, r1, media, r2];
    assert calls[0].id in IdSet(calls);
    assert turn[1..] == [r1, media, r2] && [r1, media, r2][1..] == [media, r2];
    assert ReplyRun([media, r2], IdSet(calls) - {first.id}) == 0;
    assert UnitLength(turn) == 2 && turn[2..] == [media, r2];
    assert [media, r2][1..] == [r2] && [media, r2][..1] == [media] && [r2][..1] == [r2] && [r2][1..] == [];
    assert Segments([r2]) == [[r2]];
    assert Segments([media, r2]) == [[media], [r2]];
    assert Segments(turn) == [turn[..2], [media], [r2]];
    assert Segments(turn)[2..] == [[r2]];
    assert Flatten([[r2]]) == [r2];
  }

  lemma {:induction false} AppendKeepsGood(messages: seq<Message>, more: seq<Message>)
    requires Good(messages) && Paired(more)
    requires forall i | 0 <= i < |more| :: !IsPlaceholder(more[i]) && FollowUp(more[i].content)
    ensures Good(messages + more)
  {
    PairedConcat(messages[2..], more);
    assert (messages + more)[2..] == messages[2..] + more;
  }

  lemma {:induction false} EmittedShape(calls: seq<ToolCall>, outs: seq<Output>)
    requires |calls| == |outs|
    ensures forall i | 0 <= i < |EmittedAll(calls, outs)| ::
              !IsPlaceholder(EmittedAll(calls, outs)[i]) && FollowUp(EmittedAll(calls, outs)[i].content)
  {
    if calls != [] {
      EmittedShape(calls[1..], outs[1..]);
      if outs[0].media.Some? {
        var text := "[" + calls[0].name + "] " + outs[0].text;
        var k := |calls[0].name| + 1;
        assert text[k] == ']' && text[k + 1] == ' ';
      }
    }
  }

  /** A whole orderly turn keeps the history well-formed. */
  lemma {:induction false} TurnKeepsGood(messages: seq<Message>, content: string, calls: seq<ToolCall>,
      outs: seq<Output>)
    requires Good(messages) && |calls| == |outs| && calls != []
    requires Distinct(Ids(calls)) && MediaOnlyLast(outs)
    ensures Good(messages + ([AssistantMessage(content, calls)] + EmittedAll(calls, outs)))
  {
    TurnPairedIff(content, calls, outs);
    EmittedShape(calls, outs);
    AppendKeepsGood(messages, [AssistantMessage(content, calls)] + EmittedAll(calls, outs));
  }
}
