/**
 Windowing a message history to a token budget: the character counter, the segments that may
 be dropped, the proportional estimate of where to cut, and the verified cut itself.
 */
module Context {
  import opened Common

  // ---------------------------------------------------------------- messages

  datatype ToolCall = ToolCall(id: string, name: string, arguments: string)

  datatype Media = Image | Audio | Video | Unknown

  datatype Part = TextPart(text: string) | MediaPart(media: Media)

  datatype Content = NoContent | Text(text: string) | Parts(parts: seq<Part>)

  datatype Role = System | User | Assistant | Tool

  datatype Message = Message(role: Role, content: Content, toolCalls: seq<ToolCall>, toolCallId: string)

  /** In pieces, so that its length can be added up from theirs. */
  const PLACEHOLDER_TEXT: string := "[earlier steps " + "elided to fit " + "the context " + "budget" + "]"
  const PLACEHOLDER: Message := Message(User, Text(PLACEHOLDER_TEXT), [], "")

  /** The estimate for one media part, in tokens. */
  const IMAGE_TOKEN_ESTIMATE: nat := 260

  predicate IsPlaceholder(m: Message) {
    m.role == User && m.content == Text(PLACEHOLDER_TEXT)
  }

  // ---------------------------------------------------------------- the character counter

  function PartSize(p: Part): nat {
    match p
    case TextPart(text) => |text|
    case MediaPart(_) => IMAGE_TOKEN_ESTIMATE * 4
  }

  function PartsSize(parts: seq<Part>): nat {
    if parts == [] then 0 else PartsSize(parts[..|parts| - 1]) + PartSize(parts[|parts| - 1])
  }

  function ContentSize(c: Content): nat {
    match c
    case NoContent => 0
    case Text(text) => |text|
    case Parts(parts) => PartsSize(parts)
  }

  function CallsSize(calls: seq<ToolCall>): nat {
    if calls == [] then 0
    else CallsSize(calls[..|calls| - 1]) + |calls[|calls| - 1].name| + |calls[|calls| - 1].arguments|
  }

  function MessageSize(m: Message): nat {
    ContentSize(m.content) + CallsSize(m.toolCalls)
  }

  /** Characters of a list of messages: contents, plus the name and arguments of every call. */
  function Size(messages: seq<Message>): nat {
    if messages == [] then 0 else Size(messages[..|messages| - 1]) + MessageSize(messages[|messages| - 1])
  }

  /** The estimate: a quarter of the characters, rounded down, but never 0 for some text. */
  function Tokens(messages: seq<Message>): (tokens: int)
    ensures tokens >= 0 && (Size(messages) == 0 ==> tokens == 0)
    ensures 0 < Size(messages) < 4 ==> tokens == 1
    ensures Size(messages) >= 4 ==> 4 * tokens <= Size(messages) < 4 * tokens + 4
  {
    var total := Size(messages);
    if total == 0 then 0 else if total / 4 < 1 then 1 else total / 4
  }

  method ContentChars(content: Content) returns (total: nat)
    ensures total == ContentSize(content)
  {
    match content
    case NoContent => total := 0;
    case Text(text) => total := |text|;
    case Parts(parts) =>
      total := 0;
      for i := 0 to |parts|
        invariant total == PartsSize(parts[..i])
      {
        match parts[i] {
          case TextPart(text) => total := total + |text|;
          case MediaPart(_) => total := total + IMAGE_TOKEN_ESTIMATE * 4;
        }
        assert parts[..i + 1][..i] == parts[..i];
      }
      assert parts[..|parts|] == parts;
  }

  method SegChars(seg: seq<Message>) returns (total: nat)
    ensures total == Size(seg)
  {
    total := 0;
    for i := 0 to |seg|
      invariant total == Size(seg[..i])
    {
      var chars := ContentChars(seg[i].content);
      total := total + chars;
      var calls := seg[i].toolCalls;
      for j := 0 to |calls|
        invariant total == Size(seg[..i]) + ContentSize(seg[i].content) + CallsSize(calls[..j])
      {
        total := total + |calls[j].name| + |calls[j].arguments|;
        assert calls[..j + 1][..j] == calls[..j];
      }
      assert calls[..|calls|] == calls;
      assert seg[..i + 1][..i] == seg[..i];
    }
    assert seg[..|seg|] == seg;
  }

  method CountTokensChars(messages: seq<Message>) returns (tokens: int)
    ensures tokens == Tokens(messages)
  {
    var total := SegChars(messages);
    if total == 0 {
      return 0;
    }
    return if total / 4 < 1 then 1 else total / 4;
  }

  lemma {:induction false} SizeConcat(a: seq<Message>, b: seq<Message>)
    ensures Size(a + b) == Size(a) + Size(b)
    decreases |b|
  {
    if b == [] {
      assert a + b == a;
    } else {
      var n := |b| - 1;
      assert (a + b)[..|a + b| - 1] == a + b[..n];
      SizeConcat(a, b[..n]);
    }
  }

  /** What the counter weighs, part by part: text by its characters, other media at 260 tokens each. */
  lemma {:induction false} PartsWeigh(a: seq<Part>, p: Part, b: seq<Part>)
    ensures ContentSize(Parts(a + [p] + b)) ==
            ContentSize(Parts(a)) + (if p.TextPart? then |p.text| else 4 * 260) + ContentSize(Parts(b))
    ensures ContentSize(Parts([])) == 0
    decreases |b|
  {
    var all := a + [p] + b;
    if b == [] {
      assert all[..|all| - 1] == a;
    } else {
      assert all[..|all| - 1] == a + [p] + b[..|b| - 1];
      PartsWeigh(a, p, b[..|b| - 1]);
    }
  }

  /** And call by call: the name and the arguments. */
  lemma {:induction false} CallsWeigh(a: seq<ToolCall>, call: ToolCall, b: seq<ToolCall>)
    ensures CallsSize(a + [call] + b) == CallsSize(a) + |call.name| + |call.arguments| + CallsSize(b)
    ensures CallsSize([]) == 0
    decreases |b|
  {
    var all := a + [call] + b;
    if b == [] {
      assert all[..|all| - 1] == a;
    } else {
      assert all[..|all| - 1] == a + [call] + b[..|b| - 1];
      CallsWeigh(a, call, b[..|b| - 1]);
    }
  }

  /** A list weighs what its messages weigh, each its content and its calls. */
  lemma {:induction false} MessagesWeigh(a: seq<Message>, m: Message, b: seq<Message>)
    ensures Size(a + [m] + b) == Size(a) + ContentSize(m.content) + CallsSize(m.toolCalls) + Size(b)
    ensures m.content.NoContent? ==> ContentSize(m.content) == 0
    ensures m.content.Text? ==> ContentSize(m.content) == |m.content.text|
    ensures Size([]) == 0
  {
    SizeConcat(a + [m], b);
    SizeConcat(a, [m]);
    assert [m][..0] == [];
  }

  // ---------------------------------------------------------------- segments

  function Ids(calls: seq<ToolCall>): (r: seq<string>)
    ensures |r| == |calls|
  {
    seq(|calls|, i requires 0 <= i < |calls| => calls[i].id)
  }

  function IdSet(calls: seq<ToolCall>): set<string> {
    set i | 0 <= i < |calls| :: calls[i].id
  }

  predicate OpensGroup(m: Message) {
    m.role == Assistant && m.toolCalls != []
  }

  /** How many messages at the front answer distinct ids of `expected`. */
  function ReplyRun(messages: seq<Message>, expected: set<string>): (n: nat)
    ensures n <= |messages|
  {
    if messages != [] && messages[0].role == Tool && messages[0].toolCallId in expected
    then 1 + ReplyRun(messages[1..], expected - {messages[0].toolCallId}) else 0
  }

  /** Length of the first droppable unit. */
  function UnitLength(messages: seq<Message>): (n: nat)
    requires messages != []
    ensures 1 <= n <= |messages|
  {
    if OpensGroup(messages[0]) then 1 + ReplyRun(messages[1..], IdSet(messages[0].toolCalls)) else 1
  }

  function Segments(messages: seq<Message>): (r: seq<seq<Message>>)
    ensures (r == []) == (messages == [])
    ensures forall s | s in r :: s != []
    decreases |messages|
  {
    if messages == [] then []
    else
      var n := UnitLength(messages);
      [messages[..n]] + Segments(messages[n..])
  }

  function Flatten(segments: seq<seq<Message>>): seq<Message> {
    if segments == [] then [] else segments[0] + Flatten(segments[1..])
  }

  /** The group opened at `i`: the assistant turn and the replies that immediately follow it. */
  method CollectGroup(droppable: seq<Message>, i: nat) returns (j: nat)
    requires i < |droppable| && OpensGroup(droppable[i])
    ensures i < j <= |droppable| && j - i == UnitLength(droppable[i..])
  {
    var expected := IdSet(droppable[i].toolCalls);
    j := i + 1;
    assert droppable[i..][1..] == droppable[i + 1..];
    while j < |droppable| && droppable[j].role == Tool && droppable[j].toolCallId in expected
      invariant i < j <= |droppable|
      invariant j - i + ReplyRun(droppable[j..], expected) == UnitLength(droppable[i..])
    {
      assert droppable[j..][1..] == droppable[j + 1..];
      expected := expected - {droppable[j].toolCallId};
      j := j + 1;
    }
  }

  lemma SegmentsStep(droppable: seq<Message>, i: nat, j: nat)
    requires i < |droppable| && j == i + UnitLength(droppable[i..])
    ensures Segments(droppable[i..]) == [droppable[i..j]] + Segments(droppable[j..])
  {
    assert droppable[i..][..j - i] == droppable[i..j] && droppable[i..][j - i..] == droppable[j..];
  }

  lemma LoneUnit(messages: seq<Message>)
    requires messages != [] && !OpensGroup(messages[0])
    ensures UnitLength(messages) == 1
  {
  }

  lemma NoSegments(messages: seq<Message>)
    requires messages == []
    ensures Segments(messages) == []
  {
  }

  method BuildDroppableSegments(messages: seq<Message>) returns (segments: seq<seq<Message>>)
    ensures segments == if |messages| <= 2 then [] else Segments(messages[2..])
  {
    hide Segments, UnitLength;
    segments := [];
    if |messages| <= 2 {
      return;
    }
    var droppable := messages[2..];
    var i := 0;
    assert droppable[0..] == droppable;
    while i < |droppable|
      invariant i <= |droppable|
      invariant Segments(droppable) == segments + Segments(droppable[i..])
    {
      var j := i + 1;
      if droppable[i].role == Assistant && droppable[i].toolCalls != [] {
        j := CollectGroup(droppable, i);
      } else {
        LoneUnit(droppable[i..]);
      }
      SegmentsStep(droppable, i, j);
      segments := segments + [droppable[i..j]];
      i := j;
    }
    NoSegments(droppable[i..]);
  }

  /** Segmentation loses nothing and reorders nothing. */
  lemma {:induction false} SegmentsPartition(messages: seq<Message>)
    ensures Flatten(Segments(messages)) == messages
    decreases |messages|
  {
    if messages != [] {
      var n := UnitLength(messages);
      SegmentsPartition(messages[n..]);
      assert messages == messages[..n] + messages[n..];
    }
  }

  /** What is dropped together, `rest` following it: one message, or a turn and the replies right after it. */
  ghost predicate Unit(seg: seq<Message>, rest: seq<Message>) {
    && seg != []
    && (if OpensGroup(seg[0]) then
          var ids := IdSet(seg[0].toolCalls);
          && (forall i | 1 <= i < |seg| :: seg[i].role == Tool && seg[i].toolCallId in ids)
          && (forall i, j | 1 <= i < j < |seg| :: seg[i].toolCallId != seg[j].toolCallId)
          && (rest != [] && rest[0].role == Tool && rest[0].toolCallId in ids ==>
                exists i :: 1 <= i < |seg| && seg[i].toolCallId == rest[0].toolCallId)
        else |seg| == 1)
  }

  lemma {:induction false} ReplyRunIs(messages: seq<Message>, expected: set<string>)
    ensures var n := ReplyRun(messages, expected);
            && (forall i | 0 <= i < n :: messages[i].role == Tool && messages[i].toolCallId in expected)
            && (forall i, j | 0 <= i < j < n :: messages[i].toolCallId != messages[j].toolCallId)
            && (n < |messages| && messages[n].role == Tool && messages[n].toolCallId in expected ==>
                  exists i :: 0 <= i < n && messages[i].toolCallId == messages[n].toolCallId)
    decreases |messages|
  {
    if messages != [] && messages[0].role == Tool && messages[0].toolCallId in expected {
      var id, rest := messages[0].toolCallId, messages[1..];
      ReplyRunIs(rest, expected - {id});
      var n := ReplyRun(rest, expected - {id});
      assert forall i | 1 <= i < n + 1 :: messages[i] == rest[i - 1];
      if n < |rest| && rest[n].role == Tool && rest[n].toolCallId in expected {
        if rest[n].toolCallId == id {
          assert messages[0].toolCallId == messages[n + 1].toolCallId;
        } else {
          var i :| 0 <= i < n && rest[i].toolCallId == rest[n].toolCallId;
          assert messages[i + 1].toolCallId == messages[n + 1].toolCallId;
        }
      }
    }
  }

  lemma {:induction false} UnitIsUnit(messages: seq<Message>)
    requires messages != []
    ensures Unit(messages[..UnitLength(messages)], messages[UnitLength(messages)..])
  {
    var n := UnitLength(messages);
    if OpensGroup(messages[0]) {
      var tail := messages[1..];
      ReplyRunIs(tail, IdSet(messages[0].toolCalls));
      assert forall i | 1 <= i < n :: messages[..n][i] == tail[i - 1];
      var ids := IdSet(messages[0].toolCalls);
      if n < |messages| && messages[n..][0].role == Tool && messages[n..][0].toolCallId in ids {
        assert messages[n..][0] == tail[n - 1];
        var i :| 0 <= i < n - 1 && tail[i].toolCallId == tail[n - 1].toolCallId;
        assert messages[..n][i + 1].toolCallId == messages[n..][0].toolCallId;
      }
    }
  }

  /** Every segment is a whole unit: a turn is never parted from the replies that follow it, nor joined to more. */
  lemma {:induction false} SegmentsAreUnits(messages: seq<Message>, k: nat)
    requires k < |Segments(messages)|
    ensures Unit(Segments(messages)[k], Flatten(Segments(messages)[k + 1..]))
    decreases k
  {
    hide Unit;
    var n := UnitLength(messages);
    var rest := Segments(messages[n..]);
    assert Segments(messages) == [messages[..n]] + rest;
    if k == 0 {
      assert Segments(messages)[1..] == rest;
      SegmentsPartition(messages[n..]);
      UnitIsUnit(messages);
    } else {
      assert Segments(messages)[k + 1..] == rest[k..];
      SegmentsAreUnits(messages[n..], k - 1);
    }
  }

  // ---------------------------------------------------------------- the cut

  function SumSizes(sizes: seq<nat>): nat {
    if sizes == [] then 0 else SumSizes(sizes[..|sizes| - 1]) + sizes[|sizes| - 1]
  }

  function Sizes(segments: seq<seq<Message>>): (r: seq<nat>)
    ensures |r| == |segments|
  {
    seq(|segments|, i requires 0 <= i < |segments| => Size(segments[i]))
  }

  /** The fewest leading segments, at most `maxDrop`, whose sizes reach `charsToDrop`. */
  method ProportionalCut(segSizes: seq<nat>, charsToDrop: int, maxDrop: nat) returns (cut: nat)
    requires maxDrop <= |segSizes|
    ensures cut <= maxDrop
    ensures cut == maxDrop || SumSizes(segSizes[..cut]) >= charsToDrop
    ensures forall c | 0 <= c < cut :: SumSizes(segSizes[..c]) < charsToDrop
  {
    var dropped := 0;
    cut := 0;
    while cut < maxDrop && dropped < charsToDrop
      invariant cut <= maxDrop && dropped == SumSizes(segSizes[..cut])
      invariant forall c | 0 <= c < cut :: SumSizes(segSizes[..c]) < charsToDrop
    {
      dropped := dropped + segSizes[cut];
      assert segSizes[..cut + 1][..cut] == segSizes[..cut];
      cut := cut + 1;
    }
  }

  function Candidate(head: seq<Message>, segments: seq<seq<Message>>, cut: nat): seq<Message>
    requires cut <= |segments|
  {
    head + [PLACEHOLDER] + Flatten(segments[cut..])
  }

  /** `cut` is where verification from `start` stops: the first fit, or the last segment alone. */
  ghost predicate StopsAt(head: seq<Message>, segments: seq<seq<Message>>, start: nat, cut: nat,
                          budget: int, count: seq<Message> -> int)
    requires segments != []
  {
    && start <= cut < |segments|
    && (cut == |segments| - 1 || count(Candidate(head, segments, cut)) <= budget)
    && forall c | start <= c < cut :: count(Candidate(head, segments, c)) > budget
  }

  method DropUntilFit(head: seq<Message>, segments: seq<seq<Message>>, startCut: nat, budget: int,
      count: seq<Message> -> int)
    returns (candidate: seq<Message>, ghost cut: nat)
    requires startCut < |segments|
    ensures StopsAt(head, segments, startCut, cut, budget, count)
    ensures candidate == Candidate(head, segments, cut)
    ensures exists c :: StopsAt(head, segments, startCut, c, budget, count) && candidate == Candidate(head, segments, c)
  {
    var maxDrop := |segments| - 1;
    var at := startCut;
    while true
      invariant startCut <= at <= maxDrop
      invariant forall c | startCut <= c < at :: count(Candidate(head, segments, c)) > budget
      decreases maxDrop - at
    {
      candidate := head + [PLACEHOLDER] + Flatten(segments[at..]);
      if at >= maxDrop || count(candidate) <= budget {
        cut := at;
        return;
      }
      at := at + 1;
    }
  }

  // ---------------------------------------------------------------- windowing

  predicate Windows(messages: seq<Message>, budget: int, count: seq<Message> -> int) {
    |messages| > 2 && count(messages) > budget
  }

  /** The verification of a windowed history starts at the proportional estimate. */
  ghost predicate Estimated(messages: seq<Message>, budget: int, count: seq<Message> -> int, start: nat)
    requires Windows(messages, budget, count)
  {
    var sizes := Sizes(Segments(messages[2..]));
    var excess := 4 * (count(messages) - budget);
    && start < |sizes|
    && (start == |sizes| - 1 || SumSizes(sizes[..start]) >= excess)
    && forall c | 0 <= c < start :: SumSizes(sizes[..c]) < excess
  }

  /** `after` is `before` windowed to a budget. */
  ghost predicate Windowed(before: seq<Message>, budget: int, count: seq<Message> -> int, after: seq<Message>) {
    if Windows(before, budget, count) then
      exists start, cut :: Estimated(before, budget, count, start) && Elides(before, budget, count, start, cut, after)
    else after == before
  }

  ghost predicate Elides(before: seq<Message>, budget: int, count: seq<Message> -> int, start: nat, cut: nat,
      after: seq<Message>)
    requires Windows(before, budget, count)
  {
    && StopsAt(before[..2], Segments(before[2..]), start, cut, budget, count)
    && after == Candidate(before[..2], Segments(before[2..]), cut)
  }

  method WindowMessages(messages: seq<Message>, budget: int, count: seq<Message> -> int)
    returns (result: seq<Message>, ghost start: nat, ghost cut: nat)
    ensures !Windows(messages, budget, count) ==> result == messages
    ensures Windows(messages, budget, count) ==>
              var segments := Segments(messages[2..]);
              && Estimated(messages, budget, count, start)
              && StopsAt(messages[..2], segments, start, cut, budget, count)
              && result == Candidate(messages[..2], segments, cut)
    ensures Windowed(messages, budget, count, result)
  {
    start, cut := 0, 0;
    if count(messages) <= budget {
      return messages, start, cut;
    }
    var segments := BuildDroppableSegments(messages);
    if |segments| == 0 {
      return messages, start, cut;
    }
    var head := messages[..2];
    var overage := count(messages) - budget;
    var segSizes: seq<nat> := [];
    for i := 0 to |segments|
      invariant segSizes == Sizes(segments)[..i]
    {
      var size := SegChars(segments[i]);
      segSizes := segSizes + [size];
    }
    assert segSizes == Sizes(segments);
    var startCut := ProportionalCut(segSizes, overage * 4, |segments| - 1);
    start := startCut;
    result, cut := DropUntilFit(head, segments, startCut, budget, count);
    assert Elides(messages, budget, count, start, cut, result);
  }

  /** A windowed history is its first two messages, the placeholder, and a proper tail of the rest. */
  lemma {:induction false} WindowedShape(before: seq<Message>, budget: int, count: seq<Message> -> int,
      after: seq<Message>)
    returns (from: nat)
    requires Windowed(before, budget, count, after) && Windows(before, budget, count)
    ensures 2 <= from < |before| && after == before[..2] + [PLACEHOLDER] + before[from..]
  {
    var start, cut :| Estimated(before, budget, count, start) && Elides(before, budget, count, start, cut, after);
    var at := TailOfBody(before[2..], cut);
    from := 2 + at;
    assert before[2..][at..] == before[from..];
  }

  /** The segments from a cut are a tail of the list. */
  lemma {:induction false} TailOfBody(body: seq<Message>, cut: nat) returns (from: nat)
    requires cut <= |Segments(body)|
    ensures from <= |body| && Flatten(Segments(body)[cut..]) == body[from..]
    ensures cut > 0 ==> from > 0
    ensures cut < |Segments(body)| ==> from < |body|
    decreases |body|
  {
    if cut == 0 {
      assert Segments(body)[0..] == Segments(body);
      SegmentsPartition(body);
      from := 0;
    } else {
      var n := UnitLength(body);
      var below := TailOfBody(body[n..], cut - 1);
      assert Segments(body)[cut..] == Segments(body[n..])[cut - 1..];
      from := n + below;
    }
  }

  // ---------------------------------------------------------------- the estimate is optimal

  lemma {:induction false} FlattenSize(segments: seq<seq<Message>>)
    ensures Size(Flatten(segments)) == SumSizes(Sizes(segments))
  {
    if segments != [] {
      var n := |segments| - 1;
      FlattenSize(segments[..n]);
      FlattenLast(segments);
      SizeConcat(Flatten(segments[..n]), segments[n]);
      assert Sizes(segments)[..n] == Sizes(segments[..n]);
    }
  }

  lemma {:induction false} FlattenLast(segments: seq<seq<Message>>)
    requires segments != []
    ensures Flatten(segments) == Flatten(segments[..|segments| - 1]) + segments[|segments| - 1]
  {
    var n := |segments| - 1;
    if n == 0 {
      assert segments[1..] == [] && segments[..0] == [];
      assert segments[0] + [] == segments[0] && [] + segments[0] == segments[0];
    } else {
      FlattenLast(segments[1..]);
      assert segments[1..][..n - 1] == segments[..n][1..];
      assert segments[..n][0] == segments[0];
      assert segments[0] + (Flatten(segments[..n][1..]) + segments[n]) == (segments[0] +
          Flatten(segments[..n][1..])) + segments[n];
    }
  }

  lemma {:induction false} FlattenSplit(segments: seq<seq<Message>>, cut: nat)
    requires cut <= |segments|
    ensures Flatten(segments) == Flatten(segments[..cut]) + Flatten(segments[cut..])
    decreases cut
  {
    if cut == 0 {
      assert segments[0..] == segments;
    } else {
      FlattenSplit(segments[1..], cut - 1);
      assert segments[1..][..cut - 1] == segments[..cut][1..];
      assert segments[1..][cut - 1..] == segments[cut..];
      assert segments[..cut][0] == segments[0];
    }
  }

  /** What a candidate weighs: everything, less the dropped segments, plus the placeholder's 48 characters. */
  lemma {:induction false} CandidateSize(messages: seq<Message>, cut: nat)
    requires |messages| > 2
    requires cut <= |Segments(messages[2..])|
    ensures var segments := Segments(messages[2..]);
            Size(Candidate(messages[..2], segments, cut)) == Size(messages) - SumSizes(Sizes(segments)[..cut]) + 48
  {
    var head, segments := messages[..2], Segments(messages[2..]);
    var tail := Flatten(segments[cut..]);
    SegmentsPartition(messages[2..]);
    FlattenSplit(segments, cut);
    FlattenSize(segments[..cut]);
    assert Sizes(segments)[..cut] == Sizes(segments[..cut]);
    assert messages == head + (Flatten(segments[..cut]) + tail);
    SizeConcat(head, Flatten(segments[..cut]) + tail);
    SizeConcat(Flatten(segments[..cut]), tail);
    SizeConcat(head + [PLACEHOLDER], tail);
    SizeConcat(head, [PLACEHOLDER]);
    PlaceholderSize();
  }

  lemma PlaceholderSize()
    ensures Size([PLACEHOLDER]) == 48
  {
    assert [PLACEHOLDER][..0] == [];
    assert |PLACEHOLDER_TEXT| == 48;
  }

  /** A cut that sheds fewer characters than the estimate asks for cannot fit. */
  lemma {:induction false} ShortCutMisses(messages: seq<Message>, budget: int, cut: nat)
    requires Windows(messages, budget, Tokens) && cut < |Segments(messages[2..])|
    requires SumSizes(Sizes(Segments(messages[2..]))[..cut]) < 4 * (Tokens(messages) - budget)
    ensures Tokens(Candidate(messages[..2], Segments(messages[2..]), cut)) > budget
  {
    CandidateSize(messages, cut);
    SumPrefix(Sizes(Segments(messages[2..])), cut);
    BodySize(messages);
  }

  lemma {:induction false} SumPrefix(sizes: seq<nat>, cut: nat)
    requires cut <= |sizes|
    ensures SumSizes(sizes[..cut]) <= SumSizes(sizes)
    decreases |sizes| - cut
  {
    if cut == |sizes| {
      assert sizes[..cut] == sizes;
    } else {
      SumPrefix(sizes, cut + 1);
      assert sizes[..cut + 1][..cut] == sizes[..cut];
    }
  }

  lemma {:induction false} BodySize(messages: seq<Message>)
    requires |messages| > 2
    ensures SumSizes(Sizes(Segments(messages[2..]))) <= Size(messages)
  {
    SegmentsPartition(messages[2..]);
    FlattenSize(Segments(messages[2..]));
    assert messages == messages[..2] + messages[2..];
    SizeConcat(messages[..2], messages[2..]);
  }

  /**
   With the character counter the estimated cut is optimal: the window returned is the head,
   the placeholder and the segments from the smallest cut that fits the budget, or the last
   segment alone when no cut fits, although the search skips straight to the estimate.
   */
  lemma {:induction false} EstimatedCutIsOptimal(messages: seq<Message>, budget: int, start: nat, cut: nat)
    requires Windows(messages, budget, Tokens) && Estimated(messages, budget, Tokens, start)
    requires StopsAt(messages[..2], Segments(messages[2..]), start, cut, budget, Tokens)
    ensures StopsAt(messages[..2], Segments(messages[2..]), 0, cut, budget, Tokens)
  {
    var segments := Segments(messages[2..]);
    forall c | 0 <= c < cut
      ensures Tokens(Candidate(messages[..2], segments, c)) > budget
    {
      if c < start {
        ShortCutMisses(messages, budget, c);
      }
    }
  }

  /** Messages that open no group are segments of their own. */
  lemma {:induction false} SingleSegments(body: seq<Message>, m: Message)
    requires !OpensGroup(m) && forall i | 0 <= i < |body| :: body[i] == m
    ensures |Segments(body)| == |body| && forall i | 0 <= i < |body| :: Segments(body)[i] == [m]
  {
    if body != [] {
      SingleSegments(body[1..], m);
      assert body[..1] == [m];
    }
  }

  lemma {:induction false} ZeroSum(sizes: seq<nat>)
    requires forall i | 0 <= i < |sizes| :: sizes[i] == 0
    ensures SumSizes(sizes) == 0
  {
    if sizes != [] {
      ZeroSum(sizes[..|sizes| - 1]);
    }
  }

  lemma {:induction false} FourEmptyTurns(m: Message, segments: seq<seq<Message>>)
    requires m == Message(User, NoContent, [], "") && segments == Segments([m, m, m, m])
    ensures |segments| == 4 && (forall c | 0 <= c < 4 :: SumSizes(Sizes(segments)[..c]) == 0)
    ensures |Flatten(segments[2..])| == 2
  {
    SingleSegments([m, m, m, m], m);
    assert Size([m]) == 0;
    forall c | 0 <= c < 4
      ensures SumSizes(Sizes(segments)[..c]) == 0
    {
      ZeroSum(Sizes(segments)[..c]);
    }
    assert segments[2..] == [[m], [m]] && [[m], [m]][1..] == [[m]] && [[m]][1..] == [];
    assert Flatten([[m]]) == [m];
  }

  /** With some other counter the estimate can overshoot: here one cut earlier already fits. */
  lemma {:induction false} ForeignCounterOvershoots() returns (messages: seq<Message>, count: seq<Message> -> int)
    ensures Windows(messages, 5, count) && Estimated(messages, 5, count, 3)
    ensures StopsAt(messages[..2], Segments(messages[2..]), 3, 3, 5, count)
    ensures !StopsAt(messages[..2], Segments(messages[2..]), 0, 3, 5, count)
  {
    var m := Message(User, NoContent, [], "");
    count := (h: seq<Message>) => |h|;
    messages := [m, m] + [m, m, m, m];
    assert messages[2..] == [m, m, m, m] && messages[..2] == [m, m];
    FourEmptyTurns(m, Segments(messages[2..]));
    assert count(Candidate(messages[..2], Segments(messages[2..]), 2)) == 5;
  }

  /** The window over the character counter, stated without the estimate. */
  method WindowByChars(messages: seq<Message>, budget: int) returns (result: seq<Message>)
    ensures Tokens(messages) <= budget || |messages| <= 2 ==> result == messages
    ensures Tokens(messages) > budget && |messages| > 2 ==>
              exists cut :: StopsAt(messages[..2], Segments(messages[2..]), 0, cut, budget, Tokens)
                            && result == Candidate(messages[..2], Segments(messages[2..]), cut)
  {
    ghost var start, cut;
    result, start, cut := WindowMessages(messages, budget, Tokens);
    if Windows(messages, budget, Tokens) {
      EstimatedCutIsOptimal(messages, budget, start, cut);
    }
  }
}
