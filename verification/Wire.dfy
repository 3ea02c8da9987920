/**
 Framing of outgoing text: cleaned lines cut into chunks that fit a line of bytes beside their
 head. Sizes are those of UTF-8 (RFC 3629, section 3).
 */
module Wire {
  import opened Common
  import opened Text

  const MAX_LINE_BYTES: nat := 8192

  // ---------------------------------------------------------------- sizes and chunks

  function Size(c: char): (n: nat)
    ensures 1 <= n <= 4
  {
    if c < '\U{80}' then 1 else if c < '\U{800}' then 2 else if c < '\U{10000}' then 3 else 4
  }

  function Bytes(s: string): nat {
    if s == [] then 0 else Bytes(s[..|s| - 1]) + Size(s[|s| - 1])
  }

  function Flatten(parts: seq<string>): string {
    if parts == [] then [] else Flatten(parts[..|parts| - 1]) + parts[|parts| - 1]
  }

  /** Finished chunks, and the one being filled. */
  datatype Filling = Filling(done: seq<string>, current: string)

  function Fill(text: string, budget: int): Filling {
    if text == [] then Filling([], [])
    else
      var f := Fill(text[..|text| - 1], budget);
      var c := text[|text| - 1];
      if Bytes(f.current) + Size(c) > budget && f.current != [] then Filling(f.done + [f.current], [c])
      else Filling(f.done, f.current + [c])
  }

  function Close(f: Filling): seq<string> {
    if f.current == [] then f.done else f.done + [f.current]
  }

  function Chunked(text: string, budget: int): seq<string> {
    Close(Fill(text, budget))
  }

  method Chunks(text: string, budget: int) returns (out: seq<string>)
    ensures out == Chunked(text, budget)
  {
    out := [];
    var current, used := "", 0;
    for i := 0 to |text|
      invariant Fill(text[..i], budget) == Filling(out, current) && used == Bytes(current)
    {
      assert text[..i + 1][..i] == text[..i];
      var size := Size(text[i]);
      if used + size > budget && current != [] {
        out := out + [current];
        current, used := "", 0;
      }
      assert (current + [text[i]])[..|current|] == current;
      current := current + [text[i]];
      used := used + size;
    }
    assert text[..|text|] == text;
    if current != [] {
      out := out + [current];
    }
  }

  lemma {:induction false} FlattenSnoc(parts: seq<string>, part: string)
    ensures Flatten(parts + [part]) == Flatten(parts) + part
  {
    assert (parts + [part])[..|parts|] == parts;
  }

  /** One more character: it joins the current chunk, or starts the next one. */
  lemma FillNext(text: string, budget: int)
    requires text != []
    ensures var f, g := Fill(text[..|text| - 1], budget), Fill(text, budget);
            var c := text[|text| - 1];
            || g == Filling(f.done, f.current + [c])
            || (f.current != [] && g == Filling(f.done + [f.current], [c]))
  {
  }

  lemma {:induction false} FillFlattens(text: string, budget: int)
    ensures Flatten(Fill(text, budget).done) + Fill(text, budget).current == text
    decreases |text|
  {
    if text != [] {
      var n := |text| - 1;
      var f := Fill(text[..n], budget);
      FillNext(text, budget);
      FillFlattens(text[..n], budget);
      hide Flatten, Fill;
      FlattenSnoc(f.done, f.current);
      Assoc(Flatten(f.done), f.current, [text[n]]);
      Halves(text, n);
      assert text[n..] == [text[n]];
    }
  }

  lemma {:induction false} FillNonempty(text: string, budget: int)
    ensures forall i | 0 <= i < |Fill(text, budget).done| :: Fill(text, budget).done[i] != []
    ensures text != [] ==> Fill(text, budget).current != []
    decreases |text|
  {
    if text != [] {
      FillNonempty(text[..|text| - 1], budget);
      FillNext(text, budget);
      hide Fill;
    }
  }

  /** Nothing is lost, added or reordered, and no chunk is empty. */
  lemma {:induction false} ChunksFlatten(text: string, budget: int)
    ensures Flatten(Chunked(text, budget)) == text
    ensures forall i | 0 <= i < |Chunked(text, budget)| :: Chunked(text, budget)[i] != []
  {
    var f := Fill(text, budget);
    FillFlattens(text, budget);
    FillNonempty(text, budget);
    hide Flatten, Fill;
    FlattenSnoc(f.done, f.current);
  }

  lemma BytesOne(c: char)
    ensures Bytes([c]) == Size(c)
  {
    assert [c][..0] == [];
  }

  /** Within the budget, or a single character that alone exceeds it. */
  predicate Fits(chunk: string, budget: int) {
    Bytes(chunk) <= budget || |chunk| == 1
  }

  lemma {:induction false} ChunksFit(text: string, budget: int)
    ensures Fits(Fill(text, budget).current, budget) || text == []
    ensures forall i | 0 <= i < |Fill(text, budget).done| :: Fits(Fill(text, budget).done[i], budget)
    decreases |text|
  {
    if text != [] {
      var f, c := Fill(text[..|text| - 1], budget), text[|text| - 1];
      ChunksFit(text[..|text| - 1], budget);
      FillNonempty(text[..|text| - 1], budget);
      FillFits(text, budget);
      FillNext(text, budget);
      hide Fill, Bytes;
    }
  }

  lemma FillFits(text: string, budget: int)
    requires text != []
    ensures Fits(Fill(text, budget).current, budget)
  {
    var f, c := Fill(text[..|text| - 1], budget), text[|text| - 1];
    BytesOne(c);
    assert (f.current + [c])[..|f.current|] == f.current;
  }

  lemma {:induction false} FlattenMember(parts: seq<string>, i: nat, c: char)
    requires i < |parts| && c in parts[i]
    ensures c in Flatten(parts)
    decreases |parts|
  {
    if i < |parts| - 1 {
      FlattenMember(parts[..|parts| - 1], i, c);
    }
  }

  lemma {:induction false} FlattenFrom(parts: seq<string>, c: char) returns (i: nat)
    requires c in Flatten(parts)
    ensures i < |parts| && c in parts[i]
    decreases |parts|
  {
    var n := |parts| - 1;
    if c in parts[n] {
      i := n;
    } else {
      i := FlattenFrom(parts[..n], c);
    }
  }

  lemma {:induction false} BytesAtLeast(s: string, c: char)
    requires c in s
    ensures Bytes(s) >= Size(c)
    decreases |s|
  {
    var n := |s| - 1;
    if c != s[n] {
      assert s == s[..n] + [s[n]];
      BytesAtLeast(s[..n], c);
    }
  }

  /** Every chunk is within the budget exactly when every character alone is. */
  lemma {:induction false} ChunksFitIff(text: string, budget: int)
    ensures (forall i | 0 <= i < |Chunked(text, budget)| :: Bytes(Chunked(text, budget)[i]) <= budget)
            <==> (forall c | c in text :: Size(c) <= budget)
  {
    var out := Chunked(text, budget);
    ChunksFit(text, budget);
    ChunksFlatten(text, budget);
    if c :| c in text && Size(c) > budget {
      var i := FlattenFrom(out, c);
      BytesAtLeast(out[i], c);
    } else {
      forall i | 0 <= i < |out|
        ensures Bytes(out[i]) <= budget
      {
        assert Fits(out[i], budget);
        FlattenMember(out, i, out[i][0]);
        if |out[i]| == 1 {
          BytesOne(out[i][0]);
          assert out[i] == [out[i][0]];
        }
      }
    }
  }

  // ---------------------------------------------------------------- no chunking uses fewer lines

  lemma {:induction false} BytesConcat(a: string, b: string)
    ensures Bytes(a + b) == Bytes(a) + Bytes(b)
    decreases |b|
  {
    if b == [] {
      assert a + b == a;
    } else {
      var n := |b| - 1;
      assert (a + b)[..|a + b| - 1] == a + b[..n];
      BytesConcat(a, b[..n]);
    }
  }

  /** Another way to cut `text` into pieces within the budget. */
  ghost predicate Cuts(parts: seq<string>, text: string, budget: int) {
    Flatten(parts) == text && forall i | 0 <= i < |parts| :: Bytes(parts[i]) <= budget
  }

  /** Greedy filling is never behind: as many pieces or fewer, and no fuller last one when as many. */
  lemma {:induction false} GreedyAhead(text: string, budget: int, parts: seq<string>)
    requires Cuts(parts, text, budget) && text != []
    ensures var f := Fill(text, budget);
            && |f.done| + 1 <= |parts|
            && (|f.done| + 1 == |parts| ==> Bytes(f.current) <= Bytes(parts[|parts| - 1]))
    decreases |text|, |parts|
  {
    var n := |text| - 1;
    var k := |parts| - 1;
    var last := parts[k];
    assert parts == parts[..k] + [last];
    if last == [] {
      GreedyAhead(text, budget, parts[..k]);
    } else {
      var m := |last| - 1;
      var shorter := parts[..k] + [last[..m]];
      FlattenSnoc(parts[..k], last[..m]);
      assert last == last[..m] + [last[m]];
      assert Flatten(shorter) == text[..n] && last[m] == text[n];
      var f := Fill(text[..n], budget);
      assert (f.current + [text[n]])[..|f.current|] == f.current;
      BytesOne(text[n]);
      if n > 0 {
        GreedyAhead(text[..n], budget, shorter);
      }
    }
  }

  /** No way of cutting the text into pieces within the budget uses fewer pieces. */
  lemma {:induction false} FewestChunks(text: string, budget: int, parts: seq<string>)
    requires Cuts(parts, text, budget)
    ensures |Chunked(text, budget)| <= |parts|
  {
    if text != [] {
      GreedyAhead(text, budget, parts);
      FillNonempty(text, budget);
    }
  }

  // ---------------------------------------------------------------- framing

  /** `str.isspace`. */
  predicate IsSpace(c: char) {
    || c == ' ' || '\t' <= c <= '\r' || '\U{1c}' <= c <= '\U{1f}' || c == '\U{85}' || c == '\U{a0}' || c == '\U{1680}'
    || '\U{2000}' <= c <= '\U{200a}' || c == '\U{2028}' || c == '\U{2029}' || c == '\U{202f}' || c == '\U{205f}' ||
        c == '\U{3000}'
  }

  predicate Blank(s: string) {
    forall i | 0 <= i < |s| :: IsSpace(s[i])
  }

  predicate Breaks(c: char) {
    c == '\r' || c == '\n'
  }

  /** The lines of a text, a carriage return and line feed counting as one break. */
  function Lines(s: string): (lines: seq<string>)
    ensures lines != []
    decreases |s|
  {
    if s == [] then [[]]
    else if s[0] == '\r' && |s| > 1 && s[1] == '\n' then [[]] + Lines(s[2..])
    else if Breaks(s[0]) then [[]] + Lines(s[1..])
    else
      var rest := Lines(s[1..]);
      [[s[0]] + rest[0]] + rest[1..]
  }

  const NOT_NUL: char -> bool := (c: char) => c != '\0'
  const NOT_BLANK: string -> bool := (s: string) => !Blank(s)

  function CleanLines(text: string): seq<string> {
    Filter(Lines(Filter(text, NOT_NUL)), NOT_BLANK)
  }

  /** Fit to follow " :" on one line. */
  predicate Trailing(s: string) {
    forall i | 0 <= i < |s| :: !Breaks(s[i]) && s[i] != '\0'
  }

  lemma {:induction false} LinesClean(s: string)
    requires forall i | 0 <= i < |s| :: s[i] != '\0'
    ensures forall k | 0 <= k < |Lines(s)| :: Trailing(Lines(s)[k])
    decreases |s|
  {
    if s == [] {
    } else if s[0] == '\r' && |s| > 1 && s[1] == '\n' {
      LinesClean(s[2..]);
    } else {
      LinesClean(s[1..]);
    }
  }

  lemma {:induction false} CleanLinesAreClean(text: string, k: nat)
    requires k < |CleanLines(text)|
    ensures Trailing(CleanLines(text)[k]) && !Blank(CleanLines(text)[k])
  {
    var kept := Filter(text, NOT_NUL);
    assert forall i | 0 <= i < |kept| :: kept[i] in kept;
    LinesClean(kept);
    assert CleanLines(text)[k] in CleanLines(text);
  }

  // ---------------------------------------------------------------- cleaning loses nothing

  /** A text that is one clean line is sent as it is. */
  lemma {:induction false} CleanLineStays(text: string)
    requires Trailing(text)
    ensures CleanLines(text) == if Blank(text) then [] else [text]
  {
    forall x | x in text
      ensures NOT_NUL(x)
    {
      var i :| 0 <= i < |text| && text[i] == x;
    }
    FilterAll(text, NOT_NUL);
    UnbrokenLine(text);
    assert [text][..0] == [];
  }

  lemma {:induction false} UnbrokenLine(s: string)
    requires forall i | 0 <= i < |s| :: !Breaks(s[i])
    ensures Lines(s) == [s]
  {
    if s != [] {
      UnbrokenLine(s[1..]);
      assert [s[0]] + s[1..] == s;
    }
  }

  /** A NUL is as if it were not there. */
  lemma {:induction false} CleanDropsNul(a: string, b: string)
    ensures CleanLines(a + ['\0'] + b) == CleanLines(a + b)
  {
    FilterMiddle(a, '\0', b, NOT_NUL);
    FilterConcat(a, b, NOT_NUL);
    assert Filter(a, NOT_NUL) + [] == Filter(a, NOT_NUL);
  }

  /** Lines that are not blank. */
  function Solid(lines: seq<string>): seq<string> {
    Filter(lines, NOT_BLANK)
  }

  lemma {:induction false} SolidCons(line: string, rest: seq<string>)
    ensures Solid([line] + rest) == (if Blank(line) then [] else [line]) + Solid(rest)
  {
    FilterConcat([line], rest, NOT_BLANK);
    FilterOne(line, NOT_BLANK);
  }

  /** The first line of `s` continues the last line of `a`, which holds no break. */
  lemma {:induction false} LinesPrefix(a: string, s: string)
    requires forall i | 0 <= i < |a| :: !Breaks(a[i])
    ensures Lines(a + s) == [a + Lines(s)[0]] + Lines(s)[1..]
    decreases |a|
  {
    if a == [] {
      assert a + s == s;
      assert [] + Lines(s)[0] == Lines(s)[0];
    } else {
      assert (a + s)[1..] == a[1..] + s;
      LinesPrefix(a[1..], s);
      assert [a[0]] + (a[1..] + Lines(s)[0]) == a + Lines(s)[0];
    }
  }

  /** The first break of a text and what stands before it. */
  lemma {:induction false} FirstBreak(s: string) returns (k: nat)
    ensures k <= |s| && (forall i | 0 <= i < k :: !Breaks(s[i])) && (k < |s| ==> Breaks(s[k]))
  {
    if s == [] || Breaks(s[0]) {
      k := 0;
    } else {
      k := FirstBreak(s[1..]);
      k := k + 1;
    }
  }

  /** After a break, whether or not it pairs with a line feed: the same lines, blank ones apart. */
  lemma {:induction false} SolidAfterBreak(c: char, s: string)
    requires Breaks(c)
    ensures Solid(Lines([c] + s)) == Solid(Lines(s))
  {
    var t := [c] + s;
    assert t[1..] == s;
    SolidCons([], Lines(s));
    if c == '\r' && s != [] && s[0] == '\n' {
      assert t[2..] == s[1..];
      SolidCons([], Lines(s[1..]));
    }
  }

  lemma {:induction false} SolidBreak(a: string, c: char, b: string)
    requires Breaks(c)
    ensures Solid(Lines(a + ([c] + b))) == Solid(Lines(a)) + Solid(Lines(b))
    decreases |a|
  {
    hide Lines, Solid, Breaks;
    var k := FirstBreak(a);
    var line := a[..k];
    if k == |a| {
      assert line == a;
      SolidBreakHere(a, c, b);
    } else {
      var rest := a[k + 1..];
      SolidBreak(rest, c, b);
      assert a == line + ([a[k]] + rest);
      assert a + ([c] + b) == line + ([a[k]] + (rest + ([c] + b)));
      SolidBreakHere(line, a[k], rest + ([c] + b));
      SolidBreakHere(line, a[k], rest);
    }
  }

  lemma {:induction false} SolidBreakHere(line: string, c: char, s: string)
    requires Breaks(c) && forall i | 0 <= i < |line| :: !Breaks(line[i])
    ensures Solid(Lines(line + ([c] + s))) == Solid(Lines(line)) + Solid(Lines(s))
  {
    hide Lines, Solid, Filter;
    UnbrokenLine(line);
    LinesPrefix(line, [c] + s);
    BreakFirst(c, s);
    SolidNone();
    SolidAfterBreak(c, s);
    var tail := Lines([c] + s)[1..];
    SolidCons([], tail);
    SolidCons(line, tail);
    SolidCons(line, []);
    assert line + [] == line && [line] + [] == [line];
    assert Lines([c] + s) == [[]] + tail;
  }

  lemma SolidNone()
    ensures Solid([]) == []
  {
  }

  lemma BreakFirst(c: char, s: string)
    requires Breaks(c)
    ensures Lines([c] + s)[0] == []
  {
  }

  /**
   At a break, a carriage return or a line feed, the cleaned lines of a text are those before it
   followed by those after it; so also at the two together.
   */
  lemma {:induction false} CleanSplits(a: string, c: char, b: string)
    requires Breaks(c)
    ensures CleanLines(a + [c] + b) == CleanLines(a) + CleanLines(b)
  {
    hide Filter;
    FilterMiddle(a, c, b, NOT_NUL);
    assert NOT_NUL(c);
    Assoc(Filter(a, NOT_NUL), [c], Filter(b, NOT_NUL));
    SolidBreak(Filter(a, NOT_NUL), c, Filter(b, NOT_NUL));
  }

  const VISIBLE: char -> bool := (c: char) => !IsSpace(c) && c != '\0'

  lemma {:induction false} BlankHidden(s: string)
    requires Blank(s)
    ensures Filter(s, VISIBLE) == []
  {
    forall x | x in s
      ensures !VISIBLE(x)
    {
      var i :| 0 <= i < |s| && s[i] == x;
    }
    FilterNone(s, VISIBLE);
  }

  lemma {:induction false} VisibleAround(a: string, c: char, b: string)
    requires c == '\0' || Breaks(c)
    ensures Filter(a + [c] + b, VISIBLE) == Filter(a, VISIBLE) + Filter(b, VISIBLE) == Filter(a + b, VISIBLE)
  {
    hide Filter;
    FilterMiddle(a, c, b, VISIBLE);
    FilterConcat(a, b, VISIBLE);
    assert !VISIBLE(c);
    assert Filter(a, VISIBLE) + [] == Filter(a, VISIBLE);
  }

  lemma {:induction false} OneLineVisible(text: string)
    requires Trailing(text)
    ensures Filter(Flatten(CleanLines(text)), VISIBLE) == Filter(text, VISIBLE)
  {
    CleanLineStays(text);
    if Blank(text) {
      BlankHidden(text);
    } else {
      assert [text][..0] == [] && [] + text == text;
    }
  }

  /** Everything visible in a text is in its cleaned lines, in order, and nothing else visible is. */
  lemma {:induction false} CleanKeepsVisible(text: string)
    ensures Filter(Flatten(CleanLines(text)), VISIBLE) == Filter(text, VISIBLE)
    decreases |text|
  {
    hide CleanLines, Filter, Flatten;
    if i :| 0 <= i < |text| && (text[i] == '\0' || Breaks(text[i])) {
      var a, c, b := text[..i], text[i], text[i + 1..];
      assert text == a + [c] + b;
      VisibleAround(a, c, b);
      if c == '\0' {
        CleanDropsNul(a, b);
        CleanKeepsVisible(a + b);
      } else {
        CleanSplits(a, c, b);
        CleanKeepsVisible(a);
        CleanKeepsVisible(b);
        FlattenConcat(CleanLines(a), CleanLines(b));
        FilterConcat(Flatten(CleanLines(a)), Flatten(CleanLines(b)), VISIBLE);
      }
    } else {
      OneLineVisible(text);
    }
  }

  function AllChunks(lines: seq<string>, budget: int): seq<string> {
    if lines == [] then [] else AllChunks(lines[..|lines| - 1], budget) + Chunked(lines[|lines| - 1], budget)
  }

  function Budget(head: string): int {
    MAX_LINE_BYTES - Bytes(head + " :") - 2
  }

  function Heading(head: string, chunks: seq<string>): (r: seq<string>)
    ensures |r| == |chunks| && forall i | 0 <= i < |r| :: r[i] == head + " :" + chunks[i]
  {
    seq(|chunks|, i requires 0 <= i < |chunks| => head + " :" + chunks[i])
  }

  /** What `_framed` sends. */
  function Framed(head: string, text: string): seq<string> {
    Heading(head, AllChunks(CleanLines(text), Budget(head)))
  }

  function TwoHeads(first: string, rest: string, chunks: seq<string>): (r: seq<string>)
    ensures |r| == |chunks|
    ensures forall i | 0 <= i < |r| :: r[i] == (if i == 0 then first else rest) + " :" + chunks[i]
  {
    if chunks == [] then [] else Heading(first, [chunks[0]]) + Heading(rest, chunks[1..])
  }

  /** The first line creates the thread, the rest reply in it; all are cut for the longer head. */
  function ThreadLines(channel: string, name: string, text: string): seq<string> {
    TwoHeads(CreateHead(channel, name), ReplyHead(channel, name),
             AllChunks(CleanLines(text), Budget(CreateHead(channel, name))))
  }

  lemma {:induction false} FlattenConcat(a: seq<string>, b: seq<string>)
    ensures Flatten(a + b) == Flatten(a) + Flatten(b)
    decreases |b|
  {
    if b == [] {
      assert a + b == a;
    } else {
      var n := |b| - 1;
      hide Flatten;
      FlattenConcat(a, b[..n]);
      FlattenSnoc(a + b[..n], b[n]);
      FlattenSnoc(b[..n], b[n]);
      Assoc(Flatten(a), Flatten(b[..n]), b[n]);
      assert a + b == a + b[..n] + [b[n]] && b == b[..n] + [b[n]];
    }
  }

  lemma AllChunksSnoc(lines: seq<string>, line: string, budget: int)
    ensures AllChunks(lines + [line], budget) == AllChunks(lines, budget) + Chunked(line, budget)
    ensures AllChunks([], budget) == [] && AllChunks([line], budget) == Chunked(line, budget)
  {
    hide Chunked;
    assert (lines + [line])[..|lines|] == lines && [line][..0] == [];
    assert [] + Chunked(line, budget) == Chunked(line, budget);
  }

  lemma {:induction false} AllChunksConcat(a: seq<string>, b: seq<string>, budget: int)
    ensures AllChunks(a + b, budget) == AllChunks(a, budget) + AllChunks(b, budget)
    decreases |b|
  {
    hide AllChunks, Chunked;
    if b == [] {
      assert a + b == a;
      AllChunksSnoc([], "", budget);
      assert AllChunks(a, budget) + [] == AllChunks(a, budget);
    } else {
      var n := |b| - 1;
      AllChunksConcat(a, b[..n], budget);
      AllChunksSnoc(a + b[..n], b[n], budget);
      AllChunksSnoc(b[..n], b[n], budget);
      assert a + b == a + b[..n] + [b[n]] && b == b[..n] + [b[n]];
    }
  }

  /** No line is sent together with the text beyond a break: what is sent splits where the text does. */
  lemma {:induction false} FramedSplits(head: string, a: string, c: char, b: string)
    requires Breaks(c)
    ensures Framed(head, a + [c] + b) == Framed(head, a) + Framed(head, b)
  {
    hide CleanLines, AllChunks, Budget, Breaks;
    CleanSplits(a, c, b);
    AllChunksConcat(CleanLines(a), CleanLines(b), Budget(head));
  }

  /** A clean line is sent alone, whole when it fits beside the head, else in chunks; a blank one not at all. */
  lemma {:induction false} FramedLine(head: string, text: string)
    requires Trailing(text)
    ensures Framed(head, text) == if Blank(text) then [] else Heading(head, Chunked(text, Budget(head)))
    ensures !Blank(text) && Bytes(text) <= Budget(head) ==> Framed(head, text) == [head + " :" + text]
  {
    assert text == [] ==> Blank(text);
    hide CleanLines, Budget, Blank, AllChunks, Chunked, Bytes, Trailing;
    CleanLineStays(text);
    AllChunksSnoc([], text, Budget(head));
    if text != [] && Bytes(text) <= Budget(head) {
      WholeChunk(text, Budget(head));
    }
  }

  lemma {:induction false} WholeChunk(text: string, budget: int)
    requires Bytes(text) <= budget && text != []
    ensures Chunked(text, budget) == [text]
  {
    WholeFits(text, budget);
    hide Fill;
  }

  lemma {:induction false} WholeFits(text: string, budget: int)
    requires Bytes(text) <= budget
    ensures Fill(text, budget) == Filling([], text)
  {
    hide Fill, Bytes, Size;
    if text == [] {
      FillNone(budget);
    } else {
      BytesLast(text);
      WholeFits(text[..|text| - 1], budget);
      FillOnto(text, budget);
    }
  }

  lemma FillNone(budget: int)
    ensures Fill([], budget) == Filling([], [])
  {
  }

  lemma BytesLast(text: string)
    requires text != []
    ensures Bytes(text) == Bytes(text[..|text| - 1]) + Size(text[|text| - 1])
  {
  }

  lemma FillOnto(text: string, budget: int)
    requires text != [] && Fill(text[..|text| - 1], budget) == Filling([], text[..|text| - 1])
    requires Bytes(text[..|text| - 1]) + Size(text[|text| - 1]) <= budget
    ensures Fill(text, budget) == Filling([], text)
  {
    hide Bytes, Size;
    assert text[..|text| - 1] + [text[|text| - 1]] == text;
  }

  /** The chunks put end to end are the cleaned lines put end to end. */
  lemma {:induction false} AllChunksFlatten(lines: seq<string>, budget: int)
    ensures Flatten(AllChunks(lines, budget)) == Flatten(lines)
    decreases |lines|
  {
    if lines != [] {
      var n := |lines| - 1;
      AllChunksFlatten(lines[..n], budget);
      ChunksFlatten(lines[n], budget);
      FlattenConcat(AllChunks(lines[..n], budget), Chunked(lines[n], budget));
    }
  }

  /** All chunks are within the budget exactly when every character is. */
  lemma {:induction false} AllChunksFitIff(lines: seq<string>, budget: int)
    ensures (forall i | 0 <= i < |AllChunks(lines, budget)| :: Bytes(AllChunks(lines, budget)[i]) <= budget)
            <==> (forall c | c in Flatten(lines) :: Size(c) <= budget)
    decreases |lines|
  {
    if lines != [] {
      var n := |lines| - 1;
      var front, last := AllChunks(lines[..n], budget), Chunked(lines[n], budget);
      AllChunksFitIff(lines[..n], budget);
      ChunksFitIff(lines[n], budget);
      hide AllChunks, Chunked, Bytes, Flatten, Size;
      AllFitConcat(front, last, budget);
      AllChunksNext(lines, budget);
    }
  }

  lemma AllChunksNext(lines: seq<string>, budget: int)
    requires lines != []
    ensures AllChunks(lines, budget) == AllChunks(lines[..|lines| - 1], budget) + Chunked(lines[|lines| - 1], budget)
    ensures Flatten(lines) == Flatten(lines[..|lines| - 1]) + lines[|lines| - 1]
  {
  }

  lemma AllFitConcat(a: seq<string>, b: seq<string>, budget: int)
    ensures (forall i | 0 <= i < |a + b| :: Bytes((a + b)[i]) <= budget) <==>
            (forall i | 0 <= i < |a| :: Bytes(a[i]) <= budget) && (forall i | 0 <= i < |b| :: Bytes(b[i]) <= budget)
  {
    hide Bytes;
    if forall i | 0 <= i < |a + b| :: Bytes((a + b)[i]) <= budget {
      forall i | 0 <= i < |a| ensures Bytes(a[i]) <= budget { assert a[i] == (a + b)[i]; }
      forall i | 0 <= i < |b| ensures Bytes(b[i]) <= budget { assert b[i] == (a + b)[|a| + i]; }
    }
  }

  /** Every framed line, its CRLF included, fits exactly when every character fits beside the head. */
  lemma {:induction false} FramedFitsIff(head: string, text: string)
    ensures (forall i | 0 <= i < |Framed(head, text)| :: Bytes(Framed(head, text)[i]) + 2 <= MAX_LINE_BYTES)
            <==> (forall c | c in Flatten(CleanLines(text)) :: Size(c) <= Budget(head))
  {
    var chunks := AllChunks(CleanLines(text), Budget(head));
    AllChunksFitIff(CleanLines(text), Budget(head));
    hide AllChunks, CleanLines, Bytes, Flatten, Size;
    forall i | 0 <= i < |chunks|
      ensures Bytes(Framed(head, text)[i]) + 2 <= MAX_LINE_BYTES <==> Bytes(chunks[i]) <= Budget(head)
    {
      BytesConcat(head + " :", chunks[i]);
    }
  }

  /** A head short enough leaves room for any character, so every line fits. */
  lemma {:induction false} FramedFits(head: string, text: string)
    requires Bytes(head) + 8 <= MAX_LINE_BYTES
    ensures forall i | 0 <= i < |Framed(head, text)| :: Bytes(Framed(head, text)[i]) + 2 <= MAX_LINE_BYTES
  {
    BytesConcat(head, " :");
    assert Bytes(" :") == 2 by {
      assert " :"[..1] == " ";
    }
    FramedFitsIff(head, text);
  }

  lemma {:induction false} AsciiBytes(s: string)
    requires forall i | 0 <= i < |s| :: s[i] < '\U{80}'
    ensures Bytes(s) == |s|
    decreases |s|
  {
    if s != [] {
      AsciiBytes(s[..|s| - 1]);
    }
  }

  /** The reply head is one byte shorter than the create head the chunks were cut for. */
  lemma {:induction false} ReplyIsShorter(channel: string, name: string)
    ensures Bytes(ReplyHead(channel, name)) + 1 == Bytes(CreateHead(channel, name))
  {
    var rest := channel + " " + name;
    assert "THREAD REPLY " + channel + " " + name == "THREAD REPLY " + rest;
    assert "THREAD CREATE " + channel + " " + name == "THREAD CREATE " + rest;
    BytesConcat("THREAD REPLY ", rest);
    BytesConcat("THREAD CREATE ", rest);
    AsciiBytes("THREAD REPLY ");
    AsciiBytes("THREAD CREATE ");
  }

  /** Chunks cut for one head also fit under any head that is no longer. */
  lemma {:induction false} ShorterHeadFits(head: string, other: string, text: string, i: nat)
    requires Bytes(head) + 8 <= MAX_LINE_BYTES && Bytes(other) <= Bytes(head)
    requires i < |AllChunks(CleanLines(text), Budget(head))|
    ensures Bytes(other + " :" + AllChunks(CleanLines(text), Budget(head))[i]) + 2 <= MAX_LINE_BYTES
  {
    var chunk := AllChunks(CleanLines(text), Budget(head))[i];
    FramedFits(head, text);
    assert Framed(head, text)[i] == head + " :" + chunk;
    LongerBytes(head, chunk);
    LongerBytes(other, chunk);
  }

  function CreateHead(channel: string, name: string): string {
    "THREAD CREATE " + channel + " " + name
  }

  function ReplyHead(channel: string, name: string): string {
    "THREAD REPLY " + channel + " " + name
  }

  /** A thread's lines: as many as the chunks, one create then replies, and each fits its line. */
  lemma {:induction false} ThreadFits(channel: string, name: string, text: string)
    requires Bytes(CreateHead(channel, name)) + 8 <= MAX_LINE_BYTES
    ensures var chunks := AllChunks(CleanLines(text), Budget(CreateHead(channel, name)));
            var lines := ThreadLines(channel, name, text);
            && |lines| == |chunks|
            && (forall i | 0 <= i < |lines| ::
                  lines[i] == (if i == 0 then CreateHead(channel, name) else ReplyHead(channel,
                      name)) + " :" + chunks[i])
            && forall i | 0 <= i < |lines| :: Bytes(lines[i]) + 2 <= MAX_LINE_BYTES
  {
    var create, reply := CreateHead(channel, name), ReplyHead(channel, name);
    var chunks := AllChunks(CleanLines(text), Budget(create));
    ReplyIsShorter(channel, name);
    hide Bytes, AllChunks, CleanLines, CreateHead, ReplyHead, Budget, TwoHeads;
    forall i | 0 <= i < |chunks|
      ensures Bytes(TwoHeads(create, reply, chunks)[i]) + 2 <= MAX_LINE_BYTES
    {
      if i == 0 {
        ShorterHeadFits(create, create, text, i);
        assert TwoHeads(create, reply, chunks)[i] == create + " :" + chunks[i];
      } else {
        ShorterHeadFits(create, reply, text, i);
        assert TwoHeads(create, reply, chunks)[i] == reply + " :" + chunks[i];
      }
    }
  }

  lemma LongerBytes(head: string, chunk: string)
    ensures Bytes(head + " :" + chunk) == Bytes(head) + Bytes(" :") + Bytes(chunk)
  {
    BytesConcat(head + " :", chunk);
    BytesConcat(head, " :");
  }
}
