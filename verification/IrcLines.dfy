/**
 The line parser and a printer it undoes. Lines have the shape of RFC 2812, section 2.3.1; tag
 escaping is that of the IRCv3 Message Tags specification ("Escaping values"). Upper-casing is an
 oracle.
 */
module IrcLines {
  import opened Common
  import opened Text
  import opened Wire

  // ---------------------------------------------------------------- tags

  function EscapeChar(c: char): string {
    match c
    case ';' => "\\:"
    case ' ' => "\\s"
    case '\\' => "\\\\"
    case '\r' => "\\r"
    case '\n' => "\\n"
    case _ => [c]
  }

  function Escape(value: string): string {
    if value == [] then [] else EscapeChar(value[0]) + Escape(value[1..])
  }

  function Named(c: char): char {
    match c
    case ':' => ';'
    case 's' => ' '
    case 'r' => '\r'
    case 'n' => '\n'
    case _ => c
  }

  /** A backslash yields the character its follower names, or the follower; a last one is dropped. */
  function Unescape(value: string): string {
    if value == [] then []
    else if value[0] != '\\' then [value[0]] + Unescape(value[1..])
    else if |value| == 1 then []
    else
      [Named(value[1])] + Unescape(value[2..])
  }

  lemma UnescapeHere(value: string, i: nat)
    requires i < |value|
    ensures Unescape(value[i..]) ==
            if value[i] != '\\' then [value[i]] + Unescape(value[i + 1..])
            else if i + 1 == |value| then []
            else [Named(value[i + 1])] + Unescape(value[i + 2..])
  {
    hide Named;
    var rest := value[i..];
    assert rest[1..] == value[i + 1..];
    assert i + 1 < |value| ==> rest[2..] == value[i + 2..];
  }

  method UnescapeTag(value: string) returns (out: string)
    ensures out == Unescape(value)
  {
    hide Unescape, Named;
    out := "";
    var i := 0;
    assert value[0..] == value;
    while i < |value|
      invariant i <= |value| && out + Unescape(value[i..]) == Unescape(value)
    {
      UnescapeHere(value, i);
      UnescapeNone();
      assert value[|value|..] == [];
      ghost var was := out;
      if value[i] == '\\' {
        if i + 1 < |value| {
          Assoc(was, [Named(value[i + 1])], Unescape(value[i + 2..]));
          out := out + [Named(value[i + 1])];
          i := i + 1;
        }
        i := i + 1;
      } else {
        Assoc(was, [value[i]], Unescape(value[i + 1..]));
        out := out + [value[i]];
        i := i + 1;
      }
    }
    assert value[i..] == [];
    UnescapeNone();
  }

  lemma {:induction false} UnescapeOne(c: char, rest: string)
    ensures Unescape(EscapeChar(c) + rest) == [c] + Unescape(rest)
  {
    var e := EscapeChar(c);
    assert |e| == 1 ==> (e + rest)[1..] == rest;
    assert |e| == 2 ==> (e + rest)[2..] == rest;
  }

  /** An escape of no listed character stands for that character, and a last lone backslash for nothing. */
  lemma {:induction false} UnescapeOther(value: string, c: char, rest: string)
    requires value == ['\\', c] + rest
    ensures c != ':' && c != 's' && c != 'r' && c != 'n' ==> Unescape(value) == [c] + Unescape(rest)
    ensures Unescape(['\\']) == []
  {
    assert value[2..] == rest;
  }

  /** Unescaping undoes escaping. */
  lemma {:induction false} UnescapeEscape(value: string)
    ensures Unescape(Escape(value)) == value
  {
    hide Unescape;
    if value == [] {
      UnescapeNone();
    } else {
      UnescapeEscape(value[1..]);
      UnescapeOne(value[0], Escape(value[1..]));
      assert value == [value[0]] + value[1..];
    }
  }

  lemma UnescapeNone()
    ensures Unescape([]) == []
  {
  }

  /** An escaped value holds nothing a tag list or a line is split at. */
  lemma {:induction false} EscapePlain(value: string)
    ensures ';' !in Escape(value) && ' ' !in Escape(value) && '\r' !in Escape(value) && '\n' !in Escape(value)
  {
    if value != [] {
      EscapePlain(value[1..]);
    }
  }

  // ---------------------------------------------------------------- the parser

  datatype IrcLine = IrcLine(tags: map<string, string>, prefix: string, command: string, params: seq<string>)

  function RStrip(s: string): string {
    if s != [] && Breaks(s[|s| - 1]) then RStrip(s[..|s| - 1]) else s
  }

  function LStrip(s: string): string {
    if s != [] && s[0] == ' ' then LStrip(s[1..]) else s
  }

  function IndexOf(s: string, c: char): (k: nat)
    ensures k <= |s| && (forall i | 0 <= i < k :: s[i] != c) && (k < |s| ==> s[k] == c)
  {
    if s == [] || s[0] == c then 0 else 1 + IndexOf(s[1..], c)
  }

  /** Where " :" first occurs, or the length. */
  function TrailingAt(s: string): (k: nat)
    ensures k <= |s| && (k < |s| ==> k + 1 < |s| && s[k] == ' ' && s[k + 1] == ':')
    ensures forall i | 0 <= i < k && i + 1 < |s| :: !(s[i] == ' ' && s[i + 1] == ':')
  {
    if s == [] then 0
    else if |s| > 1 && s[0] == ' ' && s[1] == ':' then 0
    else 1 + TrailingAt(s[1..])
  }

  function WordEnd(s: string): (k: nat)
    ensures k <= |s| && (forall i | 0 <= i < k :: !IsSpace(s[i])) && (k < |s| ==> IsSpace(s[k]))
  {
    if s == [] || IsSpace(s[0]) then 0 else 1 + WordEnd(s[1..])
  }

  /** `split()`. */
  function Words(s: string): seq<string>
    decreases |s|
  {
    if s == [] then []
    else if IsSpace(s[0]) then Words(s[1..])
    else [s[..WordEnd(s)]] + Words(s[WordEnd(s)..])
  }

  function Before(s: string, c: char): string {
    s[..IndexOf(s, c)]
  }

  /** What follows the first `c`; empty when there is none. */
  function Beyond(s: string, c: char): string {
    if IndexOf(s, c) < |s| then s[IndexOf(s, c) + 1..] else []
  }

  function TagMap(items: seq<string>): map<string, string> {
    if items == [] then map[]
    else
      var n := |items| - 1;
      var m := TagMap(items[..n]);
      if items[n] == [] then m else m[Before(items[n], '=') := Unescape(Beyond(items[n], '='))]
  }

  /** Everything after the tags and the prefix. */
  function ParseRest(upper: string -> string, tags: map<string, string>, prefix: string, s: string): Option<IrcLine> {
    var k := TrailingAt(s);
    var head := if k < |s| then s[..k] else if s != [] && s[0] == ':' then [] else s;
    var trailing := if k < |s| then [s[k + 2..]] else if s != [] && s[0] == ':' then [s[1..]] else [];
    var parts := Words(head);
    if parts == [] then None else Some(IrcLine(tags, prefix, upper(parts[0]), parts[1..] + trailing))
  }

  function ParsePrefixed(upper: string -> string, tags: map<string, string>, s: string): Option<IrcLine> {
    if s != [] && s[0] == ':' then ParseRest(upper, tags, Before(s[1..], ' '), LStrip(Beyond(s[1..], ' ')))
    else ParseRest(upper, tags, "", s)
  }

  /** `parse_line`. */
  function Parse(upper: string -> string, raw: string): Option<IrcLine> {
    var line := RStrip(raw);
    if line != [] && line[0] == '@' then
      ParsePrefixed(upper, TagMap(Split(Before(line[1..], ' '), ';')), LStrip(Beyond(line[1..], ' ')))
    else ParsePrefixed(upper, map[], LStrip(line))
  }

  // ---------------------------------------------------------------- the printer

  datatype Tag = Tag(key: string, value: string)

  /** A message as its sender means it; `trailing` is absent or the last parameter. */
  datatype Message = Message(tags: seq<Tag>, prefix: string, command: string, middles: seq<string>,
      trailing: Option<string>)

  function TagItem(tag: Tag): string {
    tag.key + "=" + Escape(tag.value)
  }

  function TagItems(tags: seq<Tag>): (items: seq<string>)
    ensures |items| == |tags| && forall i | 0 <= i < |items| :: items[i] == TagItem(tags[i])
  {
    seq(|tags|, i requires 0 <= i < |tags| => TagItem(tags[i]))
  }

  /** The command and the middle parameters. */
  function HeadText(command: string, middles: seq<string>): string {
    if middles == [] then command
    else HeadText(command, middles[..|middles| - 1]) + " " + middles[|middles| - 1]
  }

  function Tail(trailing: Option<string>): string {
    if trailing.Some? then " :" + trailing.value else ""
  }

  function Print(m: Message): string {
    (if m.tags == [] then "" else "@" + Join(TagItems(m.tags), ';') + " ")
    + ((if m.prefix == "" then "" else ":" + m.prefix + " ") + (HeadText(m.command, m.middles) + Tail(m.trailing)))
  }

  /** No white space, not empty, and no leading colon. */
  predicate Middle(s: string) {
    s != [] && s[0] != ':' && forall i | 0 <= i < |s| :: !IsSpace(s[i])
  }

  predicate Key(s: string) {
    s != [] && forall i | 0 <= i < |s| :: s[i] != ';' && s[i] != '=' && s[i] != ' ' && !Breaks(s[i])
  }

  predicate Prefix(s: string) {
    forall i | 0 <= i < |s| :: s[i] != ' ' && !Breaks(s[i])
  }

  predicate Printable(upper: string -> string, m: Message) {
    && (forall i | 0 <= i < |m.tags| :: Key(m.tags[i].key))
    && (forall i, j | 0 <= i < j < |m.tags| :: m.tags[i].key != m.tags[j].key)
    && Prefix(m.prefix)
    && Middle(m.command) && m.command[0] != '@' && upper(m.command) == m.command
    && (forall i | 0 <= i < |m.middles| :: Middle(m.middles[i]))
    && (m.trailing.Some? ==> Trailing(m.trailing.value))
  }

  function TagsMeant(tags: seq<Tag>): map<string, string> {
    if tags == [] then map[] else TagsMeant(tags[..|tags| - 1])[tags[|tags| - 1].key := tags[|tags| - 1].value]
  }

  // ---------------------------------------------------------------- parsing undoes printing

  /** No carriage return or line feed. */
  predicate OneLine(s: string) {
    forall i | 0 <= i < |s| :: !Breaks(s[i])
  }

  lemma OneLineConcat(a: string, b: string)
    requires OneLine(a) && OneLine(b)
    ensures OneLine(a + b)
  {
  }

  lemma MiddleOneLine(s: string)
    requires Middle(s)
    ensures OneLine(s)
  {
    assert forall i | 0 <= i < |s| :: !IsSpace(s[i]);
  }

  /** A head holds no " :", no break, starts with its command and ends in a word. */
  predicate HeadGood(s: string, command: string) {
    && command != [] && command <= s && OneLine(s) && !IsSpace(s[|s| - 1])
    && forall i | 0 <= i < |s| - 1 :: !(s[i] == ' ' && s[i + 1] == ':')
  }

  lemma {:induction false} HeadIsGood(command: string, middles: seq<string>)
    requires Middle(command) && forall i | 0 <= i < |middles| :: Middle(middles[i])
    ensures HeadGood(HeadText(command, middles), command)
    decreases |middles|
  {
    if middles == [] {
      MiddleOneLine(command);
    } else {
      var n := |middles| - 1;
      var front, last := HeadText(command, middles[..n]), middles[n];
      HeadIsGood(command, middles[..n]);
      HeadGrows(front, last, command);
    }
  }

  lemma HeadGrows(front: string, last: string, command: string)
    requires HeadGood(front, command) && Middle(last)
    ensures HeadGood(front + " " + last, command)
  {
    var s := front + " " + last;
    MiddleOneLine(last);
    assert s == front + (" " + last);
    forall i | 0 <= i < |s| - 1
      ensures !(s[i] == ' ' && s[i + 1] == ':')
    {
      if i < |front| - 1 {
        assert s[i] == front[i] && s[i + 1] == front[i + 1];
      } else if i == |front| - 1 {
        assert s[i] == front[i];
      } else if i == |front| {
        assert s[i + 1] == last[0];
      } else {
        assert s[i] == last[i - |front| - 1];
      }
    }
    assert s[|s| - 1] == last[|last| - 1];
  }

  lemma {:induction false} WordsOne(w: string)
    requires w != [] && forall i | 0 <= i < |w| :: !IsSpace(w[i])
    ensures Words(w) == [w]
  {
    assert WordEnd(w) == |w|;
    assert w[..|w|] == w && w[|w|..] == [] && Words([]) == [];
  }

  lemma {:induction false} WordsSnoc(s: string, w: string)
    requires w != [] && (forall i | 0 <= i < |w| :: !IsSpace(w[i])) && s != [] && !IsSpace(s[|s| - 1])
    ensures Words(s + " " + w) == Words(s) + [w]
    decreases |s|
  {
    var t := s + " " + w;
    if IsSpace(s[0]) {
      assert t[1..] == s[1..] + " " + w;
      WordsSnoc(s[1..], w);
    } else {
      var k := WordEnd(s);
      assert forall i | 0 <= i < k :: t[i] == s[i];
      if k == |s| {
        assert t[k] == ' ';
        assert WordEnd(t) == k;
        assert t[..k] == s && t[k..][1..] == w;
        WordsOne(w);
        WordsOne(s);
      } else {
        assert t[k] == s[k];
        assert WordEnd(t) == k;
        assert t[..k] == s[..k] && t[k..] == s[k..] + " " + w;
        WordsSnoc(s[k..], w);
      }
    }
  }

  lemma {:induction false} WordsOfHead(command: string, middles: seq<string>)
    requires Middle(command) && forall i | 0 <= i < |middles| :: Middle(middles[i])
    ensures Words(HeadText(command, middles)) == [command] + middles
    decreases |middles|
  {
    if middles == [] {
      WordsOne(command);
    } else {
      var n := |middles| - 1;
      WordsOfHead(command, middles[..n]);
      HeadIsGood(command, middles[..n]);
      WordsSnoc(HeadText(command, middles[..n]), middles[n]);
      assert middles == middles[..n] + [middles[n]];
    }
  }

  lemma TrailingFirst(s: string, n: nat)
    requires n <= |s| && (n < |s| ==> n + 1 < |s| && s[n] == ' ' && s[n + 1] == ':')
    requires forall i | 0 <= i < n && i + 1 < |s| :: !(s[i] == ' ' && s[i + 1] == ':')
    ensures TrailingAt(s) == n
  {
    var k := TrailingAt(s);
    hide TrailingAt;
  }

  lemma TrailingFound(head: string, command: string, trailing: Option<string>)
    requires HeadGood(head, command)
    ensures var s := head + Tail(trailing);
            TrailingAt(s) == |head| && s[..|head|] == head && (trailing.Some? ==> s[|head| + 2..] == trailing.value)
  {
    hide TrailingAt;
    var s := head + Tail(trailing);
    forall i | 0 <= i < |head| && i + 1 < |s|
      ensures !(s[i] == ' ' && s[i + 1] == ':')
    {
      assert s[i] == head[i];
      if i == |head| - 1 {
        assert !IsSpace(s[i]);
      } else {
        assert s[i + 1] == head[i + 1];
      }
    }
    TrailingFirst(s, |head|);
  }

  /** The command, the parameters and the trailing text come back exactly. */
  lemma {:induction false} RestRoundTrip(
    upper: string -> string, tags: map<string, string>, prefix: string, command: string, middles: seq<string>,
        trailing: Option<string>)
    requires Middle(command) && upper(command) == command && forall i | 0 <= i < |middles| :: Middle(middles[i])
    ensures ParseRest(upper, tags, prefix, HeadText(command, middles) + Tail(trailing)) ==
            Some(IrcLine(tags, prefix, command, middles + if trailing.Some? then [trailing.value] else []))
  {
    var head := HeadText(command, middles);
    var s := head + Tail(trailing);
    HeadIsGood(command, middles);
    TrailingFound(head, command, trailing);
    WordsOfHead(command, middles);
    assert s[0] == head[0] == command[0];
    assert ([command] + middles)[1..] == middles;
    assert trailing.None? ==> s == head;
    assert middles + [] == middles;
    hide TrailingAt, Words, HeadText, HeadGood;
  }

  lemma {:induction false} PrefixRoundTrip(upper: string -> string, tags: map<string, string>, m: Message)
    requires Printable(upper, m)
    ensures var body := (if m.prefix == "" then "" else ":" + m.prefix + " ") + (HeadText(m.command,
        m.middles) + Tail(m.trailing));
            && ParsePrefixed(upper, tags, body) ==
               Some(IrcLine(tags, m.prefix, m.command, m.middles + if m.trailing.Some? then [m.trailing.value] else []))
            && LStrip(body) == body && body != [] && body[0] != '@' && OneLine(body)
  {
    var rest := HeadText(m.command, m.middles) + Tail(m.trailing);
    HeadIsGood(m.command, m.middles);
    assert rest[0] == m.command[0];
    RestRoundTrip(upper, tags, m.prefix, m.command, m.middles, m.trailing);
    TailOneLine(m.trailing);
    OneLineConcat(HeadText(m.command, m.middles), Tail(m.trailing));
    hide ParseRest, HeadText, HeadGood, Tail;
    if m.prefix == "" {
      assert "" + rest == rest;
    } else {
      PrefixSplits(m.prefix, rest);
    }
  }

  lemma TailOneLine(trailing: Option<string>)
    requires trailing.Some? ==> Trailing(trailing.value)
    ensures OneLine(Tail(trailing))
  {
  }

  lemma PrefixSplits(prefix: string, rest: string)
    requires prefix != [] && Prefix(prefix) && rest != [] && rest[0] != ' ' && OneLine(rest)
    ensures var s := ":" + prefix + " " + rest;
            s[0] == ':' && Before(s[1..], ' ') == prefix && LStrip(Beyond(s[1..], ' ')) == rest && OneLine(s)
  {
    var s := ":" + prefix + " " + rest;
    assert s[1..] == prefix + " " + rest;
    WordSplits(prefix, rest, ' ');
  }

  /** What stands before and after the first separator. */
  lemma WordSplits(word: string, rest: string, c: char)
    requires c !in word
    ensures Before(word + [c] + rest, c) == word && Beyond(word + [c] + rest, c) == rest
  {
    var s := word + [c] + rest;
    var k := IndexOf(s, c);
    assert s[|word|] == c;
    assert forall i | 0 <= i < |word| :: s[i] == word[i] && word[i] in word;
    assert k == |word|;
  }

  lemma {:induction false} TagMapMeant(tags: seq<Tag>)
    requires forall i | 0 <= i < |tags| :: Key(tags[i].key)
    ensures TagMap(TagItems(tags)) == TagsMeant(tags)
    decreases |tags|
  {
    if tags != [] {
      var n := |tags| - 1;
      var items := TagItems(tags);
      TagMapMeant(tags[..n]);
      assert items[..n] == TagItems(tags[..n]);
      assert items[n] == tags[n].key + ['='] + Escape(tags[n].value);
      assert '=' !in tags[n].key;
      WordSplits(tags[n].key, Escape(tags[n].value), '=');
      UnescapeEscape(tags[n].value);
    }
  }

  /** One item holds no separator, space or break. */
  lemma {:induction false} TagItemPlain(tag: Tag)
    requires Key(tag.key)
    ensures ';' !in TagItem(tag) && ' ' !in TagItem(tag) && OneLine(TagItem(tag))
  {
    EscapePlain(tag.value);
    assert forall i | 0 <= i < |Escape(tag.value)| :: Escape(tag.value)[i] in Escape(tag.value);
  }

  lemma {:induction false} JoinPlain(items: seq<string>)
    requires forall i | 0 <= i < |items| :: ' ' !in items[i] && OneLine(items[i])
    ensures ' ' !in Join(items, ';') && OneLine(Join(items, ';'))
    decreases |items|
  {
    if |items| > 1 {
      JoinPlain(items[1..]);
      OneLineConcat(items[0], [';'] + Join(items[1..], ';'));
      assert items[0] + [';'] + Join(items[1..], ';') == items[0] + ([';'] + Join(items[1..], ';'));
    }
  }

  lemma {:induction false} TagsSplit(tags: seq<Tag>, rest: string)
    requires tags != [] && (forall i | 0 <= i < |tags| :: Key(tags[i].key)) && OneLine(rest) && LStrip(rest) == rest
    ensures var line := "@" + Join(TagItems(tags), ';') + " " + rest;
            && line[0] == '@' && OneLine(line) && LStrip(Beyond(line[1..], ' ')) == rest
            && TagMap(Split(Before(line[1..], ' '), ';')) == TagsMeant(tags)
  {
    var items := TagItems(tags);
    var text := Join(items, ';');
    TagTextPlain(tags);
    hide Join, TagMap, Split, TagItems, LStrip, Before, Beyond;
    var line := "@" + text + " " + rest;
    assert line[1..] == text + [' '] + rest;
    WordSplits(text, rest, ' ');
    OneLineConcat("@" + text + " ", rest);
  }

  /** The tag list is one word, and splits and parses back into the tags. */
  lemma {:induction false} TagTextPlain(tags: seq<Tag>)
    requires tags != [] && forall i | 0 <= i < |tags| :: Key(tags[i].key)
    ensures var text := Join(TagItems(tags), ';');
            ' ' !in text && OneLine("@" + text + " ") && TagMap(Split(text, ';')) == TagsMeant(tags)
  {
    var items := TagItems(tags);
    hide TagItem, Join, TagMap, Split, TagsMeant, Key;
    forall i | 0 <= i < |items|
      ensures ';' !in items[i] && ' ' !in items[i] && OneLine(items[i])
    {
      TagItemPlain(tags[i]);
    }
    JoinPlain(items);
    SplitJoin(items, ';');
    TagMapMeant(tags);
  }

  lemma RStripNone(s: string)
    requires OneLine(s)
    ensures RStrip(s) == s
  {
  }

  /**
   Parsing a printed message gives back its tags (escaped values undone), prefix, command,
   parameters and trailing text, whatever the trailing text holds short of a line break or NUL.
   */
  lemma {:induction false} ParsePrint(upper: string -> string, m: Message)
    requires Printable(upper, m)
    ensures Parse(upper, Print(m)) ==
            Some(IrcLine(TagsMeant(m.tags), m.prefix, m.command,
                m.middles + if m.trailing.Some? then [m.trailing.value] else []))
  {
    var body := (if m.prefix == "" then "" else ":" + m.prefix + " ") + (HeadText(m.command,
        m.middles) + Tail(m.trailing));
    PrefixRoundTrip(upper, TagsMeant(m.tags), m);
    hide ParsePrefixed, HeadText, LStrip, Beyond, Before, TagMap, Split, Join;
    if m.tags == [] {
      assert "" + body == body;
      RStripNone(body);
    } else {
      TagsSplit(m.tags, body);
      RStripNone("@" + Join(TagItems(m.tags), ';') + " " + body);
    }
  }

  // ---------------------------------------------------------------- any line at all

  /** `split()` cuts at every white space character, and a word is a word: this is all of it. */
  lemma {:induction false} WordsSplit(a: string, c: char, b: string)
    requires IsSpace(c)
    ensures Words(a + [c] + b) == Words(a) + Words(b)
    decreases |a|
  {
    var s := a + [c] + b;
    if a == [] {
      assert s[1..] == b && Words(a) + Words(b) == Words(b);
    } else if IsSpace(a[0]) {
      assert s[1..] == a[1..] + [c] + b;
      WordsSplit(a[1..], c, b);
    } else {
      WordsStep(a, c, b, WordEnd(a));
    }
  }

  lemma {:induction false} WordsStep(a: string, c: char, b: string, k: nat)
    requires IsSpace(c) && a != [] && !IsSpace(a[0]) && k == WordEnd(a)
    ensures Words(a + [c] + b) == Words(a) + Words(b)
    decreases |a|, 0
  {
    var s := a + [c] + b;
    assert k > 0 && forall i | 0 <= i < k :: s[i] == a[i];
    assert IsSpace(s[k]);
    assert WordEnd(s) == k && s[..k] == a[..k];
    if k == |a| {
      assert s[k..][1..] == b && a[k..] == [] && Words([]) == [];
      assert Words(a) == [a[..k]];
    } else {
      assert s[k..] == a[k..] + [c] + b;
      WordsSplit(a[k..], c, b);
      assert [a[..k]] + (Words(a[k..]) + Words(b)) == [a[..k]] + Words(a[k..]) + Words(b);
    }
  }

  /** One more tag: an empty item is none, a key without a value has the empty one, and a later tag wins. */
  lemma {:induction false} TagMapNext(items: seq<string>, key: string, value: string)
    requires '=' !in key
    ensures TagMap([]) == map[] && TagMap(items + [""]) == TagMap(items)
    ensures key != "" ==> TagMap(items + [key]) == TagMap(items)[key := ""]
    ensures TagMap(items + [key + "=" + value]) == TagMap(items)[key := Unescape(value)]
  {
    var n := |items|;
    assert (items + [""])[..n] == (items + [key])[..n] == (items + [key + "=" + value])[..n] == items;
    WordSplits(key, value, '=');
    assert IndexOf(key, '=') == |key| && key[..|key|] == key;
    UnescapeNone();
  }

  lemma {:induction false} RStripFront(front: string, s: string)
    requires front != [] && !Breaks(front[|front| - 1])
    ensures RStrip(front + s) == front + RStrip(s)
    decreases |s|
  {
    if s == [] {
      assert front + s == front;
    } else {
      var n := |s| - 1;
      assert (front + s)[|front + s| - 1] == s[n];
      if Breaks(s[n]) {
        assert (front + s)[..|front + s| - 1] == front + s[..n];
        RStripFront(front, s[..n]);
      }
    }
  }

  lemma {:induction false} RStripKeepsFirst(s: string)
    ensures RStrip(s) != [] ==> s != [] && RStrip(s)[0] == s[0]
    decreases |s|
  {
    if s != [] && Breaks(s[|s| - 1]) {
      RStripKeepsFirst(s[..|s| - 1]);
    }
  }

  /** Line breaks at the end of a line are as if they were not there. */
  lemma ParseIgnoresEnd(upper: string -> string, line: string, c: char)
    requires Breaks(c)
    ensures Parse(upper, line + [c]) == Parse(upper, line)
  {
    assert (line + [c])[..|line|] == line;
    assert RStrip(line + [c]) == RStrip(line);
    hide ParsePrefixed, RStrip;
  }

  /** So are spaces before a line that carries no tags. */
  lemma ParseIgnoresFront(upper: string -> string, line: string)
    requires line == [] || line[0] != '@'
    ensures Parse(upper, " " + line) == Parse(upper, line)
  {
    RStripFront(" ", line);
    RStripKeepsFirst(line);
    hide ParsePrefixed, RStrip;
    assert (" " + RStrip(line))[1..] == RStrip(line);
  }

  function Retagged(parsed: Option<IrcLine>, tags: map<string, string>): Option<IrcLine> {
    if parsed.None? then None else Some(parsed.value.(tags := tags))
  }

  lemma TagsPassThrough(upper: string -> string, tags: map<string, string>, s: string)
    ensures ParsePrefixed(upper, tags, s) == Retagged(ParsePrefixed(upper, map[], s), tags)
  {
  }

  lemma TaggedLine(text: string, rest: string)
    requires ' ' !in text
    ensures var s := "@" + text + " " + rest;
            s[0] == '@' && Before(s[1..], ' ') == text && Beyond(s[1..], ' ') == rest
  {
    var s := "@" + text + " " + rest;
    assert s == "@" + (text + [' '] + rest);
    assert s[1..] == text + [' '] + rest;
    WordSplits(text, rest, ' ');
    hide Before, Beyond;
  }

  /** A tag list in front of a line gives it its tags and changes nothing else. */
  lemma ParseTagged(upper: string -> string, text: string, line: string)
    requires ' ' !in text && (line == [] || line[0] != '@')
    ensures Parse(upper, "@" + text + " " + line) == Retagged(Parse(upper, line), TagMap(Split(text, ';')))
  {
    hide RStrip, LStrip, ParsePrefixed, TagMap, Split, Before, Beyond;
    var rest := RStrip(line);
    RStripFront("@" + text + " ", line);
    RStripKeepsFirst(line);
    TaggedLine(text, rest);
    TagsPassThrough(upper, TagMap(Split(text, ';')), LStrip(rest));
  }

  function Prefixed(parsed: Option<IrcLine>, prefix: string): Option<IrcLine> {
    if parsed.None? then None else Some(parsed.value.(prefix := prefix))
  }

  lemma PrefixPassesThrough(upper: string -> string, prefix: string, s: string)
    ensures ParseRest(upper, map[], prefix, s) == Prefixed(ParseRest(upper, map[], "", s), prefix)
  {
  }

  lemma PrefixedLine(upper: string -> string, prefix: string, rest: string)
    requires ' ' !in prefix
    ensures ParsePrefixed(upper, map[], ":" + prefix + " " + rest) == ParseRest(upper, map[], prefix, LStrip(rest))
  {
    var s := ":" + prefix + " " + rest;
    assert s == ":" + (prefix + [' '] + rest);
    assert s[1..] == prefix + [' '] + rest;
    WordSplits(prefix, rest, ' ');
    hide ParseRest, LStrip, Before, Beyond;
  }

  /** A prefix in front of a line without tags or prefix gives it its prefix and changes nothing else. */
  lemma ParsePrefix(upper: string -> string, prefix: string, line: string)
    requires ' ' !in prefix && (line == [] || line[0] != '@')
    requires LStrip(RStrip(line)) == [] || LStrip(RStrip(line))[0] != ':'
    ensures Parse(upper, ":" + prefix + " " + line) == Prefixed(Parse(upper, line), prefix)
  {
    var front, rest := ":" + prefix + " ", RStrip(line);
    RStripFront(front, line);
    RStripKeepsFirst(line);
    PrefixedLine(upper, prefix, rest);
    PrefixPassesThrough(upper, prefix, LStrip(rest));
    var whole := front + rest;
    assert whole[0] == ':' && LStrip(whole) == whole;
    hide RStrip, LStrip, ParseRest;
    assert ParsePrefixed(upper, map[], LStrip(rest)) == ParseRest(upper, map[], "", LStrip(rest));
  }

  /**
   Any other line is its words up to the first " :" and the rest as one more parameter; without a
   word there it is no message.
   */
  lemma ParseBare(upper: string -> string, line: string, n: nat)
    requires line != [] && line[0] != '@' && line[0] != ':' && line[0] != ' ' && !Breaks(line[|line| - 1])
    requires n <= |line| && (n < |line| ==> n + 1 < |line| && line[n] == ' ' && line[n + 1] == ':')
    requires forall i | 0 <= i < n && i + 1 < |line| :: !(line[i] == ' ' && line[i + 1] == ':')
    ensures var words := Words(line[..n]);
            Parse(upper, line) ==
              if words == [] then None
              else Some(IrcLine(map[], "", upper(words[0]), words[1..] + if n < |line| then [line[n + 2..]] else []))
  {
    TrailingFirst(line, n);
    assert RStrip(line) == line && LStrip(line) == line;
    assert line[..|line|] == line;
    hide TrailingAt, Words, RStrip, LStrip;
  }

  // ---------------------------------------------------------------- text sent, text received

  /** The trailing text a receiver reads off a line. */
  function Received(upper: string -> string, line: string): string {
    var parsed := Parse(upper, line);
    if parsed.Some? && parsed.value.params != [] then parsed.value.params[|parsed.value.params| - 1] else ""
  }

  function ReceivedAll(upper: string -> string, lines: seq<string>): (r: seq<string>)
    ensures |r| == |lines|
  {
    seq(|lines|, i requires 0 <= i < |lines| => Received(upper, lines[i]))
  }

  lemma {:induction false} ReceivedIsChunk(upper: string -> string, command: string, middles: seq<string>,
      chunk: string)
    requires Middle(command) && command[0] != '@' && upper(command) == command && Trailing(chunk)
    requires forall i | 0 <= i < |middles| :: Middle(middles[i])
    ensures Parse(upper, HeadText(command, middles) + " :" + chunk) == Some(IrcLine(map[], "", command,
        middles + [chunk]))
    ensures Received(upper, HeadText(command, middles) + " :" + chunk) == chunk
  {
    ParsePrint(upper, Message([], "", command, middles, Some(chunk)));
    PlainPrint(command, middles, chunk);
    hide Parse, HeadText, Print;
  }

  /** Without tags or prefix a message is its head, " :" and the text. */
  lemma PlainPrint(command: string, middles: seq<string>, chunk: string)
    ensures Print(Message([], "", command, middles, Some(chunk))) == HeadText(command, middles) + " :" + chunk
  {
    hide HeadText;
    var head := HeadText(command, middles);
    Assoc(head, " :", chunk);
    assert "" + ("" + (head + (" :" + chunk))) == head + (" :" + chunk);
  }

  lemma {:induction false} ChunksTrailing(lines: seq<string>, budget: int)
    requires forall i | 0 <= i < |lines| :: Trailing(lines[i])
    ensures forall i | 0 <= i < |AllChunks(lines, budget)| :: Trailing(AllChunks(lines, budget)[i])
  {
    var chunks := AllChunks(lines, budget);
    AllChunksFlatten(lines, budget);
    forall i, j | 0 <= i < |chunks| && 0 <= j < |chunks[i]|
      ensures !Breaks(chunks[i][j]) && chunks[i][j] != '\0'
    {
      FlattenMember(chunks, i, chunks[i][j]);
      var k := FlattenFrom(lines, chunks[i][j]);
      assert Trailing(lines[k]);
    }
  }

  lemma {:induction false} SentTrailing(text: string, budget: int)
    ensures forall i | 0 <= i < |AllChunks(CleanLines(text), budget)| ::
              Trailing(AllChunks(CleanLines(text), budget)[i])
  {
    forall k | 0 <= k < |CleanLines(text)|
      ensures Trailing(CleanLines(text)[k])
    {
      CleanLinesAreClean(text, k);
    }
    ChunksTrailing(CleanLines(text), budget);
  }

  lemma {:induction false} CleanHeard(text: string)
    ensures Filter(Flatten(CleanLines(text)), VISIBLE) == Filter(text, VISIBLE)
    ensures Trailing(text) && !Blank(text) ==> Flatten(CleanLines(text)) == text
  {
    CleanKeepsVisible(text);
    if Trailing(text) && !Blank(text) {
      CleanLineStays(text);
      hide CleanLines, Blank, Trailing;
      assert [text][..0] == [] && [] + text == text;
    }
  }

  /**
   What was said is what is heard: parsing every framed line and putting the trailing texts end to
   end gives the cleaned lines end to end, so everything visible in the text, in order; and the text
   itself when it is one clean line.
   */
  lemma {:induction false} FramedRoundTrip(upper: string -> string, command: string, middles: seq<string>, text: string)
    requires Middle(command) && command[0] != '@' && upper(command) == command
    requires forall i | 0 <= i < |middles| :: Middle(middles[i])
    ensures var heard := Flatten(ReceivedAll(upper, Framed(HeadText(command, middles), text)));
            && heard == Flatten(CleanLines(text))
            && Filter(heard, VISIBLE) == Filter(text, VISIBLE)
            && (Trailing(text) && !Blank(text) ==> heard == text)
  {
    CleanHeard(text);
    var head := HeadText(command, middles);
    var chunks := AllChunks(CleanLines(text), Budget(head));
    AllChunksFlatten(CleanLines(text), Budget(head));
    SentTrailing(text, Budget(head));
    hide AllChunks, CleanLines, HeadText, Flatten, Received, Parse, Budget, Trailing;
    forall i | 0 <= i < |chunks|
      ensures Received(upper, head + " :" + chunks[i]) == chunks[i]
    {
      ReceivedIsChunk(upper, command, middles, chunks[i]);
    }
    assert ReceivedAll(upper, Framed(head, text)) == chunks;
  }

  /** The two thread heads are a command and three middle parameters. */
  lemma ThreadHeads(channel: string, name: string)
    ensures HeadText("THREAD", ["CREATE", channel, name]) == CreateHead(channel, name)
    ensures HeadText("THREAD", ["REPLY", channel, name]) == ReplyHead(channel, name)
  {
    ThreeMiddles("THREAD", "CREATE", channel, name);
    ThreeMiddles("THREAD", "REPLY", channel, name);
    assert "THREAD" + " " + "CREATE" + " " == "THREAD CREATE ";
    assert "THREAD" + " " + "REPLY" + " " == "THREAD REPLY ";
  }

  lemma ThreeMiddles(command: string, a: string, b: string, c: string)
    ensures HeadText(command, [a, b, c]) == command + " " + a + " " + b + " " + c
  {
    assert [a, b, c][..2] == [a, b] && [a, b][..1] == [a] && [a][..0] == [];
    assert HeadText(command, [a]) == command + " " + a;
    assert HeadText(command, [a, b]) == HeadText(command, [a]) + " " + b;
  }

  /** A thread's lines parse to one CREATE and then REPLYs, and their texts end to end are the cleaned lines. */
  lemma {:induction false} ThreadRoundTrip(upper: string -> string, channel: string, name: string, text: string)
    requires upper("THREAD") == "THREAD" && Middle(channel) && Middle(name)
    ensures var chunks := AllChunks(CleanLines(text), Budget(CreateHead(channel, name)));
            var lines := ThreadLines(channel, name, text);
            && |lines| == |chunks|
            && (forall i | 0 <= i < |lines| ::
                  Parse(upper, lines[i]) == Some(IrcLine(map[], "", "THREAD",
                      [if i == 0 then "CREATE" else "REPLY", channel, name] + [chunks[i]])))
            && Flatten(ReceivedAll(upper, lines)) == Flatten(CleanLines(text))
            && Filter(Flatten(ReceivedAll(upper, lines)), VISIBLE) == Filter(text, VISIBLE)
            && (Trailing(text) && !Blank(text) ==> Flatten(ReceivedAll(upper, lines)) == text)
  {
    CleanHeard(text);
    var budget := Budget(CreateHead(channel, name));
    var chunks := AllChunks(CleanLines(text), budget);
    var lines := ThreadLines(channel, name, text);
    AllChunksFlatten(CleanLines(text), budget);
    SentTrailing(text, budget);
    ThreadHeads(channel, name);
    hide AllChunks, CleanLines, HeadText, Flatten, Received, Parse, Budget, Trailing, CreateHead, ReplyHead, TwoHeads;
    forall i | 0 <= i < |chunks|
      ensures Received(upper, lines[i]) == chunks[i]
      ensures Parse(upper, lines[i]) == Some(IrcLine(map[], "", "THREAD",
                  [if i == 0 then "CREATE" else "REPLY", channel, name] + [chunks[i]]))
    {
      ReceivedIsChunk(upper, "THREAD", [if i == 0 then "CREATE" else "REPLY", channel, name], chunks[i]);
    }
    assert ReceivedAll(upper, lines) == chunks;
  }
}
