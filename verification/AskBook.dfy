/**
 The ask book: asks posted to the mesh, the answers that come back, and the bounds on both.
 Letter case, the word search for a nick and blankness of a text are oracles; fresh ask ids and
 clock readings are inputs.
 */
module AskBook {
  import opened Common
  import R = RateWindow

  type Id = string
  type Turn = string

  const MAX_OPEN_ASKS: nat := 8
  const MAX_KEPT_ASKS: nat := 200
  const MAX_ASKS_PER_TURN: nat := 1
  const MAX_ANSWERS_PER_ASK: nat := 20
  const MAX_TEXT_CHARS: nat := 2000
  const CONTINUATION_S: real := 5.0
  const MESH_LIMIT: R.Limit := R.Limit(6, 600.0)

  datatype Env = Env(
    ownNick: string, expiry: real, lower: string -> string, addresses: (string, string) -> bool, blank: string -> bool)

  datatype Rule = ByThread | ByReply | Fallback | Judged

  datatype Status = Open | Answered | Expired | Failed

  datatype Entry = Entry(sender: string, text: string, at: real, how: Match)

  datatype Ask = Ask(
    id: Id, turn: Turn, conversation: string, channel: string, thread: string, msgid: Option<string>,
    postedAt: real, expiresAt: real, turnEndedAt: Option<real>, status: Status, answers: seq<Entry>)

  datatype Match = Match(ambiguous: bool, late: bool, rule: Rule, afterExpiry: bool)

  datatype Message = Message(sender: string, channel: string, text: string, replyTo: Option<string>,
      thread: Option<string>)

  function Clip(text: string): (r: string)
    ensures r <= text && |r| <= MAX_TEXT_CHARS && (r == text || |r| == MAX_TEXT_CHARS)
  {
    if |text| <= MAX_TEXT_CHARS then text else text[..MAX_TEXT_CHARS]
  }

  function ThreadName(id: Id): string {
    "gwen-ask-" + id
  }

  // ---------------------------------------------------------------- matching

  predicate SystemSender(env: Env, sender: string) {
    "system-" <= env.lower(sender)
  }

  function FirstAt(asks: seq<Ask>, fits: Ask -> bool): (r: Option<nat>)
    ensures r.Some? ==> r.value < |asks| && fits(asks[r.value]) && forall i | 0 <= i < r.value :: !fits(asks[i])
    ensures r.None? ==> forall i | 0 <= i < |asks| :: !fits(asks[i])
    decreases |asks|
  {
    if asks == [] then None
    else
      var n := |asks| - 1;
      var r := FirstAt(asks[..n], fits);
      if r.Some? then r else if fits(asks[n]) then Some(n) else None
  }

  /** The first of the latest posted. */
  function LatestAt(asks: seq<Ask>, fits: Ask -> bool): (r: Option<nat>)
    ensures r.Some? ==> r.value < |asks| && fits(asks[r.value])
    ensures r.Some? ==> forall i | 0 <= i < |asks| && fits(asks[i]) :: asks[i].postedAt <= asks[r.value].postedAt
    ensures r.None? ==> forall i | 0 <= i < |asks| :: !fits(asks[i])
    decreases |asks|
  {
    if asks == [] then None
    else
      var n := |asks| - 1;
      var r := LatestAt(asks[..n], fits);
      if !fits(asks[n]) then r
      else if r.Some? && asks[n].postedAt <= asks[r.value].postedAt then r
      else Some(n)
  }

  function Exactly(thread: Option<string>, msgid: Option<string>): Ask -> bool {
    (a: Ask) => a.status != Failed && (thread.None? || a.thread == thread.value) && (msgid.None? || a.msgid == msgid)
  }

  function ListeningOn(env: Env, channel: string, now: real): Ask -> bool {
    (a: Ask) => a.status == Open && now < a.expiresAt && env.lower(a.channel) == env.lower(channel)
  }

  function Given(s: Option<string>): Option<string> {
    if s == Some("") then None else s
  }

  predicate Direct(env: Env, m: Message) {
    env.lower(m.channel) == env.lower(m.sender) || env.addresses(m.text, env.ownNick)
  }

  predicate AfterExpiry(a: Ask, now: real) {
    a.status == Expired || now >= a.expiresAt
  }

  predicate Late(a: Ask, now: real) {
    (a.turnEndedAt.Some? && now > a.turnEndedAt.value) || AfterExpiry(a, now)
  }

  function Chosen(env: Env, asks: seq<Ask>, m: Message, now: real): Option<(nat, Rule)> {
    var byThread := if Given(m.thread).Some? then FirstAt(asks, Exactly(m.thread, None)) else None;
    var byReply := if Given(m.replyTo).Some? then FirstAt(asks, Exactly(None, m.replyTo)) else None;
    var latest := LatestAt(asks, ListeningOn(env, m.channel, now));
    if SystemSender(env, m.sender) then None
    else if byThread.Some? then Some((byThread.value, ByThread))
    else if byReply.Some? then Some((byReply.value, ByReply))
    else if Direct(env, m) && latest.Some? then Some((latest.value, Fallback))
    else None
  }

  /** The one matching rule: which ask a message answers, and how. */
  function MatchAnswer(env: Env, asks: seq<Ask>, m: Message, now: real): (r: Option<(nat, Match)>)
    ensures r.Some? ==> r.value.0 < |asks|
  {
    var chosen := Chosen(env, asks, m, now);
    if chosen.None? then None
    else
      var (i, rule) := chosen.value;
      var ambiguous := rule.Fallback? && |Filter(asks, ListeningOn(env, m.channel, now))| > 1;
      Some((i, Match(ambiguous, Late(asks[i], now), rule, AfterExpiry(asks[i], now))))
  }

  // ---------------------------------------------------------------- the book

  datatype Book = Book(
    asks: seq<Ask>, turnsAsked: map<Turn, nat>, meshTurns: set<Turn>, meshStarts: seq<real>,
    lastAnswer: map<(string, string), (Id, real)>)

  const EMPTY: Book := Book([], map[], {}, [], map[])

  function ExpireAsk(a: Ask, now: real): Ask {
    if a.status == Open && now >= a.expiresAt then a.(status := Expired) else a
  }

  function ExpireAll(asks: seq<Ask>, now: real): (r: seq<Ask>)
    ensures |r| == |asks|
  {
    seq(|asks|, i requires 0 <= i < |asks| => ExpireAsk(asks[i], now))
  }

  function EndAsk(a: Ask, turn: Turn, now: real): Ask {
    if a.turn == turn && a.turnEndedAt.None? then a.(turnEndedAt := Some(now)) else a
  }

  function EndAll(asks: seq<Ask>, turn: Turn, now: real): (r: seq<Ask>)
    ensures |r| == |asks|
  {
    seq(|asks|, i requires 0 <= i < |asks| => EndAsk(asks[i], turn, now))
  }

  const IS_OPEN: Ask -> bool := (a: Ask) => a.status == Open

  function OpenCount(asks: seq<Ask>): nat {
    |Filter(asks, IS_OPEN)|
  }

  /** A stable insertion by posting time. */
  function Insert(sorted: seq<Ask>, a: Ask): (r: seq<Ask>)
    ensures |r| == |sorted| + 1
  {
    if sorted == [] || sorted[|sorted| - 1].postedAt <= a.postedAt then sorted + [a]
    else Insert(sorted[..|sorted| - 1], a) + [sorted[|sorted| - 1]]
  }

  function SortByPosted(asks: seq<Ask>): (r: seq<Ask>)
    ensures |r| == |asks|
  {
    if asks == [] then [] else Insert(SortByPosted(asks[..|asks| - 1]), asks[|asks| - 1])
  }

  /** The ids of the closed asks older than the newest `MAX_KEPT_ASKS`. */
  function Doomed(asks: seq<Ask>): set<Id> {
    var sorted := SortByPosted(asks);
    set i | 0 <= i < |asks| - MAX_KEPT_ASKS && sorted[i].status != Open :: sorted[i].id
  }

  function NotIn(ids: set<Id>): Ask -> bool {
    (a: Ask) => a.id !in ids
  }

  function Prune(asks: seq<Ask>): seq<Ask> {
    Filter(asks, NotIn(Doomed(asks)))
  }

  function Asked(b: Book, turn: Turn): nat {
    if turn in b.turnsAsked then b.turnsAsked[turn] else 0
  }

  datatype Result = Done | RefusedRate | RefusedMeshTurn | RefusedTurnLimit | RefusedOpenCap | RefusedSave | Unmatched

  function TurnBegun(b: Book, turn: Turn, mesh: bool, now: real): (Book, Result) {
    var (starts, admitted) := R.FilterTake(MESH_LIMIT, b.meshStarts, now);
    var begun := if turn in b.turnsAsked then b.turnsAsked else b.turnsAsked[turn := 0];
    if !mesh then (b.(turnsAsked := begun), Done)
    else if !admitted then (b.(meshStarts := starts), RefusedRate)
    else (b.(meshStarts := starts, meshTurns := b.meshTurns + {turn}, turnsAsked := begun), Done)
  }

  function TurnEnded(b: Book, turn: Turn, now: real): Book {
    b.(asks := EndAll(b.asks, turn, now), turnsAsked := b.turnsAsked - {turn}, meshTurns := b.meshTurns - {turn})
  }

  datatype Request = Request(turn: Turn, conversation: string, channel: string, msgid: Option<string>)

  function NewAsk(env: Env, req: Request, id: Id, now: real): Ask {
    Ask(id, req.turn, req.conversation, req.channel, ThreadName(id), req.msgid, now, now + env.expiry, None, Open, [])
  }

  function AskOpened(b: Book, env: Env, req: Request, id: Id, saved: bool, now: real): (Book, Result) {
    var live := ExpireAll(b.asks, now);
    if req.turn in b.meshTurns then (b, RefusedMeshTurn)
    else if Asked(b, req.turn) >= MAX_ASKS_PER_TURN then (b, RefusedTurnLimit)
    else if OpenCount(live) >= MAX_OPEN_ASKS then (b.(asks := live), RefusedOpenCap)
    else Posted(b, live, NewAsk(env, req, id, now), saved)
  }

  /** The new ask joins, old closed ones go; a failed save takes it out again. */
  function Posted(b: Book, live: seq<Ask>, ask: Ask, saved: bool): (Book, Result) {
    var pruned := Prune(live + [ask]);
    if !saved then (b.(asks := Filter(pruned, NotIn({ask.id}))), RefusedSave)
    else (b.(asks := pruned, turnsAsked := b.turnsAsked[ask.turn := Asked(b, ask.turn) + 1]), Done)
  }

  function AskWithId(asks: seq<Ask>, id: Id): (r: Option<nat>)
    ensures r.Some? ==> r.value < |asks| && asks[r.value].id == id
    ensures r.None? ==> forall i | 0 <= i < |asks| :: asks[i].id != id
  {
    FirstAt(asks, (a: Ask) => a.id == id)
  }

  function AskFailed(b: Book, id: Id): (Book, Result) {
    var i := AskWithId(b.asks, id);
    if i.None? || b.asks[i.value].status != Open then (b, Unmatched)
    else (b.(asks := b.asks[i.value := b.asks[i.value].(status := Failed)]), Done)
  }

  function WithAnswer(a: Ask, e: Entry): Ask {
    a.(answers := if |a.answers| < MAX_ANSWERS_PER_ASK then a.answers + [e] else a.answers, status := Answered)
  }

  function Key(env: Env, m: Message): (string, string) {
    (env.lower(m.sender), env.lower(m.channel))
  }

  /** Records one answer on ask `i`, and remembers it for the sender's next line. */
  function Record(b: Book, env: Env, i: nat, how: Match, m: Message, now: real): Book
    requires i < |b.asks|
  {
    b.(asks := b.asks[i := WithAnswer(b.asks[i], Entry(m.sender, Clip(m.text), now, how))],
       lastAnswer := b.lastAnswer[Key(env, m) := (b.asks[i].id, now)])
  }

  function AskAnswered(b: Book, env: Env, m: Message, now: real): (Book, Result) {
    var live := b.(asks := ExpireAll(b.asks, now));
    var found := MatchAnswer(env, live.asks, m, now);
    if found.None? then (live, Unmatched)
    else (Record(live, env, found.value.0, found.value.1, m, now), Done)
  }

  /** The judge's choice: any kept ask but a failed one. */
  function AskAttached(b: Book, env: Env, id: Id, m: Message, now: real): (Book, Result) {
    var live := b.(asks := ExpireAll(b.asks, now));
    var i := AskWithId(live.asks, id);
    if i.None? || live.asks[i.value].status == Failed then (live, Unmatched)
    else
      var a := live.asks[i.value];
      (Record(live, env, i.value, Match(false, Late(a, now), Judged, AfterExpiry(a, now)), m, now), Done)
  }

  /** A plain line soon after an answer: appended to the last entry of that ask. */
  function AskContinued(b: Book, env: Env, m: Message, now: real): (Book, Result) {
    var key := Key(env, m);
    if SystemSender(env, m.sender) || env.blank(m.text) || key !in b.lastAnswer then (b, Unmatched)
    else
      var (id, at) := b.lastAnswer[key];
      var i := AskWithId(b.asks, id);
      if now - at > CONTINUATION_S || i.None? || b.asks[i.value].answers == [] then (b, Unmatched)
      else
        var a := b.asks[i.value];
        var n := |a.answers| - 1;
        var e := a.answers[n].(text := Clip(a.answers[n].text + "\n" + m.text));
        (b.(asks := b.asks[i.value := a.(answers := a.answers[n := e])], lastAnswer := b.lastAnswer[key := (id,
            now)]), Done)
  }

  // ---------------------------------------------------------------- runs

  datatype Op =
    | Begin(turn: Turn, mesh: bool)
    | End(turn: Turn)
    | Post(req: Request, id: Id, saved: bool)
    | Failing(id: Id)
    | Answering(m: Message)
    | Attaching(id: Id, m: Message)
    | Continuing(m: Message)
    | Looking

  function Do(b: Book, env: Env, op: Op, now: real): (Book, Result) {
    match op
    case Begin(turn, mesh) => TurnBegun(b, turn, mesh, now)
    case End(turn) => (TurnEnded(b, turn, now), Done)
    case Post(req, id, saved) => AskOpened(b, env, req, id, saved, now)
    case Failing(id) => AskFailed(b, id)
    case Answering(m) => AskAnswered(b, env, m, now)
    case Attaching(id, m) => AskAttached(b, env, id, m, now)
    case Continuing(m) => AskContinued(b, env, m, now)
    case Looking => (b.(asks := ExpireAll(b.asks, now)), Done)
  }

  /** One recorded answer: on which ask, by whom and where, when, and how many answers the ask held then. */
  datatype Rec = Rec(ask: Id, key: (string, string), at: real, slot: nat)

  function RecOf(env: Env, a: Ask, m: Message, now: real): Rec {
    Rec(a.id, Key(env, m), now, |a.answers|)
  }

  /** What an operation records: one answer or none. */
  function Landed(b: Book, env: Env, op: Op, now: real): (r: seq<Rec>)
    ensures |r| <= 1 && (r != [] ==> op.Answering? || op.Attaching?)
  {
    var live := ExpireAll(b.asks, now);
    match op
    case Answering(m) =>
      var found := MatchAnswer(env, live, m, now);
      if found.None? then [] else [RecOf(env, live[found.value.0], m, now)]
    case Attaching(id, m) =>
      var i := AskWithId(live, id);
      if i.None? || live[i.value].status == Failed then [] else [RecOf(env, live[i.value], m, now)]
    case _ => []
  }

  /** The book, the last clock reading, the ids ever drawn, every mesh start asked for, every answer recorded. */
  datatype World = World(book: Book, clock: real, used: set<Id>, attempts: seq<real>, log: seq<Rec>)

  datatype Step = Step(op: Op, now: real)

  /** Clocks do not step back and ids are fresh. */
  predicate Enabled(w: World, step: Step) {
    w.clock <= step.now && (step.op.Post? ==> step.op.id !in w.used)
  }

  function Apply(w: World, env: Env, step: Step): World {
    World(Do(w.book, env, step.op, step.now).0, step.now,
          if step.op.Post? then w.used + {step.op.id} else w.used,
          if step.op.Begin? && step.op.mesh then w.attempts + [step.now] else w.attempts,
          w.log + Landed(w.book, env, step.op, step.now))
  }

  ghost predicate Reaches(w: World, env: Env, steps: seq<Step>, t: World)
    decreases |steps|
  {
    if steps == [] then w == t
    else Enabled(w, steps[0]) && Reaches(Apply(w, env, steps[0]), env, steps[1..], t)
  }

  // ---------------------------------------------------------------- what every operation keeps

  /** An ask has answers exactly when it is answered, and never more than the cap. */
  predicate AskGood(a: Ask) {
    (a.status == Answered <==> a.answers != []) && |a.answers| <= MAX_ANSWERS_PER_ASK
  }

  ghost predicate AsksGood(asks: seq<Ask>, clock: real, used: set<Id>) {
    && (forall i | 0 <= i < |asks| :: AskGood(asks[i]) && asks[i].id in used && asks[i].postedAt <= clock)
    && (forall i, j | 0 <= i < j < |asks| :: asks[i].id != asks[j].id && asks[i].postedAt <= asks[j].postedAt)
  }

  /** The only ways a status may change. */
  predicate Follows(before: Status, after: Status) {
    before == after || before == Open || (before == Expired && after == Answered)
  }

  predicate Evolved(a: Ask, a': Ask) {
    a'.id == a.id && a'.postedAt == a.postedAt && (AskGood(a) ==> AskGood(a')) && Follows(a.status, a'.status)
    && (a'.status == Open ==> a.status == Open)
  }

  predicate Pointwise(asks: seq<Ask>, asks': seq<Ask>) {
    |asks'| == |asks| && forall i | 0 <= i < |asks| :: Evolved(asks[i], asks'[i])
  }

  lemma {:induction false} FewerOpen(asks: seq<Ask>, asks': seq<Ask>)
    requires Pointwise(asks, asks')
    ensures OpenCount(asks') <= OpenCount(asks)
    decreases |asks|
  {
    if asks != [] {
      var n := |asks| - 1;
      FewerOpen(asks[..n], asks'[..n]);
      assert Evolved(asks[n], asks'[n]);
    }
  }

  lemma PointwiseGood(asks: seq<Ask>, asks': seq<Ask>, clock: real, now: real, used: set<Id>)
    requires AsksGood(asks, clock, used) && Pointwise(asks, asks') && clock <= now
    ensures AsksGood(asks', now, used)
  {
    forall i | 0 <= i < |asks'|
      ensures AskGood(asks'[i]) && asks'[i].id in used && asks'[i].postedAt <= now
    {
      assert Evolved(asks[i], asks'[i]);
    }
    forall i, j | 0 <= i < j < |asks'|
      ensures asks'[i].id != asks'[j].id && asks'[i].postedAt <= asks'[j].postedAt
    {
      assert Evolved(asks[i], asks'[i]) && Evolved(asks[j], asks'[j]);
    }
  }

  lemma UpdateEvolves(asks: seq<Ask>, i: nat, a: Ask)
    requires i < |asks| && Evolved(asks[i], a)
    ensures Pointwise(asks, asks[i := a])
  {
  }

  lemma EvolvedTrans(a: Ask, b: Ask, c: Ask)
    requires Evolved(a, b) && Evolved(b, c)
    ensures Evolved(a, c)
  {
  }

  lemma PointwiseTrans(a: seq<Ask>, b: seq<Ask>, c: seq<Ask>)
    requires Pointwise(a, b) && Pointwise(b, c)
    ensures Pointwise(a, c)
  {
    forall i | 0 <= i < |a|
      ensures Evolved(a[i], c[i])
    {
      EvolvedTrans(a[i], b[i], c[i]);
    }
  }

  lemma ExpirePointwise(asks: seq<Ask>, now: real)
    requires forall i | 0 <= i < |asks| :: AskGood(asks[i])
    ensures Pointwise(asks, ExpireAll(asks, now))
  {
  }

  lemma {:induction false} RecordPointwise(b: Book, env: Env, i: nat, how: Match, m: Message, now: real)
    requires i < |b.asks| && b.asks[i].status != Failed
    ensures Pointwise(b.asks, Record(b, env, i, how, m, now).asks)
  {
    UpdateEvolves(b.asks, i, WithAnswer(b.asks[i], Entry(m.sender, Clip(m.text), now, how)));
  }

  /** The matching rule never picks a failed ask. */
  lemma MatchIsLive(env: Env, asks: seq<Ask>, m: Message, now: real)
    requires MatchAnswer(env, asks, m, now).Some?
    ensures asks[MatchAnswer(env, asks, m, now).value.0].status != Failed
  {
  }

  /** Every operation but posting changes asks one by one, and only forwards. */
  lemma {:induction false} OthersPointwise(b: Book, env: Env, op: Op, now: real)
    requires !op.Post? && forall i | 0 <= i < |b.asks| :: AskGood(b.asks[i])
    ensures Pointwise(b.asks, Do(b, env, op, now).0.asks)
  {
    hide MatchAnswer, Record;
    ExpirePointwise(b.asks, now);
    var live := b.(asks := ExpireAll(b.asks, now));
    match op
    case Answering(m) =>
      var found := MatchAnswer(env, live.asks, m, now);
      if found.Some? {
        MatchIsLive(env, live.asks, m, now);
        RecordPointwise(live, env, found.value.0, found.value.1, m, now);
        PointwiseTrans(b.asks, live.asks, Record(live, env, found.value.0, found.value.1, m, now).asks);
      }
    case Attaching(id, m) =>
      var i := AskWithId(live.asks, id);
      if i.Some? && live.asks[i.value].status != Failed {
        var a := live.asks[i.value];
        var how := Match(false, Late(a, now), Judged, AfterExpiry(a, now));
        RecordPointwise(live, env, i.value, how, m, now);
        PointwiseTrans(b.asks, live.asks, Record(live, env, i.value, how, m, now).asks);
      }
    case _ =>
  }

  // ---------------------------------------------------------------- posting and pruning

  predicate Ordered(asks: seq<Ask>) {
    forall i, j | 0 <= i < j < |asks| :: asks[i].postedAt <= asks[j].postedAt
  }

  lemma {:induction false} SortedStays(asks: seq<Ask>)
    requires Ordered(asks)
    ensures SortByPosted(asks) == asks
    decreases |asks|
  {
    if asks != [] {
      SortedStays(asks[..|asks| - 1]);
    }
  }

  function Spare(n: nat): (k: nat)
    ensures k <= n
  {
    if n > MAX_KEPT_ASKS then n - MAX_KEPT_ASKS else 0
  }

  lemma {:induction false} DoomedExactly(asks: seq<Ask>, i: nat)
    requires Ordered(asks) && (forall i, j | 0 <= i < j < |asks| :: asks[i].id != asks[j].id) && i < |asks|
    ensures asks[i].id in Doomed(asks) <==> i < Spare(|asks|) && asks[i].status != Open
  {
    SortedStays(asks);
    hide SortByPosted, Ordered;
    if asks[i].id in Doomed(asks) {
      var j :| 0 <= j < |asks| - MAX_KEPT_ASKS && asks[j].status != Open && asks[j].id == asks[i].id;
      assert i == j;
    }
  }

  /** On ordered asks with distinct ids, pruning keeps the newest 200 and the open ones before them. */
  lemma {:induction false} PruneShape(asks: seq<Ask>)
    requires Ordered(asks) && forall i, j | 0 <= i < j < |asks| :: asks[i].id != asks[j].id
    ensures Prune(asks) == Filter(asks[..Spare(|asks|)], IS_OPEN) + asks[Spare(|asks|)..]
  {
    KeptExactly(asks);
    FilterParts(asks, Spare(|asks|), NotIn(Doomed(asks)), IS_OPEN);
  }

  lemma {:induction false} FilterParts<T>(s: seq<T>, k: nat, keep: T -> bool, inOld: T -> bool)
    requires k <= |s| && forall i | 0 <= i < |s| :: keep(s[i]) <==> i >= k || inOld(s[i])
    ensures Filter(s, keep) == Filter(s[..k], inOld) + s[k..]
  {
    hide Filter;
    assert s == s[..k] + s[k..];
    FilterConcat(s[..k], s[k..], keep);
    FilterSame(s[..k], keep, inOld);
    FilterEvery(s[k..], keep);
  }

  lemma KeptExactly(asks: seq<Ask>)
    requires Ordered(asks) && forall i, j | 0 <= i < j < |asks| :: asks[i].id != asks[j].id
    ensures forall i | 0 <= i < |asks| :: NotIn(Doomed(asks))(asks[i]) <==> i >= Spare(|asks|) || IS_OPEN(asks[i])
  {
    hide Doomed, Spare;
    forall i | 0 <= i < |asks|
      ensures NotIn(Doomed(asks))(asks[i]) <==> i >= Spare(|asks|) || IS_OPEN(asks[i])
    {
      DoomedExactly(asks, i);
    }
  }

  lemma {:induction false} FilterEvery<T>(s: seq<T>, f: T -> bool)
    requires forall i | 0 <= i < |s| :: f(s[i])
    ensures Filter(s, f) == s
    decreases |s|
  {
    hide Filter;
    forall x | x in s
      ensures f(x)
    {
      var i :| 0 <= i < |s| && s[i] == x;
    }
    FilterAll(s, f);
  }

  lemma SnocGood(front: seq<Ask>, a: Ask, clock: real, used: set<Id>)
    requires AsksGood(front, clock, used) && AskGood(a) && a.id in used && a.postedAt <= clock
    requires forall i | 0 <= i < |front| :: front[i].id != a.id && front[i].postedAt <= a.postedAt
    ensures AsksGood(front + [a], clock, used)
  {
  }

  /** Dropping asks keeps the rest in order. */
  lemma {:induction false} FilterGood(asks: seq<Ask>, keep: Ask -> bool, clock: real, used: set<Id>)
    requires AsksGood(asks, clock, used)
    ensures AsksGood(Filter(asks, keep), clock, used)
    decreases |asks|
  {
    if asks != [] {
      var n := |asks| - 1;
      var front := Filter(asks[..n], keep);
      FilterGood(asks[..n], keep, clock, used);
      forall i | 0 <= i < |front|
        ensures front[i].id != asks[n].id && front[i].postedAt <= asks[n].postedAt
      {
        assert front[i] in front;
        var j :| 0 <= j < n && asks[..n][j] == front[i];
      }
      SnocGood(front, asks[n], clock, used);
    }
  }

  lemma OpenSnoc(asks: seq<Ask>, a: Ask)
    ensures OpenCount(asks + [a]) == OpenCount(asks) + if a.status == Open then 1 else 0
  {
    assert (asks + [a])[..|asks|] == asks;
  }

  lemma {:induction false} OpenConcat(a: seq<Ask>, b: seq<Ask>)
    ensures OpenCount(a + b) == OpenCount(a) + OpenCount(b)
  {
    FilterConcat(a, b, IS_OPEN);
  }

  /** And opens none. */
  lemma {:induction false} FilterOpens(asks: seq<Ask>, keep: Ask -> bool)
    ensures OpenCount(Filter(asks, keep)) <= OpenCount(asks)
    decreases |asks|
  {
    if asks != [] {
      var n := |asks| - 1;
      var front := Filter(asks[..n], keep);
      FilterOpens(asks[..n], keep);
      assert asks == asks[..n] + [asks[n]];
      assert Filter(asks, keep) == if keep(asks[n]) then front + [asks[n]] else front;
      hide OpenCount, Filter;
      OpenSnoc(asks[..n], asks[n]);
      OpenSnoc(front, asks[n]);
    }
  }

  // ---------------------------------------------------------------- the bounds

  const MAX_HELD: nat := MAX_KEPT_ASKS + MAX_OPEN_ASKS - 1

  ghost predicate BookGood(b: Book, clock: real, used: set<Id>) {
    && AsksGood(b.asks, clock, used)
    && OpenCount(b.asks) <= MAX_OPEN_ASKS
    && |b.asks| <= MAX_HELD
    && forall turn | turn in b.turnsAsked :: b.turnsAsked[turn] <= MAX_ASKS_PER_TURN
  }

  /** Pruning after a post: the newest 200, and at most the other open asks before them. */
  lemma {:induction false} PruneBound(asks: seq<Ask>)
    requires Ordered(asks) && (forall i, j | 0 <= i < j < |asks| :: asks[i].id != asks[j].id)
    requires asks != [] && asks[|asks| - 1].status == Open
    ensures |Prune(asks)| <= MAX_KEPT_ASKS + OpenCount(asks) - 1
    ensures |Prune(asks)| <= MAX_KEPT_ASKS + OpenCount(Prune(asks)) - 1
  {
    var k := Spare(|asks|);
    PruneShape(asks);
    OpenConcat(asks[..k], asks[k..]);
    assert asks == asks[..k] + asks[k..];
    LastOpen(asks[k..]);
    OpenConcat(Filter(asks[..k], IS_OPEN), asks[k..]);
    FilterTwiceOpen(asks[..k]);
  }

  lemma LastOpen(asks: seq<Ask>)
    requires asks != [] && asks[|asks| - 1].status == Open
    ensures OpenCount(asks) >= 1
  {
  }

  lemma {:induction false} FilterTwiceOpen(asks: seq<Ask>)
    ensures OpenCount(Filter(asks, IS_OPEN)) == OpenCount(asks)
  {
    FilterAll(Filter(asks, IS_OPEN), IS_OPEN);
  }

  lemma {:induction false} PostGood(b: Book, env: Env, req: Request, id: Id, saved: bool, clock: real,
      used: set<Id>, now: real)
    requires BookGood(b, clock, used) && clock <= now && id !in used
    ensures BookGood(AskOpened(b, env, req, id, saved, now).0, now, used + {id})
    ensures AskOpened(b, env, req, id, saved, now).1 == Done ==>
              var asks := AskOpened(b, env, req, id, saved, now).0.asks; |asks| < MAX_KEPT_ASKS + OpenCount(asks)
  {
    var live := ExpireAll(b.asks, now);
    var (after, r) := AskOpened(b, env, req, id, saved, now);
    ExpirePointwise(b.asks, now);
    AsksGrow(b.asks, clock, now, used, id);
    AskOpenedCases(b, env, req, id, saved, now);
    hide AsksGood, OpenCount, Posted, ExpireAll, AskOpened, Asked;
    FewerOpen(b.asks, live);
    PointwiseGood(b.asks, live, clock, now, used);
    AsksGrow(live, now, now, used, id);
    if (after, r) == Posted(b, live, NewAsk(env, req, id, now), saved) && OpenCount(live) < MAX_OPEN_ASKS &&
        Asked(b, req.turn) < MAX_ASKS_PER_TURN {
      PostedGood(b, live, NewAsk(env, req, id, now), saved, clock, now, used);
    }
  }

  /** A post is refused on the book as it was, refused on the expired book, or goes through to it. */
  lemma AskOpenedCases(b: Book, env: Env, req: Request, id: Id, saved: bool, now: real)
    ensures var live := ExpireAll(b.asks, now);
            var (after, r) := AskOpened(b, env, req, id, saved, now);
            || (after == b && r != Done)
            || (after == b.(asks := live) && r != Done)
            || (&& OpenCount(live) < MAX_OPEN_ASKS && Asked(b, req.turn) < MAX_ASKS_PER_TURN
                && (after, r) == Posted(b, live, NewAsk(env, req, id, now), saved))
  {
    hide ExpireAll, OpenCount, Posted, Asked;
  }

  lemma {:induction false} PostedGood(b: Book, live: seq<Ask>, ask: Ask, saved: bool, clock: real, now: real,
      used: set<Id>)
    requires BookGood(b, clock, used) && AsksGood(live, now, used) && OpenCount(live) < MAX_OPEN_ASKS
    requires ask.id !in used && ask.postedAt == now && ask.status == Open && ask.answers == []
    requires Asked(b, ask.turn) < MAX_ASKS_PER_TURN
    ensures BookGood(Posted(b, live, ask, saved).0, now, used + {ask.id})
    ensures saved ==> |Posted(b, live, ask, saved).0.asks| < MAX_KEPT_ASKS + OpenCount(Posted(b, live, ask,
        saved).0.asks)
    ensures Posted(b, live, ask, saved).1 == if saved then Done else RefusedSave
  {
    hide AsksGood, OpenCount, Prune;
    GrownGood(live, ask, now, used);
  }

  lemma AsksGrow(asks: seq<Ask>, clock: real, now: real, used: set<Id>, id: Id)
    requires AsksGood(asks, clock, used) && clock <= now
    ensures AsksGood(asks, now, used + {id})
  {
  }

  /** Appending a fresh open ask and pruning. */
  lemma {:induction false} GrownGood(live: seq<Ask>, added: Ask, now: real, used: set<Id>)
    requires AsksGood(live, now, used) && OpenCount(live) < MAX_OPEN_ASKS
    requires added.id !in used && added.postedAt == now && added.status == Open && added.answers == []
    ensures var pruned := Prune(live + [added]);
            && AsksGood(pruned, now, used + {added.id}) && OpenCount(pruned) <= MAX_OPEN_ASKS
            && |pruned| <= MAX_HELD && |pruned| < MAX_KEPT_ASKS + OpenCount(pruned)
            && AsksGood(Filter(pruned, NotIn({added.id})), now, used + {added.id})
            && OpenCount(Filter(pruned, NotIn({added.id}))) <= MAX_OPEN_ASKS
  {
    var grown := live + [added];
    var more := used + {added.id};
    assert AsksGood(live, now, more);
    SnocGood(live, added, now, more);
    OpenSnoc(live, added);
    FilterGood(grown, NotIn(Doomed(grown)), now, more);
    FilterOpens(grown, NotIn(Doomed(grown)));
    PruneBound(grown);
    FilterGood(Prune(grown), NotIn({added.id}), now, more);
    FilterOpens(Prune(grown), NotIn({added.id}));
  }

  // ---------------------------------------------------------------- every reachable book

  ghost predicate MeshGood(w: World) {
    && R.Nondecreasing(w.attempts)
    && (forall i | 0 <= i < |w.attempts| :: w.attempts[i] <= w.clock)
    && w.book.meshStarts == R.FilterRun(MESH_LIMIT, w.attempts).memory
  }

  ghost predicate Inv(w: World) {
    BookGood(w.book, w.clock, w.used) && MeshGood(w)
  }

  lemma {:induction false} TurnsBounded(b: Book, env: Env, op: Op, now: real)
    requires forall turn | turn in b.turnsAsked :: b.turnsAsked[turn] <= MAX_ASKS_PER_TURN
    ensures var b' := Do(b, env, op, now).0; forall turn | turn in b'.turnsAsked ::
        b'.turnsAsked[turn] <= MAX_ASKS_PER_TURN
  {
    hide MatchAnswer, Prune, ExpireAll, EndAll, OpenCount, R.FilterTake, AskWithId;
  }

  lemma {:induction false} StepBook(w: World, env: Env, step: Step)
    requires Inv(w) && Enabled(w, step)
    ensures BookGood(Apply(w, env, step).book, step.now, Apply(w, env, step).used)
  {
    var b := w.book;
    TurnsBounded(b, env, step.op, step.now);
    if step.op.Post? {
      PostGood(b, env, step.op.req, step.op.id, step.op.saved, w.clock, w.used, step.now);
    } else {
      OthersPointwise(b, env, step.op, step.now);
      var asks := Do(b, env, step.op, step.now).0.asks;
      FewerOpen(b.asks, asks);
      PointwiseGood(b.asks, asks, w.clock, step.now, w.used);
    }
    hide Do, AsksGood, OpenCount;
  }

  lemma {:induction false} MeshFrame(b: Book, env: Env, op: Op, now: real)
    ensures Do(b, env, op, now).0.meshStarts ==
            if op.Begin? && op.mesh then R.FilterTake(MESH_LIMIT, b.meshStarts, now).0 else b.meshStarts
  {
    hide MatchAnswer, Prune, ExpireAll, EndAll, OpenCount, R.FilterTake, AskWithId;
  }

  lemma {:induction false} StepMesh(w: World, env: Env, step: Step)
    requires MeshGood(w) && Enabled(w, step)
    ensures MeshGood(Apply(w, env, step))
  {
    hide Do, Landed, R.FilterTake;
    MeshFrame(w.book, env, step.op, step.now);
    if step.op.Begin? && step.op.mesh {
      assert (w.attempts + [step.now])[..|w.attempts|] == w.attempts;
    }
  }

  lemma {:induction false} StepInv(w: World, env: Env, step: Step)
    requires Inv(w) && Enabled(w, step)
    ensures Inv(Apply(w, env, step))
  {
    StepBook(w, env, step);
    StepMesh(w, env, step);
    hide BookGood, MeshGood, Do;
  }

  lemma {:induction false} ReachesInv(w: World, env: Env, steps: seq<Step>, t: World)
    requires Inv(w) && Reaches(w, env, steps, t)
    ensures Inv(t)
    decreases |steps|
  {
    hide Inv, Apply, Enabled;
    if steps != [] {
      StepInv(w, env, steps[0]);
      ReachesInv(Apply(w, env, steps[0]), env, steps[1..], t);
    }
  }

  function Start(clock: real): World {
    World(EMPTY, clock, {}, [], [])
  }

  lemma StartInv(clock: real)
    ensures Inv(Start(clock))
  {
  }

  /**
   In every book reachable from the empty one with a clock that never steps back: at most 8 asks
   are open, at most 207 are kept, no ask holds more than 20 answers, one that is open, expired or
   failed holds none, and no running turn has posted more than one ask.
   */
  lemma {:induction false} ReachableBounds(env: Env, clock: real, steps: seq<Step>, t: World)
    requires Reaches(Start(clock), env, steps, t)
    ensures OpenCount(t.book.asks) <= MAX_OPEN_ASKS && |t.book.asks| <= MAX_HELD
    ensures forall i | 0 <= i < |t.book.asks| ::
              |t.book.asks[i].answers| <= MAX_ANSWERS_PER_ASK
              && (t.book.asks[i].status != Answered <==> t.book.asks[i].answers == [])
    ensures forall turn | turn in t.book.turnsAsked :: t.book.turnsAsked[turn] <= MAX_ASKS_PER_TURN
  {
    StartInv(clock);
    ReachesInv(Start(clock), env, steps, t);
    assert forall i | 0 <= i < |t.book.asks| :: AskGood(t.book.asks[i]);
  }

  /**
   A post goes through exactly when the turn was not started from the mesh and has not asked yet,
   fewer than eight asks are open once the due ones have expired, and the save succeeds. The new
   ask is then the last of the book, open and without answers; otherwise it is not in the book.
   */
  lemma {:induction false} PostIff(env: Env, clock: real, steps: seq<Step>, t: World, req: Request, id: Id, saved: bool,
      now: real)
    requires Reaches(Start(clock), env, steps, t) && t.clock <= now && id !in t.used
    ensures var (b, r) := AskOpened(t.book, env, req, id, saved, now);
            var posted := Ask(id, req.turn, req.conversation, req.channel, "gwen-ask-" + id, req.msgid,
                now, now + env.expiry, None, Open, []);
            && (r == Done <==> (
                  && req.turn !in t.book.meshTurns
                  && (req.turn in t.book.turnsAsked ==> t.book.turnsAsked[req.turn] == 0)
                  && OpenCount(ExpireAll(t.book.asks, now)) < 8 && saved))
            && (r == Done ==> b.asks != [] && b.asks[|b.asks| - 1] == posted)
            && (r == Done && |t.book.asks| < 200 ==> b.asks == ExpireAll(t.book.asks, now) + [posted])
            && (r == Done ==> forall a | a in ExpireAll(t.book.asks, now) && a.status == Open :: a in b.asks)
            && b.turnsAsked == (if r == Done then t.book.turnsAsked[req.turn := 1] else t.book.turnsAsked)
            && (r != Done ==> forall a | a in b.asks :: a.id != id)
  {
    hide ExpireAll, OpenCount, Inv, AskOpened, Reaches, Start;
    StartInv(clock);
    ReachesInv(Start(clock), env, steps, t);
    IdsUsed(t);
    PostCases(t, env, req, id, saved, now);
  }

  /** The new ask is last, no open ask is lost, and none at all below the number kept. */
  ghost predicate Joined(live: seq<Ask>, ask: Ask, after: seq<Ask>) {
    && after != [] && after[|after| - 1] == ask
    && (|live| < MAX_KEPT_ASKS ==> after == live + [ask])
    && forall a | a in live && a.status == Open :: a in after
  }

  lemma {:induction false} PostCases(w: World, env: Env, req: Request, id: Id, saved: bool, now: real)
    requires Inv(w) && w.clock <= now && id !in w.used && forall a | a in w.book.asks :: a.id in w.used
    ensures var (b, r) := AskOpened(w.book, env, req, id, saved, now);
            && (r == Done <==> (
                  && req.turn !in w.book.meshTurns && Asked(w.book, req.turn) == 0
                  && OpenCount(ExpireAll(w.book.asks, now)) < 8 && saved))
            && (r == Done ==> Joined(ExpireAll(w.book.asks, now), NewAsk(env, req, id, now), b.asks))
            && b.turnsAsked == (if r == Done then w.book.turnsAsked[req.turn := 1] else w.book.turnsAsked)
            && (r != Done ==> forall a | a in b.asks :: a.id != id)
  {
    hide ExpireAll, OpenCount, Posted, NewAsk, Inv, Asked, Ordered, Joined;
    var live, ask := ExpireAll(w.book.asks, now), NewAsk(env, req, id, now);
    LiveBefore(w, id, now);
    NewAskId(env, req, id, now);
    PostedCases(w.book, live, ask, saved);
  }

  lemma {:induction false} PostedCases(b: Book, live: seq<Ask>, ask: Ask, saved: bool)
    requires Ordered(live) && (forall i, j | 0 <= i < j < |live| :: live[i].id != live[j].id)
    requires forall a | a in live :: a.id != ask.id && a.postedAt <= ask.postedAt
    ensures var (b', r) := Posted(b, live, ask, saved);
            && r == (if saved then Done else RefusedSave)
            && (saved ==> Joined(live, ask, b'.asks))
            && b'.turnsAsked == (if saved then b.turnsAsked[ask.turn := Asked(b, ask.turn) + 1] else b.turnsAsked)
            && (!saved ==> forall a | a in b'.asks :: a.id != ask.id)
  {
    hide Prune, Filter, Asked, Ordered, Joined;
    NewestStays(live, ask);
    NotHere(Prune(live + [ask]), ask.id);
  }

  lemma NewAskId(env: Env, req: Request, id: Id, now: real)
    ensures NewAsk(env, req, id, now).id == id && NewAsk(env, req, id, now).postedAt == now
    ensures NewAsk(env, req, id, now).turn == req.turn
  {
  }

  /** The asks before a post: in order, none of them new. */
  lemma {:induction false} LiveBefore(w: World, id: Id, now: real)
    requires Inv(w) && w.clock <= now && id !in w.used
    ensures var live := ExpireAll(w.book.asks, now);
            && (forall a | a in live || a in w.book.asks :: a.id != id && a.postedAt <= now)
            && Ordered(live) && (forall i, j | 0 <= i < j < |live| :: live[i].id != live[j].id)
  {
    IdsUsed(w);
    ExpirePointwise(w.book.asks, now);
    PointwiseGood(w.book.asks, ExpireAll(w.book.asks, now), w.clock, now, w.used);
    hide ExpireAll, OpenCount;
    var live := ExpireAll(w.book.asks, now);
    forall a | a in live
      ensures a.id != id && a.postedAt <= now
    {
      var i :| 0 <= i < |live| && live[i] == a;
    }
  }

  lemma GrownOrdered(live: seq<Ask>, ask: Ask)
    requires Ordered(live) && (forall i, j | 0 <= i < j < |live| :: live[i].id != live[j].id)
    requires forall a | a in live :: a.id != ask.id && a.postedAt <= ask.postedAt
    ensures var grown := live + [ask];
            Ordered(grown) && forall i, j | 0 <= i < j < |grown| :: grown[i].id != grown[j].id
  {
    assert forall i | 0 <= i < |live| :: live[i] in live;
  }

  lemma {:induction false} OpenStays(asks: seq<Ask>, k: nat, a: Ask)
    requires k <= |asks| && a in asks && a.status == Open
    ensures a in Filter(asks[..k], IS_OPEN) + asks[k..]
  {
    hide Filter;
    var i :| 0 <= i < |asks| && asks[i] == a;
    if i < k {
      assert a == asks[..k][i] && IS_OPEN(a);
      FilterKeeps(asks[..k], IS_OPEN, a);
    } else {
      assert a == asks[k..][i - k];
    }
  }

  lemma {:induction false} NothingOld(asks: seq<Ask>)
    ensures Filter(asks[..0], IS_OPEN) + asks[0..] == asks
  {
    assert asks[..0] == [] && asks[0..] == asks;
  }

  /** The newest ask survives the pruning after its own post. */
  lemma {:induction false} NewestStays(live: seq<Ask>, ask: Ask)
    requires Ordered(live) && (forall i, j | 0 <= i < j < |live| :: live[i].id != live[j].id)
    requires forall a | a in live :: a.id != ask.id && a.postedAt <= ask.postedAt
    ensures Joined(live, ask, Prune(live + [ask]))
  {
    var grown := live + [ask];
    GrownOrdered(live, ask);
    hide Prune, Ordered, Filter;
    PruneShape(grown);
    KeptJoined(live, ask, Spare(|grown|));
  }

  lemma {:induction false} KeptJoined(live: seq<Ask>, ask: Ask, k: nat)
    requires k <= |live| && (|live| < MAX_KEPT_ASKS ==> k == 0)
    ensures Joined(live, ask, Filter((live + [ask])[..k], IS_OPEN) + (live + [ask])[k..])
  {
    hide Filter;
    var grown := live + [ask];
    var kept := Filter(grown[..k], IS_OPEN) + grown[k..];
    NothingOld(grown);
    assert kept[|kept| - 1] == grown[k..][|live| - k] == ask;
    forall a | a in live && a.status == Open
      ensures a in kept
    {
      assert a in grown;
      OpenStays(grown, k, a);
    }
  }

  lemma NotHere(asks: seq<Ask>, id: Id)
    ensures forall a | a in Filter(asks, NotIn({id})) :: a.id != id
  {
    forall a | a in Filter(asks, NotIn({id}))
      ensures a.id != id
    {
      assert NotIn({id})(a);
    }
  }

  /** Right after a post the book holds fewer than 200 asks beside its open ones. */
  lemma {:induction false} KeptAfterPost(env: Env, clock: real, steps: seq<Step>, t: World, req: Request, id: Id,
      now: real)
    requires Reaches(Start(clock), env, steps, t) && t.clock <= now && id !in t.used
    requires AskOpened(t.book, env, req, id, true, now).1 == Done
    ensures var asks := AskOpened(t.book, env, req, id, true, now).0.asks; |asks| < MAX_KEPT_ASKS + OpenCount(asks)
  {
    StartInv(clock);
    ReachesInv(Start(clock), env, steps, t);
    PostGood(t.book, env, req, id, true, t.clock, t.used, now);
  }

  /** Any seven mesh-started turns that were admitted span at least 600 seconds. */
  lemma {:induction false} MeshTurnsSpan(env: Env, clock: real, steps: seq<Step>, t: World, i: nat)
    requires Reaches(Start(clock), env, steps, t) && i + 6 < |R.Accepted(MESH_LIMIT, t.attempts)|
    ensures var admitted := R.Accepted(MESH_LIMIT, t.attempts); admitted[i + 6] - admitted[i] >= 600.0
  {
    StartInv(clock);
    ReachesInv(Start(clock), env, steps, t);
    R.AcceptedSpan(MESH_LIMIT, t.attempts, i);
  }

  /** A mesh-started turn is admitted exactly when fewer than six admitted ones began in the last 600 seconds. */
  lemma {:induction false} MeshAdmittedIff(env: Env, clock: real, steps: seq<Step>, t: World, turn: Turn, now: real)
    requires Reaches(Start(clock), env, steps, t) && t.clock <= now
    ensures var admitted := R.Accepted(MESH_LIMIT, t.attempts);
            var recent := set i: nat | i < |admitted| && now - admitted[i] < 600.0;
            TurnBegun(t.book, turn, true, now).1 == Done <==> |recent| < 6
  {
    var admitted := R.Accepted(MESH_LIMIT, t.attempts);
    R.CountsPlaces(MESH_LIMIT, admitted, now);
    assert R.RecentPlaces(MESH_LIMIT, admitted, now) == set i: nat | i < |admitted| && now - admitted[i] < 600.0;
    StartInv(clock);
    ReachesInv(Start(clock), env, steps, t);
    var times := t.attempts + [now];
    assert times[..|t.attempts|] == t.attempts;
    R.FilterRunIsRule(MESH_LIMIT, times);
    R.FilterRunIsRule(MESH_LIMIT, t.attempts);
    assert R.FilterRun(MESH_LIMIT, times).decisions[|t.attempts|] == R.RuleRun(MESH_LIMIT, times)[|t.attempts|];
  }

  // ---------------------------------------------------------------- one ask a turn

  /** How many asks of a turn are posted in a run. */
  ghost function PostsBy(w: World, env: Env, steps: seq<Step>, turn: Turn): nat
    decreases |steps|
  {
    if steps == [] then 0
    else
      var op := steps[0].op;
      var posts := op.Post? && op.req.turn == turn && Do(w.book, env, op, steps[0].now).1 == Done;
      (if posts then 1 else 0) + PostsBy(Apply(w, env, steps[0]), env, steps[1..], turn)
  }

  /** What one operation, the end of the turn aside, does to a turn's account. */
  lemma {:induction false} TurnAccount(b: Book, env: Env, op: Op, now: real, turn: Turn)
    requires op != End(turn)
    ensures var (b', r) := Do(b, env, op, now);
            var posts := op.Post? && op.req.turn == turn && r == Done;
            && Asked(b', turn) == Asked(b, turn) + (if posts then 1 else 0)
            && (posts ==> Asked(b, turn) == 0 && turn !in b.meshTurns)
            && (turn in b'.meshTurns <==> turn in b.meshTurns || (op == Begin(turn, true) && r == Done))
  {
    hide MatchAnswer, Prune, ExpireAll, EndAll, OpenCount, R.FilterTake, AskWithId;
  }

  /** A turn posts at most one ask until it ends, and none when it was started from the mesh. */
  lemma {:induction false} TurnAsksOnce(w: World, env: Env, steps: seq<Step>, t: World, turn: Turn)
    requires Reaches(w, env, steps, t) && forall i | 0 <= i < |steps| :: steps[i].op != End(turn)
    ensures Asked(t.book, turn) == Asked(w.book, turn) + PostsBy(w, env, steps, turn)
    ensures PostsBy(w, env, steps, turn) <= 1 && (Asked(w.book, turn) >= 1 ==> PostsBy(w, env, steps, turn) == 0)
    ensures turn in w.book.meshTurns ==> turn in t.book.meshTurns && PostsBy(w, env, steps, turn) == 0
    decreases |steps|
  {
    hide Do, Landed, Asked, Enabled;
    if steps != [] {
      TurnAccount(w.book, env, steps[0].op, steps[0].now, turn);
      TurnAsksOnce(Apply(w, env, steps[0]), env, steps[1..], t, turn);
    }
  }

  /** So a turn admitted from the mesh posts nothing until it ends. */
  lemma {:induction false} MeshTurnNeverAsks(w: World, env: Env, now: real, turn: Turn, steps: seq<Step>, t: World)
    requires Do(w.book, env, Begin(turn, true), now).1 == Done
    requires var begun := Apply(w, env, Step(Begin(turn, true), now)); Reaches(begun, env, steps, t)
    requires forall i | 0 <= i < |steps| :: steps[i].op != End(turn)
    ensures PostsBy(Apply(w, env, Step(Begin(turn, true), now)), env, steps, turn) == 0
  {
    hide Do, Landed, Asked, PostsBy, Reaches;
    TurnAccount(w.book, env, Begin(turn, true), now, turn);
    TurnAsksOnce(Apply(w, env, Step(Begin(turn, true), now)), env, steps, t, turn);
  }

  /** The end of a turn forgets it, whatever it was, and leaves the account of every other turn alone. */
  lemma EndForgets(b: Book, turn: Turn, now: real)
    ensures var b' := TurnEnded(b, turn, now);
            && Asked(b', turn) == 0 && turn !in b'.turnsAsked && turn !in b'.meshTurns
            && forall u | u != turn :: Asked(b', u) == Asked(b, u) && (u in b'.meshTurns <==> u in b.meshTurns)
  {
    hide EndAll;
  }

  // ---------------------------------------------------------------- statuses only move forward

  /** An ask known before is where it was or further on; no id comes back from the dead. */
  ghost predicate Forward(before: seq<Ask>, after: seq<Ask>, used: set<Id>) {
    && (forall a, a' | a in before && a' in after && a.id == a'.id :: Follows(a.status, a'.status))
    && (forall a' | a' in after && a'.id in used :: exists a :: a in before && a.id == a'.id)
  }

  lemma {:induction false} PointwiseForward(before: seq<Ask>, after: seq<Ask>, clock: real, used: set<Id>)
    requires AsksGood(before, clock, used) && Pointwise(before, after)
    ensures Forward(before, after, used)
  {
    forall a, a' | a in before && a' in after && a.id == a'.id
      ensures Follows(a.status, a'.status)
    {
      var i :| 0 <= i < |before| && before[i] == a;
      var j :| 0 <= j < |after| && after[j] == a';
      assert Evolved(before[j], after[j]);
    }
    forall a' | a' in after && a'.id in used
      ensures exists a :: a in before && a.id == a'.id
    {
      var j :| 0 <= j < |after| && after[j] == a';
      assert Evolved(before[j], after[j]) && before[j] in before;
    }
  }

  /** What a post leaves: the old asks, or expired ones with perhaps the new one among them. */
  lemma PostMembers(b: Book, env: Env, req: Request, id: Id, saved: bool, now: real)
    ensures var after := AskOpened(b, env, req, id, saved, now).0.asks;
            after == b.asks || forall a | a in after :: a in ExpireAll(b.asks, now) || a.id == id
  {
    hide ExpireAll, OpenCount, Doomed;
  }

  /** Dropping asks and adding fresh ones keeps history. */
  lemma ForwardSome(before: seq<Ask>, live: seq<Ask>, after: seq<Ask>, id: Id, used: set<Id>)
    requires Forward(before, live, used) && id !in used && (forall a | a in before :: a.id in used)
    requires forall a | a in after :: a in live || a.id == id
    ensures Forward(before, after, used)
  {
  }

  lemma {:induction false} PostForward(b: Book, env: Env, req: Request, id: Id, saved: bool, clock: real,
      used: set<Id>, now: real)
    requires AsksGood(b.asks, clock, used) && id !in used && forall a | a in b.asks :: a.id in used
    ensures Forward(b.asks, AskOpened(b, env, req, id, saved, now).0.asks, used)
  {
    ExpirePointwise(b.asks, now);
    PointwiseForward(b.asks, ExpireAll(b.asks, now), clock, used);
    PointwiseForward(b.asks, b.asks, clock, used);
    PostMembers(b, env, req, id, saved, now);
    hide Forward, AsksGood, AskOpened, ExpireAll;
    var after := AskOpened(b, env, req, id, saved, now).0.asks;
    if after != b.asks {
      ForwardSome(b.asks, ExpireAll(b.asks, now), after, id, used);
    }
  }

  lemma {:induction false} StepForward(w: World, env: Env, step: Step)
    requires Inv(w) && Enabled(w, step)
    ensures Forward(w.book.asks, Apply(w, env, step).book.asks, w.used)
  {
    var b := w.book;
    IdsUsed(w);
    if step.op.Post? {
      PostForward(b, env, step.op.req, step.op.id, step.op.saved, w.clock, w.used, step.now);
    } else {
      OthersPointwise(b, env, step.op, step.now);
      PointwiseForward(b.asks, Do(b, env, step.op, step.now).0.asks, w.clock, w.used);
    }
  }

  lemma {:induction false} ForwardTrans(a: seq<Ask>, b: seq<Ask>, c: seq<Ask>, used: set<Id>, more: set<Id>)
    requires Forward(a, b, used) && Forward(b, c, more) && used <= more
    requires forall x | x in a :: x.id in used
    ensures Forward(a, c, used)
  {
    forall x, z | x in a && z in c && x.id == z.id
      ensures Follows(x.status, z.status)
    {
      var y :| y in b && y.id == z.id;
    }
    forall z | z in c && z.id in used
      ensures exists x :: x in a && x.id == z.id
    {
      var y :| y in b && y.id == z.id;
    }
  }

  lemma {:induction false} RunForward(w: World, env: Env, steps: seq<Step>, t: World)
    requires Inv(w) && Reaches(w, env, steps, t)
    ensures Forward(w.book.asks, t.book.asks, w.used)
    decreases |steps|
  {
    if steps == [] {
      PointwiseForward(w.book.asks, w.book.asks, w.clock, w.used);
    } else {
      var u := Apply(w, env, steps[0]);
      StepInv(w, env, steps[0]);
      StepForward(w, env, steps[0]);
      RunForward(u, env, steps[1..], t);
      IdsUsed(w);
      hide Inv, Forward, Apply;
      ForwardTrans(w.book.asks, u.book.asks, t.book.asks, w.used, u.used);
    }
  }

  lemma IdsUsed(w: World)
    requires Inv(w)
    ensures forall a | a in w.book.asks :: a.id in w.used
  {
    forall a | a in w.book.asks
      ensures a.id in w.used
    {
      var i :| 0 <= i < |w.book.asks| && w.book.asks[i] == a;
    }
  }

  /**
   No status ever returns to open, an answered ask stays answered, and a failed ask stays failed
   and without answers, over every continuation of every reachable run.
   */
  lemma {:induction false} StatusesMoveForward(
    env: Env, clock: real, before: seq<Step>, s: World, after: seq<Step>, t: World, a: Ask, a': Ask)
    requires Reaches(Start(clock), env, before, s) && Reaches(s, env, after, t)
    requires a in s.book.asks && a' in t.book.asks && a.id == a'.id
    ensures Follows(a.status, a'.status)
    ensures a.status != Open ==> a'.status != Open
    ensures a.status == Failed ==> a'.status == Failed && a'.answers == []
  {
    StartInv(clock);
    ReachesInv(Start(clock), env, before, s);
    ReachesInv(s, env, after, t);
    RunForward(s, env, after, t);
    var j :| 0 <= j < |t.book.asks| && t.book.asks[j] == a';
    assert AskGood(t.book.asks[j]);
  }

  // ---------------------------------------------------------------- the matching rule, in full

  /** A message matches nothing exactly when no exact ask is kept and no listening ask is addressed. */
  lemma {:induction false} UnmatchedIff(env: Env, asks: seq<Ask>, m: Message, now: real)
    ensures MatchAnswer(env, asks, m, now).None? <==>
              (|| "system-" <= env.lower(m.sender)
               || (&& (m.thread.Some? && m.thread.value != "" ==>
                         forall a | a in asks :: a.status == Failed || a.thread != m.thread.value)
                   && (m.replyTo.Some? && m.replyTo.value != "" ==>
                         forall a | a in asks :: a.status == Failed || a.msgid != m.replyTo)
                   && (env.lower(m.channel) == env.lower(m.sender) || env.addresses(m.text, env.ownNick) ==>
                         forall a | a in asks :: !Listens(env, a, m.channel, now))))
  {
    hide Filter;
    assert forall a | a in asks :: Listens(env, a, m.channel, now) == ListeningOn(env, m.channel, now)(a);
  }

  /** Open, in time, and asked on that channel. */
  predicate Listens(env: Env, a: Ask, channel: string, now: real) {
    a.status == Open && now < a.expiresAt && env.lower(a.channel) == env.lower(channel)
  }

  /** Not failed, and the thread the ask was posted in. */
  predicate InThread(a: Ask, thread: string) {
    a.status != Failed && a.thread == thread
  }

  /** Not failed, and the message the ask was posted as. */
  predicate Posts(a: Ask, msgid: string) {
    a.status != Failed && a.msgid == Some(msgid)
  }

  /**
   Which ask a message answers: the first unfailed one in the thread it names; only if there is
   none, the first unfailed one posted as the message it replies to; only if there is none
   either, and the message is direct, one listening on its channel. The answer is late exactly when
   the ask's turn ended before, or its time is up.
   */
  lemma {:induction false} MatchNamesItsAsk(env: Env, asks: seq<Ask>, m: Message, now: real)
    requires MatchAnswer(env, asks, m, now).Some?
    ensures var (i, how) := MatchAnswer(env, asks, m, now).value;
            var thread, reply := if m.thread.Some? then m.thread.value else "",
                if m.replyTo.Some? then m.replyTo.value else "";
            var inThread := thread != "" && exists j :: 0 <= j < |asks| && InThread(asks[j], thread);
            var posted := reply != "" && exists j :: 0 <= j < |asks| && Posts(asks[j], reply);
            && (how.rule == ByThread <==> inThread)
            && (inThread ==> InThread(asks[i], thread) && forall j | 0 <= j < i :: !InThread(asks[j], thread))
            && (how.rule == ByReply <==> !inThread && posted)
            && (!inThread && posted ==> Posts(asks[i], reply) && forall j | 0 <= j < i :: !Posts(asks[j], reply))
            && (how.rule == Fallback <==> !inThread && !posted)
            && (how.ambiguous ==> how.rule == Fallback)
            && (!inThread && !posted ==> asks[i].status == Open && env.lower(asks[i].channel) == env.lower(m.channel))
            && (!inThread && !posted ==>
                  env.addresses(m.text, env.ownNick) || env.lower(m.channel) == env.lower(m.sender))
            && (how.afterExpiry <==> asks[i].status == Expired || asks[i].expiresAt <= now)
            && (how.late <==> how.afterExpiry || (asks[i].turnEndedAt.Some? && asks[i].turnEndedAt.value < now))
  {
    hide Filter, LatestAt, FirstAt;
    var thread, reply := if m.thread.Some? then m.thread.value else "", if m.replyTo.Some? then m.replyTo.value else "";
    assert m.thread.Some? ==>
        forall j | 0 <= j < |asks| :: Exactly(m.thread, None)(asks[j]) == InThread(asks[j], thread);
    assert m.replyTo.Some? ==>
        forall j | 0 <= j < |asks| :: Exactly(None, m.replyTo)(asks[j]) == Posts(asks[j], reply);
  }

  /** One answer is recorded on ask `i` and nothing else changes: kept while the ask has fewer than 20. */
  predicate RecordedOn(before: seq<Ask>, after: seq<Ask>, i: nat, e: Entry) {
    && i < |before| == |after|
    && (forall j | 0 <= j < |before| && j != i :: after[j] == before[j])
    && after[i] == before[i].(status := Answered,
        answers := if |before[i].answers| < 20 then before[i].answers + [e] else before[i].answers)
  }

  /** An answer lands on the ask that matches once the due asks have expired, and nowhere when none does. */
  lemma AnswerLands(b: Book, env: Env, m: Message, now: real)
    ensures var live := ExpireAll(b.asks, now);
            var found := MatchAnswer(env, live, m, now);
            var (after, r) := AskAnswered(b, env, m, now);
            if found.None? then r == Unmatched && after == b.(asks := live)
            else
              var (i, how) := found.value;
              && r == Done && RecordedOn(live, after.asks, i, Entry(m.sender, Clip(m.text), now, how))
              && after.lastAnswer == b.lastAnswer[(env.lower(m.sender), env.lower(m.channel)) := (live[i].id, now)]
  {
    hide MatchAnswer, ExpireAll, Clip;
  }

  /** The judge's choice lands on the kept ask of that id, unless it failed or there is none. */
  lemma AttachLands(b: Book, env: Env, id: Id, m: Message, now: real)
    ensures var live := ExpireAll(b.asks, now);
            var (after, r) := AskAttached(b, env, id, m, now);
            && (r == Done <==>
                  exists i :: 0 <= i < |live| && live[i].id == id && live[i].status != Failed
                              && forall j | 0 <= j < i :: live[j].id != id)
            && (r != Done ==> after == b.(asks := live))
            && (r == Done ==>
                  exists i, e: Entry :: 0 <= i < |live| && live[i].id == id && RecordedOn(live, after.asks, i, e)
                                        && e.sender == m.sender && e.text == Clip(m.text) && e.at == now)
  {
    hide ExpireAll, Clip;
    var live := ExpireAll(b.asks, now);
    var i := AskWithId(live, id);
    if i.Some? && live[i.value].status != Failed {
      var a := live[i.value];
      var e := Entry(m.sender, Clip(m.text), now, Match(false, Late(a, now), Judged, AfterExpiry(a, now)));
      assert RecordedOn(live, AskAttached(b, env, id, m, now).0.asks, i.value, e);
    }
  }

  /** When a line counts as a continuation: soon after its sender's last answer, to an ask still kept. */
  lemma ContinuesIff(b: Book, env: Env, m: Message, now: real)
    ensures var key := (env.lower(m.sender), env.lower(m.channel));
            AskContinued(b, env, m, now).1 == Done <==> (
              && !("system-" <= env.lower(m.sender)) && !env.blank(m.text)
              && key in b.lastAnswer && now - b.lastAnswer[key].1 <= 5.0
              && exists i :: 0 <= i < |b.asks| && b.asks[i].id == b.lastAnswer[key].0 && b.asks[i].answers != []
                             && forall j | 0 <= j < i :: b.asks[j].id != b.lastAnswer[key].0)
  {
    hide Clip;
  }

  /** A fallback match is the latest ask listening on the channel, and ambiguous exactly when others listen too. */
  lemma {:induction false} FallbackIsLatest(env: Env, asks: seq<Ask>, m: Message, now: real)
    requires MatchAnswer(env, asks, m, now).Some? && MatchAnswer(env, asks, m, now).value.1.rule == Fallback
    ensures var (i, how) := MatchAnswer(env, asks, m, now).value;
            && Listens(env, asks[i], m.channel, now) && !how.afterExpiry
            && (forall a | a in asks && Listens(env, a, m.channel, now) :: a.postedAt <= asks[i].postedAt)
            && (how.ambiguous <==> exists j :: 0 <= j < |asks| && j != i && Listens(env, asks[j], m.channel, now))
  {
    assert forall a | a in asks :: Listens(env, a, m.channel, now) == ListeningOn(env, m.channel, now)(a);
    var fits := ListeningOn(env, m.channel, now);
    var i := MatchAnswer(env, asks, m, now).value.0;
    FilterMany(asks, fits, i);
  }

  lemma {:induction false} FilterAround<T>(s: seq<T>, fits: T -> bool, i: nat)
    requires i < |s| && fits(s[i])
    ensures |Filter(s, fits)| == |Filter(s[..i], fits)| + 1 + |Filter(s[i + 1..], fits)|
  {
    hide Filter;
    var a, b := s[..i], s[i + 1..];
    assert s == a + [s[i]] + b;
    FilterConcat(a + [s[i]], b, fits);
    FilterConcat(a, [s[i]], fits);
    FilterEvery([s[i]], fits);
  }

  lemma {:induction false} FilterMany<T>(s: seq<T>, fits: T -> bool, i: nat)
    requires i < |s| && fits(s[i])
    ensures |Filter(s, fits)| > 1 <==> exists j :: 0 <= j < |s| && j != i && fits(s[j])
  {
    hide Filter;
    var a, b := s[..i], s[i + 1..];
    FilterAround(s, fits, i);
    FilterNonempty(a, fits);
    FilterNonempty(b, fits);
    if j :| 0 <= j < |s| && j != i && fits(s[j]) {
      assert if j < i then fits(a[j]) else fits(b[j - i - 1]);
    }
  }

  lemma {:induction false} FilterNonempty<T>(s: seq<T>, fits: T -> bool)
    ensures Filter(s, fits) != [] <==> exists j :: 0 <= j < |s| && fits(s[j])
  {
    hide Filter;
    if j :| 0 <= j < |s| && fits(s[j]) {
      assert s == s[..j] + ([s[j]] + s[j + 1..]);
      FilterConcat(s[..j], [s[j]] + s[j + 1..], fits);
      FilterConcat([s[j]], s[j + 1..], fits);
      FilterEvery([s[j]], fits);
    } else {
      assert forall x | x in s :: !fits(x);
      FilterNone(s, fits);
    }
  }

  // ---------------------------------------------------------------- a full book of closed asks

  function Name(n: nat): string {
    seq(n, i => 'a')
  }

  /** `n` asks posted at time zero under names of growing length: the first seven open, the rest failed. */
  ghost predicate Holding(w: World, env: Env, n: nat) {
    && w.clock == 0.0 && |w.book.asks| == n && w.book.meshTurns == {}
    && (forall turn | turn in w.book.turnsAsked :: |turn| < n)
    && (forall id | id in w.used :: |id| < n)
    && forall i | 0 <= i < n ::
         var a := w.book.asks[i];
         a.id == Name(i) && a.postedAt == 0.0 && a.expiresAt == env.expiry &&
             (a.status == if i < 7 then Open else Failed)
  }

  lemma {:induction false} FewOpen(asks: seq<Ask>)
    requires forall i | 7 <= i < |asks| :: asks[i].status != Open
    ensures OpenCount(asks) <= 7
  {
    if |asks| > 7 {
      assert asks == asks[..7] + asks[7..];
      OpenConcat(asks[..7], asks[7..]);
      forall a | a in asks[7..]
        ensures !IS_OPEN(a)
      {
        var i :| 0 <= i < |asks| - 7 && asks[7..][i] == a;
      }
      FilterNone(asks[7..], IS_OPEN);
    }
  }

  /** Pruning leaves such a list alone. */
  lemma {:induction false} HeldStays(asks: seq<Ask>)
    requires Ordered(asks) && (forall i, j | 0 <= i < j < |asks| :: asks[i].id != asks[j].id)
    requires |asks| <= MAX_HELD && forall i | 0 <= i < |asks| && i < 7 :: asks[i].status == Open
    ensures Prune(asks) == asks
  {
    var k := Spare(|asks|);
    PruneShape(asks);
    FilterEvery(asks[..k], IS_OPEN);
    assert asks == asks[..k] + asks[k..];
  }

  function PostStep(n: nat): Step {
    Step(Post(Request(Name(n), "", "", None), Name(n), true), 0.0)
  }

  /** The post goes through and prunes nothing. */
  lemma {:induction false} HeldPosted(w: World, env: Env, n: nat)
    requires Holding(w, env, n) && n < MAX_HELD && env.expiry > 0.0
    ensures var req := Request(Name(n), "", "", None);
            AskOpened(w.book, env, req, Name(n), true, 0.0).0 ==
            w.book.(asks := w.book.asks + [NewAsk(env, req, Name(n), 0.0)],
                turnsAsked := w.book.turnsAsked[Name(n) := 1])
  {
    var req := Request(Name(n), "", "", None);
    HeldGrown(w, env, n);
    hide Prune, OpenCount, ExpireAll, AskOpened, Holding, Name;
    AskOpenedGoes(w.book, env, req, Name(n), 0.0);
  }

  lemma HeldLive(w: World, env: Env, n: nat)
    requires Holding(w, env, n) && env.expiry > 0.0
    ensures ExpireAll(w.book.asks, 0.0) == w.book.asks
  {
  }

  lemma {:induction false} HeldGrown(w: World, env: Env, n: nat)
    requires Holding(w, env, n) && n < MAX_HELD && env.expiry > 0.0
    ensures ExpireAll(w.book.asks, 0.0) == w.book.asks && OpenCount(w.book.asks) <= 7
    ensures var grown := w.book.asks + [NewAsk(env, Request(Name(n), "", "", None), Name(n),
        0.0)]; Prune(grown) == grown
    ensures Asked(w.book, Name(n)) == 0 && Name(n) !in w.book.meshTurns
  {
    var grown := w.book.asks + [NewAsk(env, Request(Name(n), "", "", None), Name(n), 0.0)];
    HeldLive(w, env, n);
    FewOpen(w.book.asks);
    hide ExpireAll;
    assert forall i | 0 <= i <= n :: |grown[i].id| == i && grown[i].postedAt == 0.0;
    hide OpenCount, Prune;
    HeldStays(grown);
  }

  lemma {:induction false} HeldPost(w: World, env: Env, n: nat)
    requires Holding(w, env, n) && n < MAX_HELD && env.expiry > 0.0
    ensures Enabled(w, PostStep(n))
    ensures var t := Apply(w, env, PostStep(n));
            && t.book.asks == w.book.asks + [NewAsk(env, Request(Name(n), "", "", None), Name(n), 0.0)]
            && t.clock == 0.0 && t.book.meshTurns == {}
            && (forall turn | turn in t.book.turnsAsked :: |turn| <= n) && (forall id | id in t.used :: |id| <= n)
  {
    HeldPosted(w, env, n);
    hide AskOpened, NewAsk;
  }

  lemma AskOpenedGoes(b: Book, env: Env, req: Request, id: Id, now: real)
    requires req.turn !in b.meshTurns && Asked(b, req.turn) < MAX_ASKS_PER_TURN
    requires OpenCount(ExpireAll(b.asks, now)) < MAX_OPEN_ASKS
    ensures AskOpened(b, env, req, id, true, now) == Posted(b, ExpireAll(b.asks, now), NewAsk(env, req, id, now), true)
  {
    hide ExpireAll, OpenCount, Posted;
  }

  lemma {:induction false} HeldFail(w: World, env: Env, n: nat)
    requires w.clock == 0.0 && |w.book.asks| == n + 1 && w.book.asks[n].status == Open
    requires forall i | 0 <= i <= n :: w.book.asks[i].id == Name(i)
    ensures Apply(w, env, Step(Failing(Name(n)), 0.0)) ==
            w.(book := w.book.(asks := w.book.asks[n := w.book.asks[n].(status := Failed)]))
  {
    assert forall i | 0 <= i <= n :: |w.book.asks[i].id| == i;
    assert w.book.asks[n].id == Name(n);
    assert AskWithId(w.book.asks, Name(n)).Some?;
  }

  lemma ReachesOne(w: World, env: Env, step: Step)
    requires Enabled(w, step)
    ensures Reaches(w, env, [step], Apply(w, env, step))
  {
    hide Apply;
    assert [step][1..] == [];
  }

  /** One more post, closed at once unless it is among the first seven. */
  lemma {:induction false} HoldOneMore(w: World, env: Env, n: nat) returns (steps: seq<Step>, t: World)
    requires Holding(w, env, n) && n < MAX_HELD && env.expiry > 0.0
    ensures Reaches(w, env, steps, t) && Holding(t, env, n + 1)
  {
    HeldPost(w, env, n);
    ReachesOne(w, env, PostStep(n));
    t := Apply(w, env, PostStep(n));
    steps := [PostStep(n)];
    if n < 7 {
      HoldingNext(w, env, n, t, Open);
    } else {
      var fail := Step(Failing(Name(n)), 0.0);
      HeldFail(t, env, n);
      ReachesOne(t, env, fail);
      hide Apply, Name;
      ReachesThen(w, env, steps, t, [fail], Apply(t, env, fail));
      steps := steps + [fail];
      t := Apply(t, env, fail);
      HoldingNext(w, env, n, t, Failed);
    }
  }

  lemma HoldingNext(w: World, env: Env, n: nat, t: World, status: Status)
    requires Holding(w, env, n) && status == (if n < 7 then Open else Failed)
    requires t.book.asks == w.book.asks + [NewAsk(env, Request(Name(n), "", "", None), Name(n), 0.0).(status := status)]
    requires t.clock == 0.0 && t.book.meshTurns == {} && env.expiry > 0.0
    requires (forall turn | turn in t.book.turnsAsked :: |turn| <= n) && (forall id | id in t.used :: |id| <= n)
    ensures Holding(t, env, n + 1)
  {
    hide Name;
  }

  lemma {:induction false} ReachesThen(w: World, env: Env, a: seq<Step>, mid: World, b: seq<Step>, t: World)
    requires Reaches(w, env, a, mid) && Reaches(mid, env, b, t)
    ensures Reaches(w, env, a + b, t)
    decreases |a|
  {
    hide Apply, Enabled;
    if a == [] {
      assert a + b == b;
    } else {
      assert (a + b)[1..] == a[1..] + b;
      ReachesThen(Apply(w, env, a[0]), env, a[1..], mid, b, t);
    }
  }

  lemma {:induction false} HoldMany(env: Env, n: nat) returns (steps: seq<Step>, t: World)
    requires n <= MAX_HELD && env.expiry > 0.0
    ensures Reaches(Start(0.0), env, steps, t) && Holding(t, env, n)
  {
    hide Holding;
    if n == 0 {
      steps, t := [], Start(0.0);
      HoldNone(env);
    } else {
      var first, mid := HoldMany(env, n - 1);
      var more, last := HoldOneMore(mid, env, n - 1);
      ReachesThen(Start(0.0), env, first, mid, more, last);
      steps, t := first + more, last;
    }
  }

  lemma HoldNone(env: Env)
    ensures Holding(Start(0.0), env, 0)
  {
  }

  /**
   "Kept asks stay within 200 plus the open ones" is true right after a post and not later: some
   run keeps 207 asks of which none is open, the most any run keeps.
   */
  lemma {:induction false} HeldBeyondOpen(env: Env) returns (steps: seq<Step>, t: World)
    requires env.expiry > 0.0
    ensures Reaches(Start(0.0), env, steps, t)
    ensures |t.book.asks| == MAX_HELD && OpenCount(t.book.asks) == 0
  {
    var first, mid := HoldMany(env, MAX_HELD);
    var look := Step(Looking, env.expiry);
    HeldExpires(mid, env);
    ReachesOne(mid, env, look);
    hide Apply, Holding;
    t := Apply(mid, env, look);
    ReachesThen(Start(0.0), env, first, mid, [look], t);
    steps := first + [look];
  }

  lemma {:induction false} HeldExpires(w: World, env: Env)
    requires Holding(w, env, MAX_HELD) && env.expiry > 0.0
    ensures var t := Apply(w, env, Step(Looking, env.expiry));
            Enabled(w, Step(Looking, env.expiry)) && |t.book.asks| == MAX_HELD && OpenCount(t.book.asks) == 0
  {
    var live := ExpireAll(w.book.asks, env.expiry);
    forall a | a in live
      ensures !IS_OPEN(a)
    {
      var i :| 0 <= i < |live| && live[i] == a;
    }
    FilterNone(live, IS_OPEN);
  }

  // ---------------------------------------------------------------- whose answer a continuation edits

  /** The latest record under a key. */
  function LastBy(log: seq<Rec>, key: (string, string)): (r: Option<nat>)
    ensures r.Some? ==> r.value < |log| && log[r.value].key == key
    ensures r.Some? ==> forall j | r.value < j < |log| :: log[j].key != key
    ensures r.None? ==> forall j | 0 <= j < |log| :: log[j].key != key
    decreases |log|
  {
    if log == [] then None
    else if log[|log| - 1].key == key then Some(|log| - 1)
    else LastBy(log[..|log| - 1], key)
  }

  /** The answer was stored: the ask held fewer than 20. */
  predicate Kept(r: Rec) {
    r.slot < MAX_ANSWERS_PER_ASK
  }

  /** The latest stored answer on an ask. */
  function LastKept(log: seq<Rec>, id: Id): (r: Option<nat>)
    ensures r.Some? ==> r.value < |log| && log[r.value].ask == id && Kept(log[r.value])
    ensures r.Some? ==> forall j | r.value < j < |log| && log[j].ask == id :: !Kept(log[j])
    ensures r.None? ==> forall j | 0 <= j < |log| && log[j].ask == id :: !Kept(log[j])
    decreases |log|
  {
    if log == [] then None
    else if log[|log| - 1].ask == id && Kept(log[|log| - 1]) then Some(|log| - 1)
    else LastKept(log[..|log| - 1], id)
  }

  /** The entry is the one the record stored. */
  predicate Stores(env: Env, e: Entry, r: Rec) {
    env.lower(e.sender) == r.key.0 && e.at == r.at
  }

  ghost predicate Written(log: seq<Rec>, id: Id, n: nat) {
    exists j :: 0 <= j < |log| && log[j].ask == id && log[j].slot == n
  }

  /** Each stored answer is where it was put, and every entry was put there by one. */
  ghost predicate AskLogged(log: seq<Rec>, env: Env, a: Ask) {
    && (forall j | 0 <= j < |log| && log[j].ask == a.id && Kept(log[j]) ::
          log[j].slot < |a.answers| && Stores(env, a.answers[log[j].slot], log[j]))
    && (forall n: nat | n < |a.answers| :: Written(log, a.id, n))
  }

  ghost predicate SlotsRise(log: seq<Rec>) {
    forall j, k | 0 <= j < k < |log| && log[j].ask == log[k].ask && Kept(log[j]) :: log[j].slot < log[k].slot
  }

  ghost predicate LastsLogged(log: seq<Rec>, last: map<(string, string), (Id, real)>) {
    forall key :: (key in last <==> LastBy(log, key).Some?) &&
        (key in last ==> last[key].0 == log[LastBy(log, key).value].ask)
  }

  ghost predicate LogGood(w: World, env: Env) {
    && (forall j | 0 <= j < |w.log| :: w.log[j].ask in w.used)
    && SlotsRise(w.log)
    && (forall a | a in w.book.asks :: AskLogged(w.log, env, a))
    && LastsLogged(w.log, w.book.lastAnswer)
  }

  /** Same ask, same entries but for their texts. */
  predicate SameEntries(a: Ask, a': Ask) {
    && a'.id == a.id && |a'.answers| == |a.answers|
    && forall n | 0 <= n < |a.answers| ::
         a'.answers[n].sender == a.answers[n].sender && a'.answers[n].at == a.answers[n].at
  }

  /** No ask gains or loses an answer, new asks have none, and every sender's last ask is the same. */
  ghost predicate NoAnswer(b: Book, b': Book, added: set<Id>) {
    && (forall a' | a' in b'.asks ::
          (a'.id in added && a'.answers == []) || exists a :: a in b.asks && SameEntries(a, a'))
    && b'.lastAnswer.Keys == b.lastAnswer.Keys
    && forall key | key in b.lastAnswer :: b'.lastAnswer[key].0 == b.lastAnswer[key].0
  }

  lemma PointwiseNoAnswer(b: Book, b': Book)
    requires |b'.asks| == |b.asks| && forall i | 0 <= i < |b.asks| :: SameEntries(b.asks[i], b'.asks[i])
    requires b'.lastAnswer.Keys == b.lastAnswer.Keys
    requires forall key | key in b.lastAnswer :: b'.lastAnswer[key].0 == b.lastAnswer[key].0
    ensures NoAnswer(b, b', {})
  {
    forall a' | a' in b'.asks
      ensures exists a :: a in b.asks && SameEntries(a, a')
    {
      var i :| 0 <= i < |b'.asks| && b'.asks[i] == a';
      assert b.asks[i] in b.asks;
    }
  }

  /** What a post leaves: the asks as they were, or expired ones with perhaps the new one among them. */
  lemma {:induction false} PostLeaves(b: Book, env: Env, req: Request, id: Id, saved: bool, now: real)
    ensures var after := AskOpened(b, env, req, id, saved, now).0;
            && after.lastAnswer == b.lastAnswer
            && (after.asks == b.asks
                || forall a | a in after.asks :: a in ExpireAll(b.asks, now) || (a.id == id && a.answers == []))
  {
    var live := ExpireAll(b.asks, now);
    AskOpenedCases(b, env, req, id, saved, now);
    PostedAsk(b, live, NewAsk(env, req, id, now), saved);
    hide AskOpened, ExpireAll, Posted, OpenCount, Asked;
  }

  lemma PostedAsk(b: Book, live: seq<Ask>, ask: Ask, saved: bool)
    ensures Posted(b, live, ask, saved).0.lastAnswer == b.lastAnswer
    ensures forall a | a in Posted(b, live, ask, saved).0.asks :: a in live || a == ask
  {
    hide Doomed;
  }

  lemma ExpireNoAnswer(b: Book, now: real)
    ensures NoAnswer(b, b.(asks := ExpireAll(b.asks, now)), {})
  {
    PointwiseNoAnswer(b, b.(asks := ExpireAll(b.asks, now)));
  }

  lemma NoAnswerSome(b: Book, live: seq<Ask>, after: Book, id: Id)
    requires NoAnswer(b, b.(asks := live), {}) && after.lastAnswer == b.lastAnswer
    requires forall a | a in after.asks :: a in live || (a.id == id && a.answers == [])
    ensures NoAnswer(b, after, {id})
  {
    hide SameEntries;
    forall a' | a' in after.asks && !(a'.id == id && a'.answers == [])
      ensures exists a :: a in b.asks && SameEntries(a, a')
    {
      assert a' in b.(asks := live).asks;
    }
  }

  lemma {:induction false} PostNoAnswer(b: Book, env: Env, req: Request, id: Id, saved: bool, now: real)
    ensures NoAnswer(b, AskOpened(b, env, req, id, saved, now).0, {id})
  {
    hide AskOpened, ExpireAll, NoAnswer;
    var live := ExpireAll(b.asks, now);
    var after := AskOpened(b, env, req, id, saved, now).0;
    PointwiseNoAnswer(b, b);
    ExpireNoAnswer(b, now);
    PostLeaves(b, env, req, id, saved, now);
    if after.asks == b.asks {
      assert b.(asks := b.asks) == b;
      NoAnswerSome(b, b.asks, after, id);
    } else {
      NoAnswerSome(b, live, after, id);
    }
  }

  /** An operation that records nothing leaves every ask's entries in place. */
  lemma {:induction false} NothingLanded(b: Book, env: Env, op: Op, now: real)
    requires Landed(b, env, op, now) == []
    ensures NoAnswer(b, Do(b, env, op, now).0, if op.Post? then {op.id} else {})
  {
    hide MatchAnswer, Record, NoAnswer;
    if op.Post? {
      PostNoAnswer(b, env, op.req, op.id, op.saved, now);
    } else {
      PointwiseNoAnswer(b, Do(b, env, op, now).0);
    }
  }

  /** One that records an answer does so on one ask of the expired book. */
  lemma {:induction false} OneLanded(b: Book, env: Env, op: Op, now: real) returns (i: nat, how: Match)
    requires Landed(b, env, op, now) != []
    ensures i < |b.asks|
    ensures var live := b.(asks := ExpireAll(b.asks, now));
            && Landed(b, env, op, now) == [RecOf(env, live.asks[i], op.m, now)]
            && Do(b, env, op, now).0 == Record(live, env, i, how, op.m, now)
  {
    hide MatchAnswer, Record, RecOf;
    var live := b.(asks := ExpireAll(b.asks, now));
    if op.Answering? {
      var found := MatchAnswer(env, live.asks, op.m, now).value;
      i, how := found.0, found.1;
    } else {
      i := AskWithId(live.asks, op.id).value;
      how := Match(false, Late(live.asks[i], now), Judged, AfterExpiry(live.asks[i], now));
    }
  }

  lemma SameLogged(log: seq<Rec>, env: Env, a: Ask, a': Ask)
    requires AskLogged(log, env, a) && SameEntries(a, a')
    ensures AskLogged(log, env, a')
  {
  }

  lemma {:induction false} QuietStepLogged(w: World, env: Env, step: Step)
    requires LogGood(w, env) && Enabled(w, step) && Landed(w.book, env, step.op, step.now) == []
    ensures LogGood(Apply(w, env, step), env)
  {
    NothingLanded(w.book, env, step.op, step.now);
    var t := Apply(w, env, step);
    assert t.log == w.log;
    hide Do, Landed, SlotsRise, SameEntries;
    forall a' | a' in t.book.asks
      ensures AskLogged(t.log, env, a')
    {
      if a :| a in w.book.asks && SameEntries(a, a') {
        SameLogged(w.log, env, a, a');
      }
    }
  }

  /** The ask that gets the answer, and the record for it. */
  lemma AnswerLogged(log: seq<Rec>, env: Env, a: Ask, m: Message, now: real, how: Match)
    requires AskLogged(log, env, a) && |a.answers| <= MAX_ANSWERS_PER_ASK
    ensures AskLogged(log + [RecOf(env, a, m, now)], env, WithAnswer(a, Entry(m.sender, Clip(m.text), now, how)))
  {
    var r := RecOf(env, a, m, now);
    var more := log + [r];
    var a' := WithAnswer(a, Entry(m.sender, Clip(m.text), now, how));
    forall n: nat | n < |a'.answers|
      ensures Written(more, a.id, n)
    {
      if n == |a.answers| {
        assert more[|log|] == r;
      } else {
        assert Written(log, a.id, n);
        var j :| 0 <= j < |log| && log[j].ask == a.id && log[j].slot == n;
        assert more[j] == log[j];
      }
    }
  }

  lemma OtherLogged(log: seq<Rec>, env: Env, a: Ask, r: Rec)
    requires AskLogged(log, env, a) && r.ask != a.id
    ensures AskLogged(log + [r], env, a)
  {
    forall n: nat | n < |a.answers|
      ensures Written(log + [r], a.id, n)
    {
      assert Written(log, a.id, n);
      var j :| 0 <= j < |log| && log[j].ask == a.id && log[j].slot == n;
      assert (log + [r])[j] == log[j];
    }
  }

  lemma SlotsRiseNext(log: seq<Rec>, env: Env, a: Ask, m: Message, now: real)
    requires SlotsRise(log) && AskLogged(log, env, a)
    ensures SlotsRise(log + [RecOf(env, a, m, now)])
  {
    hide Stores;
  }

  lemma LastsNext(log: seq<Rec>, last: map<(string, string), (Id, real)>, r: Rec, now: real)
    requires LastsLogged(log, last)
    ensures LastsLogged(log + [r], last[r.key := (r.ask, now)])
  {
    assert (log + [r])[..|log|] == log;
  }

  lemma {:induction false} RecordLogged(w: World, env: Env, i: nat, how: Match, m: Message, now: real)
    requires LogGood(w, env) && i < |w.book.asks| && |w.book.asks[i].answers| <= MAX_ANSWERS_PER_ASK
    requires w.book.asks[i].id in w.used
    requires forall j, k | 0 <= j < k < |w.book.asks| :: w.book.asks[j].id != w.book.asks[k].id
    ensures LogGood(w.(book := Record(w.book, env, i, how, m, now),
                       log := w.log + [RecOf(env, w.book.asks[i], m, now)]), env)
  {
    var r := RecOf(env, w.book.asks[i], m, now);
    var asks := Record(w.book, env, i, how, m, now).asks;
    SlotsRiseNext(w.log, env, w.book.asks[i], m, now);
    LastsNext(w.log, w.book.lastAnswer, r, now);
    AnswerLogged(w.log, env, w.book.asks[i], m, now, how);
    hide AskLogged, SlotsRise, LastsLogged;
    forall a | a in asks
      ensures AskLogged(w.log + [r], env, a)
    {
      var j :| 0 <= j < |asks| && asks[j] == a;
      if j != i {
        OtherLogged(w.log, env, w.book.asks[j], r);
      }
    }
  }

  lemma {:induction false} StepLogged(w: World, env: Env, step: Step)
    requires Inv(w) && LogGood(w, env) && Enabled(w, step)
    ensures LogGood(Apply(w, env, step), env)
  {
    if Landed(w.book, env, step.op, step.now) == [] {
      QuietStepLogged(w, env, step);
    } else {
      var i, how := OneLanded(w.book, env, step.op, step.now);
      var look := Step(Looking, step.now);
      QuietStepLogged(w, env, look);
      StepInv(w, env, look);
      var live := Apply(w, env, look);
      assert live.book == w.book.(asks := ExpireAll(w.book.asks, step.now)) && live.log == w.log;
      hide Do, Landed, LogGood;
      assert AskGood(live.book.asks[i]);
      RecordLogged(live, env, i, how, step.op.m, step.now);
      LogGoodOf(live.(book := Record(live.book, env, i, how, step.op.m, step.now),
          log := live.log + [RecOf(env, live.book.asks[i], step.op.m, step.now)]), Apply(w, env, step), env);
    }
  }

  lemma LogGoodOf(w: World, t: World, env: Env)
    requires LogGood(w, env) && t.book == w.book && t.log == w.log && t.used == w.used
    ensures LogGood(t, env)
  {
  }

  lemma {:induction false} ReachesLogged(w: World, env: Env, steps: seq<Step>, t: World)
    requires Inv(w) && LogGood(w, env) && Reaches(w, env, steps, t)
    ensures Inv(t) && LogGood(t, env)
    decreases |steps|
  {
    hide Inv, LogGood, Apply, Enabled;
    if steps != [] {
      StepInv(w, env, steps[0]);
      StepLogged(w, env, steps[0]);
      ReachesLogged(Apply(w, env, steps[0]), env, steps[1..], t);
    }
  }

  /** The last entry of an ask is the one its latest stored answer put there. */
  lemma {:induction false} LastEntry(w: World, env: Env, a: Ask)
    requires LogGood(w, env) && a in w.book.asks && 0 < |a.answers| <= MAX_ANSWERS_PER_ASK
    ensures LastKept(w.log, a.id).Some?
    ensures var r := w.log[LastKept(w.log, a.id).value];
            r.slot == |a.answers| - 1 && Stores(env, a.answers[|a.answers| - 1], r)
    ensures forall j | 0 <= j < |w.log| && w.log[j].ask == a.id ::
              w.log[j].slot == |a.answers| - 1 <==> j == LastKept(w.log, a.id).value
  {
    hide Stores;
    var n := |a.answers| - 1;
    assert AskLogged(w.log, env, a) && Written(w.log, a.id, n);
    var j :| 0 <= j < |w.log| && w.log[j].ask == a.id && w.log[j].slot == n;
  }

  /**
   The entry a continuation line is appended to: the last one of the ask its sender last answered, whoever
   wrote it. Nothing else of the book changes but the time of that answer.
   */
  lemma {:induction false} ContinuesLastEntry(b: Book, env: Env, m: Message, now: real)
    requires AskContinued(b, env, m, now).1 == Done
    ensures var key := (env.lower(m.sender), env.lower(m.channel));
            var i := AskWithId(b.asks, b.lastAnswer[key].0).value;
            var a := b.asks[i];
            var n := |a.answers| - 1;
            && n >= 0
            && var e := a.answers[n].(text := Clip(a.answers[n].text + "\n" + m.text));
               AskContinued(b, env, m, now).0 == b.(
                 asks := b.asks[i := a.(answers := a.answers[..n] + [e])],
                 lastAnswer := b.lastAnswer[key := (a.id, now)])
  {
    var a := b.asks[AskWithId(b.asks, b.lastAnswer[Key(env, m)].0).value];
    var n := |a.answers| - 1;
    var e := a.answers[n].(text := Clip(a.answers[n].text + "\n" + m.text));
    assert a.answers[n := e] == a.answers[..n] + [e];
    hide Clip, AskWithId;
  }

  lemma StartLogged(clock: real, env: Env)
    ensures LogGood(Start(clock), env)
  {
  }

  /** The ask a continuation edits, and how. */
  lemma {:induction false} ContinuedAsk(w: World, env: Env, m: Message, now: real) returns (last: nat, i: nat)
    requires LogGood(w, env) && AskContinued(w.book, env, m, now).1 == Done
    ensures LastBy(w.log, Key(env, m)) == Some(last)
    ensures i < |w.book.asks| && w.book.asks[i].id == w.log[last].ask && w.book.asks[i].answers != []
    ensures var a := w.book.asks[i];
            var n := |a.answers| - 1;
            var e := a.answers[n].(text := Clip(a.answers[n].text + "\n" + m.text));
            AskContinued(w.book, env, m, now).0.asks == w.book.asks[i := a.(answers := a.answers[n := e])]
  {
    hide LastBy;
    assert LastsLogged(w.log, w.book.lastAnswer);
    hide LogGood;
    var key := Key(env, m);
    assert key in w.book.lastAnswer;
    last := LastBy(w.log, key).value;
    i := AskWithId(w.book.asks, w.log[last].ask).value;
  }

  /** When the last entry of an ask is the one a given record stored. */
  lemma {:induction false} OwnIff(w: World, env: Env, last: nat, a: Ask)
    requires LogGood(w, env) && a in w.book.asks && 0 < |a.answers| <= MAX_ANSWERS_PER_ASK
    requires last < |w.log| && w.log[last].ask == a.id
    ensures var n, r := |a.answers| - 1, w.log[last];
            && (Kept(r) ==> r.slot <= n && Stores(env, a.answers[r.slot], r))
            && (r.slot == n <==> Kept(r) && forall k | last < k < |w.log| && w.log[k].ask == a.id :: !Kept(w.log[k]))
            && LastKept(w.log, a.id).Some?
            && env.lower(a.answers[n].sender) == w.log[LastKept(w.log, a.id).value].key.0
  {
    LastEntry(w, env, a);
    assert AskLogged(w.log, env, a);
    hide LogGood, LastKept;
  }

  /**
   A continuation edits the entry its sender's last answer stored if and only if that answer was
   stored at all (the ask held fewer than 20) and no answer stored on the ask since. The entry it
   does edit has the sender as its author if and only if the ask's latest stored answer is theirs.
   */
  lemma {:induction false} ContinuesOwnIff(env: Env, clock: real, steps: seq<Step>, t: World, m: Message, now: real)
    returns (last: nat, i: nat)
    requires Reaches(Start(clock), env, steps, t) && AskContinued(t.book, env, m, now).1 == Done
    ensures LastBy(t.log, Key(env, m)) == Some(last)
    ensures i < |t.book.asks| && t.book.asks[i].id == t.log[last].ask && t.book.asks[i].answers != []
    ensures var a, r := t.book.asks[i], t.log[last];
            var n := |a.answers| - 1;
            var e := a.answers[n].(text := Clip(a.answers[n].text + "\n" + m.text));
            && AskContinued(t.book, env, m, now).0.asks == t.book.asks[i := a.(answers := a.answers[n := e])]
            && (Kept(r) ==> r.slot <= n && Stores(env, a.answers[r.slot], r))
            && (r.slot == n <==> Kept(r) && forall k | last < k < |t.log| && t.log[k].ask == r.ask :: !Kept(t.log[k]))
            && LastKept(t.log, a.id).Some?
            && (env.lower(e.sender) == env.lower(m.sender) <==>
                t.log[LastKept(t.log, a.id).value].key.0 == env.lower(m.sender))
  {
    hide Inv, LogGood, Reaches, AskContinued, OpenCount, Start, Stores;
    StartInv(clock);
    StartLogged(clock, env);
    ReachesLogged(Start(clock), env, steps, t);
    ReachableBounds(env, clock, steps, t);
    last, i := ContinuedAsk(t, env, m, now);
    OwnIff(t, env, last, t.book.asks[i]);
  }

  // ---------------------------------------------------------------- two runs that continue another's answer

  predicate Replies(env: Env, m: Message, id: Id) {
    m.thread == Some(ThreadName(id)) && !SystemSender(env, m.sender)
  }

  /** The book holds one ask, in its thread, at time zero. */
  predicate Alone(w: World, id: Id) {
    && w.clock == 0.0 && |w.book.asks| == 1
    && w.book.asks[0].id == id && w.book.asks[0].thread == ThreadName(id) && w.book.asks[0].status != Failed
  }

  function At0(op: Op): Step {
    Step(op, 0.0)
  }

  function PostOf(id: Id): Op {
    Post(Request("turn", "", "", None), id, true)
  }

  lemma {:induction false} PostAlone(env: Env, id: Id)
    ensures Enabled(Start(0.0), At0(PostOf(id)))
    ensures var t := Apply(Start(0.0), env, At0(PostOf(id))); Alone(t, id) && t.book.asks[0].answers == []
  {
    var asks := [NewAsk(env, PostOf(id).req, id, 0.0)];
    PruneShape(asks);
    assert asks[..0] == [] && asks[0..] == asks && Filter(asks[..0], IS_OPEN) == [];
    hide Prune;
    assert [] + asks == asks;
    assert ExpireAll([], 0.0) == [];
  }

  /** A reply in the ask's thread is recorded on it. */
  lemma {:induction false} ReplyRecorded(w: World, env: Env, id: Id, m: Message)
    requires Alone(w, id) && Replies(env, m, id)
    ensures Enabled(w, At0(Answering(m))) && Alone(Apply(w, env, At0(Answering(m))), id)
    ensures var t := Apply(w, env, At0(Answering(m)));
            var was, entries := w.book.asks[0].answers, t.book.asks[0].answers;
            && t.book.lastAnswer == w.book.lastAnswer[Key(env, m) := (id, 0.0)]
            && (if |was| < MAX_ANSWERS_PER_ASK then
                |entries| == |was| + 1 && entries[..|was|] == was &&
                    entries[|was|].sender == m.sender && entries[|was|].text == Clip(m.text)
                else entries == was)
  {
    var live := ExpireAll(w.book.asks, 0.0);
    assert Exactly(m.thread, None)(live[0]);
    hide Filter, LatestAt;
  }

  lemma {:induction false} ContinuedAlone(w: World, env: Env, id: Id, m: Message)
    requires Alone(w, id) && !SystemSender(env, m.sender) && !env.blank(m.text)
    requires Key(env, m) in w.book.lastAnswer && w.book.lastAnswer[Key(env, m)] == (id, 0.0)
    requires w.book.asks[0].answers != []
    ensures Enabled(w, At0(Continuing(m))) && AskContinued(w.book, env, m, 0.0).1 == Done
    ensures Alone(Apply(w, env, At0(Continuing(m))), id)
    ensures var t := Apply(w, env, At0(Continuing(m)));
            var was, entries := w.book.asks[0].answers, t.book.asks[0].answers;
            var n := |was| - 1;
            entries == was[n := was[n].(text := Clip(was[n].text + "\n" + m.text))]
  {
    assert AskWithId(w.book.asks, id).Some?;
  }

  lemma {:induction false} RunThen(env: Env, steps: seq<Step>, w: World, op: Op)
    requires Reaches(Start(0.0), env, steps, w) && Enabled(w, At0(op))
    ensures Reaches(Start(0.0), env, steps + [At0(op)], Apply(w, env, At0(op)))
  {
    hide Apply, Enabled;
    ReachesOne(w, env, At0(op));
    ReachesThen(Start(0.0), env, steps, w, [At0(op)], Apply(w, env, At0(op)));
  }

  /**
   The first failing run: two senders answer one ask, and the first sender's next line is appended
   to the second one's answer.
   */
  lemma {:induction false} ContinuesAnothers(env: Env, id: Id, first: Message, second: Message, next: Message)
    returns (steps: seq<Step>, t: World)
    requires Replies(env, first, id) && Replies(env, second, id)
    requires Key(env, first) != Key(env, second) && Key(env, next) == Key(env, first)
    requires !SystemSender(env, next.sender) && !env.blank(next.text)
    ensures steps == [At0(PostOf(id)), At0(Answering(first)), At0(Answering(second)), At0(Continuing(next))]
    ensures Reaches(Start(0.0), env, steps, t) && |t.book.asks| == 1 && |t.book.asks[0].answers| == 2
    ensures t.book.asks[0].answers[0].sender == first.sender && t.book.asks[0].answers[0].text == Clip(first.text)
    ensures t.book.asks[0].answers[1].sender == second.sender
    ensures t.book.asks[0].answers[1].text == Clip(Clip(second.text) + "\n" + next.text)
  {
    hide Apply, Enabled, Reaches;
    PostAlone(env, id);
    ReachesOne(Start(0.0), env, At0(PostOf(id)));
    var u := Apply(Start(0.0), env, At0(PostOf(id)));
    ReplyRecorded(u, env, id, first);
    RunThen(env, [At0(PostOf(id))], u, Answering(first));
    var v := Apply(u, env, At0(Answering(first)));
    ReplyRecorded(v, env, id, second);
    RunThen(env, [At0(PostOf(id))] + [At0(Answering(first))], v, Answering(second));
    var w := Apply(v, env, At0(Answering(second)));
    ContinuedAlone(w, env, id, next);
    RunThen(env, [At0(PostOf(id))] + [At0(Answering(first))] + [At0(Answering(second))], w, Continuing(next));
    t := Apply(w, env, At0(Continuing(next)));
    steps := [At0(PostOf(id))] + [At0(Answering(first))] + [At0(Answering(second))] + [At0(Continuing(next))];
  }

  /** `n` answers by one sender fill the ask. */
  lemma {:induction false} FilledBy(env: Env, id: Id, other: Message, n: nat) returns (steps: seq<Step>, t: World)
    requires Replies(env, other, id) && n <= MAX_ANSWERS_PER_ASK
    ensures Reaches(Start(0.0), env, steps, t) && Alone(t, id) && |t.book.asks[0].answers| == n
    ensures forall e | e in t.book.asks[0].answers :: e.sender == other.sender && e.text == Clip(other.text)
    ensures steps == [At0(PostOf(id))] + seq(n, i => At0(Answering(other)))
    decreases n
  {
    hide Apply, Enabled, Reaches;
    if n == 0 {
      PostAlone(env, id);
      ReachesOne(Start(0.0), env, At0(PostOf(id)));
      t := Apply(Start(0.0), env, At0(PostOf(id)));
      steps := [At0(PostOf(id))];
    } else {
      var before, w := FilledBy(env, id, other, n - 1);
      ReplyRecorded(w, env, id, other);
      RunThen(env, before, w, Answering(other));
      t := Apply(w, env, At0(Answering(other)));
      steps := before + [At0(Answering(other))];
      var a := t.book.asks[0].answers;
      assert a == a[..n - 1] + [a[n - 1]];
    }
  }

  /**
   The second failing run: an ask already holds 20 answers of another sender, so the sender's own
   answer is dropped; the next line is appended to the other sender's twentieth.
   */
  lemma {:induction false} ContinuesPastFull(env: Env, id: Id, other: Message, first: Message, next: Message)
    returns (steps: seq<Step>, t: World)
    requires Replies(env, other, id) && Replies(env, first, id)
    requires Key(env, other) != Key(env, first) && Key(env, next) == Key(env, first)
    requires !SystemSender(env, next.sender) && !env.blank(next.text)
    ensures steps == [At0(PostOf(id))] + seq(MAX_ANSWERS_PER_ASK, i => At0(Answering(other))) +
        [At0(Answering(first)), At0(Continuing(next))]
    ensures Reaches(Start(0.0), env, steps, t) && |t.book.asks| == 1 && |t.book.asks[0].answers| == 20
    ensures forall e | e in t.book.asks[0].answers :: e.sender == other.sender
    ensures t.book.asks[0].answers[19].text == Clip(Clip(other.text) + "\n" + next.text)
  {
    hide Apply, Enabled, Reaches;
    var fill, u := FilledBy(env, id, other, MAX_ANSWERS_PER_ASK);
    ReplyRecorded(u, env, id, first);
    RunThen(env, fill, u, Answering(first));
    var v := Apply(u, env, At0(Answering(first)));
    ContinuedAlone(v, env, id, next);
    RunThen(env, fill + [At0(Answering(first))], v, Continuing(next));
    t := Apply(v, env, At0(Continuing(next)));
    steps := fill + [At0(Answering(first))] + [At0(Continuing(next))];
  }

  // ---------------------------------------------------------------- the book as it is kept

  class AskBook {
    const env: Env
    var asks: seq<Ask>
    var turnsAsked: map<Turn, nat>
    var meshTurns: set<Turn>
    var meshStarts: seq<real>
    var lastAnswer: map<(string, string), (Id, real)>

    function Contents(): Book
      reads this
    {
      Book(asks, turnsAsked, meshTurns, meshStarts, lastAnswer)
    }

    constructor (env: Env)
      ensures Contents() == EMPTY && this.env == env
    {
      this.env := env;
      asks, turnsAsked, meshTurns, meshStarts, lastAnswer := [], map[], {}, [], map[];
    }

    /** Marks the asks whose time ran out; whether any changed. */
    method Expire(now: real) returns (changed: bool)
      modifies this`asks
      ensures asks == ExpireAll(old(asks), now)
      ensures changed <==> asks != old(asks)
      ensures forall i | 0 <= i < |asks| ::
                var was := old(asks)[i];
                asks[i] == if was.status == Open && was.expiresAt <= now then was.(status := Expired) else was
    {
      changed := false;
      ghost var before := asks;
      var i := 0;
      while i < |asks|
        invariant i <= |asks| == |before|
        invariant forall j | 0 <= j < i :: asks[j] == ExpireAsk(before[j], now)
        invariant forall j | i <= j < |before| :: asks[j] == before[j]
        invariant changed <==> exists j :: 0 <= j < i && asks[j] != before[j]
        modifies this`asks
      {
        if asks[i].status == Open && now >= asks[i].expiresAt {
          asks := asks[i := asks[i].(status := Expired)];
          changed := true;
        }
        i := i + 1;
      }
      assert asks == ExpireAll(before, now);
    }

    method BeginTurn(turn: Turn, meshStarted: bool, now: real) returns (r: Result)
      modifies this`turnsAsked, this`meshTurns, this`meshStarts
      ensures (Contents(), r) == TurnBegun(old(Contents()), turn, meshStarted, now)
    {
      if meshStarted {
        meshStarts := Filter(meshStarts, R.RecentAt(MESH_LIMIT, now));
        if |meshStarts| >= MESH_LIMIT.cap {
          return RefusedRate;
        }
        meshStarts := meshStarts + [now];
        meshTurns := meshTurns + {turn};
      }
      if turn !in turnsAsked {
        turnsAsked := turnsAsked[turn := 0];
      }
      return Done;
    }

    /** Stamps the turn's asks as ended. */
    method EndTurn(turn: Turn, now: real)
      modifies this`asks, this`turnsAsked, this`meshTurns
      ensures Contents() == TurnEnded(old(Contents()), turn, now)
      ensures |asks| == |old(asks)| && forall i | 0 <= i < |asks| ::
                var was := old(asks)[i];
                asks[i] == if was.turn == turn && was.turnEndedAt == None then was.(turnEndedAt := Some(now)) else was
      ensures turn !in turnsAsked && turn !in meshTurns
    {
      ghost var before := asks;
      var i := 0;
      while i < |asks|
        invariant i <= |asks| == |before|
        invariant forall j | 0 <= j < i :: asks[j] == EndAsk(before[j], turn, now)
        invariant forall j | i <= j < |before| :: asks[j] == before[j]
        modifies this`asks
      {
        if asks[i].turn == turn && asks[i].turnEndedAt.None? {
          asks := asks[i := asks[i].(turnEndedAt := Some(now))];
        }
        i := i + 1;
      }
      assert asks == EndAll(before, turn, now);
      turnsAsked := turnsAsked - {turn};
      meshTurns := meshTurns - {turn};
    }

    method OpenAsk(req: Request, id: Id, saved: bool, now: real) returns (r: Result)
      modifies this`asks, this`turnsAsked
      ensures (Contents(), r) == AskOpened(old(Contents()), env, req, id, saved, now)
      ensures r == if req.turn in meshTurns then RefusedMeshTurn
                   else if req.turn in old(turnsAsked) && old(turnsAsked)[req.turn] >= 1 then RefusedTurnLimit
                   else if OpenCount(ExpireAll(old(asks), now)) >= 8 then RefusedOpenCap
                   else if saved then Done else RefusedSave
    {
      if req.turn in meshTurns {
        return RefusedMeshTurn;
      }
      if Asked(Contents(), req.turn) >= MAX_ASKS_PER_TURN {
        return RefusedTurnLimit;
      }
      var _ := Expire(now);
      if OpenCount(asks) >= MAX_OPEN_ASKS {
        return RefusedOpenCap;
      }
      asks := Prune(asks + [NewAsk(env, req, id, now)]);
      if !saved {
        asks := Filter(asks, NotIn({id}));
        return RefusedSave;
      }
      turnsAsked := turnsAsked[req.turn := Asked(Contents(), req.turn) + 1];
      return Done;
    }

    /** Closes an open ask whose post never reached the mesh. */
    method Fail(id: Id) returns (closed: bool)
      modifies this`asks
      ensures Contents() == AskFailed(old(Contents()), id).0
      ensures closed <==> AskFailed(old(Contents()), id).1 == Done
      ensures |asks| == |old(asks)| && forall i | 0 <= i < |asks| ::
                var was := old(asks)[i];
                var first := forall j | 0 <= j < i :: old(asks)[j].id != id;
                asks[i] == if was.id == id && first && was.status == Open then was.(status := Failed) else was
    {
      var i := AskWithId(asks, id);
      if i.None? || asks[i.value].status != Open {
        return false;
      }
      asks := asks[i.value := asks[i.value].(status := Failed)];
      return true;
    }

    method RecordAnswer(i: nat, how: Match, m: Message, now: real)
      requires i < |asks|
      modifies this`asks, this`lastAnswer
      ensures Contents() == Record(old(Contents()), env, i, how, m, now)
      ensures |asks| == |old(asks)| && forall j | 0 <= j < |asks| && j != i :: asks[j] == old(asks)[j]
      ensures var was, e := old(asks)[i], Entry(m.sender, Clip(m.text), now, how);
              asks[i] == was.(status := Answered,
                              answers := if |was.answers| < 20 then was.answers + [e] else was.answers)
      ensures lastAnswer == old(lastAnswer)[(env.lower(m.sender), env.lower(m.channel)) := (old(asks)[i].id, now)]
    {
      var a := asks[i];
      if |a.answers| < MAX_ANSWERS_PER_ASK {
        a := a.(answers := a.answers + [Entry(m.sender, Clip(m.text), now, how)]);
      }
      asks := asks[i := a.(status := Answered)];
      lastAnswer := lastAnswer[Key(env, m) := (a.id, now)];
    }

    /** Attaches a message to its ask. */
    method Answer(m: Message, now: real) returns (matched: bool)
      modifies this`asks, this`lastAnswer
      ensures Contents() == AskAnswered(old(Contents()), env, m, now).0
      ensures matched <==> AskAnswered(old(Contents()), env, m, now).1 == Done
    {
      var _ := Expire(now);
      var found := MatchAnswer(env, asks, m, now);
      if found.None? {
        return false;
      }
      RecordAnswer(found.value.0, found.value.1, m, now);
      return true;
    }

    /** Records the judge's choice. */
    method Attach(id: Id, m: Message, now: real) returns (attached: bool)
      modifies this`asks, this`lastAnswer
      ensures Contents() == AskAttached(old(Contents()), env, id, m, now).0
      ensures attached <==> AskAttached(old(Contents()), env, id, m, now).1 == Done
    {
      var _ := Expire(now);
      var i := AskWithId(asks, id);
      if i.None? || asks[i.value].status == Failed {
        return false;
      }
      var a := asks[i.value];
      RecordAnswer(i.value, Match(false, Late(a, now), Judged, AfterExpiry(a, now)), m, now);
      return true;
    }

    /** Appends a plain line to the last entry of the ask its sender last answered. */
    method Continuation(m: Message, now: real) returns (continued: bool)
      modifies this`asks, this`lastAnswer
      ensures Contents() == AskContinued(old(Contents()), env, m, now).0
      ensures continued <==> AskContinued(old(Contents()), env, m, now).1 == Done
    {
      var key := Key(env, m);
      if SystemSender(env, m.sender) || env.blank(m.text) || key !in lastAnswer ||
          now - lastAnswer[key].1 > CONTINUATION_S {
        return false;
      }
      var id := lastAnswer[key].0;
      var i := AskWithId(asks, id);
      if i.None? || asks[i.value].answers == [] {
        return false;
      }
      var a := asks[i.value];
      var n := |a.answers| - 1;
      var e := a.answers[n].(text := Clip(a.answers[n].text + "\n" + m.text));
      asks := asks[i.value := a.(answers := a.answers[n := e])];
      lastAnswer := lastAnswer[key := (id, now)];
      return true;
    }
  }
}
