/**
 The bounded tool loop: one turn budget shared with child drives, a reserved synthesis turn, a
 shrink-and-retry ladder, and a message list windowed in place. The injected seams are total
 functions of how often they were asked, so every behaviour of a host is covered.
 */
module Loop {
  import opened Common
  import opened Context
  import opened History
  import opened Spawn

  // ---------------------------------------------------------------- the injected seams

  /** One model turn: an answer, or an exception as the ladder classifies it. */
  datatype Reply =
    | Response(content: string, toolCalls: seq<ToolCall>)
    | Failure(mediaRejected: bool, degradable: bool)

  datatype Hook = Allow | Deny(reason: string) | Rewrite(arguments: string)

  datatype SpawnRequest = NoSpawn | Malformed | Request(allowance: Option<int>, maxSteps: Option<int>)

  /** A tool call: a self-correcting error, an exception that aborts the drive, or an outcome. */
  datatype Executed =
    | ToolError(message: string)
    | Aborts
    | Outcome(result: string, finished: bool, summary: string, media: Option<Part>, spawn: SpawnRequest)

  /** What the subagent seam makes of a child: it raised or misbehaved, declined, or reports its cost. */
  datatype ChildReply = SeamFailed(note: string) | Declined(note: string) | Reported(modelTurns: int, note: string)

  datatype Seams = Seams(
    complete: (nat, seq<Message>) -> Reply,
    preTool: (nat, ToolCall) -> Hook,
    execute: (nat, string, string) -> Executed,
    hasSubagent: bool,
    subagent: (nat, nat, nat) -> ChildReply,
    countTokens: seq<Message> -> int,
    shrink: int -> int,
    literalFinish: string -> Option<string>,
    strip: string -> string)
  {
    /** What tool call number `n` comes to: a denial is an error the model reads, a rewrite changes the arguments. */
    function Tried(n: nat, call: ToolCall): Executed {
      var decision := preTool(n, call);
      if decision.Deny? then ToolError(if decision.reason == "" then DENIED else decision.reason)
      else execute(n, call.name, if decision.Rewrite? then decision.arguments else call.arguments)
    }

    /** A reply that neither calls a tool nor finishes in literal markup. */
    predicate EndsInProse(reply: Reply) {
      reply.Response? && reply.toolCalls == [] && literalFinish(reply.content).None?
    }

    predicate Finishes(n: nat, call: ToolCall) {
      Tried(n, call).Outcome? && Tried(n, call).finished
    }
  }

  const DENIED: string := "denied by a pre_tool hook"

  datatype Controls = Controls(
    contextBudget: Option<int>, maxOverflowRetries: int, maxContinueNudges: int, synthesis: bool)

  datatype Step = Step(index: nat, tool: string, arguments: string, result: string, ok: bool)

  datatype Exit = Finished | Stopped | Budget | Aborted

  function UserText(text: string): Message {
    Message(User, Text(text), [], "")
  }

  // The prompts' first pieces are short, so that their first characters are known without the rest.
  const FINISH_NUDGE: Message := UserText("You" +
    " ended your turn without finishing and without requesting another tool. " +
    "If your work is complete, finish now with your result as the summary. " +
    "Otherwise continue by calling a tool \U{2014} do not reply with prose alone.")
  const SYNTHESIS_PROMPT: Message := UserText("You" +
    " are out of steps. Stop using tools and answer the original request NOW, " +
    "directly, from what you have already read. Do not request any more tools \U{2014} write " +
    "the most complete, useful answer you can from the context gathered so far.")
  const EMPTY_FINISH_PROMPT: Message := UserText("You" +
    " finished without a summary, but the summary IS your deliverable. Write your " +
    "complete result NOW, directly, from what you have already read. Do not request " +
    "any more tools.")

  /** A message the loop may append on its own: neither a reply, nor a group, nor the placeholder. */
  predicate Plain(m: Message) {
    !IsPlaceholder(m) && m.role != Tool && m.toolCalls == [] && !m.content.Parts?
  }

  lemma PromptsArePlain()
    ensures Plain(FINISH_NUDGE) && Plain(SYNTHESIS_PROMPT) && Plain(EMPTY_FINISH_PROMPT)
  {
    assert PLACEHOLDER_TEXT[0] == '[';
    assert FINISH_NUDGE.content.text[0] == 'Y';
    assert SYNTHESIS_PROMPT.content.text[0] == 'Y';
    assert EMPTY_FINISH_PROMPT.content.text[0] == 'Y';
  }

  function AtLeastOne(n: int): (r: nat)
    ensures r >= 1 && r >= n && (r == 1 || r == n)
  {
    if n < 1 then 1 else n
  }

  function NonNegative(n: int): (r: nat)
    ensures r >= n && (r == 0 || r == n)
  {
    if n < 0 then 0 else n
  }

  /** Raw completions one turn may cost: the attempt, one flattening, and the capped retries. */
  function AttemptsPerTurn(c: Controls): nat {
    2 + NonNegative(c.maxOverflowRetries)
  }

  /** A shrink factor below one, floored: strictly smaller unless already at one. */
  ghost predicate Shrinks(shrink: int -> int) {
    forall e :: e >= 1 ==> 1 <= shrink(e) <= e && (e >= 2 ==> shrink(e) < e)
  }

  // ---------------------------------------------------------------- what a call leaves behind

  /** What a drive may still hand out, and what its children have cost it. */
  datatype Purse = Purse(allowance: nat, mints: seq<Mint>, childTurns: nat, honest: bool)

  /**
   A delegation at step `step`, `available` turns being left. Nothing is minted unless it is a request and
   the allowance, the turns and the seam permit it; a mint costs one, whatever the seam then does; the
   child may be given less than it could, never more; and what it reports is charged as reported.
   */
  ghost predicate Delegated(s: Seams, request: SpawnRequest, step: nat, available: int, before: Purse, after: Purse,
      ok: bool, note: Option<string>)
  {
    if request.Request? && before.allowance > 0 && available > 0 && s.hasSubagent then
      var child, grant := Narrow(request.allowance, before.allowance - 1), Narrow(request.maxSteps, available);
      var reply := s.subagent(step, child, grant);
      var cost := if reply.Reported? then AsCount(reply.modelTurns) else 0;
      && ok == reply.Reported? && note == Some(reply.note)
      && after == Purse(before.allowance - 1, before.mints + [Mint(before.allowance, child)],
                        before.childTurns + cost, before.honest && cost <= grant)
    else after == before && ok == note.None? == request.NoSpawn?
  }

  /** One call was recorded: one step, one tool reply, and the media in a message of its own. */
  ghost predicate Recorded(messages: seq<Message>, steps: seq<Step>, call: ToolCall, arguments: string, out: Output,
      messages': seq<Message>, steps': seq<Step>)
  {
    && |steps'| == |steps| + 1 && steps' == steps + [Step(|steps|, call.name, arguments, out.text, steps'[|steps|].ok)]
    && messages' == messages + [Message(Tool, Text(out.text), [], call.id)] + (
         if out.media.None? then []
         else [Message(User, Parts([TextPart("[" + call.name + "] " + out.text), out.media.value]), [], "")])
    && messages' == messages + Emitted(call, out)
  }

  /** The calls of one turn, each with its step, in order. */
  ghost predicate Stepped(steps: seq<Step>, calls: seq<ToolCall>, outs: seq<Output>, steps': seq<Step>) {
    && |outs| == |calls| && |steps'| == |steps| + |calls| && steps <= steps'
    && forall k | 0 <= k < |calls| ::
         steps'[|steps| + k].tool == calls[k].name && steps'[|steps| + k].result == outs[k].text
  }

  /** Some call of a turn finishes; the first of them is tool call number `n` of the drive. */
  ghost predicate AnyFinishes(s: Seams, n: nat, calls: seq<ToolCall>) {
    exists k :: 0 <= k < |calls| && s.Finishes(n + k, calls[k])
  }

  ghost predicate AnyAborts(s: Seams, n: nat, calls: seq<ToolCall>) {
    exists k :: 0 <= k < |calls| && s.Tried(n + k, calls[k]).Aborts?
  }

  lemma OneMoreCall(s: Seams, n: nat, calls: seq<ToolCall>, i: nat)
    requires i < |calls|
    ensures AnyFinishes(s, n, calls[..i + 1]) <==> AnyFinishes(s, n, calls[..i]) || s.Finishes(n + i, calls[i])
    ensures s.Tried(n + i, calls[i]).Aborts? ==> AnyAborts(s, n, calls)
    ensures AnyAborts(s, n, calls[..i + 1]) <==> AnyAborts(s, n, calls[..i]) || s.Tried(n + i, calls[i]).Aborts?
  {
    hide Seams.Tried, Seams.Finishes;
    var next, before := calls[..i + 1], calls[..i];
    assert next[i] == calls[i] && forall k | 0 <= k < i :: next[k] == before[k];
  }

  lemma NoCalls(s: Seams, n: nat)
    ensures !AnyFinishes(s, n, []) && !AnyAborts(s, n, [])
  {
  }

  lemma OneMoreStep(steps: seq<Step>, calls: seq<ToolCall>, i: nat, outs: seq<Output>, mid: seq<Step>, out: Output,
      last: Step)
    requires i < |calls| && Stepped(steps, calls[..i], outs, mid)
    requires last.tool == calls[i].name && last.result == out.text
    ensures Stepped(steps, calls[..i + 1], outs + [out], mid + [last])
  {
    var next, before, after := calls[..i + 1], calls[..i], mid + [last];
    assert forall k | 0 <= k < i :: next[k] == before[k] && after[|steps| + k] == mid[|steps| + k];
    assert next[i] == calls[i];
  }

  // ---------------------------------------------------------------- what a ladder may send

  ghost predicate NoParts(messages: seq<Message>) {
    forall m | m in messages :: !m.content.Parts?
  }

  predicate Budgeted(c: Controls) {
    c.contextBudget.Some? && c.contextBudget.value > 0
  }

  /** The first list sent: the history, windowed to the budget when there is one. */
  ghost predicate FirstList(c: Controls, s: Seams, history: seq<Message>, list: seq<Message>) {
    if Budgeted(c) then Windowed(history, c.contextBudget.value, s.countTokens, list) else list == history
  }

  /** The list sent after list `at` failed: the same one flattened, or windowed further. */
  ghost predicate NextList(c: Controls, s: Seams, at: nat, list: seq<Message>, next: seq<Message>) {
    var failure := s.complete(at, list);
    && failure.Failure?
    && (|| (failure.mediaRejected && !NoParts(list) && next == FlattenAll(list))
        || (failure.degradable && Budgeted(c)
            && exists e :: 1 <= e <= c.contextBudget.value && Windowed(list, e, s.countTokens, next)))
  }

  /** Each list sent from `base` on is the retry of the one before it. */
  ghost predicate Rungs(c: Controls, s: Seams, base: nat, sent: seq<seq<Message>>) {
    forall i, j | base <= i && j == i + 1 && j < |sent| :: NextList(c, s, i, sent[i], sent[j])
  }

  lemma FirstIs(c: Controls, s: Seams, history: seq<Message>, list: seq<Message>)
    requires if Budgeted(c) then Windowed(history, c.contextBudget.value, s.countTokens, list) else list == history
    ensures FirstList(c, s, history, list)
  {
  }

  lemma NoRungs(c: Controls, s: Seams, sent: seq<seq<Message>>)
    ensures Rungs(c, s, |sent|, sent)
  {
  }

  lemma OneMoreRung(c: Controls, s: Seams, base: nat, sent: seq<seq<Message>>, list: seq<Message>)
    requires Rungs(c, s, base, sent)
    requires |sent| > base ==> NextList(c, s, |sent| - 1, sent[|sent| - 1], list)
    ensures Rungs(c, s, base, sent + [list])
  {
    hide NextList;
  }

  /**
   A ladder ends in a failure only when nothing is left to try: no message has parts to flatten,
   and no budget, no retry or nothing more to drop is left for a degradable error.
   */
  ghost predicate GivesUp(c: Controls, s: Seams, asked: nat, list: seq<Message>, after: seq<Message>, failure: Reply)
    requires failure.Failure?
  {
    && (failure.mediaRejected ==> NoParts(list))
    && (failure.degradable && Budgeted(c) && asked <= c.maxOverflowRetries ==>
          Windowed(list, 1, s.countTokens, after) && |after| >= |list|)
  }

  /** One whole ladder: the lists sent after `before`, and the reply to the last of them. */
  ghost predicate Climbed(c: Controls, s: Seams, before: seq<seq<Message>>, history: seq<Message>,
      sent: seq<seq<Message>>, after: seq<Message>, reply: Reply)
  {
    && before < sent
    && FirstList(c, s, history, sent[|before|])
    && Rungs(c, s, |before|, sent)
    && reply == s.complete(|sent| - 1, sent[|sent| - 1])
    && (reply.Response? ==> after == sent[|sent| - 1])
    && (reply.Failure? ==> GivesUp(c, s, |sent| - |before|, sent[|sent| - 1], after, reply))
  }

  /** The last prose the model answered with, over all the lists sent to it. */
  ghost function LastProse(s: Seams, sent: seq<seq<Message>>): string {
    if sent == [] then ""
    else
      var reply := s.complete(|sent| - 1, sent[|sent| - 1]);
      if reply.Response? && reply.content != "" then reply.content else LastProse(s, sent[..|sent| - 1])
  }

  /** How many of the lists sent were answered at all, and how many with prose alone. */
  ghost function Answered(s: Seams, sent: seq<seq<Message>>): nat {
    if sent == [] then 0
    else
      Answered(s, sent[..|sent| - 1]) + if s.complete(|sent| - 1, sent[|sent| - 1]).Response? then 1 else 0
  }

  ghost function ProseTurns(s: Seams, sent: seq<seq<Message>>): nat {
    if sent == [] then 0
    else
      ProseTurns(s, sent[..|sent| - 1]) + if s.EndsInProse(s.complete(|sent| - 1, sent[|sent| - 1])) then 1 else 0
  }

  ghost function LastReply(s: Seams, sent: seq<seq<Message>>): Reply
    requires sent != []
  {
    s.complete(|sent| - 1, sent[|sent| - 1])
  }

  /** What a synthesis turn answered, if anything. */
  ghost function Answer(s: Seams, sent: seq<seq<Message>>): string
    requires sent != []
  {
    if LastReply(s, sent).Response? then s.strip(LastReply(s, sent).content) else ""
  }

  function LastNonEmpty(texts: seq<string>): string {
    if texts == [] then ""
    else if texts[|texts| - 1] != "" then texts[|texts| - 1]
    else LastNonEmpty(texts[..|texts| - 1])
  }

  // ---------------------------------------------------------------- the drive

  class Work {
    const seams: Seams
    const controls: Controls
    var messages: seq<Message>
    var steps: seq<Step>
    var modelTurns: nat
    var childTurns: nat
    var allowance: nat
    var turnBudget: nat
    var readingBudget: nat
    var summary: string
    var lastSubstantive: string
    var finishRecovered: bool

    /** How often `complete` and the tool seams were asked; the index of their next answer. */
    var rawCalls: nat
    var toolCalls: nat

    /** Ladders started, and every list handed to the model. */
    ghost var ladders: nat
    ghost var sent: seq<seq<Message>>
    /** Every turn so far had distinct call ids and media on its last call only. */
    ghost var orderly: bool
    /** How many lists had been sent when the first turn that was not orderly settled. */
    ghost var orderlySent: nat
    /** Every child so far reported no more than it was granted. */
    ghost var honest: bool
    ghost const initialAllowance: nat
    ghost var mints: seq<Mint>
    ghost var summaryAtExit: string
    ghost var synthesised: bool
    /** The summaries of the tool calls, and of the literal markup, that finished the drive. */
    ghost var finishes: seq<string>
    /** The lists sent when the turn loop ended. */
    ghost var sentAtExit: seq<seq<Message>>

    /** The lists sent before the history could first be ill-formed: all of them while turns are orderly. */
    ghost function OrderlySent(): nat
      reads this`orderly, this`sent, this`orderlySent
    {
      if orderly then |sent| else orderlySent
    }

    ghost predicate SentGood()
      reads this`orderly, this`sent, this`orderlySent
    {
      && OrderlySent() <= |sent| && (sent != [] || !orderly ==> OrderlySent() >= 1)
      && forall i | 0 <= i < OrderlySent() :: Good(sent[i])
    }

    ghost predicate Numbered()
      reads this`steps
    {
      forall i | 0 <= i < |steps| :: steps[i].index == i
    }

    /** The drive's ledgers, true at every point, even between the calls of one turn. */
    ghost predicate Accounts()
      reads this
    {
      && Shrinks(seams.shrink)
      && SentGood() && rawCalls == |sent|
      && Numbered()
      && LegalMints(initialAllowance, mints, allowance)
      && readingBudget <= turnBudget
      && (honest ==> modelTurns + childTurns <= if synthesised then turnBudget else readingBudget)
    }

    /** Between turns the history itself is well-formed too. */
    ghost predicate Sound()
      reads this
    {
      Accounts() && (orderly ==> Good(messages))
    }

    /** Every answer was counted as a turn, and the last prose among them is kept. */
    ghost predicate Heard()
      reads this`modelTurns, this`lastSubstantive, this`sent
    {
      modelTurns == Answered(seams, sent) && lastSubstantive == LastProse(seams, sent)
    }

    /** In the turn loop, moreover, the summary is what finished the drive, and every tool call left a step. */
    ghost predicate Told()
      reads this
    {
      Heard() && summary == LastNonEmpty(finishes) && |steps| == toolCalls
    }

    ghost predicate Valid()
      reads this
    {
      Sound() && rawCalls <= ladders * AttemptsPerTurn(controls)
    }

    constructor (seams: Seams, controls: Controls, system: string, user: Content, spawnAllowance: int, maxSteps: int)
      requires Shrinks(seams.shrink)
      ensures Valid() && this.seams == seams && this.controls == controls
      ensures orderly && honest && modelTurns == 0 && childTurns == 0 && ladders == 0 && steps == [] && summary == ""
      ensures Told() && finishes == [] && sent == []
      ensures messages == [Message(System, Text(system), [], ""), Message(User, user, [], "")]
      ensures turnBudget == AtLeastOne(maxSteps)
      ensures readingBudget == (if controls.synthesis && turnBudget > 1 then turnBudget - 1 else turnBudget)
      ensures initialAllowance == allowance == AsCount(spawnAllowance) && !synthesised
    {
      this.seams, this.controls := seams, controls;
      messages := [Message(System, Text(system), [], ""), Message(User, user, [], "")];
      steps, modelTurns, childTurns := [], 0, 0;
      allowance := AsCount(spawnAllowance);
      var budget := AtLeastOne(maxSteps);
      turnBudget := budget;
      readingBudget := if controls.synthesis && budget > 1 then budget - 1 else budget;
      summary, lastSubstantive, finishRecovered := "", "", false;
      rawCalls, toolCalls := 0, 0;
      ladders, sent, orderly, orderlySent, honest := 0, [], true, 0, true;
      initialAllowance, mints, summaryAtExit, synthesised := AsCount(spawnAllowance), [], "", false;
      finishes, sentAtExit := [], [];
    }

    ghost function Held(): Purse
      reads this`allowance, this`mints, this`childTurns, this`honest
    {
      Purse(allowance, mints, childTurns, honest)
    }

    function TurnsSpent(): nat
      reads this
    {
      modelTurns + childTurns
    }

    function TurnsAvailable(): int
      reads this
    {
      readingBudget - TurnsSpent()
    }

    // -------------------------------------------------------------- completion with degradation

    /** Trims the running history in place; a well-formed history stays well-formed. */
    method WindowInPlace(budget: int)
      requires Sound()
      modifies this`messages
      ensures Sound() && Windowed(old(messages), budget, seams.countTokens, messages)
    {
      hide Windowed;
      ghost var start, cut;
      ghost var before := messages;
      messages, start, cut := WindowMessages(messages, budget, seams.countTokens);
      if orderly && Windows(before, budget, seams.countTokens) {
        WindowKeepsGood(before, budget, seams.countTokens, start, cut);
      }
    }

    /** Shrinks one step and re-windows; `None` at the floor. */
    method ShrinkForRetry(effective: int) returns (shrunk: Option<int>)
      requires Sound() && effective >= 1
      modifies this`messages
      ensures Sound()
      ensures Windowed(old(messages), seams.shrink(effective), seams.countTokens, messages)
      ensures shrunk.Some? ==> 1 <= shrunk.value <= effective && shrunk.value == seams.shrink(effective)
      ensures shrunk.Some? && effective >= 2 ==> shrunk.value < effective
      ensures shrunk.None? ==> effective == 1 && |messages| >= |old(messages)|
      ensures shrunk == Some(1) && effective == 1 ==> |messages| < |old(messages)|
    {
      hide Windowed;
      var smaller := seams.shrink(effective);
      var before := |messages|;
      WindowInPlace(smaller);
      if smaller >= effective && |messages| >= before {
        return None;
      }
      return Some(smaller);
    }

    /** Flattens every parts message; true when there was one, so a retry differs. */
    method FlattenOnMediaRejection() returns (hadParts: bool)
      requires Sound()
      modifies this`messages
      ensures Sound()
      ensures hadParts <==> exists i :: 0 <= i < |old(messages)| && old(messages)[i].content.Parts?
      ensures messages == FlattenAll(old(messages)) && (!hadParts ==> messages == old(messages))
    {
      ghost var before := messages;
      hadParts := false;
      var i := 0;
      while i < |messages|
        invariant i <= |messages| == |before|
        invariant forall j | 0 <= j < i :: messages[j] == FlattenMessage(before[j])
        invariant forall j | i <= j < |before| :: messages[j] == before[j]
        invariant hadParts <==> exists j :: 0 <= j < i && before[j].content.Parts?
        modifies this`messages
      {
        if messages[i].content.Parts? {
          messages := messages[i := messages[i].(content := Text(FlattenParts(messages[i].content.parts)))];
          hadParts := true;
        }
        i := i + 1;
      }
      assert messages == FlattenAll(before);
      if orderly {
        FlattenKeepsGood(before);
      }
    }

    /** One raw call of the model seam, on the history as it stands. */
    method Ask() returns (reply: Reply)
      requires Sound()
      modifies this`rawCalls, this`sent
      ensures Sound() && sent == old(sent) + [messages]
      ensures reply == seams.complete(old(rawCalls), messages)
    {
      reply := seams.complete(rawCalls, messages);
      rawCalls := rawCalls + 1;
      sent := sent + [messages];
    }

    /** What one failure allows: one flattening, then capped shrinks; each retry uses one of them up. */
    method Degrade(failure: Reply, effective: int, flattens: nat, retries: nat)
      returns (again: bool, effective': int, flattens': nat, retries': nat)
      requires Sound() && effective >= 1 && failure.Failure?
      requires Budgeted(controls) ==> effective <= controls.contextBudget.value
      requires retries > 0 ==> Budgeted(controls)
      modifies this`messages
      ensures Sound() && 1 <= effective' <= effective && flattens' <= flattens && retries' <= retries
      ensures again ==> flattens' + retries' == flattens + retries - 1
      ensures again && flattens' < flattens ==>
                failure.mediaRejected && !NoParts(old(messages)) && messages == FlattenAll(old(messages))
      ensures again && retries' < retries ==>
                failure.degradable && Windowed(old(messages), effective', seams.countTokens, messages)
      ensures failure.mediaRejected && flattens > 0 && !NoParts(old(messages)) ==> again && flattens' < flattens
      ensures !again && failure.degradable && retries > 0 ==>
                Windowed(old(messages), 1, seams.countTokens, messages) && |messages| >= |old(messages)|
    {
      hide Windowed, FlattenAll;
      again, effective', flattens', retries' := false, effective, flattens, retries;
      if flattens > 0 && failure.mediaRejected {
        again := FlattenOnMediaRejection();
      }
      if again {
        flattens' := flattens - 1;
      } else if failure.degradable && retries > 0 {
        var shrunk := ShrinkForRetry(effective);
        if shrunk.Some? {
          again, effective', retries' := true, shrunk.value, retries - 1;
        }
      }
    }

    /**
     The ladder of one turn: the windowed history first, then at most one flattening and the capped
     number of shrinks, each logged; every list it hands to the model while the drive is orderly is
     well-formed, and it gives up only when nothing is left to try.
     */
    method Ladder() returns (reply: Reply)
      requires Sound()
      modifies this`messages, this`rawCalls, this`sent
      ensures Sound()
      ensures old(rawCalls) < rawCalls <= old(rawCalls) + 2 + NonNegative(controls.maxOverflowRetries)
      ensures Climbed(controls, seams, old(sent), old(messages), sent, messages, reply)
    {
      hide Windowed, FlattenAll, SentGood, Good, Rungs, Numbered, LegalMints, Shrinks, NoParts, FirstList;
      var windowed := controls.contextBudget.Some? && controls.contextBudget.value > 0;
      var effective := if windowed then controls.contextBudget.value else 1;
      if windowed {
        WindowInPlace(effective);
      }
      FirstIs(controls, seams, old(messages), messages);
      var flattensLeft: nat := 1;
      var retriesLeft: nat := if windowed then NonNegative(controls.maxOverflowRetries) else 0;
      ghost var asked: nat, base := 0, |sent|;
      NoRungs(controls, seams, sent);
      while true
        invariant Sound() && effective >= 1 && (windowed ==> effective <= controls.contextBudget.value)
        invariant asked + flattensLeft + retriesLeft <= 1 + NonNegative(controls.maxOverflowRetries)
        invariant windowed ==> asked + flattensLeft + retriesLeft == 1 + NonNegative(controls.maxOverflowRetries)
        invariant flattensLeft >= 0 && retriesLeft >= 0 && (!windowed ==> retriesLeft == 0)
        invariant |sent| == base + asked && old(sent) <= sent
        invariant FirstList(controls, seams, old(messages), if asked == 0 then messages else sent[base])
        invariant asked > 0 ==> NextList(controls, seams, |sent| - 1, sent[|sent| - 1], messages)
        invariant Rungs(controls, seams, base, sent)
        invariant flattensLeft == 0 ==> NoParts(messages)
        decreases flattensLeft + retriesLeft
      {
        ghost var list := messages;
        OneMoreRung(controls, seams, base, sent, list);
        reply := Ask();
        asked := asked + 1;
        if reply.Response? {
          return;
        }
        var again;
        again, effective, flattensLeft, retriesLeft := Degrade(reply, effective, flattensLeft, retriesLeft);
        if !again {
          return;
        }
        RetriedHasParts(list, messages, effective, seams.countTokens);
      }
    }

    method CompleteWithDegradation() returns (reply: Reply)
      requires Valid()
      modifies this`messages, this`rawCalls, this`sent, this`ladders
      ensures Valid() && ladders == old(ladders) + 1
      ensures Climbed(controls, seams, old(sent), old(messages), sent, messages, reply)
      ensures LastProse(seams, sent) ==
              if reply.Response? && reply.content != "" then reply.content else LastProse(seams, old(sent))
      ensures Answered(seams, sent) == Answered(seams, old(sent)) + if reply.Response? then 1 else 0
      ensures ProseTurns(seams, sent) == ProseTurns(seams, old(sent)) + if seams.EndsInProse(reply) then 1 else 0
    {
      hide SentGood, Good, Windowed, GivesUp, FirstList, NextList, LegalMints;
      ghost var before, history := sent, messages;
      reply := Ladder();
      ladders := ladders + 1;
      LadderFits(ladders, AttemptsPerTurn(controls));
      ClimbKeepsProse(controls, seams, before, history, sent, messages, reply);
    }

    // -------------------------------------------------------------- delegation

    /** Charges a child's report verbatim, whatever it was granted. */
    method ChargeChild(grant: nat, report: int)
      requires Accounts() && modelTurns + childTurns + grant <= readingBudget
      modifies this`childTurns, this`honest
      ensures Accounts() && childTurns == old(childTurns) + AsCount(report)
      ensures honest == (old(honest) && AsCount(report) <= grant)
    {
      childTurns := childTurns + AsCount(report);
      honest := honest && AsCount(report) <= grant;
    }

    /**
     Resolves a delegation. Nothing is minted unless the allowance, the budget and the seam all
     permit it; a mint costs one allowance whether or not the seam then succeeds, and the child
     is granted no more turns than the drive has left.
     */
    method Delegate(request: SpawnRequest) returns (ok: bool, note: Option<string>)
      requires Accounts()
      modifies this`childTurns, this`honest, this`allowance, this`mints
      ensures Accounts() && childTurns >= old(childTurns)
      ensures Delegated(seams, request, |steps|, readingBudget - old(modelTurns) - old(childTurns), old(Held()), Held(),
                        ok, note)
    {
      hide SentGood, LegalMints, Shrinks, Numbered;
      if request.NoSpawn? {
        return true, None;
      }
      if request.Malformed? {
        return false, Some("[subagent not run: not a request]");
      }
      if allowance <= NO_SPAWNS {
        return false, Some("[subagent not run: allowance exhausted]");
      }
      var available := TurnsAvailable();
      if available <= 0 {
        return false, Some("[subagent not run: no turns to lend]");
      }
      if !seams.hasSubagent {
        return false, Some("[subagent not run: no seam]");
      }
      var childAllowance := Narrow(request.allowance, Attenuate(allowance));
      var grant := Narrow(request.maxSteps, available);
      MintedLegally(initialAllowance, mints, allowance, childAllowance);
      mints := mints + [Mint(allowance, childAllowance)];
      allowance := Attenuate(allowance);
      var reply := seams.subagent(|steps|, childAllowance, grant);
      match reply
      case SeamFailed(n) => return false, Some(n);
      case Declined(n) => return false, Some(n);
      case Reported(turns, n) =>
        ChargeChild(grant, turns);
        return true, Some(n);
    }

    // -------------------------------------------------------------- one turn

    /** The step, the tool reply and the media follow-up of one call. */
    method RecordStep(call: ToolCall, arguments: string, out: Output, ok: bool)
      requires Accounts()
      modifies this`messages, this`steps
      ensures Accounts() && Recorded(old(messages), old(steps), call, arguments, out, messages, steps)
      ensures steps[|old(steps)|].ok == ok
    {
      steps := steps + [Step(|steps|, call.name, arguments, out.text, ok)];
      messages := messages + [ToolMessage(call.id, out.text)];
      if out.media.Some? {
        messages := messages + [MediaMessage(call.name, out.text, out.media.value)];
      }
    }

    /** What an executed call comes to: the delegation it asked for, its step and replies, and its finish. */
    method Conclude(call: ToolCall, arguments: string, executed: Executed)
      returns (ghost out: Output, ghost note: Option<string>)
      requires Accounts() && executed.Outcome?
      modifies this`messages, this`steps, this`summary, this`finishes
      modifies this`childTurns, this`honest, this`allowance, this`mints
      ensures Accounts() && childTurns >= old(childTurns)
      ensures Recorded(old(messages), old(steps), call, arguments, out, messages, steps)
      ensures Delegated(seams, executed.spawn, |old(steps)|, readingBudget - old(modelTurns) - old(childTurns),
                        old(Held()), Held(), steps[|old(steps)|].ok, note)
      ensures out == Output(
                if note.None? then executed.result
                else if executed.result == "" then note.value
                else executed.result + "\n\n" + note.value, executed.media)
      ensures finishes == old(finishes) + (if executed.finished then [executed.summary] else [])
      ensures summary == if executed.finished && executed.summary != "" then executed.summary else old(summary)
    {
      hide Emitted, SentGood, LegalMints, Shrinks, Numbered, Delegated;
      var ok, said := Delegate(executed.spawn);
      note := said;
      var text := WithNote(executed.result, said);
      var made := Output(text, executed.media);
      RecordStep(call, arguments, made, ok);
      out := made;
      if executed.finished {
        summary := if executed.summary == "" then summary else executed.summary;
        finishes := finishes + [executed.summary];
      }
    }

    /**
     One tool call: the pre-tool hook, execution, delegation. Whatever happens short of an
     abort, exactly one step and one tool reply are recorded, the media part following it.
     */
    method RunToolCall(call: ToolCall)
      returns (finished: bool, aborted: bool, ghost out: Output, ghost note: Option<string>)
      requires Accounts() && !synthesised
      modifies this`messages, this`steps, this`summary, this`toolCalls, this`finishes
      modifies this`childTurns, this`honest, this`allowance, this`mints
      ensures Accounts() && childTurns >= old(childTurns) && toolCalls == old(toolCalls) + 1
      ensures aborted ==> messages == old(messages) && steps == old(steps)
      ensures var decision := seams.preTool(old(toolCalls), call);
              var arguments := if decision.Rewrite? then decision.arguments else call.arguments;
              var executed := seams.execute(old(toolCalls), call.name, arguments);
              if decision.Deny? then
                && !aborted && !finished && Held() == old(Held())
                && Recorded(old(messages), old(steps), call, call.arguments, out, messages, steps)
                && out == Output(if decision.reason == "" then "denied by a pre_tool hook" else decision.reason, None)
                && !steps[|old(steps)|].ok
              else
                && aborted == executed.Aborts? && finished == (executed.Outcome? && executed.finished)
                && (!aborted ==> Recorded(old(messages), old(steps), call, arguments, out, messages, steps))
                && (executed.ToolError? ==>
                      out == Output(executed.message, None) && !steps[|old(steps)|].ok && Held() == old(Held()))
                && (executed.Outcome? ==>
                      && Delegated(seams, executed.spawn, |old(steps)|,
                           readingBudget - old(modelTurns) - old(childTurns), old(Held()), Held(),
                           steps[|old(steps)|].ok, note)
                      && out == Output(
                           if note.None? then executed.result
                           else if executed.result == "" then note.value
                           else executed.result + "\n\n" + note.value, executed.media))
                && finishes == old(finishes) + (if finished then [executed.summary] else [])
                && summary == if finished && executed.summary != "" then executed.summary else old(summary)
      ensures finished == seams.Finishes(old(toolCalls), call) && aborted == seams.Tried(old(toolCalls), call).Aborts?
      ensures !finished ==> finishes == old(finishes) && summary == old(summary)
      ensures !aborted ==>
                && messages == old(messages) + Emitted(call, out) && |steps| == |old(steps)| + 1
                && steps == old(steps) + [steps[|old(steps)|]]
                && steps[|old(steps)|].tool == call.name && steps[|old(steps)|].result == out.text
    {
      hide Emitted, SentGood, LegalMints, Shrinks, Numbered, Delegated;
      finished, aborted, note := false, false, None;
      var asked := toolCalls;
      toolCalls := toolCalls + 1;
      var decision := seams.preTool(asked, call);
      if decision.Deny? {
        var refusal := Output(if decision.reason == "" then DENIED else decision.reason, None);
        RecordStep(call, call.arguments, refusal, false);
        out := refusal;
        return;
      }
      var arguments := if decision.Rewrite? then decision.arguments else call.arguments;
      var executed := seams.execute(asked, call.name, arguments);
      if executed.Aborts? {
        out := Output("", None);
        aborted := true;
      } else if executed.ToolError? {
        var error := Output(executed.message, None);
        RecordStep(call, arguments, error, false);
        out := error;
      } else {
        out, note := Conclude(call, arguments, executed);
        finished := executed.finished;
      }
    }

    /** Every call of the turn, in order; a finish does not cancel the rest. */
    method RunToolCalls(calls: seq<ToolCall>) returns (finished: bool, aborted: bool, ghost outs: seq<Output>)
      requires Accounts() && !synthesised && summary == LastNonEmpty(finishes)
      modifies this`messages, this`steps, this`summary, this`toolCalls, this`finishes
      modifies this`childTurns, this`honest, this`allowance, this`mints
      ensures Accounts() && childTurns >= old(childTurns)
      ensures !aborted ==> toolCalls == old(toolCalls) + |calls|
      ensures !aborted ==>
                Stepped(old(steps), calls, outs, steps) && messages == old(messages) + EmittedAll(calls, outs)
      ensures aborted <==> AnyAborts(seams, old(toolCalls), calls)
      ensures summary == LastNonEmpty(finishes) && old(finishes) <= finishes
      ensures !aborted ==> finished == AnyFinishes(seams, old(toolCalls), calls)
      ensures !aborted ==> (finished <==> old(finishes) < finishes)
    {
      hide Emitted, SentGood, LegalMints, Shrinks, LastNonEmpty, Numbered, Recorded, Delegated, AnyFinishes,
        AnyAborts, Seams.Tried, Seams.Finishes;
      finished, aborted, outs := false, false, [];
      var i := 0;
      NoCalls(seams, toolCalls);
      assert calls[..0] == [];
      while i < |calls|
        invariant i <= |calls| && toolCalls == old(toolCalls) + i
        invariant Accounts() && childTurns >= old(childTurns)
        invariant Stepped(old(steps), calls[..i], outs, steps)
        invariant messages == old(messages) + EmittedAll(calls[..i], outs)
        invariant summary == LastNonEmpty(finishes) && old(finishes) <= finishes
        invariant finished == AnyFinishes(seams, old(toolCalls), calls[..i])
        invariant finished <==> old(finishes) < finishes
        invariant !AnyAborts(seams, old(toolCalls), calls[..i])
      {
        ghost var out, note;
        ghost var before, mid := finishes, steps;
        var done;
        done, aborted, out, note := RunToolCall(calls[i]);
        OneMoreCall(seams, old(toolCalls), calls, i);
        if aborted {
          return;
        }
        EmittedAllNext(calls, i, outs, out);
        OneMoreStep(old(steps), calls, i, outs, mid, out, steps[|mid|]);
        NextNonEmpty(before, finishes);
        outs := outs + [out];
        finished := finished || done;
        i := i + 1;
      }
      assert calls[..i] == calls;
    }

    /** The prose of a silent turn, when there is any, and the nudge to finish. */
    method Nudge(content: string)
      requires Valid()
      modifies this`messages
      ensures Valid()
      ensures messages == old(messages) + (if content == "" then [] else [Message(Assistant, Text(content), [],
          "")]) + [FINISH_NUDGE]
    {
      var prose := Message(Assistant, Text(content), [], "");
      var more := (if content == "" then [] else [prose]) + [FINISH_NUDGE];
      hide SentGood, LegalMints, Shrinks, Good, Numbered;
      PromptsArePlain();
      if orderly {
        PlainKeepsGood(messages, more);
      }
      messages := messages + more;
    }

    /** A turn that asked for no tool: a literal finish, a nudge, or a stop. */
    method HandleNoToolTurn(content: string, nudges: nat) returns (nudged: nat, exit: Option<Exit>)
      requires Valid()
      modifies this`messages, this`summary, this`finishRecovered, this`finishes
      ensures Valid() && finishes == old(finishes) + if exit == Some(Finished) then [summary] else []
      ensures nudged == if exit.None? then nudges + 1 else nudges
      ensures exit == (if seams.literalFinish(content).Some? then Some(Finished)
                       else if nudges < controls.maxContinueNudges then None else Some(Stopped))
      ensures exit == Some(Finished) ==> summary == seams.literalFinish(content).value && finishRecovered
      ensures exit != Some(Finished) ==> summary == old(summary)
      ensures messages == old(messages) + (
                if exit.Some? then []
                else (if content == "" then [] else [Message(Assistant, Text(content), [], "")]) + [FINISH_NUDGE])
    {
      var recovered := seams.literalFinish(content);
      if recovered.Some? {
        summary, finishRecovered, finishes := recovered.value, true, finishes + [recovered.value];
        return nudges, Some(Finished);
      }
      if nudges < controls.maxContinueNudges {
        Nudge(content);
        return nudges + 1, None;
      }
      return nudges, Some(Stopped);
    }

    /** Whether the turn just run was orderly, and if so why the history is still well-formed. */
    ghost method SettleTurn(before: seq<Message>, content: string, calls: seq<ToolCall>, outs: seq<Output>)
      requires Accounts() && sent != [] && |outs| == |calls| && calls != [] && (orderly ==> Good(before))
      requires messages == before + ([AssistantMessage(content, calls)] + EmittedAll(calls, outs))
      modifies this`orderly, this`orderlySent
      ensures Sound() && orderly == (old(orderly) && Distinct(Ids(calls)) && MediaOnlyLast(outs))
      ensures OrderlySent() == old(OrderlySent())
    {
      if orderly && Distinct(Ids(calls)) && MediaOnlyLast(outs) {
        TurnKeepsGood(before, content, calls, outs);
      } else if orderly {
        orderly, orderlySent := false, |sent|;
      }
    }

    /** One accounted turn; the history is well-formed again unless the turn was not orderly. */
    method AdvanceTurn(content: string, calls: seq<ToolCall>, nudges: nat) returns (nudged: nat, exit: Option<Exit>)
      requires Valid() && !synthesised && sent != [] && Told() && finishes == []
      modifies this`messages, this`summary, this`finishRecovered, this`steps, this`toolCalls, this`orderly
      modifies this`orderlySent, this`childTurns, this`honest, this`allowance, this`mints, this`finishes
      ensures OrderlySent() == old(OrderlySent())
      ensures Accounts() && rawCalls <= ladders * AttemptsPerTurn(controls) && childTurns >= old(childTurns)
      ensures exit != Some(Aborted) ==> Sound() && Told() && (finishes != [] <==> exit == Some(Finished))
      ensures exit != Some(Budget)
      ensures var recovered := seams.literalFinish(content);
              calls == [] ==>
                if recovered.Some? then exit == Some(Finished) && summary == recovered.value
                else exit == if nudges < controls.maxContinueNudges then None else Some(Stopped)
      ensures nudged == nudges + (if calls == [] && exit.None? then 1 else 0)
      ensures calls != [] ==> exit != Some(Stopped)
      ensures calls != [] ==> (exit == Some(Aborted) <==> AnyAborts(seams, old(toolCalls), calls))
      ensures calls != [] && exit != Some(Aborted) ==>
                (exit == Some(Finished) <==> AnyFinishes(seams, old(toolCalls), calls))
      ensures calls != [] && exit != Some(Aborted) ==> exists outs ::
                && Stepped(old(steps), calls, outs, steps)
                && messages
                   == old(messages) + ([Message(Assistant, Text(content), calls, "")] + EmittedAll(calls, outs))
    {
      hide SentGood, LegalMints, Shrinks, Good, EmittedAll, LastProse, LastNonEmpty, Numbered, AnyAborts, AnyFinishes,
        Distinct, MediaOnlyLast, Ids;
      if calls == [] {
        nudged, exit := HandleNoToolTurn(content, nudges);
        OnlyFinish(summary);
        assert exit == Some(Finished) ==> finishes == [summary];
        return;
      }
      ghost var before := messages;
      messages := messages + [AssistantMessage(content, calls)];
      var finished, aborted;
      ghost var outs;
      finished, aborted, outs := RunToolCalls(calls);
      if aborted {
        return nudges, Some(Aborted);
      }
      SettleTurn(before, content, calls, outs);
      return nudges, if finished then Some(Finished) else None;
    }

    // -------------------------------------------------------------- the whole drive

    /** One pass of the turn loop: complete, account, advance. */
    method Turn(nudges: nat) returns (nudged: nat, exit: Option<Exit>)
      requires Valid() && !synthesised && ladders == modelTurns && TurnsSpent() < readingBudget
      requires Told() && finishes == [] && nudges == ProseTurns(seams, sent) <= NonNegative(controls.maxContinueNudges)
      modifies this`messages, this`rawCalls, this`sent, this`ladders, this`modelTurns, this`lastSubstantive
      modifies this`summary, this`finishRecovered, this`steps, this`toolCalls, this`orderly
      modifies this`orderlySent, this`childTurns, this`honest, this`allowance, this`mints, this`finishes
      ensures Accounts() && rawCalls <= ladders * AttemptsPerTurn(controls)
      ensures ladders == old(ladders) + 1 && modelTurns <= ladders && childTurns >= old(childTurns)
      ensures exit != Some(Aborted) ==> Sound() && modelTurns == ladders
      ensures old(sent) < sent && OrderlySent() == if old(orderly) then |sent| else old(OrderlySent())
      ensures exit != Some(Aborted) ==>
                Told() && LastReply(seams, sent).Response? && (finishes != [] <==> exit == Some(Finished))
      ensures exit == Some(Stopped) ==>
                seams.EndsInProse(LastReply(seams, sent)) && ProseTurns(seams, sent) == nudges + 1
      ensures exit == Some(Stopped) ==> nudges == NonNegative(controls.maxContinueNudges)
      ensures exit.None? || exit == Some(Finished) ==>
                nudged == ProseTurns(seams, sent) <= NonNegative(controls.maxContinueNudges)
      ensures exit != Some(Budget)
    {
      hide SentGood, LegalMints, Shrinks, Good, LastProse, FirstList, Rungs, GivesUp, Numbered, Answered,
        ProseTurns, LastNonEmpty;
      var reply := CompleteWithDegradation();
      if reply.Failure? {
        return nudges, Some(Aborted);
      }
      AccountTurn(reply.content);
      nudged, exit := AdvanceTurn(reply.content, reply.toolCalls, nudges);
    }

    /** The turn loop: three exits and no other, short of an exception from a seam. */
    method WorkLoop() returns (exit: Exit)
      requires Valid() && !synthesised && ladders == modelTurns == 0 && childTurns == 0 && readingBudget >= 1
      requires Told() && finishes == [] && sent == []
      modifies this`messages, this`rawCalls, this`sent, this`ladders, this`modelTurns, this`lastSubstantive
      modifies this`summary, this`finishRecovered, this`steps, this`toolCalls, this`orderly
      modifies this`orderlySent, this`childTurns, this`honest, this`allowance, this`mints, this`finishes
      ensures Accounts() && rawCalls <= ladders * AttemptsPerTurn(controls)
      ensures modelTurns <= ladders <= readingBudget
      ensures exit != Aborted ==> Valid() && ladders == modelTurns
      ensures exit == Budget ==> modelTurns + childTurns >= readingBudget
      ensures exit != Aborted ==> Told() && sent != [] && (finishes != [] <==> exit == Finished)
      ensures exit == Stopped ==> seams.EndsInProse(LastReply(seams, sent))
      ensures exit == Stopped ==> ProseTurns(seams, sent) == 1 + NonNegative(controls.maxContinueNudges)
      ensures exit == Finished || exit == Budget ==> ProseTurns(seams, sent) <= NonNegative(controls.maxContinueNudges)
    {
      hide SentGood, LegalMints, Shrinks, Good, LastProse, LastNonEmpty, Numbered, Answered;
      var nudges: nat := 0;
      while TurnsSpent() < readingBudget
        invariant Valid() && ladders == modelTurns <= readingBudget
        invariant Told() && finishes == [] && (TurnsSpent() > 0 ==> sent != [])
        invariant nudges == ProseTurns(seams, sent) <= NonNegative(controls.maxContinueNudges)
        decreases readingBudget - TurnsSpent()
      {
        var exited;
        nudges, exited := Turn(nudges);
        if exited.Some? {
          return exited.value;
        }
      }
      return Budget;
    }

    method AccountTurn(content: string)
      requires Valid() && modelTurns + childTurns < (if synthesised then turnBudget else readingBudget)
      modifies this`modelTurns, this`lastSubstantive
      ensures Valid() && modelTurns == old(modelTurns) + 1
      ensures lastSubstantive == if content == "" then old(lastSubstantive) else content
    {
      modelTurns := modelTurns + 1;
      if content != "" {
        lastSubstantive := content;
      }
    }

    /** The synthesis turn itself, on a turn the drive still has. */
    method SynthesisTurn(prompt: Message)
      requires Valid() && synthesised && Plain(prompt) && ladders == modelTurns && TurnsSpent() < turnBudget
      requires Heard()
      modifies this`messages, this`rawCalls, this`sent, this`ladders, this`modelTurns, this`lastSubstantive,
          this`summary
      ensures Valid() && modelTurns <= ladders == old(ladders) + 1
      ensures sent != [] && Heard()
      ensures summary == if Answer(seams, sent) != "" then Answer(seams, sent) else old(summary)
      ensures old(sent) < sent && FirstList(controls, seams, old(messages) + [prompt], sent[|old(sent)|])
    {
      hide SentGood, LegalMints, Shrinks, Good, Plain, FirstList, Rungs, GivesUp, LastProse, Numbered, Answered,
        ProseTurns;
      if orderly {
        PlainKeepsGood(messages, [prompt]);
      }
      messages := messages + [prompt];
      var reply := CompleteWithDegradation();
      if reply.Failure? {
        return;
      }
      AccountTurn(reply.content);
      var answer := seams.strip(reply.content);
      if answer != "" {
        summary := answer;
      }
    }

    /** One reserved no-tools turn when steps were taken and nothing was answered. */
    method MaybeForceSynthesis(outcome: Exit)
      requires Valid() && !synthesised && ladders == modelTurns <= turnBudget
      requires Heard()
      modifies this`messages, this`rawCalls, this`sent, this`ladders, this`modelTurns, this`lastSubstantive,
          this`summary
      modifies this`synthesised
      ensures Valid()
      ensures synthesised <==>
                controls.synthesis && old(summary) == "" && steps != [] && old(modelTurns + childTurns) < turnBudget
      ensures modelTurns <= ladders <= turnBudget
      ensures !synthesised ==> summary == old(summary) && ladders == old(ladders) && sent == old(sent)
      ensures Heard()
      ensures synthesised ==> old(sent) < sent && summary == Answer(seams, sent)
      ensures var prompt := if outcome == Finished then EMPTY_FINISH_PROMPT else SYNTHESIS_PROMPT;
              synthesised ==> FirstList(controls, seams, old(messages) + [prompt], sent[|old(sent)|])
    {
      hide LastProse, FirstList, SentGood, LegalMints, Shrinks, Good;
      if !controls.synthesis || summary != "" || |steps| == 0 || TurnsSpent() >= turnBudget {
        return;
      }
      synthesised := true;
      PromptsArePlain();
      SynthesisTurn(if outcome == Finished then EMPTY_FINISH_PROMPT else SYNTHESIS_PROMPT);
    }

    /**
     After the loop: what finished the drive, else the answer of the synthesis turn when one is due, else
     the model's last prose, else the sentinel.
     */
    method Finish(exit: Exit)
      requires Valid() && !synthesised && ladders == modelTurns <= turnBudget && sent != []
      requires Heard()
      modifies this`messages, this`rawCalls, this`sent, this`ladders, this`modelTurns, this`lastSubstantive,
          this`summary
      modifies this`synthesised, this`summaryAtExit
      ensures Valid() && Heard() && summaryAtExit == old(summary)
      ensures old(sent) <= sent && (!synthesised ==> sent == old(sent))
      ensures summary == if summaryAtExit != "" then summaryAtExit
                         else if synthesised && Answer(seams, sent) != "" then Answer(seams, sent)
                         else if LastProse(seams, sent) != "" then LastProse(seams, sent)
                         else NO_RESULT_PRODUCED
      ensures synthesised <==>
                controls.synthesis && summaryAtExit == "" && steps != [] && old(modelTurns + childTurns) < turnBudget
      ensures modelTurns <= ladders <= turnBudget
    {
      hide Emitted, SentGood, LegalMints, Shrinks, Good, LastProse, FirstList, Numbered;
      summaryAtExit := summary;
      MaybeForceSynthesis(exit);
      if summary == "" {
        summary := if lastSubstantive == "" then NO_RESULT_PRODUCED else lastSubstantive;
      }
    }

    /**
     The whole drive, for any seams: it ends; it spends at most the stated turns and the stated raw
     calls, its own and (when children report honestly) its children's; an armed synthesis always
     finds its reserved turn; it stops in prose exactly when the nudges are used up; its summary is
     the last one that finished it, else the synthesis answer, else the model's last prose, else the
     sentinel; every list sent up to the end of the first turn that was not orderly, and so every
     list when all were, is well-formed; steps are numbered 0..n-1; and the allowance pays for every
     mint.
     */
    method Run() returns (exit: Exit)
      requires Valid() && !synthesised && ladders == modelTurns == 0 && childTurns == 0 && steps == [] && summary == ""
      requires turnBudget >= 1 && Told() && finishes == [] && sent == []
      requires readingBudget == if controls.synthesis && turnBudget > 1 then turnBudget - 1 else turnBudget
      modifies this
      ensures turnBudget == old(turnBudget)
      ensures modelTurns <= ladders <= turnBudget
      ensures rawCalls <= turnBudget * (2 + NonNegative(controls.maxOverflowRetries))
      ensures honest ==> modelTurns + childTurns <= turnBudget
      ensures exit != Aborted && honest && controls.synthesis && turnBudget >= 2 && steps != [] && summaryAtExit == ""
              ==> synthesised
      ensures SentGood() && Numbered() && LegalMints(initialAllowance, mints, allowance)
      ensures exit != Aborted ==> sent != [] && (finishes != [] <==> exit == Finished)
      ensures exit != Aborted ==> summaryAtExit == LastNonEmpty(finishes)
      ensures exit != Aborted ==>
                summary == if summaryAtExit != "" then summaryAtExit
                           else if synthesised && Answer(seams, sent) != "" then Answer(seams, sent)
                           else if LastProse(seams, sent) != "" then LastProse(seams, sent)
                           else NO_RESULT_PRODUCED
      ensures exit != Aborted ==> sentAtExit != [] && sentAtExit <= sent && (!synthesised ==> sent == sentAtExit)
      ensures exit == Stopped ==> seams.EndsInProse(LastReply(seams, sentAtExit))
      ensures exit != Aborted ==>
                var prose, cap := ProseTurns(seams, sentAtExit), NonNegative(controls.maxContinueNudges);
                if exit == Stopped then prose == cap + 1 else prose <= cap
      ensures exit != Aborted ==> |steps| == toolCalls && modelTurns == Answered(seams, sent)
    {
      hide SentGood, LegalMints, Shrinks, LastProse, LastNonEmpty, Good, Answered, ProseTurns, Numbered,
        AttemptsPerTurn, Seams.EndsInProse, Answer;
      exit := WorkLoop();
      sentAtExit := sent;
      if exit != Aborted {
        Finish(exit);
      }
      RawBound(controls, rawCalls, ladders, turnBudget);
    }
  }

  function WithNote(result: string, note: Option<string>): string {
    if note.None? then result else if result == "" then note.value else result + "\n\n" + note.value
  }

  const NO_RESULT_PRODUCED: string := "__COLLEAGUE_NO_RESULT_PRODUCED__"

  lemma RawBound(c: Controls, raw: nat, ladders: nat, turns: nat)
    requires raw <= ladders * AttemptsPerTurn(c)
    ensures ladders <= turns ==> raw <= turns * (2 + NonNegative(c.maxOverflowRetries))
  {
    var attempts := AttemptsPerTurn(c);
    if ladders <= turns {
      assert turns * attempts == ladders * attempts + (turns - ladders) * attempts;
    }
  }

  lemma {:induction false} EmittedAllNext(calls: seq<ToolCall>, i: nat, outs: seq<Output>, out: Output)
    requires i < |calls| && |outs| == i
    ensures EmittedAll(calls[..i + 1], outs + [out]) == EmittedAll(calls[..i], outs) + Emitted(calls[i], out)
    decreases i
  {
    if i == 0 {
      assert calls[..1][1..] == [] && ([] + [out])[1..] == [];
    } else {
      EmittedAllNext(calls[1..], i - 1, outs[1..], out);
      assert calls[..i + 1][1..] == calls[1..][..i] && calls[..i][1..] == calls[1..][..i - 1];
      assert (outs + [out])[1..] == outs[1..] + [out];
    }
  }

  lemma {:induction false} PlainPaired(more: seq<Message>)
    requires forall i | 0 <= i < |more| :: Plain(more[i])
    ensures Paired(more)
    decreases |more|
  {
    if more != [] {
      PlainPaired(more[1..]);
    }
  }

  lemma {:induction false} PlainKeepsGood(messages: seq<Message>, more: seq<Message>)
    requires Good(messages) && forall i | 0 <= i < |more| :: Plain(more[i])
    ensures Good(messages + more)
  {
    PlainPaired(more);
    AppendKeepsGood(messages, more);
  }

  lemma MintedLegally(initial: nat, mints: seq<Mint>, allowance: nat, child: nat)
    requires LegalMints(initial, mints, allowance) && child < allowance
    ensures LegalMints(initial, mints + [Mint(allowance, child)], allowance - 1)
  {
  }

  lemma NextNonEmpty(before: seq<string>, after: seq<string>)
    ensures forall x :: after == before + [x] ==> LastNonEmpty(after) == if x != "" then x else LastNonEmpty(before)
  {
    if after != [] && after[..|after| - 1] == before {
      assert LastNonEmpty(after) == if after[|after| - 1] != "" then after[|after| - 1] else LastNonEmpty(before);
    }
    assert forall x | after == before + [x] :: after[..|after| - 1] == before;
  }

  lemma OnlyFinish(x: string)
    ensures LastNonEmpty([x]) == x
  {
    assert [x][..0] == [];
  }

  lemma FlattenedHasNone(messages: seq<Message>)
    ensures NoParts(FlattenAll(messages))
  {
  }

  /** Windowing brings no parts in. */
  lemma WindowedHasNone(before: seq<Message>, budget: int, count: seq<Message> -> int, after: seq<Message>)
    requires Windowed(before, budget, count, after) && NoParts(before)
    ensures NoParts(after)
  {
    if Windows(before, budget, count) {
      var from := WindowedShape(before, budget, count, after);
      assert forall m | m in after :: m in before || m == PLACEHOLDER;
    }
  }

  /** A retry has no parts when what failed had none, or was flattened. */
  lemma RetriedHasParts(list: seq<Message>, next: seq<Message>, budget: int, count: seq<Message> -> int)
    ensures next == FlattenAll(list) ==> NoParts(next)
    ensures NoParts(list) && Windowed(list, budget, count, next) ==> NoParts(next)
  {
    hide Windowed, FlattenAll;
    if next == FlattenAll(list) {
      FlattenedHasNone(list);
    }
    if NoParts(list) && Windowed(list, budget, count, next) {
      WindowedHasNone(list, budget, count, next);
    }
  }

  lemma {:induction false} FailuresKeepProse(s: Seams, sent: seq<seq<Message>>, n: nat)
    requires n <= |sent| && forall i | n <= i < |sent| :: s.complete(i, sent[i]).Failure?
    ensures LastProse(s, sent) == LastProse(s, sent[..n])
    ensures Answered(s, sent) == Answered(s, sent[..n]) && ProseTurns(s, sent) == ProseTurns(s, sent[..n])
    decreases |sent|
  {
    if n == |sent| {
      assert sent[..n] == sent;
    } else {
      FailuresKeepProse(s, sent[..|sent| - 1], n);
      assert sent[..|sent| - 1][..n] == sent[..n];
    }
  }

  lemma NextFollowsFailure(c: Controls, s: Seams, at: nat, list: seq<Message>, next: seq<Message>)
    requires NextList(c, s, at, list, next)
    ensures s.complete(at, list).Failure?
  {
  }

  /** Only a ladder's last reply can be prose. */
  lemma ClimbKeepsProse(c: Controls, s: Seams, before: seq<seq<Message>>, history: seq<Message>,
      sent: seq<seq<Message>>, after: seq<Message>, reply: Reply)
    requires Climbed(c, s, before, history, sent, after, reply)
    ensures LastProse(s, sent) ==
            if reply.Response? && reply.content != "" then reply.content else LastProse(s, before)
    ensures Answered(s, sent) == Answered(s, before) + if reply.Response? then 1 else 0
    ensures ProseTurns(s, sent) == ProseTurns(s, before) + if s.EndsInProse(reply) then 1 else 0
  {
    hide Windowed, GivesUp, FirstList, NextList;
    var m := |sent| - 1;
    var init := sent[..m];
    forall i | |before| <= i < m
      ensures s.complete(i, init[i]).Failure?
    {
      NextFollowsFailure(c, s, i, sent[i], sent[i + 1]);
    }
    FailuresKeepProse(s, init, |before|);
    assert init[..|before|] == before;
  }

  lemma LadderFits(ladders: nat, attempts: nat)
    requires ladders >= 1
    ensures ladders * attempts == (ladders - 1) * attempts + attempts
  {
  }
}
