/**
 Outbound lines of the mesh client: handed over from other threads, queued, pumped, counted. One
 step is what the loop thread does between two awaits.
 */
module Outbox {
  import opened Common

  const OUTBOX_MAX: nat := 256

  /** A line on its way out; `message` when it starts with PRIVMSG or THREAD. */
  datatype Line = Line(id: nat, message: bool)

  /**
   Where the session is: none, writing its opening lines, reading, ending its heartbeat,
   cancelling its pump.
   */
  datatype Phase = Down | Opening | Reading | Quitting | Cancelling

  datatype Pump = Idle | Writing(line: Line) | Ended

  datatype State = State(
    registered: bool, outbox: Option<seq<Line>>, phase: Phase, pump: Pump,
    handed: multiset<Line>, sent: multiset<Line>, dropped: multiset<Line>,
    stranded: multiset<Line>)  // in an outbox that was replaced without being emptied

  const INIT: State := State(false, None, Down, Ended, multiset{}, multiset{}, multiset{}, multiset{})

  const IS_MESSAGE: Line -> bool := (l: Line) => l.message

  function Messages(queue: seq<Line>): multiset<Line> {
    multiset(Filter(queue, IS_MESSAGE))
  }

  function Queued(s: State): multiset<Line> {
    if s.outbox.Some? then Messages(s.outbox.value) else multiset{}
  }

  function One(line: Line): multiset<Line> {
    if line.message then multiset{line} else multiset{}
  }

  function InFlight(s: State): multiset<Line> {
    if s.pump.Writing? then One(s.pump.line) else multiset{}
  }

  datatype Step =
    | Welcome(registered: bool)
    | OpeningDone
    | OpeningFails
    | LeaveRegistered
    | Enqueue(lines: seq<Line>)
    | Beat(id: nat)
    | Take
    | DrainOk
    | DrainFails
    | Quit
    | Cut
    | Cancelled

  predicate Enabled(s: State, step: Step) {
    match step
    case Welcome(_) => s.phase.Down?
    case OpeningDone => s.phase.Opening?
    case OpeningFails => s.phase.Opening?
    case LeaveRegistered => true
    case Enqueue(lines) => forall i | 0 <= i < |lines| :: lines[i].message
    case Beat(_) => s.phase.Reading? && s.outbox.Some?
    case Take => (s.phase.Reading? || s.phase.Quitting?) && s.pump.Idle? && s.outbox.Some? && s.outbox.value != []
    case DrainOk => (s.phase.Reading? || s.phase.Quitting?) && s.pump.Writing?
    case DrainFails => (s.phase.Reading? || s.phase.Quitting?) && s.pump.Writing?
    case Quit => s.phase.Reading?
    case Cut => s.phase.Quitting?
    case Cancelled => s.phase.Cancelling?
  }

  /** `_enqueue`: a closed door or a full outbox drops the whole batch. */
  function Put(s: State, lines: seq<Line>): State {
    var s1 := s.(handed := s.handed + multiset(lines));
    if s.outbox.None? || !s.registered || |s.outbox.value| + |lines| > OUTBOX_MAX then
      s1.(dropped := s.dropped + multiset(lines))
    else s1.(outbox := Some(s.outbox.value + lines))
  }

  function Apply(s: State, step: Step): State
    requires Enabled(s, step)
  {
    match step
    case Welcome(registered) =>
      s.(registered := registered, outbox := Some([]), phase := Opening, pump := Ended,
          stranded := s.stranded + Queued(s))
    case OpeningDone => s.(phase := Reading, pump := Idle)
    case OpeningFails => s.(phase := Down)
    case LeaveRegistered => s.(registered := false)
    case Enqueue(lines) => Put(s, lines)
    case Beat(id) => s.(outbox := Some(s.outbox.value + [Line(id, false)]))
    case Take => s.(pump := Writing(s.outbox.value[0]), outbox := Some(s.outbox.value[1..]))
    case DrainOk => s.(pump := Idle, sent := s.sent + InFlight(s))
    case DrainFails => s.(pump := Ended, dropped := s.dropped + InFlight(s))
    case Quit => s.(phase := Quitting)
    case Cut => s.(phase := Cancelling, outbox := None, dropped := s.dropped + Queued(s))
    case Cancelled => s.(phase := Down, pump := Ended, dropped := s.dropped + InFlight(s))
  }

  ghost predicate Reaches(s: State, steps: seq<Step>, t: State)
    decreases |steps|
  {
    if steps == [] then s == t
    else Enabled(s, steps[0]) && Reaches(Apply(s, steps[0]), steps[1..], t)
  }

  // ---------------------------------------------------------------- every line is somewhere, once

  /** Every line handed over, wherever it is now. */
  function Placed(s: State): multiset<Line> {
    s.sent + s.dropped + Queued(s) + InFlight(s) + s.stranded
  }

  ghost predicate Shape(s: State) {
    && (s.phase.Down? || s.phase.Opening? ==> s.pump.Ended?)
    && (s.phase.Opening? || s.phase.Reading? || s.phase.Quitting? ==> s.outbox.Some?)
    && (s.phase.Cancelling? ==> s.outbox.None?)
  }

  ghost predicate Inv(s: State) {
    s.handed == Placed(s) && Shape(s)
  }

  lemma {:induction false} MessagesAppend(queue: seq<Line>, lines: seq<Line>)
    requires forall i | 0 <= i < |lines| :: lines[i].message
    ensures Messages(queue + lines) == Messages(queue) + multiset(lines)
  {
    FilterConcat(queue, lines, IS_MESSAGE);
    assert forall x | x in lines :: IS_MESSAGE(x);
    FilterAll(lines, IS_MESSAGE);
  }

  lemma {:induction false} MessagesBeat(queue: seq<Line>, id: nat)
    ensures Messages(queue + [Line(id, false)]) == Messages(queue)
  {
    assert (queue + [Line(id, false)])[..|queue|] == queue;
  }

  lemma {:induction false} MessagesTake(queue: seq<Line>)
    requires queue != []
    ensures Messages(queue) == One(queue[0]) + Messages(queue[1..])
  {
    assert queue == [queue[0]] + queue[1..];
    FilterConcat([queue[0]], queue[1..], IS_MESSAGE);
    if queue[0].message {
      FilterAll([queue[0]], IS_MESSAGE);
    } else {
      FilterNone([queue[0]], IS_MESSAGE);
    }
  }

  lemma {:induction false} PutPlaced(s: State, lines: seq<Line>)
    requires forall i | 0 <= i < |lines| :: lines[i].message
    ensures Placed(Put(s, lines)) == Placed(s) + multiset(lines)
  {
    if s.outbox.Some? {
      MessagesAppend(s.outbox.value, lines);
    }
    hide Messages;
  }

  lemma {:induction false} QueuePlaced(s: State, step: Step)
    requires Enabled(s, step) && Shape(s) && (step.Beat? || step.Take? || step.Welcome?)
    ensures Placed(Apply(s, step)) == Placed(s)
  {
    assert Messages([]) == multiset{};
    if step.Beat? {
      MessagesBeat(s.outbox.value, step.id);
    } else if step.Take? {
      MessagesTake(s.outbox.value);
    }
    hide Messages, One;
  }

  lemma {:induction false} RestPlaced(s: State, step: Step)
    requires Enabled(s, step) && Shape(s) && !(step.Beat? || step.Take? || step.Welcome? || step.Enqueue?)
    ensures Placed(Apply(s, step)) == Placed(s)
  {
    hide Messages, One;
  }

  lemma StepShape(s: State, step: Step)
    requires Shape(s) && Enabled(s, step)
    ensures Shape(Apply(s, step))
    ensures Apply(s, step).handed == if step.Enqueue? then s.handed + multiset(step.lines) else s.handed
  {
    hide Messages, One, Queued, InFlight;
  }

  lemma {:induction false} StepInv(s: State, step: Step)
    requires Inv(s) && Enabled(s, step)
    ensures Inv(Apply(s, step))
  {
    StepShape(s, step);
    if step.Enqueue? {
      PutPlaced(s, step.lines);
      assert Apply(s, step) == Put(s, step.lines);
      hide Placed, Shape, Put, Apply;
    } else if step.Beat? || step.Take? || step.Welcome? {
      QueuePlaced(s, step);
      hide Placed, Shape, Apply;
    } else {
      RestPlaced(s, step);
      hide Placed, Shape, Apply;
    }
  }

  lemma {:induction false} ReachesInv(s: State, steps: seq<Step>, t: State)
    requires Inv(s) && Reaches(s, steps, t)
    ensures Inv(t)
    decreases |steps|
  {
    hide Inv, Apply, Enabled;
    if steps != [] {
      StepInv(s, steps[0]);
      ReachesInv(Apply(s, steps[0]), steps[1..], t);
    }
  }

  /**
   In every run each line handed over is in exactly one place: sent, dropped, queued, being
   written, or stranded; between sessions only an abandoned outbox can hold one.
   */
  lemma {:induction false} CountedOnce(steps: seq<Step>, t: State)
    requires Reaches(INIT, steps, t)
    ensures t.handed == t.sent + t.dropped + Queued(t) + InFlight(t) + t.stranded
    ensures t.phase.Down? ==> (t.handed == t.sent + t.dropped <==> Queued(t) + t.stranded == multiset{})
  {
    assert Messages([]) == multiset{};
    ReachesInv(INIT, steps, t);
    if t.phase.Down? && t.handed == t.sent + t.dropped {
      NothingAdded(t.sent + t.dropped, Queued(t) + t.stranded);
    }
  }

  lemma NothingAdded<T>(a: multiset<T>, b: multiset<T>)
    ensures a == a + b <==> b == multiset{}
  {
    if a == a + b {
      assert forall x :: (a + b)[x] == a[x] + b[x];
    }
  }

  // ---------------------------------------------------------------- first in, first out

  /** What a run puts in the queue: the batches it accepts and the heartbeats. */
  function AddedBy(s: State, steps: seq<Step>): seq<Line>
    decreases |steps|
  {
    if steps == [] || !Enabled(s, steps[0]) then []
    else Added(s, steps[0]) + AddedBy(Apply(s, steps[0]), steps[1..])
  }

  function Added(s: State, step: Step): seq<Line> {
    match step
    case Enqueue(lines) => if Accepts(s, lines) then lines else []
    case Beat(id) => [Line(id, false)]
    case _ => []
  }

  /** The lines the pump begins to write, in that order. */
  function WrittenBy(s: State, steps: seq<Step>): seq<Line>
    decreases |steps|
  {
    if steps == [] || !Enabled(s, steps[0]) then []
    else Written(Apply(s, steps[0]), steps[0]) + WrittenBy(Apply(s, steps[0]), steps[1..])
  }

  /** The line being written after a step that began to write one. */
  function Written(after: State, step: Step): seq<Line> {
    if step.Take? && after.pump.Writing? then [after.pump.line] else []
  }

  lemma QueueMoves(s: State, step: Step)
    requires Enabled(s, step) && s.outbox.Some? && !step.Welcome? && !step.Cut?
    ensures var u := Apply(s, step);
            && u.outbox.Some? && (step.Take? ==> u.pump.Writing?)
            && s.outbox.value + Added(s, step) == Written(u, step) + u.outbox.value
  {
    hide Queued, InFlight;
    var queue := s.outbox.value;
    assert queue + [] == [] + queue;
    if step.Take? {
      assert queue == [queue[0]] + queue[1..];
    }
  }

  /** While an outbox stands, its lines are written in the order in which they were queued. */
  lemma {:induction false} FirstInFirstOut(s: State, steps: seq<Step>, t: State)
    requires Reaches(s, steps, t) && s.outbox.Some?
    requires forall i | 0 <= i < |steps| :: !steps[i].Welcome? && !steps[i].Cut?
    ensures t.outbox.Some? && s.outbox.value + AddedBy(s, steps) == WrittenBy(s, steps) + t.outbox.value
    decreases |steps|
  {
    hide Apply, Added, Written, Enabled;
    if steps == [] {
      assert s.outbox.value + [] == [] + t.outbox.value;
    } else {
      var u, step := Apply(s, steps[0]), steps[0];
      QueueMoves(s, step);
      FirstInFirstOut(u, steps[1..], t);
      Regroup(s.outbox.value, Added(s, step), AddedBy(u, steps[1..]), Written(u, step), u.outbox.value,
              WrittenBy(u, steps[1..]), t.outbox.value);
    }
  }

  lemma Regroup<T>(queue: seq<T>, added: seq<T>, more: seq<T>, written: seq<T>, mid: seq<T>, later: seq<T>,
      last: seq<T>)
    requires queue + added == written + mid && mid + more == later + last
    ensures queue + (added + more) == (written + later) + last
  {
    assert queue + (added + more) == (queue + added) + more;
    assert (written + mid) + more == written + (mid + more);
    assert written + (later + last) == (written + later) + last;
  }

  // ---------------------------------------------------------------- the door

  /** Whether the door is open after a run: as the last welcome or leave left it. */
  function Door(open: bool, steps: seq<Step>): bool {
    if steps == [] then open
    else
      var last := steps[|steps| - 1];
      if last.LeaveRegistered? then false
      else if last.Welcome? then last.registered
      else Door(open, steps[..|steps| - 1])
  }

  lemma {:induction false} DoorFirst(open: bool, step: Step, steps: seq<Step>)
    ensures Door(open, [step] + steps) == Door(Door(open, [step]), steps)
    decreases |steps|
  {
    var all := [step] + steps;
    if steps == [] {
      assert all == [step];
    } else {
      assert all[..|all| - 1] == [step] + steps[..|steps| - 1];
      DoorFirst(open, step, steps[..|steps| - 1]);
    }
  }

  lemma DoorMoves(s: State, step: Step)
    requires Enabled(s, step)
    ensures Apply(s, step).registered == Door(s.registered, [step])
  {
    hide Queued, InFlight;
    assert [step][..0] == [];
  }

  /**
   A batch is accepted after a run exactly when the last welcome or leave left the door open, an outbox
   stands and the batch fits.
   */
  lemma {:induction false} AcceptsIff(s: State, steps: seq<Step>, t: State, lines: seq<Line>)
    requires Reaches(s, steps, t)
    ensures Accepts(t, lines) <==>
              Door(s.registered, steps) && t.outbox.Some? && |t.outbox.value| + |lines| <= OUTBOX_MAX
    decreases |steps|
  {
    if steps != [] {
      DoorMoves(s, steps[0]);
      hide Apply, Enabled, Door;
      assert steps == [steps[0]] + steps[1..];
      DoorFirst(s.registered, steps[0], steps[1..]);
      AcceptsIff(Apply(s, steps[0]), steps[1..], t, lines);
    }
  }

  // ---------------------------------------------------------------- what counts as sent

  /** The messages whose writing was seen through. */
  function DrainedBy(s: State, steps: seq<Step>): multiset<Line>
    decreases |steps|
  {
    if steps == [] || !Enabled(s, steps[0]) then multiset{}
    else
      var written := steps[0].DrainOk? && s.pump.Writing? && s.pump.line.message;
      (if written then multiset{s.pump.line} else multiset{}) + DrainedBy(Apply(s, steps[0]), steps[1..])
  }

  lemma SentStep(s: State, step: Step)
    requires Enabled(s, step)
    ensures var written := step.DrainOk? && s.pump.Writing? && s.pump.line.message;
            Apply(s, step).sent == s.sent + if written then multiset{s.pump.line} else multiset{}
  {
    hide Queued;
  }

  /** Exactly the messages whose writing was seen through count as sent, however a session ended. */
  lemma {:induction false} SentAreDrained(s: State, steps: seq<Step>, t: State)
    requires Reaches(s, steps, t)
    ensures t.sent == s.sent + DrainedBy(s, steps)
    decreases |steps|
  {
    if steps != [] {
      SentStep(s, steps[0]);
      hide Apply, Enabled;
      SentAreDrained(Apply(s, steps[0]), steps[1..], t);
    }
  }

  // ---------------------------------------------------------------- exactly when a line is lost

  /** `_enqueue` accepts this batch. */
  predicate Accepts(s: State, lines: seq<Line>) {
    s.outbox.Some? && s.registered && |s.outbox.value| + |lines| <= OUTBOX_MAX
  }

  /**
   The two ways to lose a line: the opening lines fail to drain with a message queued, or a batch
   is accepted after that, while there is no session but the door is still open.
   */
  predicate Loses(s: State, step: Step) {
    || (step.OpeningFails? && Queued(s) != multiset{})
    || (step.Enqueue? && step.lines != [] && s.phase.Down? && Accepts(s, step.lines))
  }

  /** Some step of the run loses a line. */
  ghost predicate LosesSome(s: State, steps: seq<Step>)
    decreases |steps|
  {
    steps != [] && Enabled(s, steps[0]) && (Loses(s, steps[0]) || LosesSome(Apply(s, steps[0]), steps[1..]))
  }

  /** What no count will ever name: left in a replaced outbox, or in one no session empties. */
  function Lost(s: State): multiset<Line> {
    s.stranded + if s.phase.Down? then Queued(s) else multiset{}
  }

  lemma {:induction false} LostByPut(s: State, lines: seq<Line>)
    requires forall i | 0 <= i < |lines| :: lines[i].message
    ensures Lost(Put(s, lines)) == Lost(s) + if s.phase.Down? && Accepts(s, lines) then multiset(lines) else multiset{}
  {
    if s.outbox.Some? {
      MessagesAppend(s.outbox.value, lines);
    }
    hide Messages;
  }

  lemma NonemptyMultiset(lines: seq<Line>)
    ensures multiset(lines) == multiset{} <==> lines == []
  {
    if lines != [] {
      assert lines[0] in multiset(lines);
    }
  }

  lemma {:induction false} LostByRest(s: State, step: Step)
    requires Shape(s) && Enabled(s, step) && !step.Enqueue?
    ensures Lost(Apply(s, step)) == Lost(s) + if step.OpeningFails? then Queued(s) else multiset{}
  {
    assert Messages([]) == multiset{};
    hide Messages, One;
  }

  /** What is lost only grows, and grows exactly at a losing step. */
  lemma {:induction false} LostStep(s: State, step: Step)
    requires Shape(s) && Enabled(s, step)
    ensures Lost(s) <= Lost(Apply(s, step))
    ensures Lost(Apply(s, step)) == Lost(s) <==> !Loses(s, step)
  {
    if step.Enqueue? {
      LostByPut(s, step.lines);
      NonemptyMultiset(step.lines);
      NothingAdded(Lost(s), multiset(step.lines));
      assert Apply(s, step) == Put(s, step.lines);
      hide Lost, Put, Apply;
    } else {
      LostByRest(s, step);
      NothingAdded(Lost(s), Queued(s));
      hide Lost, Apply, Queued;
    }
  }

  lemma {:induction false} LostRun(s: State, steps: seq<Step>, t: State)
    requires Shape(s) && Reaches(s, steps, t)
    ensures Lost(s) <= Lost(t)
    ensures Lost(t) == Lost(s) <==> !LosesSome(s, steps)
    decreases |steps|
  {
    hide Lost, Apply, Enabled, Shape, Loses;
    if steps != [] {
      var u := Apply(s, steps[0]);
      LostStep(s, steps[0]);
      StepShape(s, steps[0]);
      LostRun(u, steps[1..], t);
      Between(Lost(s), Lost(u), Lost(t));
    }
  }

  lemma Between<T>(a: multiset<T>, b: multiset<T>, c: multiset<T>)
    requires a <= b <= c
    ensures a <= c && (a == c <==> a == b && b == c)
  {
    if a == c {
      forall x
        ensures a[x] == b[x]
      {
        assert a[x] <= b[x] <= c[x];
      }
      assert a == b;
    }
  }

  /**
   Between sessions sent and dropped add up to all that was handed over if and only if no opening
   failed with a message queued and no batch was accepted while no session was left to send it.
   */
  lemma {:induction false} NothingLostIff(steps: seq<Step>, t: State)
    requires Reaches(INIT, steps, t) && t.phase.Down?
    ensures t.handed == t.sent + t.dropped <==> !LosesSome(INIT, steps)
  {
    assert Messages([]) == multiset{};
    ReachesInv(INIT, steps, t);
    LostRun(INIT, steps, t);
    assert Lost(INIT) == multiset{};
    assert t.handed == t.sent + t.dropped + Lost(t);
    hide LosesSome, Lost, Reaches;
    NothingAdded(t.sent + t.dropped, Lost(t));
  }

  lemma {:induction false} NoFailureNoLoss(s: State, steps: seq<Step>, t: State)
    requires Shape(s) && (s.phase.Down? ==> s.outbox.None?) && Reaches(s, steps, t) && OpeningsSucceed(steps)
    ensures !LosesSome(s, steps)
    decreases |steps|
  {
    if steps != [] {
      StepShape(s, steps[0]);
      DoorStep(s, steps[0]);
      assert forall i | 0 <= i < |steps| - 1 :: steps[1..][i] == steps[i + 1];
      hide Apply, Enabled, Shape;
      NoFailureNoLoss(Apply(s, steps[0]), steps[1..], t);
    }
  }

  lemma DoorStep(s: State, step: Step)
    requires Shape(s) && (s.phase.Down? ==> s.outbox.None?) && Enabled(s, step) && !step.OpeningFails?
    ensures Apply(s, step).phase.Down? ==> Apply(s, step).outbox.None?
    ensures !Loses(s, step)
  {
    hide Messages, One, Queued, InFlight;
  }

  /** No session ever failed while its opening lines were being written. */
  predicate OpeningsSucceed(steps: seq<Step>) {
    forall i | 0 <= i < |steps| :: !steps[i].OpeningFails?
  }

  /** In particular, if every opening succeeds, between sessions every line was counted once. */
  lemma {:induction false} NothingLost(steps: seq<Step>, t: State)
    requires Reaches(INIT, steps, t) && OpeningsSucceed(steps) && t.phase.Down?
    ensures t.handed == t.sent + t.dropped && |t.handed| == |t.sent| + |t.dropped|
  {
    NoFailureNoLoss(INIT, steps, t);
    NothingLostIff(steps, t);
    hide Reaches;
  }

  // ---------------------------------------------------------------- two runs that lose a line

  const LINE: Line := Line(0, true)

  /** A line accepted while the opening lines are written, which then fail to drain. */
  lemma {:induction false} FailedOpeningLoses() returns (steps: seq<Step>, t: State)
    ensures Reaches(INIT, steps, t) && t.phase.Down? && t.handed == multiset{LINE} && t.sent + t.dropped == multiset{}
  {
    steps := [Welcome(true), Enqueue([LINE]), OpeningFails];
    var opening := Apply(INIT, Welcome(true));
    var accepted := Apply(opening, Enqueue([LINE]));
    t := Apply(accepted, OpeningFails);
    ThreeSteps(INIT, steps[0], steps[1], steps[2]);
  }

  /** A line accepted after the opening failed, before the state left `registered`. */
  lemma {:induction false} OpenDoorLoses() returns (steps: seq<Step>, t: State)
    ensures Reaches(INIT, steps, t) && t.phase.Down? && t.handed == multiset{LINE} && t.sent + t.dropped == multiset{}
  {
    steps := [Welcome(true), OpeningFails, Enqueue([LINE])];
    var opening := Apply(INIT, Welcome(true));
    var failed := Apply(opening, OpeningFails);
    t := Apply(failed, Enqueue([LINE]));
    ThreeSteps(INIT, steps[0], steps[1], steps[2]);
  }

  lemma ThreeSteps(s: State, a: Step, b: Step, c: Step)
    requires Enabled(s, a) && Enabled(Apply(s, a), b) && Enabled(Apply(Apply(s, a), b), c)
    ensures Reaches(s, [a, b, c], Apply(Apply(Apply(s, a), b), c))
  {
    hide Apply, Enabled;
    assert [a, b, c][1..] == [b, c] && [b, c][1..] == [c] && [c][1..] == [];
    var first, second := Apply(s, a), Apply(Apply(s, a), b);
    assert Reaches(second, [c], Apply(second, c));
    assert Reaches(first, [b, c], Apply(second, c));
  }

  // ---------------------------------------------------------------- the loop thread's code

  class Client {
    var registered: bool
    var outbox: Option<seq<Line>>
    var sent: nat
    var droppedSends: nat

    constructor ()
      ensures !registered && outbox == None && sent == 0 && droppedSends == 0
    {
      registered, outbox, sent, droppedSends := false, None, 0, 0;
    }

    /** Queues the whole batch or drops and counts the whole batch. */
    method Enqueue(lines: seq<Line>)
      modifies this`outbox, this`droppedSends
      ensures var s := State(registered, old(outbox), Down, Ended, multiset{}, multiset{}, multiset{}, multiset{});
              outbox == Put(s, lines).outbox && droppedSends == old(droppedSends) + |Put(s, lines).dropped|
      ensures if registered && old(outbox).Some? && |old(outbox).value| + |lines| <= OUTBOX_MAX then
                outbox == Some(old(outbox).value + lines) && droppedSends == old(droppedSends)
              else outbox == old(outbox) && droppedSends == old(droppedSends) + |lines|
    {
      if outbox.None? || !registered {
        droppedSends := droppedSends + |lines|;
        return;
      }
      if |outbox.value| + |lines| > OUTBOX_MAX {
        droppedSends := droppedSends + |lines|;
        return;
      }
      ghost var before := outbox.value;
      assert before + lines[..0] == before;
      for i := 0 to |lines|
        invariant outbox == Some(before + lines[..i])
        modifies this`outbox
      {
        assert before + lines[..i + 1] == before + lines[..i] + [lines[i]];
        outbox := Some(outbox.value + [lines[i]]);
      }
      assert lines[..|lines|] == lines;
    }

    /** Empties the outbox and counts its messages as dropped; presence lines are not messages. */
    method Cut()
      modifies this`outbox, this`droppedSends
      ensures outbox == None
      ensures droppedSends == old(droppedSends) + if old(outbox).Some? then |Messages(old(outbox).value)| else 0
    {
      if outbox.None? {
        return;
      }
      var left := UnsentMessages(outbox.value);
      outbox := None;
      droppedSends := droppedSends + left;
    }
  }

  /** How many messages a queue still holds. */
  method UnsentMessages(queue: seq<Line>) returns (left: nat)
    ensures left == |Messages(queue)|
  {
    left := 0;
    var rest := queue;
    assert |Messages([])| == 0;
    while rest != []
      invariant left + |Messages(rest)| == |Messages(queue)|
      decreases |rest|
    {
      MessagesTake(rest);
      if rest[0].message {
        left := left + 1;
      }
      rest := rest[1..];
    }
  }
}
