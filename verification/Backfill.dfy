/**
 The embedding backfill's wake-up protocol: one loop thread, any number of writers, stoppers and
 starters. One step is one read or write of an event, one `_lock` section, or one wait.
 */
module Backfill {

  /** Where the loop thread is; `Down` when there is none. */
  datatype Place =
    | Down | Starting | CheckStop | CheckClosed | Clear | TickStart | Ticking | Peek | WaitEntry | Waiting | Leaving

  /** What a run shows: a write's wake, a tick's start, a wait that blocked, one that ran its full interval. */
  datatype Mark = Woke | TickStarted | Blocked | Idled

  datatype State = State(
    running: bool, closed: bool, stop: bool, wake: bool, done: bool,
    place: Place,
    waking: nat,     // writers past the check, about to set the event
    finishing: nat,  // threads that cleared `running` and have not yet set `done`
    overlap: bool,   // some start happened while a thread was still finishing
    trace: seq<Mark>)

  const INIT: State := State(false, false, false, false, true, Down, 0, 0, false, [])

  datatype Step =
    | Start
    | SpawnFails
    | Loop
    | IdleElapses
    | WriterCheck
    | WriterSet
    | SetStop
    | SetWake
    | SetClosed
    | SetDone

  predicate Enabled(s: State, step: Step) {
    match step
    case Start => !s.running && !s.closed
    case SpawnFails => s.place.Starting?
    case Loop => !s.place.Down? && (s.place.Waiting? ==> s.wake)
    case IdleElapses => s.place.Waiting? && !s.wake
    case WriterCheck => s.running && !s.closed
    case WriterSet => s.waking > 0
    case SetStop => true
    case SetWake => true
    case SetClosed => true
    case SetDone => s.finishing > 0
  }

  /** What a step shows. */
  function Marks(s: State, step: Step): Marked {
    match step
    case WriterSet => One(Woke)
    case IdleElapses => One(Idled)
    case Loop =>
      if s.place.TickStart? then One(TickStarted)
      else if s.place.WaitEntry? && !s.wake then One(Blocked)
      else Nothing
    case _ => Nothing
  }

  datatype Marked = Nothing | One(mark: Mark)

  function Logged(trace: seq<Mark>, m: Marked): seq<Mark> {
    if m.One? then trace + [m.mark] else trace
  }

  /** The loop thread's next move. */
  function LoopStep(s: State): State {
    match s.place
    case Down => s
    case Starting => s.(place := CheckStop)
    case CheckStop => s.(place := if s.stop then Leaving else CheckClosed)
    case CheckClosed => s.(place := if s.closed then Leaving else Clear)
    case Clear => s.(wake := false, place := TickStart)
    case TickStart => s.(place := Ticking)
    case Ticking => s.(place := Peek)
    case Peek => s.(place := if s.wake then CheckStop else WaitEntry)
    case WaitEntry => s.(place := if s.wake then CheckStop else Waiting)
    case Waiting => s.(place := CheckStop)
    case Leaving => s.(place := Down, running := false, finishing := s.finishing + 1)
  }

  function Move(s: State, step: Step): State
    requires Enabled(s, step)
  {
    match step
    case Start => s.(running := true, stop := false, done := false, place := Starting, overlap := s.overlap ||
        s.finishing > 0)
    case SpawnFails => s.(running := false, place := Down, finishing := s.finishing + 1)
    case Loop => LoopStep(s)
    case IdleElapses => s.(place := CheckStop)
    case WriterCheck => s.(waking := s.waking + 1)
    case WriterSet => s.(waking := s.waking - 1, wake := true)
    case SetStop => s.(stop := true)
    case SetWake => s.(wake := true)
    case SetClosed => s.(closed := true)
    case SetDone => s.(finishing := s.finishing - 1, done := true)
  }

  function Apply(s: State, step: Step): State
    requires Enabled(s, step)
  {
    Move(s, step).(trace := Logged(s.trace, Marks(s, step)))
  }

  ghost predicate Reaches(s: State, steps: seq<Step>, t: State)
    decreases |steps|
  {
    if steps == [] then s == t
    else Enabled(s, steps[0]) && Reaches(Apply(s, steps[0]), steps[1..], t)
  }

  // ---------------------------------------------------------------- no idle wait after a wake

  /** Some wake has not yet been followed by a tick. */
  predicate Pending(trace: seq<Mark>) {
    trace != [] && (trace[|trace| - 1].Woke? || (!trace[|trace| - 1].TickStarted? && Pending(trace[..|trace| - 1])))
  }

  predicate Idle(m: Mark) {
    m.Blocked? || m.Idled?
  }

  /** Between any wake and any later idle wait a tick has started. */
  ghost predicate NeverIdlePending(trace: seq<Mark>) {
    forall i, j | 0 <= i < j < |trace| && trace[i].Woke? && Idle(trace[j]) :: TickBetween(trace, i, j)
  }

  ghost predicate TickBetween(trace: seq<Mark>, i: nat, j: nat)
    requires j <= |trace|
  {
    exists k :: i < k < j && trace[k].TickStarted?
  }

  ghost predicate Inv(s: State) {
    && (s.running <==> !s.place.Down?)
    && (Pending(s.trace) && !s.wake ==> s.place.TickStart?)
    && NeverIdlePending(s.trace)
    && (s.done && !s.overlap ==> s.place.Down?)
    && (s.finishing > 0 && !s.overlap ==> s.place.Down?)
  }

  lemma {:induction false} PendingWitness(trace: seq<Mark>, i: nat)
    requires i < |trace| && trace[i].Woke? && !TickBetween(trace, i, |trace|)
    ensures Pending(trace)
    decreases |trace|
  {
    var n := |trace| - 1;
    if i < n {
      assert trace[..n][i].Woke?;
      PendingWitness(trace[..n], i);
      assert !trace[n].TickStarted?;
    }
  }

  lemma {:induction false} MarkKeeps(trace: seq<Mark>, m: Mark)
    requires NeverIdlePending(trace) && (Idle(m) ==> !Pending(trace))
    ensures NeverIdlePending(trace + [m])
  {
    var more := trace + [m];
    forall i, j | 0 <= i < j < |more| && more[i].Woke? && Idle(more[j])
      ensures TickBetween(more, i, j)
    {
      var j' := if j < |trace| then j else |trace|;
      if !TickBetween(trace, i, j') {
        assert j == |trace|;
        PendingWitness(trace, i);
      }
      var k :| i < k < j' && trace[k].TickStarted?;
      assert more[k].TickStarted?;
    }
  }

  lemma PendingNext(trace: seq<Mark>, m: Mark)
    ensures Pending(trace + [m]) <==> m.Woke? || (!m.TickStarted? && Pending(trace))
  {
    assert (trace + [m])[..|trace|] == trace;
  }

  lemma {:induction false} StepMarks(s: State, step: Step)
    requires Inv(s) && Enabled(s, step)
    ensures NeverIdlePending(Apply(s, step).trace)
    ensures Pending(Apply(s, step).trace) <==>
        step.WriterSet? || (Pending(s.trace) && !(step.Loop? && s.place.TickStart?))
  {
    hide Move, Pending, NeverIdlePending;
    if Marks(s, step).One? {
      PendingNext(s.trace, Marks(s, step).mark);
      MarkKeeps(s.trace, Marks(s, step).mark);
    }
  }

  lemma {:induction false} StepInv(s: State, step: Step)
    requires Inv(s) && Enabled(s, step)
    ensures Inv(Apply(s, step))
  {
    hide Pending, NeverIdlePending;
    StepMarks(s, step);
  }

  lemma {:induction false} ReachesInv(s: State, steps: seq<Step>, t: State)
    requires Inv(s) && Reaches(s, steps, t)
    ensures Inv(t)
    decreases |steps|
  {
    if steps != [] {
      StepInv(s, steps[0]);
      ReachesInv(Apply(s, steps[0]), steps[1..], t);
    }
  }

  /**
   No lost wake-up: in every run, whatever the interleaving, no wait blocks and no idle interval
   elapses between a write's wake and the start of the next tick.
   */
  lemma {:induction false} NoLostWakeup(steps: seq<Step>, t: State)
    requires Reaches(INIT, steps, t)
    ensures NeverIdlePending(t.trace)
  {
    ReachesInv(INIT, steps, t);
  }

  // ---------------------------------------------------------------- the tick does come

  /** Loop steps still to go before the next tick starts, for a loop that is not told to stop. */
  function Rank(place: Place): nat {
    match place
    case TickStart => 1
    case Clear => 2
    case CheckClosed => 3
    case CheckStop => 4
    case Starting => 5
    case Waiting => 5
    case WaitEntry => 6
    case Peek => 7
    case Ticking => 8
    case Leaving => 0
    case Down => 0
  }

  predicate Going(s: State) {
    !s.place.Down? && !s.place.Leaving? && !s.stop && !s.closed
  }

  function Ticks(trace: seq<Mark>): nat {
    if trace == [] then 0 else Ticks(trace[..|trace| - 1]) + if trace[|trace| - 1].TickStarted? then 1 else 0
  }

  /** How often the loop thread moved. */
  function LoopSteps(steps: seq<Step>): nat {
    if steps == [] then 0 else (if steps[0].Loop? then 1 else 0) + LoopSteps(steps[1..])
  }

  /** Nobody asks the loop to stop, and its thread did start. */
  predicate Undisturbed(steps: seq<Step>) {
    forall i | 0 <= i < |steps| :: !steps[i].SetStop? && !steps[i].SetClosed? && !steps[i].SpawnFails?
  }

  lemma {:induction false} TicksGrow(s: State, steps: seq<Step>, t: State)
    requires Reaches(s, steps, t)
    ensures Ticks(t.trace) >= Ticks(s.trace)
    decreases |steps|
  {
    if steps != [] {
      TicksNext(s, steps[0]);
      TicksGrow(Apply(s, steps[0]), steps[1..], t);
    }
  }

  lemma {:induction false} TicksNext(s: State, step: Step)
    requires Enabled(s, step)
    ensures Ticks(Apply(s, step).trace) == Ticks(s.trace) + if step.Loop? && s.place.TickStart? then 1 else 0
  {
    hide Move, Enabled;
    if Marks(s, step).One? {
      assert (s.trace + [Marks(s, step).mark])[..|s.trace|] == s.trace;
    }
  }

  /** While a wake is pending the loop can move, and every move brings the tick closer. */
  lemma {:induction false} PendingAdvances(s: State, step: Step)
    requires Inv(s) && Going(s) && Pending(s.trace) && Enabled(s, step)
    requires !step.SetStop? && !step.SetClosed? && !step.SpawnFails?
    ensures Enabled(s, Loop) && Going(Apply(s, step))
    ensures !(step.Loop? && s.place.TickStart?) ==>
              Pending(Apply(s, step).trace) && Rank(Apply(s, step).place) <= Rank(s.place) - if step.Loop? then 1 else 0
  {
    hide NeverIdlePending, Pending;
    StepMarks(s, step);
  }

  /**
   A pending wake is answered: once the loop, not asked to stop, has moved at most `Rank` times,
   a tick has started, whatever everybody else did in between.
   */
  lemma {:induction false} TickComes(s: State, steps: seq<Step>, t: State)
    requires Inv(s) && Going(s) && Pending(s.trace) && Reaches(s, steps, t) && Undisturbed(steps)
    requires LoopSteps(steps) >= Rank(s.place)
    ensures Ticks(t.trace) > Ticks(s.trace)
    decreases |steps|
  {
    hide Inv, Pending, Apply, Enabled;
    var u := Apply(s, steps[0]);
    PendingAdvances(s, steps[0]);
    TicksNext(s, steps[0]);
    TicksGrow(u, steps[1..], t);
    if !(steps[0].Loop? && s.place.TickStart?) {
      StepInv(s, steps[0]);
      TickComes(u, steps[1..], t);
    }
  }

  // ---------------------------------------------------------------- the loop rests, and leaves when told

  /** Moves to go before the loop waits with nothing to do. */
  function ToRest(place: Place, wake: bool): nat {
    match place
    case Down => 0
    case Leaving => 1
    case Starting => 8
    case CheckStop => 7
    case CheckClosed => 6
    case Clear => 5
    case TickStart => if wake then 10 else 4
    case Ticking => if wake then 9 else 3
    case Peek => if wake then 8 else 2
    case WaitEntry => if wake then 8 else 1
    case Waiting => if wake then 8 else 0
  }

  lemma RestStep(s: State, step: Step)
    requires Enabled(s, step) && !step.WriterSet? && !step.SetWake? && !step.IdleElapses? && !step.Start?
    ensures var t := Move(s, step); ToRest(t.place, t.wake) + (if step.Loop? then 1 else 0) <= ToRest(s.place, s.wake)
  {
    if step.Loop? {
      LoopToRest(s);
    }
    hide LoopStep;
  }

  predicate BeforeTick(place: Place) {
    place.Starting? || place.CheckStop? || place.CheckClosed? || place.Clear?
  }

  /** Where the moves of the loop lead, up to the tick and from it on. */
  lemma MovesToTick(s: State)
    requires BeforeTick(s.place)
    ensures var t := LoopStep(s);
            && t.stop == s.stop && t.closed == s.closed
            && (s.place.Starting? ==> t.place == CheckStop)
            && (s.place.CheckStop? ==> t.place == if s.stop then Leaving else CheckClosed)
            && (s.place.CheckClosed? ==> t.place == if s.closed then Leaving else Clear)
            && (s.place.Clear? ==> t.place == TickStart && !t.wake)
  {
  }

  lemma MovesFromTick(s: State)
    requires !BeforeTick(s.place) && !s.place.Down?
    ensures var t := LoopStep(s);
            && t.stop == s.stop && t.closed == s.closed && t.wake == s.wake
            && (s.place.TickStart? ==> t.place == Ticking)
            && (s.place.Ticking? ==> t.place == Peek)
            && (s.place.Peek? ==> t.place == if s.wake then CheckStop else WaitEntry)
            && (s.place.WaitEntry? ==> t.place == if s.wake then CheckStop else Waiting)
            && (s.place.Waiting? ==> t.place == CheckStop)
            && (s.place.Leaving? ==> t.place == Down)
  {
  }

  lemma LoopToRest(s: State)
    requires !s.place.Down? && (s.place.Waiting? ==> s.wake)
    ensures ToRest(LoopStep(s).place, LoopStep(s).wake) + 1 <= ToRest(s.place, s.wake)
  {
    hide LoopStep;
    if BeforeTick(s.place) {
      MovesToTick(s);
    } else {
      MovesFromTick(s);
    }
  }

  /** A loop that nobody wakes does not spin: it makes at most so many moves, ten in all, and then waits or is gone. */
  lemma {:induction false} LoopRests(s: State, steps: seq<Step>, t: State)
    requires Reaches(s, steps, t)
    requires forall i | 0 <= i < |steps| ::
               !steps[i].WriterSet? && !steps[i].SetWake? && !steps[i].IdleElapses? && !steps[i].Start?
    ensures LoopSteps(steps) + ToRest(t.place, t.wake) <= ToRest(s.place, s.wake) <= 10
    decreases |steps|
  {
    if steps != [] {
      RestStep(s, steps[0]);
      hide Move, Enabled, ToRest, Marks, Logged;
      LoopRests(Apply(s, steps[0]), steps[1..], t);
    }
  }

  /** How often the loop moved or its wait ran out. */
  function Moves(steps: seq<Step>): nat {
    if steps == [] then 0 else (if steps[0].Loop? || steps[0].IdleElapses? then 1 else 0) + Moves(steps[1..])
  }

  /** Moves to go before a loop told to stop, or closed, is gone. */
  function ToLeave(place: Place, closed: bool): nat {
    match place
    case Down => 0
    case Leaving => 1
    case Starting => 4
    case CheckStop => 3
    case CheckClosed => if closed then 2 else 10
    case Clear => 9
    case TickStart => 8
    case Ticking => 7
    case Peek => 6
    case WaitEntry => 5
    case Waiting => 4
  }

  lemma LeaveStep(s: State, step: Step)
    requires Enabled(s, step) && (s.stop || s.closed) && !step.Start?
    ensures var t := Move(s, step);
            && (t.stop || t.closed)
            && ToLeave(t.place, t.closed) + (if step.Loop? || step.IdleElapses? then 1 else 0)
               <= ToLeave(s.place, s.closed)
  {
    if step.Loop? {
      LoopToLeave(s);
    }
    hide LoopStep;
  }

  lemma LoopToLeave(s: State)
    requires !s.place.Down? && (s.stop || s.closed)
    ensures LoopStep(s).stop == s.stop && LoopStep(s).closed == s.closed
    ensures ToLeave(LoopStep(s).place, s.closed) + 1 <= ToLeave(s.place, s.closed)
  {
    hide LoopStep;
    if BeforeTick(s.place) {
      MovesToTick(s);
    } else {
      MovesFromTick(s);
    }
  }

  /**
   A loop told to stop, or whose memory was closed, is gone after ten moves of its own at most, and
   until then it can always move, were it only because its wait runs out.
   */
  lemma {:induction false} StopLeaves(s: State, steps: seq<Step>, t: State)
    requires Reaches(s, steps, t) && (s.stop || s.closed) && forall i | 0 <= i < |steps| :: !steps[i].Start?
    ensures Moves(steps) <= 10 && (Moves(steps) == 10 ==> t.place.Down?)
    ensures !t.place.Down? ==> Enabled(t, Loop) || Enabled(t, IdleElapses)
  {
    LeavesBy(s, steps, t);
  }

  lemma {:induction false} LeavesBy(s: State, steps: seq<Step>, t: State)
    requires Reaches(s, steps, t) && (s.stop || s.closed) && forall i | 0 <= i < |steps| :: !steps[i].Start?
    ensures Moves(steps) + ToLeave(t.place, t.closed) <= ToLeave(s.place, s.closed)
    decreases |steps|
  {
    if steps != [] {
      LeaveStep(s, steps[0]);
      hide Move, Enabled, ToLeave, Marks, Logged;
      LeavesBy(Apply(s, steps[0]), steps[1..], t);
    }
  }

  // ---------------------------------------------------------------- what `stop_backfill` answers

  /** Unless a start overlapped a thread that was still finishing, `done` means no loop is left. */
  lemma {:induction false} DoneIsTrue(steps: seq<Step>, t: State)
    requires Reaches(INIT, steps, t) && t.done && !t.overlap
    ensures t.place.Down?
  {
    ReachesInv(INIT, steps, t);
  }

  /** From any such overlap `done` can be set while the new loop runs. */
  lemma {:induction false} DoneMisleads(s: State)
    requires s.finishing > 0 && Enabled(s, Start)
    ensures var t := Apply(s, Start);
            t.overlap && Enabled(t, SetDone) && Apply(t, SetDone).done && Going(Apply(t, SetDone))
  {
  }

  lemma ReachesOne(s: State, step: Step)
    requires Enabled(s, step)
    ensures Reaches(s, [step], Apply(s, step))
  {
    hide Apply, Enabled;
    assert [step][1..] == [];
  }

  lemma {:induction false} ReachesThen(s: State, a: seq<Step>, mid: State, b: seq<Step>, t: State)
    requires Reaches(s, a, mid) && Reaches(mid, b, t)
    ensures Reaches(s, a + b, t)
    decreases |a|
  {
    hide Apply, Enabled;
    if a == [] {
      assert a + b == b;
    } else {
      assert (a + b)[1..] == a[1..] + b;
      ReachesThen(Apply(s, a[0]), a[1..], mid, b, t);
    }
  }

  lemma OverlapStates()
    ensures Enabled(INIT, Start)
    ensures Enabled(Apply(INIT, Start), SpawnFails)
    ensures var u := Apply(Apply(INIT, Start), SpawnFails); u.finishing > 0 && Enabled(u, Start)
  {
  }

  /** And a run from the start gets there: a start whose spawn fails, a second start, the late `done`. */
  lemma {:induction false} DoneMisleadsRun() returns (steps: seq<Step>, t: State)
    ensures Reaches(INIT, steps, t) && t.done && Going(t)
  {
    OverlapStates();
    var s := Apply(INIT, Start);
    var u := Apply(s, SpawnFails);
    DoneMisleads(u);
    hide Apply, Enabled, Reaches, Going;
    ReachesOne(INIT, Start);
    ReachesOne(s, SpawnFails);
    ReachesThen(INIT, [Start], s, [SpawnFails], u);
    var v := Apply(u, Start);
    ReachesOne(u, Start);
    ReachesThen(INIT, [Start] + [SpawnFails], u, [Start], v);
    ReachesOne(v, SetDone);
    t := Apply(v, SetDone);
    steps := [Start] + [SpawnFails] + [Start] + [SetDone];
    ReachesThen(INIT, [Start] + [SpawnFails] + [Start], v, [SetDone], t);
  }
}
