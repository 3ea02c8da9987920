/**
 Room memory's in-flight work: slots reserved and released by different threads, deferred jobs
 reaped onto the ledger, and the report `close` makes of the writes it can name. One step is one
 section under `_lock`, or one event of the executor or of a future.
 */
module Inflight {
  import opened Common
  import opened AbandonedLedger

  // ---------------------------------------------------------------- one job

  /** How a job ends, and whether its text reached the store; a bare value carries no `ok`. */
  datatype Outcome = Raised(stored: bool) | WithOk(ok: bool, stored: bool) | Bare(stored: bool)

  /** A read, a write that answers with the seam's outcome, or an ingest write, which answers with a tuple. */
  datatype Kind = Read | Remember | Ingest

  /** A seam's value without an `ok` reads as not ok. */
  predicate Answers(kind: Kind, outcome: Outcome) {
    (kind.Ingest? ==> !outcome.WithOk?) && (kind.Remember? ==> !outcome.Bare?)
  }

  predicate Confirms(outcome: Outcome) {
    outcome.WithOk? && outcome.ok
  }

  datatype Callback = Release | Reap

  /** How far the calling thread has got with `_submit`. */
  datatype Phase = Reserved | Unsubmitted | Submitted | Registered | Armed

  datatype Job = Job(
    kind: Kind, phase: Phase, outcome: Option<Outcome>,
    callbacks: multiset<Callback>, deferred: bool, released: nat, reaped: nat)

  predicate Holds(job: Job) {
    job.phase != Unsubmitted && job.released == 0
  }

  /** Listed in `_writes`. */
  predicate Listed(job: Job) {
    !job.kind.Read? && (job.phase == Registered || job.phase == Armed) && job.released == 0
  }

  predicate Running(job: Job) {
    job.outcome.None? && job.phase != Reserved && job.phase != Unsubmitted
  }

  /** What the future says of a write: landed, failed, or still in flight. */
  function Settled(outcome: Option<Outcome>): Option<bool> {
    if outcome.None? then None else Some(Confirms(outcome.value))
  }

  /** Whether the reap callback has something to record: a read only when it raised. */
  predicate Tells(kind: Kind, outcome: Outcome) {
    if kind.Read? then outcome.Raised? else !Confirms(outcome)
  }

  // ---------------------------------------------------------------- the layer

  datatype Entry = SubmitFailed(job: nat) | LateFailure(job: nat) | AtClose(call: nat, job: nat)

  /** One `close` call: its snapshot, and what it has sorted so far. */
  datatype Closing = Closing(
    named: seq<nat>, landed: seq<nat>, unconfirmed: seq<nat>, failed: seq<nat>, settled: nat, reported: bool)

  datatype State = State(closed: bool, inflight: nat, jobs: seq<Job>, account: Account<Entry>, closings: seq<Closing>)

  datatype Config = Config(maxInflight: Capacity, maxAbandoned: Capacity)

  const INIT: State := State(false, 0, [], Fresh(), [])

  datatype Step =
    | Reserve(kind: Kind)
    | SubmitRaises(j: nat)
    | Submit(j: nat)
    | Register(j: nat)
    | Arm(j: nat)
    | TimeOut(j: nat)
    | Finish(j: nat, outcome: Outcome)
    | Run(j: nat, callback: Callback)
    | DrainLedger
    | BeginClose
    | SettleOne(c: nat)
    | Report(c: nat)

  datatype Admission = Admitted | Closed | Saturated

  function Admit(s: State, cfg: Config): Admission {
    if s.closed then Closed else if s.inflight >= cfg.maxInflight then Saturated else Admitted
  }

  /** The per-job guard of a step on job `j`. */
  predicate JobEnabled(job: Job, step: Step) {
    match step
    case SubmitRaises(_) => job.phase == Reserved
    case Submit(_) => job.phase == Reserved
    case Register(_) => job.phase == Submitted
    case Arm(_) => job.phase == Registered
    case TimeOut(_) => job.phase == Armed && !job.deferred
    case Finish(_, outcome) => Running(job) && Answers(job.kind, outcome)
    case Run(_, callback) => job.outcome.Some? && callback in job.callbacks
    case _ => false
  }

  predicate OnJob(step: Step) {
    step.SubmitRaises? || step.Submit? || step.Register? || step.Arm? || step.TimeOut? || step.Finish? || step.Run?
  }

  /** Another named write is waiting to be sorted (it always names an existing job). */
  predicate Unsettled(k: Closing, jobs: nat) {
    k.settled < |k.named| && k.named[k.settled] < jobs
  }

  predicate Enabled(s: State, step: Step) {
    match step
    case Reserve(_) => true
    case DrainLedger => true
    case BeginClose => true
    case SettleOne(c) => c < |s.closings| && Unsettled(s.closings[c], |s.jobs|)
    case Report(c) => c < |s.closings| && s.closings[c].settled == |s.closings[c].named| && !s.closings[c].reported
    case _ => step.j < |s.jobs| && JobEnabled(s.jobs[step.j], step)
  }

  function Moved(job: Job, step: Step): Job
    requires JobEnabled(job, step)
  {
    match step
    case SubmitRaises(_) => job.(phase := Unsubmitted)
    case Submit(_) => job.(phase := Submitted)
    case Register(_) => job.(phase := Registered)
    case Arm(_) => job.(phase := Armed, callbacks := job.callbacks + multiset{Release})
    case TimeOut(_) => job.(deferred := true, callbacks := job.callbacks + multiset{Reap})
    case Finish(_, outcome) => job.(outcome := Some(outcome))
    case Run(_, callback) =>
      var rest := job.callbacks - multiset{callback};
      if callback.Release? then job.(callbacks := rest, released := job.released + 1)
      else job.(callbacks := rest, reaped := job.reaped + 1)
  }

  /** What a step on a job puts on the ledger. */
  function Told(job: Job, step: Step): seq<Entry>
    requires JobEnabled(job, step)
  {
    match step
    case SubmitRaises(j) => [SubmitFailed(j)]
    case Run(j, callback) => if callback.Reap? && Tells(job.kind, job.outcome.value) then [LateFailure(j)] else []
    case _ => []
  }

  predicate GivesBack(step: Step) {
    step.SubmitRaises? || (step.Run? && step.callback.Release?)
  }

  /** The writes `_writes` lists, lowest job first. */
  function Snapshot(jobs: seq<Job>): (r: seq<nat>)
    ensures forall j | j in r :: j < |jobs|
  {
    if jobs == [] then []
    else Snapshot(jobs[..|jobs| - 1]) + if Listed(jobs[|jobs| - 1]) then [|jobs| - 1] else []
  }

  function Place(k: Closing, j: nat, bucket: Option<bool>): Closing {
    match bucket
    case None => k.(unconfirmed := k.unconfirmed + [j], settled := k.settled + 1)
    case Some(true) => k.(landed := k.landed + [j], settled := k.settled + 1)
    case Some(false) => k.(failed := k.failed + [j], settled := k.settled + 1)
  }

  function Sort(k: Closing, jobs: seq<Job>): Closing
    requires Unsettled(k, |jobs|)
  {
    var j := k.named[k.settled];
    Place(k, j, Settled(jobs[j].outcome))
  }

  function CloseEntries(c: nat, unconfirmed: seq<nat>): seq<Entry> {
    seq(|unconfirmed|, i requires 0 <= i < |unconfirmed| => AtClose(c, unconfirmed[i]))
  }

  function Apply(s: State, step: Step, cfg: Config): State
    requires Enabled(s, step)
  {
    match step
    case Reserve(kind) =>
      if Admit(s, cfg).Admitted? then
        s.(inflight := s.inflight + 1, jobs := s.jobs + [Job(kind, Reserved, None, multiset{}, false, 0, 0)])
      else s
    case DrainLedger => s.(account := Drain(s.account))
    case BeginClose => s.(closed := true, closings := s.closings + [Closing(Snapshot(s.jobs), [], [], [], 0, false)])
    case SettleOne(c) => s.(closings := s.closings[c := Sort(s.closings[c], s.jobs)])
    case Report(c) =>
      s.(account := AppendAll(s.account, cfg.maxAbandoned, CloseEntries(c, s.closings[c].unconfirmed)),
         closings := s.closings[c := s.closings[c].(reported := true)])
    case _ =>
      var job := s.jobs[step.j];
      s.(jobs := s.jobs[step.j := Moved(job, step)],
         inflight := if GivesBack(step) && s.inflight > 0 then s.inflight - 1 else s.inflight,
         account := AppendAll(s.account, cfg.maxAbandoned, Told(job, step)))
  }

  ghost predicate Reaches(s: State, steps: seq<Step>, t: State, cfg: Config)
    decreases |steps|
  {
    if steps == [] then s == t
    else
      && Enabled(s, steps[0])
      && Reaches(Apply(s, steps[0], cfg), steps[1..], t, cfg)
  }

  // ---------------------------------------------------------------- slots

  function Held(jobs: seq<Job>): nat {
    if jobs == [] then 0
    else Held(jobs[..|jobs| - 1]) + if Holds(jobs[|jobs| - 1]) then 1 else 0
  }

  lemma {:induction false} HeldUpdate(jobs: seq<Job>, j: nat, job: Job)
    requires j < |jobs|
    ensures Held(jobs[j := job]) ==
            Held(jobs) - (if Holds(jobs[j]) then 1 else 0) + (if Holds(job) then 1 else 0)
    ensures Holds(jobs[j]) ==> Held(jobs) >= 1
  {
    var n := |jobs| - 1;
    if j == n {
      assert jobs[j := job][..n] == jobs[..n];
    } else {
      assert jobs[j := job][..n] == jobs[..n][j := job];
      HeldUpdate(jobs[..n], j, job);
    }
  }

  /** One job's ledger of callbacks: armed once, released once, reaped only if deferred. */
  ghost predicate JobGood(job: Job) {
    && job.callbacks[Release] + job.released == (if job.phase == Armed then 1 else 0)
    && job.callbacks[Reap] + job.reaped == (if job.deferred then 1 else 0)
    && (job.released + job.reaped > 0 ==> job.outcome.Some?)
    && (job.deferred ==> job.phase == Armed)
    && (job.phase == Reserved || job.phase == Unsubmitted ==> job.outcome.None?)
    && (job.outcome.Some? ==> Answers(job.kind, job.outcome.value))
  }

  ghost predicate SlotsGood(s: State, cfg: Config) {
    && s.inflight == Held(s.jobs) <= cfg.maxInflight
    && forall j | 0 <= j < |s.jobs| :: JobGood(s.jobs[j])
  }

  lemma MovedGood(job: Job, step: Step)
    requires JobGood(job) && JobEnabled(job, step)
    ensures JobGood(Moved(job, step))
    ensures Holds(Moved(job, step)) == (Holds(job) && !GivesBack(step))
    ensures GivesBack(step) ==> Holds(job)
  {
  }

  lemma {:induction false} SlotsStep(s: State, step: Step, cfg: Config)
    requires SlotsGood(s, cfg) && Enabled(s, step)
    ensures SlotsGood(Apply(s, step, cfg), cfg)
  {
    var t := Apply(s, step, cfg);
    if OnJob(step) {
      MovedGood(s.jobs[step.j], step);
      HeldUpdate(s.jobs, step.j, Moved(s.jobs[step.j], step));
    } else if step.Reserve? && Admit(s, cfg).Admitted? {
      assert t.jobs[..|s.jobs|] == s.jobs;
    }
  }

  // ---------------------------------------------------------------- the log

  /** Entries one job owes the log: for a submission that raised, and for a late failure. */
  ghost function JobOwes(job: Job, late: bool): nat {
    if late then (if job.outcome.Some? && Tells(job.kind, job.outcome.value) then job.reaped else 0)
    else if job.phase == Unsubmitted then 1 else 0
  }

  /** How often each entry must be on the log. */
  ghost function Owed(s: State, e: Entry): nat {
    match e
    case SubmitFailed(j) => if j < |s.jobs| then JobOwes(s.jobs[j], false) else 0
    case LateFailure(j) => if j < |s.jobs| then JobOwes(s.jobs[j], true) else 0
    case AtClose(c, j) =>
      if c < |s.closings| && s.closings[c].reported then multiset(s.closings[c].unconfirmed)[j] else 0
  }

  ghost predicate LogGood(s: State, cfg: Config) {
    AccountGood(s.account, cfg.maxAbandoned) && forall e :: multiset(s.account.log)[e] == Owed(s, e)
  }

  /** A job's step makes it owe exactly what it puts on the log, and no other job. */
  lemma OwedByJob(job: Job, step: Step, e: Entry)
    requires JobGood(job) && JobEnabled(job, step)
    ensures !e.AtClose? && e.job == step.j ==>
              JobOwes(Moved(job, step), e.LateFailure?) == JobOwes(job, e.LateFailure?) + multiset(Told(job, step))[e]
    ensures e.AtClose? || e.job != step.j ==> multiset(Told(job, step))[e] == 0
  {
  }

  lemma {:induction false} CloseEntriesCount(c: nat, unconfirmed: seq<nat>, e: Entry)
    ensures multiset(CloseEntries(c, unconfirmed))[e] ==
            if e.AtClose? && e.call == c then multiset(unconfirmed)[e.job] else 0
    decreases |unconfirmed|
  {
    if unconfirmed != [] {
      var n := |unconfirmed| - 1;
      CloseEntriesCount(c, unconfirmed[..n], e);
      assert CloseEntries(c, unconfirmed) == CloseEntries(c, unconfirmed[..n]) + [AtClose(c, unconfirmed[n])];
      assert unconfirmed == unconfirmed[..n] + [unconfirmed[n]];
    }
  }

  /** What is owed grows by exactly what the step adds to the log. */
  lemma OwedAfterJob(s: State, step: Step, cfg: Config, e: Entry)
    requires SlotsGood(s, cfg) && Enabled(s, step) && OnJob(step)
    ensures Owed(Apply(s, step, cfg), e) == Owed(s, e) + multiset(Told(s.jobs[step.j], step))[e]
  {
    hide AppendAll, Held, Snapshot, JobOwes, Told, Moved;
    assert JobGood(s.jobs[step.j]);
    OwedByJob(s.jobs[step.j], step, e);
  }

  lemma OwedAfterReport(s: State, c: nat, cfg: Config, e: Entry)
    requires Enabled(s, Report(c))
    ensures Owed(Apply(s, Report(c), cfg), e) == Owed(s, e) + multiset(CloseEntries(c, s.closings[c].unconfirmed))[e]
  {
    hide AppendAll, Snapshot;
    CloseEntriesCount(c, s.closings[c].unconfirmed, e);
  }

  lemma OwedAfterRest(s: State, step: Step, cfg: Config, e: Entry)
    requires ClosingsGood(s) && Enabled(s, step) && !OnJob(step) && !step.Report?
    ensures Owed(Apply(s, step, cfg), e) == Owed(s, e)
  {
    hide Drain, Snapshot, Held;
    if step.SettleOne? {
      assert ClosingGood(s.closings[step.c], s.jobs);
    }
  }

  /** The entries a step appends; a drain only moves them to the host. */
  function Appended(s: State, step: Step): seq<Entry>
    requires Enabled(s, step)
  {
    if OnJob(step) then Told(s.jobs[step.j], step)
    else if step.Report? then CloseEntries(step.c, s.closings[step.c].unconfirmed)
    else []
  }

  lemma {:induction false} AccountStep(s: State, step: Step, cfg: Config)
    requires AccountGood(s.account, cfg.maxAbandoned) && Enabled(s, step)
    ensures AccountGood(Apply(s, step, cfg).account, cfg.maxAbandoned)
    ensures Apply(s, step, cfg).account.log == s.account.log + Appended(s, step)
  {
    hide AccountGood, Append, Snapshot;
    AppendAllGood(s.account, cfg.maxAbandoned, Appended(s, step));
    DrainGood(s.account, cfg.maxAbandoned);
  }

  lemma {:induction false} LogStep(s: State, step: Step, cfg: Config)
    requires SlotsGood(s, cfg) && LogGood(s, cfg) && ClosingsGood(s) && Enabled(s, step)
    ensures LogGood(Apply(s, step, cfg), cfg)
  {
    hide Apply, AccountGood, SlotsGood, ClosingsGood, Owed, Told;
    AccountStep(s, step, cfg);
    forall e
      ensures multiset(Apply(s, step, cfg).account.log)[e] == Owed(Apply(s, step, cfg), e)
    {
      if OnJob(step) {
        OwedAfterJob(s, step, cfg, e);
      } else if step.Report? {
        OwedAfterReport(s, step.c, cfg, e);
      } else {
        OwedAfterRest(s, step, cfg, e);
      }
    }
  }

  // ---------------------------------------------------------------- close

  /** A close call sorts each write of its snapshot into exactly one list, by what it is then. */
  ghost predicate ClosingGood(k: Closing, jobs: seq<Job>) {
    && k.settled <= |k.named|
    && (forall j | j in k.named :: j < |jobs| && !jobs[j].kind.Read?)
    && Buckets(k) == multiset(k.named[..k.settled])
    && (forall j | j in k.landed :: j < |jobs| && jobs[j].outcome.Some? && Confirms(jobs[j].outcome.value))
    && (forall j | j in k.failed :: j < |jobs| && jobs[j].outcome.Some? && !Confirms(jobs[j].outcome.value))
    && (k.reported ==> k.settled == |k.named|)
    && Distinct(k.named)
  }

  predicate Distinct(xs: seq<nat>) {
    forall i, j | 0 <= i < j < |xs| :: xs[i] != xs[j]
  }

  ghost predicate ClosingsGood(s: State) {
    && (s.closings != [] ==> s.closed)
    && forall c | 0 <= c < |s.closings| :: ClosingGood(s.closings[c], s.jobs)
  }

  /** Jobs are never forgotten, and an outcome never changes. */
  predicate Extends(before: seq<Job>, after: seq<Job>) {
    && |before| <= |after|
    && forall j | 0 <= j < |before| ::
         after[j].kind == before[j].kind && (before[j].outcome.Some? ==> after[j].outcome == before[j].outcome)
  }

  lemma StepExtends(s: State, step: Step, cfg: Config)
    requires Enabled(s, step)
    ensures Extends(s.jobs, Apply(s, step, cfg).jobs)
  {
    hide AppendAll, Snapshot, Drain, Moved, JobEnabled, Sort, CloseEntries;
    if OnJob(step) {
      MovedKeeps(s.jobs[step.j], step);
    }
  }

  lemma MovedKeeps(job: Job, step: Step)
    requires JobEnabled(job, step)
    ensures Moved(job, step).kind == job.kind && (job.outcome.Some? ==> Moved(job, step).outcome == job.outcome)
  {
  }

  lemma NoneDistinct()
    ensures Distinct([])
  {
  }

  lemma DistinctMore(xs: seq<nat>, x: nat)
    requires Distinct(xs) && x !in xs
    ensures Distinct(xs + [x])
  {
    assert forall i | 0 <= i < |xs| :: xs[i] in xs;
  }

  lemma {:induction false} SnapshotExact(jobs: seq<Job>)
    ensures Distinct(Snapshot(jobs))
    ensures forall j: nat :: j in Snapshot(jobs) <==> j < |jobs| && Listed(jobs[j])
  {
    hide Distinct, Listed;
    if jobs == [] {
      NoneDistinct();
    } else {
      var n := |jobs| - 1;
      SnapshotExact(jobs[..n]);
      DistinctMore(Snapshot(jobs[..n]), n);
      assert Snapshot(jobs) == if Listed(jobs[n]) then Snapshot(jobs[..n]) + [n] else Snapshot(jobs[..n]);
    }
  }

  lemma ClosingFrame(k: Closing, before: seq<Job>, after: seq<Job>)
    requires ClosingGood(k, before) && Extends(before, after)
    ensures ClosingGood(k, after)
  {
  }

  /** The writes sorted so far, list by list. */
  function Buckets(k: Closing): multiset<nat> {
    multiset(k.landed) + multiset(k.unconfirmed) + multiset(k.failed)
  }

  lemma PlaceAddsOne(k: Closing, j: nat, bucket: Option<bool>)
    ensures Buckets(Place(k, j, bucket)) == Buckets(k) + multiset{j}
    ensures Place(k, j, bucket).settled == k.settled + 1
  {
  }

  lemma NoBuckets(named: seq<nat>)
    ensures Buckets(Closing(named, [], [], [], 0, false)) == multiset{}
  {
  }

  lemma {:induction false} SortGood(k: Closing, jobs: seq<Job>)
    requires ClosingGood(k, jobs) && Unsettled(k, |jobs|) && !k.reported
    ensures ClosingGood(Sort(k, jobs), jobs)
  {
    var j := k.named[k.settled];
    assert k.named[..k.settled + 1] == k.named[..k.settled] + [j];
    PlaceAddsOne(k, j, Settled(jobs[j].outcome));
  }

  lemma {:induction false} ClosingsStep(s: State, step: Step, cfg: Config)
    requires ClosingsGood(s) && Enabled(s, step)
    ensures ClosingsGood(Apply(s, step, cfg))
  {
    var t := Apply(s, step, cfg);
    StepExtends(s, step, cfg);
    forall c | 0 <= c < |t.closings|
      ensures ClosingGood(t.closings[c], t.jobs)
    {
      if c < |s.closings| {
        ClosingFrame(s.closings[c], s.jobs, t.jobs);
        if step == SettleOne(c) {
          SortGood(s.closings[c], s.jobs);
        }
      } else {
        SnapshotExact(s.jobs);
      }
    }
  }

  ghost predicate Inv(s: State, cfg: Config) {
    SlotsGood(s, cfg) && LogGood(s, cfg) && ClosingsGood(s)
  }

  lemma {:induction false} StepInv(s: State, step: Step, cfg: Config)
    requires Inv(s, cfg) && Enabled(s, step)
    ensures Inv(Apply(s, step, cfg), cfg)
  {
    hide SlotsGood, LogGood, ClosingsGood, Apply, Enabled;
    SlotsStep(s, step, cfg);
    LogStep(s, step, cfg);
    ClosingsStep(s, step, cfg);
  }

  lemma {:induction false} ReachesInv(s: State, steps: seq<Step>, t: State, cfg: Config)
    requires Inv(s, cfg) && Reaches(s, steps, t, cfg)
    ensures Inv(t, cfg)
    decreases |steps|
  {
    hide Inv, Apply, Enabled;
    if steps != [] {
      StepInv(s, steps[0], cfg);
      ReachesInv(Apply(s, steps[0], cfg), steps[1..], t, cfg);
    }
  }

  lemma InitInv(cfg: Config)
    ensures Inv(INIT, cfg)
  {
    hide AccountGood;
    FreshGood<Entry>(cfg.maxAbandoned);
    assert forall e :: multiset(INIT.account.log)[e] == Owed(INIT, e);
  }

  // ---------------------------------------------------------------- what every run guarantees

  /**
   In every reachable state `pending` is the number of jobs that hold a slot and is within its
   cap; no slot is given back twice; and a finished job whose callbacks have run has given its
   slot back exactly once.
   */
  lemma {:induction false} SlotsAreExact(cfg: Config, steps: seq<Step>, t: State)
    requires Reaches(INIT, steps, t, cfg)
    ensures t.inflight == Held(t.jobs) <= cfg.maxInflight
    ensures forall j | 0 <= j < |t.jobs| :: t.jobs[j].released <= 1
    ensures forall j | 0 <= j < |t.jobs| && t.jobs[j].phase.Armed? && t.jobs[j].callbacks == multiset{} ::
        t.jobs[j].released == 1
  {
    InitInv(cfg);
    ReachesInv(INIT, steps, t, cfg);
    forall j | 0 <= j < |t.jobs|
      ensures t.jobs[j].released <= 1
      ensures t.jobs[j].phase.Armed? && t.jobs[j].callbacks == multiset{} ==> t.jobs[j].released == 1
    {
      assert JobGood(t.jobs[j]);
    }
  }

  /**
   Once a deferred job's reap has run, its failure is on the log exactly once, and a success never is: a
   read fails when it raises, a write also when it does not answer ok.
   */
  lemma {:induction false} DeferredFailureLogged(cfg: Config, steps: seq<Step>, t: State, j: nat)
    requires Reaches(INIT, steps, t, cfg) && j < |t.jobs| && t.jobs[j].deferred && t.jobs[j].callbacks[Reap] == 0
    ensures t.jobs[j].outcome.Some?
    ensures var kind, outcome := t.jobs[j].kind, t.jobs[j].outcome.value;
            var failed := outcome.Raised? || (!kind.Read? && !(outcome.WithOk? && outcome.ok));
            multiset(t.account.log)[LateFailure(j)] == if failed then 1 else 0
  {
    InitInv(cfg);
    ReachesInv(INIT, steps, t, cfg);
    assert JobGood(t.jobs[j]);
    assert multiset(t.account.log)[LateFailure(j)] == Owed(t, LateFailure(j));
  }

  /**
   Saying from a write's outcome whether it was stored is right: an ingest write, never said to be
   stored, stored nothing, and another stored its text exactly when it answered ok.
   */
  predicate SaidRight(kind: Kind, outcome: Outcome) {
    if kind.Ingest? then !outcome.stored else outcome.stored == Confirms(outcome)
  }

  /**
   The ledger names a deferred write exactly when it was not stored, if and only if it is an
   ingest write that stored nothing or another that stored exactly when it answered ok. Every
   deferred ingest write is named.
   */
  lemma {:induction false} LedgerTrueIff(cfg: Config, steps: seq<Step>, t: State, j: nat)
    requires Reaches(INIT, steps, t, cfg) && j < |t.jobs| && !t.jobs[j].kind.Read? && t.jobs[j].deferred
    requires t.jobs[j].callbacks[Reap] == 0
    ensures t.jobs[j].outcome.Some? && (t.jobs[j].kind.Ingest? ==> LateFailure(j) in t.account.log)
    ensures var outcome := t.jobs[j].outcome.value;
            (LateFailure(j) in t.account.log <==> !outcome.stored) <==> SaidRight(t.jobs[j].kind, outcome)
  {
    InitInv(cfg);
    ReachesInv(INIT, steps, t, cfg);
    assert JobGood(t.jobs[j]);
    DeferredFailureLogged(cfg, steps, t, j);
    assert LateFailure(j) in t.account.log <==> multiset(t.account.log)[LateFailure(j)] > 0;
  }

  /**
   A finished `close` has put every write of its snapshot in exactly one list, and each
   unconfirmed one on the log. It lists a finished write as landed exactly when it answered ok, so
   no ingest write ever, and is right about what was stored under the same condition as the log.
   Drained records, dropped counts and what is still kept add up to everything ever logged.
   */
  lemma {:induction false} CloseAccounts(cfg: Config, steps: seq<Step>, t: State, c: nat)
    requires Reaches(INIT, steps, t, cfg) && c < |t.closings| && t.closings[c].reported
    ensures var k := t.closings[c];
            && multiset(k.landed) + multiset(k.unconfirmed) + multiset(k.failed) == multiset(k.named)
            && Distinct(k.named)
            && (forall j :: multiset(t.account.log)[AtClose(c, j)] == multiset(k.unconfirmed)[j])
            && (forall j | j in k.landed || j in k.failed ::
                  && j < |t.jobs| && t.jobs[j].outcome.Some?
                  && (j in k.landed <==> Confirms(t.jobs[j].outcome.value))
                  && (j in k.landed ==> t.jobs[j].kind.Remember?)
                  && ((j in k.landed <==> t.jobs[j].outcome.value.stored) <==>
                      SaidRight(t.jobs[j].kind, t.jobs[j].outcome.value)))
    ensures AbandonedLedger.Told(t.account.drains) + |t.account.kept| + t.account.dropped == |t.account.log|
  {
    InitInv(cfg);
    ReachesInv(INIT, steps, t, cfg);
    var k := t.closings[c];
    assert ClosingGood(k, t.jobs);
    assert k.named[..k.settled] == k.named;
    forall j | j in k.landed || j in k.failed
      ensures j < |t.jobs| && JobGood(t.jobs[j]) && j in k.named
    {
      ClosingLists(k, t.jobs, j);
    }
    forall j
      ensures multiset(t.account.log)[AtClose(c, j)] == multiset(k.unconfirmed)[j]
    {
      assert multiset(t.account.log)[AtClose(c, j)] == Owed(t, AtClose(c, j));
    }
  }

  // ---------------------------------------------------------------- which writes close can name

  /** A snapshot never changes, and a closed layer admits nothing. */
  lemma {:induction false} NamedStays(s: State, steps: seq<Step>, t: State, cfg: Config, c: nat)
    requires s.closed && c < |s.closings| && Reaches(s, steps, t, cfg)
    ensures t.closed && c < |t.closings| && t.closings[c].named == s.closings[c].named && |t.jobs| == |s.jobs|
    decreases |steps|
  {
    hide AppendAll, Snapshot, Drain;
    if steps != [] {
      NamedStays(Apply(s, steps[0], cfg), steps[1..], t, cfg, c);
    }
  }

  /**
   Of the writes that hold a slot when `close` begins, its report names exactly those whose
   thread had already registered them.
   */
  lemma {:induction false} CloseNamesIff(cfg: Config, before: seq<Step>, s: State, after: seq<Step>, t: State, j: nat)
    requires Reaches(INIT, before, s, cfg) && Reaches(Apply(s, BeginClose, cfg), after, t, cfg)
    requires j < |s.jobs| && !s.jobs[j].kind.Read? && Holds(s.jobs[j])
    requires |s.closings| < |t.closings| && t.closings[|s.closings|].reported
    ensures var k := t.closings[|s.closings|];
            (j in k.landed || j in k.unconfirmed || j in k.failed) <==>
                (s.jobs[j].phase.Registered? || s.jobs[j].phase.Armed?)
  {
    var c := |s.closings|;
    var u := Apply(s, BeginClose, cfg);
    InitInv(cfg);
    ReachesInv(INIT, before, s, cfg);
    StepInv(s, BeginClose, cfg);
    ReachesInv(u, after, t, cfg);
    NamedStays(u, after, t, cfg, c);
    SnapshotExact(s.jobs);
    ClosingLists(t.closings[c], t.jobs, j);
  }

  lemma ClosingLists(k: Closing, jobs: seq<Job>, j: nat)
    requires ClosingGood(k, jobs) && k.reported
    ensures j in k.named <==> j in k.landed || j in k.unconfirmed || j in k.failed
  {
    assert k.named[..k.settled] == k.named;
    assert j in k.named <==> j in multiset(k.named);
    assert j in multiset(k.named) <==>
        j in multiset(k.landed) || j in multiset(k.unconfirmed) || j in multiset(k.failed);
  }

  /** A write admitted before `close` that the report never mentions, still running afterwards. */
  lemma {:induction false} CloseMissesUnregistered(cfg: Config) returns (steps: seq<Step>, t: State)
    ensures Reaches(INIT, steps, t, cfg)
    ensures |t.jobs| == 1 && !t.jobs[0].kind.Read? && Holds(t.jobs[0]) && Running(t.jobs[0])
    ensures |t.closings| == 1 && t.closings[0].reported && t.closings[0].named == [] && t.account.log == []
  {
    var s1 := Apply(INIT, Reserve(Remember), cfg);
    var s2 := Apply(s1, Submit(0), cfg);
    var s3 := Apply(s2, BeginClose, cfg);
    assert s2.jobs[..0] == [];
    assert Snapshot(s2.jobs) == [];
    t := Apply(s3, Report(0), cfg);
    ReachesOne(s3, Report(0), [], t, cfg);
    ReachesOne(s2, BeginClose, [Report(0)] + [], t, cfg);
    ReachesOne(s1, Submit(0), [BeginClose] + ([Report(0)] + []), t, cfg);
    ReachesOne(INIT, Reserve(Remember), [Submit(0)] + ([BeginClose] + ([Report(0)] + [])), t, cfg);
    steps := [Reserve(Remember)] + ([Submit(0)] + ([BeginClose] + ([Report(0)] + [])));
  }

  lemma ReachesOne(s: State, step: Step, rest: seq<Step>, t: State, cfg: Config)
    requires Enabled(s, step) && Reaches(Apply(s, step, cfg), rest, t, cfg)
    ensures Reaches(s, [step] + rest, t, cfg)
  {
    assert ([step] + rest)[1..] == rest;
  }

  // ---------------------------------------------------------------- runs that misreport a write

  lemma {:induction false} ReachesThen(s: State, a: seq<Step>, mid: State, b: seq<Step>, t: State, cfg: Config)
    requires Reaches(s, a, mid, cfg) && Reaches(mid, b, t, cfg)
    ensures Reaches(s, a + b, t, cfg)
    decreases |a|
  {
    hide Apply, Enabled;
    if a == [] {
      assert a + b == b;
    } else {
      assert (a + b)[1..] == a[1..] + b;
      ReachesThen(Apply(s, a[0], cfg), a[1..], mid, b, t, cfg);
    }
  }

  lemma {:induction false} Takes(steps: seq<Step>, s: State, step: Step, cfg: Config)
    requires Reaches(INIT, steps, s, cfg) && Enabled(s, step)
    ensures Reaches(INIT, steps + [step], Apply(s, step, cfg), cfg)
  {
    hide Apply, Enabled;
    assert [step][1..] == [];
    ReachesThen(INIT, steps, s, [step], Apply(s, step, cfg), cfg);
  }

  /** A step on the only job. */
  lemma {:induction false} OnlyJobMoves(steps: seq<Step>, s: State, step: Step, cfg: Config)
    returns (more: seq<Step>, t: State)
    requires Reaches(INIT, steps, s, cfg) && |s.jobs| == 1 && OnJob(step) && step.j == 0 && JobEnabled(s.jobs[0], step)
    ensures Reaches(INIT, more, t, cfg) && t.jobs == [Moved(s.jobs[0], step)] && t.closings == s.closings
    ensures t.account == AppendAll(s.account, cfg.maxAbandoned, Told(s.jobs[0], step))
  {
    t := Apply(s, step, cfg);
    assert s.jobs[0 := Moved(s.jobs[0], step)] == [Moved(s.jobs[0], step)];
    hide AppendAll, Moved, Told, JobEnabled, Reaches;
    Takes(steps, s, step, cfg);
    more := steps + [step];
  }

  /** A write registered by its thread, whose job then finished in a given way. */
  lemma {:induction false} FinishedOnce(cfg: Config, kind: Kind, outcome: Outcome)
    returns (steps: seq<Step>, s: State)
    requires !kind.Read? && Answers(kind, outcome)
    ensures Reaches(INIT, steps, s, cfg) && s.closings == [] && s.account == Fresh()
    ensures s.jobs == [Job(kind, Registered, Some(outcome), multiset{}, false, 0, 0)]
  {
    Takes([], INIT, Reserve(kind), cfg);
    s := Apply(INIT, Reserve(kind), cfg);
    assert s.jobs == [Job(kind, Reserved, None, multiset{}, false, 0, 0)];
    steps := [] + [Reserve(kind)];
    hide Reaches, Apply;
    steps, s := OnlyJobMoves(steps, s, Submit(0), cfg);
    steps, s := OnlyJobMoves(steps, s, Register(0), cfg);
    steps, s := OnlyJobMoves(steps, s, Finish(0, outcome), cfg);
  }

  lemma NothingAppended(cfg: Config)
    ensures AppendAll<Entry>(Fresh(), cfg.maxAbandoned, []) == Fresh()
  {
  }

  lemma MisleadingEntry(cfg: Config, kind: Kind, outcome: Outcome)
    requires !kind.Read? && Answers(kind, outcome) && !SaidRight(kind, outcome)
    ensures var told := if Tells(kind, outcome) then [LateFailure(0)] else [];
            LateFailure(0) in AppendAll<Entry>(Fresh(), cfg.maxAbandoned, told).log <==> outcome.stored
  {
    hide AppendAll, AccountGood;
    var told := if Tells(kind, outcome) then [LateFailure(0)] else [];
    FreshGood<Entry>(cfg.maxAbandoned);
    AppendAllGood<Entry>(Fresh(), cfg.maxAbandoned, told);
    assert Fresh<Entry>().log + told == told;
  }

  /**
   Every way of being wrong happens: an ingest write stored and named all the same, also when its
   job raised after the write; another stored and then not confirmed, or confirmed and not stored.
   */
  lemma {:induction false} LogMisleads(cfg: Config, kind: Kind, outcome: Outcome)
    returns (steps: seq<Step>, t: State)
    requires !kind.Read? && Answers(kind, outcome) && !SaidRight(kind, outcome)
    ensures Reaches(INIT, steps, t, cfg) && |t.jobs| == 1 && t.jobs[0].kind == kind && t.jobs[0].deferred
    ensures t.jobs[0].outcome == Some(outcome) && t.jobs[0].callbacks[Reap] == 0
    ensures LateFailure(0) in t.account.log <==> outcome.stored
  {
    hide Reaches, AppendAll, Confirms, Answers;
    steps, t := FinishedOnce(cfg, kind, outcome);
    steps, t := OnlyJobMoves(steps, t, Arm(0), cfg);
    NothingAppended(cfg);
    steps, t := OnlyJobMoves(steps, t, TimeOut(0), cfg);
    steps, t := OnlyJobMoves(steps, t, Run(0, Reap), cfg);
    MisleadingEntry(cfg, kind, outcome);
  }

  /** The same writes, in time for `close`: in the wrong list. */
  lemma {:induction false} CloseMisleads(cfg: Config, kind: Kind, outcome: Outcome)
    returns (steps: seq<Step>, t: State)
    requires !kind.Read? && Answers(kind, outcome) && !SaidRight(kind, outcome)
    ensures Reaches(INIT, steps, t, cfg) && |t.jobs| == 1 && |t.closings| == 1
    ensures t.jobs[0].kind == kind && t.jobs[0].outcome == Some(outcome)
    ensures if outcome.stored then t.closings[0].failed == [0] else t.closings[0].landed == [0]
  {
    var first, s := FinishedOnce(cfg, kind, outcome);
    assert s.jobs[..0] == [];
    assert Snapshot(s.jobs) == [0];
    Takes(first, s, BeginClose, cfg);
    var closing := Apply(s, BeginClose, cfg);
    assert closing.closings == [Closing([0], [], [], [], 0, false)];
    Takes(first + [BeginClose], closing, SettleOne(0), cfg);
    t := Apply(closing, SettleOne(0), cfg);
    steps := first + [BeginClose] + [SettleOne(0)];
  }

  // ---------------------------------------------------------------- the sections as the layer runs them

  /** The slot counter and the closed flag, as fields. */
  class Slots {
    var closed: bool
    var inflight: nat
    const maxInflight: Capacity

    constructor (max: int)
      ensures !closed && inflight == 0 && maxInflight == Clamp(max)
    {
      closed, inflight, maxInflight := false, 0, Clamp(max);
    }

    /** Refuses rather than queues: closed first, then saturated. */
    method Reserve() returns (answer: Admission)
      requires inflight <= maxInflight
      modifies this`inflight
      ensures inflight <= maxInflight
      ensures answer == Admit(State(closed, old(inflight), [], Fresh(), []), Config(maxInflight, 1))
      ensures inflight == old(inflight) + if answer.Admitted? then 1 else 0
      ensures answer == if closed then Closed else if old(inflight) < maxInflight then Admitted else Saturated
    {
      if closed {
        return Closed;
      }
      if inflight >= maxInflight {
        return Saturated;
      }
      inflight := inflight + 1;
      return Admitted;
    }

    method Release()
      modifies this`inflight
      ensures inflight == if old(inflight) > 0 then old(inflight) - 1 else 0
    {
      inflight := if inflight == 0 then 0 else inflight - 1;
    }
  }

  /** The first `n` writes of a snapshot, sorted by what each future said when asked. */
  function Sorted(writes: seq<nat>, says: seq<Option<Outcome>>, n: nat): Closing
    requires n <= |writes| == |says|
  {
    if n == 0 then Closing(writes, [], [], [], 0, false)
    else Place(Sorted(writes, says, n - 1), writes[n - 1], Settled(says[n - 1]))
  }

  lemma {:induction false} SortedSays(writes: seq<nat>, says: seq<Option<Outcome>>, n: nat, k: nat)
    requires k < n <= |writes| == |says|
    ensures var t := Sorted(writes, says, n);
            writes[k] in if says[k].None? then t.unconfirmed
                         else if says[k].value.WithOk? && says[k].value.ok then t.landed else t.failed
    decreases n
  {
    if k < n - 1 {
      SortedSays(writes, says, n - 1, k);
    }
  }

  lemma {:induction false} SortedPartitions(writes: seq<nat>, says: seq<Option<Outcome>>, n: nat)
    requires n <= |writes| == |says|
    ensures Buckets(Sorted(writes, says, n)) == multiset(writes[..n]) && Sorted(writes, says, n).settled == n
  {
    hide Buckets, Place;
    if n == 0 {
      assert writes[..n] == [];
      NoBuckets(writes);
    } else {
      SortedPartitions(writes, says, n - 1);
      PlaceAddsOne(Sorted(writes, says, n - 1), writes[n - 1], Settled(says[n - 1]));
      assert writes[..n] == writes[..n - 1] + [writes[n - 1]];
    }
  }

  /** Every write of the snapshot ends in exactly one list. */
  method SettleWrites(writes: seq<nat>, says: seq<Option<Outcome>>)
    returns (landed: seq<nat>, unconfirmed: seq<nat>, failed: seq<nat>)
    requires |says| == |writes|
    ensures Closing(writes, landed, unconfirmed, failed, |writes|, false) == Sorted(writes, says, |writes|)
    ensures multiset(landed) + multiset(unconfirmed) + multiset(failed) == multiset(writes)
    ensures forall n | 0 <= n < |writes| ::
              writes[n] in if says[n].None? then unconfirmed
                           else if says[n].value.WithOk? && says[n].value.ok then landed else failed
  {
    landed, unconfirmed, failed := [], [], [];
    for n := 0 to |writes|
      invariant Closing(writes, landed, unconfirmed, failed, n, false) == Sorted(writes, says, n)
    {
      var bucket := Settled(says[n]);
      if bucket.None? {
        unconfirmed := unconfirmed + [writes[n]];
      } else if bucket.value {
        landed := landed + [writes[n]];
      } else {
        failed := failed + [writes[n]];
      }
    }
    SortedPartitions(writes, says, |writes|);
    assert writes[..|writes|] == writes;
    forall n | 0 <= n < |writes|
      ensures writes[n] in if says[n].None? then unconfirmed
                           else if says[n].value.WithOk? && says[n].value.ok then landed else failed
    {
      SortedSays(writes, says, |writes|, n);
    }
  }
}
