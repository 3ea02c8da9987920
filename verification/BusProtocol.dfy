/**
 The event bus as an interleaving of its critical sections: publishers, subscribers, the
 lazily started broker worker, the retry tick and any number of `close` calls. One step is
 one section under `_lock`, `_broker_cv` or `_broker_lock`, or one unlocked read of `_closed`.
 */
module BusProtocol {
  import opened Common
  import opened EventQueue
  import Q = QueueLaws

  const LOCAL_ONLY_KINDS: set<string> := {"conversation"}

  // ---------------------------------------------------------------- in-process delivery, under `_lock`

  datatype Request = Request(kind: string, data: string)

  /** A subscription, and the slice of publications offered to it while registered and open. */
  datatype Sub = Sub(trace: Q.Trace, from: nat, upto: nat, live: bool)

  datatype Front = Front(seqNo: nat, published: seq<Event>, refused: set<nat>, subs: seq<Sub>)

  function OfferTo(sub: Sub, e: Event, count: nat): Sub {
    if !sub.live then sub
    else sub.(trace := Q.Step(sub.trace, Q.Offer(e)), upto := if sub.trace.now.closed then sub.upto else count)
  }

  function OfferAll(subs: seq<Sub>, e: Event, count: nat): (r: seq<Sub>)
    ensures |r| == |subs|
  {
    seq(|subs|, i requires 0 <= i < |subs| => OfferTo(subs[i], e, count))
  }

  function Candidate(f: Front, req: Request): Event {
    Event(req.kind, f.seqNo + 1, req.data, 0)
  }

  /** One section: a sequence number, the screening verdict, and delivery to every live subscriber. */
  function CommitFront(f: Front, req: Request, refuse: bool): Front {
    var e := Candidate(f, req);
    if refuse then f.(seqNo := f.seqNo + 1, refused := f.refused + {f.seqNo + 1})
    else Front(f.seqNo + 1, f.published + [e], f.refused, OfferAll(f.subs, e, |f.published| + 1))
  }

  function Leave(sub: Sub): Sub {
    sub.(live := false)
  }

  function LeaveAll(subs: seq<Sub>): (r: seq<Sub>)
    ensures |r| == |subs|
  {
    seq(|subs|, i requires 0 <= i < |subs| => Leave(subs[i]))
  }

  function Consume(sub: Sub, op: Q.Op): Sub {
    sub.(trace := Q.Step(sub.trace, op))
  }

  /** Sequence numbers: one per section, split between published and refused. */
  ghost predicate Numbered(f: Front) {
    && Q.Increasing(f.published)
    && (forall e | e in f.published :: 1 <= e.seqNo <= f.seqNo && e.gap == 0 && e.seqNo !in f.refused)
    && (forall n | n in f.refused :: 1 <= n <= f.seqNo)
    && |f.published| + |f.refused| == f.seqNo
  }

  predicate Asked(kinds: Option<set<string>>, e: Event) {
    kinds.None? || e.kind in kinds.value
  }

  function Wanted(kinds: Option<set<string>>, events: seq<Event>): seq<Event> {
    Filter(events, (e: Event) => Asked(kinds, e))
  }

  ghost predicate SubGood(sub: Sub, published: seq<Event>) {
    && Q.Good(sub.trace)
    && sub.from <= sub.upto <= |published|
    && sub.trace.accepted == Wanted(sub.trace.now.kinds, published[sub.from..sub.upto])
    && (sub.live && !sub.trace.now.closed ==> sub.upto == |published|)
  }

  ghost predicate FrontGood(f: Front) {
    Numbered(f) && forall i | 0 <= i < |f.subs| :: SubGood(f.subs[i], f.published)
  }

  lemma {:induction false} CommitNumbered(f: Front, req: Request, refuse: bool)
    requires Numbered(f)
    ensures Numbered(CommitFront(f, req, refuse))
  {
    var f' := CommitFront(f, req, refuse);
    if refuse {
      assert f.seqNo + 1 !in f.refused;
    } else {
      forall i, j | 0 <= i < j < |f'.published|
        ensures f'.published[i].seqNo < f'.published[j].seqNo
      {
        assert f.published[i] in f.published;
      }
    }
  }

  lemma WantedAppend(kinds: Option<set<string>>, events: seq<Event>, e: Event)
    ensures Wanted(kinds, events + [e]) == if Asked(kinds, e) then Wanted(kinds, events) + [e] else Wanted(kinds,
        events)
  {
    assert (events + [e])[..|events|] == events;
  }

  lemma OfferFrame(t: Q.Trace, e: Event)
    ensures var t' := Q.Step(t, Q.Offer(e));
            && t'.accepted == (if Q.Matches(t.now, e) then t.accepted + [e] else t.accepted)
            && t'.now.kinds == t.now.kinds && t'.now.closed == t.now.closed
  {
  }

  /** The slice a subscription was offered, after one more publication. */
  lemma SliceGrows(published: seq<Event>, from: nat, upto: nat, e: Event)
    requires from <= upto <= |published|
    ensures (published + [e])[from..upto] == published[from..upto]
    ensures upto == |published| ==> (published + [e])[from..upto + 1] == published[from..upto] + [e]
  {
  }

  lemma {:induction false} OfferOpenGood(sub: Sub, published: seq<Event>, e: Event)
    requires SubGood(sub, published) && e.gap == 0 && sub.live && !sub.trace.now.closed
    ensures SubGood(OfferTo(sub, e, |published| + 1), published + [e])
  {
    var sub' := OfferTo(sub, e, |published| + 1);
    SliceGrows(published, sub.from, sub.upto, e);
    WantedAppend(sub.trace.now.kinds, published[sub.from..sub.upto], e);
    OfferFrame(sub.trace, e);
    assert Q.Good(sub'.trace) by {
      Q.StepKeepsGood(sub.trace, Q.Offer(e));
    }
  }

  lemma {:induction false} OfferSubGood(sub: Sub, published: seq<Event>, e: Event)
    requires SubGood(sub, published) && e.gap == 0
    ensures SubGood(OfferTo(sub, e, |published| + 1), published + [e])
  {
    if sub.live && !sub.trace.now.closed {
      OfferOpenGood(sub, published, e);
    } else {
      SliceGrows(published, sub.from, sub.upto, e);
      OfferFrame(sub.trace, e);
      Q.StepKeepsGood(sub.trace, Q.Offer(e));
    }
  }

  lemma {:induction false} CommitFrontGood(f: Front, req: Request, refuse: bool)
    requires FrontGood(f)
    ensures FrontGood(CommitFront(f, req, refuse))
  {
    CommitNumbered(f, req, refuse);
    if !refuse {
      var e := Candidate(f, req);
      var f' := CommitFront(f, req, refuse);
      forall i | 0 <= i < |f'.subs|
        ensures SubGood(f'.subs[i], f'.published)
      {
        OfferSubGood(f.subs[i], f.published, e);
      }
    }
  }

  lemma {:induction false} ConsumeSubGood(sub: Sub, published: seq<Event>, op: Q.Op)
    requires SubGood(sub, published) && (op.Take? || op.Shut?)
    ensures SubGood(Consume(sub, op), published)
  {
    Q.StepKeepsGood(sub.trace, op);
  }

  lemma {:induction false} SubscribeSubGood(kinds: Option<set<string>>, maxsize: int, published: seq<Event>)
    ensures SubGood(Sub(Q.Start(kinds, maxsize), |published|, |published|, true), published)
  {
    Q.StartIsGood(kinds, maxsize);
    assert published[|published|..|published|] == [];
  }

  // ---------------------------------------------------------------- the broker pipeline

  /** Where a thread stands inside one publish-or-retry attempt on the connection. */
  datatype Stage =
    | Reset | ReadClosed | CheckDisabled | CoreReadClosed | EnsureCore
    | ClientReadClosed | EnsureClient | ReadCore | Hand

  datatype Worker = NoThread | Idle | Busy(event: Event, stage: Stage) | Dead

  datatype Pipe = Pipe(
    committed: multiset<Event>,   // publishers past the `_lock` section
    enabled: multiset<Event>,     // publishers about to enqueue for the broker
    skipped: multiset<Event>,     // local-only, or the broker was disabled at the check
    queue: seq<Event>,
    qmax: Capacity,
    evicted: multiset<Event>,
    worker: Worker,
    reached: seq<Event>,          // handed to the client's publish call, in order
    discarded: multiset<Event>)   // popped, then given up before the client

  predicate Alive(w: Worker) {
    w.Idle? || w.Busy?
  }

  function InFlight(p: Pipe): multiset<Event> {
    if p.worker.Busy? then multiset{p.worker.event} else multiset{}
  }

  /** Everything ever taken off the broker queue by the worker. */
  function PoppedEver(p: Pipe): multiset<Event> {
    InFlight(p) + multiset(p.reached) + p.discarded
  }

  /** Every event that entered the pipeline, wherever it is now. */
  function Flow(p: Pipe): multiset<Event> {
    p.committed + p.enabled + p.skipped + multiset(p.queue) + p.evicted + PoppedEver(p)
  }

  function Enter(p: Pipe, e: Event): Pipe {
    p.(committed := p.committed + multiset{e})
  }

  function CheckBroker(p: Pipe, e: Event, disabled: bool): Pipe
    requires e in p.committed
  {
    var p1 := p.(committed := p.committed - multiset{e});
    if e.kind in LOCAL_ONLY_KINDS || disabled then p1.(skipped := p.skipped + multiset{e})
    else p1.(enabled := p.enabled + multiset{e})
  }

  function Enqueue(p: Pipe, e: Event): Pipe
    requires e in p.enabled
  {
    p.(enabled := p.enabled - multiset{e},
       queue := Arrive(p.queue, p.qmax, e),
       evicted := p.evicted + multiset(Cost(p.queue, p.qmax, e)))
  }

  function Pop(p: Pipe): Pipe
    requires p.worker.Idle? && p.queue != []
  {
    p.(worker := Busy(p.queue[0], ReadClosed), queue := p.queue[1..])
  }

  function Discard(p: Pipe): Pipe
    requires p.worker.Busy?
  {
    p.(worker := Idle, discarded := p.discarded + multiset{p.worker.event})
  }

  function Deliver(p: Pipe): Pipe
    requires p.worker.Busy?
  {
    p.(worker := Idle, reached := p.reached + [p.worker.event])
  }

  lemma {:induction false} ArriveFlow(q: seq<Event>, m: Capacity, e: Event)
    requires |q| <= m
    ensures |Arrive(q, m, e)| <= m
    ensures multiset(Arrive(q, m, e)) + multiset(Cost(q, m, e)) == multiset(q) + multiset{e}
  {
    Q.ArriveShape(q, m, e);
    if |q| == m && !DropFirst(e) {
      Q.MultisetDelete(q, Victim(q));
    }
  }

  lemma {:induction false} PopFlow(p: Pipe)
    requires p.worker.Idle? && p.queue != []
    ensures Flow(Pop(p)) == Flow(p)
  {
    assert p.queue == [p.queue[0]] + p.queue[1..];
  }

  /** Moving `x` from `m` into `q` at the price of `cost` keeps the total. */
  lemma MoveOne<T>(m: multiset<T>, x: T, q: multiset<T>, q': multiset<T>, paid: multiset<T>, cost: multiset<T>)
    requires x in m && q' + cost == q + multiset{x}
    ensures (m - multiset{x}) + q' + (paid + cost) == m + q + paid
  {
    var rest := m - multiset{x};
    assert m == rest + multiset{x};
    assert rest + q' + (paid + cost) == rest + (q' + cost) + paid;
    assert rest + (q + multiset{x}) + paid == m + q + paid;
  }

  lemma Regroup<T>(a: multiset<T>, m: multiset<T>, b: multiset<T>, q: multiset<T>, paid: multiset<T>, c: multiset<T>)
    ensures a + m + b + q + paid + c == (m + q + paid) + (a + b + c)
  {
  }

  lemma EnqueueFlow(p: Pipe, e: Event)
    requires e in p.enabled && |p.queue| <= p.qmax
    ensures Flow(Enqueue(p, e)) == Flow(p) && |Enqueue(p, e).queue| <= p.qmax
  {
    var p' := Enqueue(p, e);
    ArriveFlow(p.queue, p.qmax, e);
    MoveOne(p.enabled, e, multiset(p.queue), multiset(p'.queue), p.evicted, multiset(Cost(p.queue, p.qmax, e)));
    assert PoppedEver(p') == PoppedEver(p);
    Regroup(p.committed, p.enabled, p.skipped, multiset(p.queue), p.evicted, PoppedEver(p));
    Regroup(p.committed, p'.enabled, p.skipped, multiset(p'.queue), p'.evicted, PoppedEver(p));
  }

  lemma CheckFlow(p: Pipe, e: Event, disabled: bool)
    requires e in p.committed
    ensures Flow(CheckBroker(p, e, disabled)) == Flow(p)
  {
  }

  // ---------------------------------------------------------------- the connection

  /**
   The broker connection, guarded by `_broker_lock`; `built` counts the clients installed, whether
   constructed there, made by the factory, or the one injected, installed again after it was let go.
   */
  datatype Conn = Conn(disabled: bool, core: bool, client: bool, built: nat)

  datatype Next = Go(stage: Stage) | GiveUp | Delivered

  /** What one stage does to the connection, and where the thread goes next. */
  function Connect(stage: Stage, conn: Conn, closed: bool, ok: bool): (Conn, Next) {
    match stage
    case Reset => if !conn.disabled then (conn, GiveUp) else (Conn(false, false, false, conn.built), Go(CoreReadClosed))
    case ReadClosed => (conn, if closed then GiveUp else Go(CheckDisabled))
    case CheckDisabled => (conn, if conn.disabled then GiveUp else Go(CoreReadClosed))
    case CoreReadClosed => (conn, if closed then GiveUp else Go(EnsureCore))
    case EnsureCore =>
      if conn.core then (conn, Go(ClientReadClosed))
      else if conn.disabled then (conn, GiveUp)
      else if !ok then (conn.(disabled := true), GiveUp)
      else (conn.(core := true), Go(ClientReadClosed))
    case ClientReadClosed => (conn, if closed then GiveUp else Go(EnsureClient))
    case EnsureClient =>
      if conn.client then (conn, Go(ReadCore))
      else if conn.disabled then (conn, GiveUp)
      else if !ok then (conn.(disabled := true), GiveUp)
      else (conn.(client := true, built := conn.built + 1), Go(ReadCore))
    case ReadCore => (conn, if conn.core then Go(Hand) else GiveUp)
    case Hand => (if ok then conn else conn.(disabled := true), Delivered)
  }

  function Advance(p: Pipe, next: Next): Pipe
    requires p.worker.Busy?
  {
    match next
    case Go(stage) => p.(worker := Busy(p.worker.event, stage))
    case GiveUp => Discard(p)
    case Delivered => Deliver(p)
  }

  lemma AdvanceFlow(p: Pipe, next: Next)
    requires p.worker.Busy?
    ensures PoppedEver(Advance(p, next)) == PoppedEver(p)
    ensures Flow(Advance(p, next)) == Flow(p)
    ensures Advance(p, next).queue == p.queue && Alive(Advance(p, next).worker)
  {
  }

  // ---------------------------------------------------------------- the whole system

  datatype Closer =
    | Marked
    | Detached
    | Stopped
    | Joined(workerStopped: bool)
    | Counted(workerStopped: bool, unsent: seq<Event>)
    | Returned(workerStopped: bool, unsent: seq<Event>)

  datatype State = State(
    front: Front,
    pipe: Pipe,
    conn: Conn,
    closed: bool,
    stop: bool,
    checked: multiset<Request>,   // publishers past the closed read
    starting: nat,                // publishers about to ensure the worker thread
    ticking: multiset<Stage>,     // retry ticks in progress
    closers: seq<Closer>)

  function Init(qmax: Capacity): State {
    State(Front(0, [], {}, []),
          Pipe(multiset{}, multiset{}, multiset{}, [], qmax, multiset{}, NoThread, [], multiset{}),
          Conn(false, false, false, 0), false, false, multiset{}, 0, multiset{}, [])
  }

  datatype Step =
    | BeginPublish(req: Request)
    | Commit(req: Request, refuse: bool)
    | Check(e: Event)
    | Admit(e: Event)
    | EnsureThread
    | Subscribe(kinds: Option<set<string>>, maxsize: int)
    | Unsubscribe(i: nat)
    | CloseSub(i: nat)
    | Get(i: nat)
    | PopOne
    | WorkerExit
    | Work(ok: bool)
    | TickBegin
    | TickWork(stage: Stage, ok: bool)
    | BeginClose
    | CloseStep(c: nat)

  predicate Enabled(s: State, step: Step) {
    match step
    case BeginPublish(_) => !s.closed
    case Commit(req, _) => req in s.checked
    case Check(e) => e in s.pipe.committed
    case Admit(e) => e in s.pipe.enabled
    case EnsureThread => s.starting > 0
    case Subscribe(_, _) => true
    case Unsubscribe(i) => i < |s.front.subs|
    case CloseSub(i) => i < |s.front.subs|
    case Get(i) => i < |s.front.subs|
    case PopOne => s.pipe.worker.Idle? && !s.stop && s.pipe.queue != []
    case WorkerExit => s.pipe.worker.Idle? && s.stop
    case Work(_) => s.pipe.worker.Busy?
    case TickBegin => !s.closed
    case TickWork(stage, _) => stage in s.ticking
    case BeginClose => true
    case CloseStep(c) => c < |s.closers| && !s.closers[c].Returned?
  }

  function EditSub(f: Front, i: nat, sub: Sub): Front
    requires i < |f.subs|
  {
    f.(subs := f.subs[i := sub])
  }

  function ApplyFront(s: State, step: Step): Front
    requires Enabled(s, step)
  {
    var f := s.front;
    match step
    case Commit(req, refuse) => CommitFront(f, req, refuse)
    case Subscribe(kinds, maxsize) =>
      f.(subs := f.subs + [Sub(Q.Start(kinds, maxsize), |f.published|, |f.published|, true)])
    case Unsubscribe(i) => EditSub(f, i, Leave(f.subs[i]))
    case CloseSub(i) => EditSub(f, i, Consume(f.subs[i], Q.Shut))
    case Get(i) => EditSub(f, i, Consume(f.subs[i], Q.Take))
    case CloseStep(c) => if s.closers[c].Marked? then f.(subs := LeaveAll(f.subs)) else f
    case _ => f
  }

  function ApplyPipe(s: State, step: Step): Pipe
    requires Enabled(s, step)
  {
    var p := s.pipe;
    match step
    case Commit(req, refuse) => if refuse then p else Enter(p, Candidate(s.front, req))
    case Check(e) => CheckBroker(p, e, s.conn.disabled)
    case Admit(e) => Enqueue(p, e)
    case EnsureThread => if Alive(p.worker) || s.stop then p else p.(worker := Idle)
    case PopOne => Pop(p)
    case WorkerExit => p.(worker := Dead)
    case Work(ok) => Advance(p, Connect(p.worker.stage, s.conn, s.closed, ok).1)
    case _ => p
  }

  function ApplyConn(s: State, step: Step): Conn
    requires Enabled(s, step)
  {
    match step
    case Work(ok) => Connect(s.pipe.worker.stage, s.conn, s.closed, ok).0
    case TickWork(stage, ok) => Connect(stage, s.conn, s.closed, ok).0
    case CloseStep(c) => if s.closers[c].Counted? then s.conn.(client := false) else s.conn
    case _ => s.conn
  }

  function ApplyTicking(s: State, step: Step): multiset<Stage>
    requires Enabled(s, step)
  {
    match step
    case TickBegin => s.ticking + multiset{Reset}
    case TickWork(stage, ok) =>
      var next := Connect(stage, s.conn, s.closed, ok).1;
      var rest := s.ticking - multiset{stage};
      if next.Go? && stage != EnsureClient then rest + multiset{next.stage} else rest
    case _ => s.ticking
  }

  /** The sections of one `close` call, in order. */
  function Progress(k: Closer, p: Pipe): Closer {
    match k
    case Marked => Detached
    case Detached => Stopped
    case Stopped => Joined(!Alive(p.worker))
    case Joined(w) => Counted(w, p.queue)
    case Counted(w, unsent) => Returned(w, unsent)
    case Returned(_, _) => k
  }

  function ApplyClosers(s: State, step: Step): seq<Closer>
    requires Enabled(s, step)
  {
    match step
    case BeginClose => s.closers + [Marked]
    case CloseStep(c) => s.closers[c := Progress(s.closers[c], s.pipe)]
    case _ => s.closers
  }

  function Apply(s: State, step: Step): State
    requires Enabled(s, step)
  {
    State(
      ApplyFront(s, step), ApplyPipe(s, step), ApplyConn(s, step),
      s.closed || step.BeginClose?,
      s.stop || (step.CloseStep? && s.closers[step.c].Detached?),
      match step
      case BeginPublish(req) => s.checked + multiset{req}
      case Commit(req, _) => s.checked - multiset{req}
      case _ => s.checked,
      match step
      case Admit(e) => if Policy(s.pipe.queue, s.pipe.qmax, e.kind).accept then s.starting + 1 else s.starting
      case EnsureThread => s.starting - 1
      case _ => s.starting,
      ApplyTicking(s, step), ApplyClosers(s, step))
  }

  /** `t` is what executing `steps`, each enabled in its turn, makes of `s`. */
  ghost predicate Reaches(s: State, steps: seq<Step>, t: State)
    decreases |steps|
  {
    if steps == [] then s == t
    else Enabled(s, steps[0]) && Reaches(Apply(s, steps[0]), steps[1..], t)
  }

  // ---------------------------------------------------------------- invariants of the whole system

  /** Every published event is in exactly one place on its way to the broker. */
  ghost predicate PipeGood(p: Pipe, published: seq<Event>) {
    |p.queue| <= p.qmax && Flow(p) == multiset(published)
  }

  /** What a `close` call has established by the section it has reached. */
  ghost predicate CloserGood(k: Closer, closed: bool, stop: bool, p: Pipe) {
    && closed
    && (!k.Marked? && !k.Detached? ==> stop)
    && ((k.Joined? || k.Counted? || k.Returned?) && k.workerStopped ==> !Alive(p.worker))
    && (k.Counted? || k.Returned? ==> forall e | e in k.unsent :: e in Flow(p) && e !in PoppedEver(p))
  }

  ghost predicate Inv(s: State) {
    && FrontGood(s.front)
    && PipeGood(s.pipe, s.front.published)
    && (s.stop ==> s.closed)
    && forall i | 0 <= i < |s.closers| :: CloserGood(s.closers[i], s.closed, s.stop, s.pipe)
  }

  lemma InitInv(qmax: Capacity)
    ensures Inv(Init(qmax))
  {
  }

  lemma LeaveGood(f: Front)
    requires FrontGood(f)
    ensures forall i | 0 <= i < |f.subs| :: SubGood(Leave(f.subs[i]), f.published)
  {
  }

  lemma {:induction false} StepFront(s: State, step: Step)
    requires FrontGood(s.front) && Enabled(s, step)
    ensures FrontGood(ApplyFront(s, step))
  {
    hide SubGood, CommitFront, Candidate, Consume, Leave, Q.Increasing;
    var f := s.front;
    LeaveGood(f);
    match step
    case Commit(req, refuse) => CommitFrontGood(f, req, refuse);
    case Subscribe(kinds, maxsize) => SubscribeSubGood(kinds, maxsize, f.published);
    case CloseSub(i) => ConsumeSubGood(f.subs[i], f.published, Q.Shut);
    case Get(i) => ConsumeSubGood(f.subs[i], f.published, Q.Take);
    case _ =>
  }

  lemma {:induction false} CommitPipe(s: State, req: Request, refuse: bool)
    requires PipeGood(s.pipe, s.front.published)
    ensures PipeGood(if refuse then s.pipe else Enter(s.pipe, Candidate(s.front, req)), CommitFront(s.front, req,
        refuse).published)
  {
  }

  lemma RestartFlow(p: Pipe, w: Worker)
    requires !p.worker.Busy? && !w.Busy?
    ensures Flow(p.(worker := w)) == Flow(p) && PoppedEver(p.(worker := w)) == PoppedEver(p)
  {
  }

  lemma PublishedFrame(s: State, step: Step)
    requires Enabled(s, step) && !step.Commit?
    ensures ApplyFront(s, step).published == s.front.published
  {
  }

  lemma PipeFrame(s: State, step: Step)
    requires Enabled(s, step)
    requires !step.Commit? && !step.Check? && !step.Admit? && !step.PopOne? && !step.Work?
    ensures var p' := ApplyPipe(s, step);
            p' == s.pipe.(worker := p'.worker) && (p'.worker == s.pipe.worker || (!p'.worker.Busy? &&
                !s.pipe.worker.Busy?))
  {
  }

  lemma {:induction false} StepFlow(s: State, step: Step)
    requires |s.pipe.queue| <= s.pipe.qmax && Enabled(s, step) && !step.Commit?
    ensures Flow(ApplyPipe(s, step)) == Flow(s.pipe)
    ensures |ApplyPipe(s, step).queue| <= ApplyPipe(s, step).qmax
  {
    var p, p' := s.pipe, ApplyPipe(s, step);
    if step.Check? {
      CheckFlow(p, step.e, s.conn.disabled);
    } else if step.Admit? {
      EnqueueFlow(p, step.e);
    } else if step.PopOne? {
      PopFlow(p);
    } else if step.Work? {
      AdvanceFlow(p, Connect(p.worker.stage, s.conn, s.closed, step.ok).1);
    } else {
      PipeFrame(s, step);
      if p'.worker != p.worker {
        RestartFlow(p, p'.worker);
      }
    }
  }

  lemma {:induction false} StepPipe(s: State, step: Step)
    requires PipeGood(s.pipe, s.front.published) && Enabled(s, step)
    ensures PipeGood(ApplyPipe(s, step), ApplyFront(s, step).published)
  {
    if step.Commit? {
      CommitPipe(s, step.req, step.refuse);
    } else {
      PublishedFrame(s, step);
      StepFlow(s, step);
    }
  }

  /** Only the worker's own steps touch what it popped. */
  lemma {:induction false} PoppedFrame(s: State, step: Step)
    requires Enabled(s, step) && !step.Work? && !step.PopOne?
    ensures var p' := ApplyPipe(s, step);
            && p'.reached == s.pipe.reached && p'.discarded == s.pipe.discarded
            && (p'.worker == s.pipe.worker || (!p'.worker.Busy? && !s.pipe.worker.Busy?))
            && (s.stop && Alive(p'.worker) ==> Alive(s.pipe.worker))
  {
  }

  /** After stop nothing is popped and no worker starts. */
  lemma {:induction false} StepPopped(s: State, step: Step)
    requires Enabled(s, step) && s.stop
    ensures PoppedEver(ApplyPipe(s, step)) == PoppedEver(s.pipe)
    ensures Alive(ApplyPipe(s, step).worker) ==> Alive(s.pipe.worker)
  {
    if step.Work? {
      AdvanceFlow(s.pipe, Connect(s.pipe.worker.stage, s.conn, s.closed, step.ok).1);
    } else if !step.PopOne? {
      PoppedFrame(s, step);
    }
  }

  lemma {:induction false} IncreasingOnce(s: seq<Event>, e: Event)
    requires Q.Increasing(s)
    ensures multiset(s)[e] <= 1
  {
    if s != [] {
      var n := |s| - 1;
      IncreasingOnce(s[..n], e);
      assert s == s[..n] + [s[n]];
      if s[n] == e {
        assert e !in s[..n];
        assert e !in multiset(s[..n]);
      }
    }
  }

  /** No published event sits in two places at once. */
  lemma {:induction false} QueuedOnce(s: State, e: Event)
    requires FrontGood(s.front) && PipeGood(s.pipe, s.front.published) && e in s.pipe.queue
    ensures e !in PoppedEver(s.pipe)
  {
    var published := s.front.published;
    assert e in multiset(s.pipe.queue);
    IncreasingOnce(published, e);
    assert multiset(s.pipe.queue)[e] >= 1 && Flow(s.pipe)[e] <= 1;
  }

  lemma {:induction false} ProgressGood(s: State, c: nat)
    requires Inv(s) && c < |s.closers|
    ensures CloserGood(Progress(s.closers[c], s.pipe), s.closed, s.stop || s.closers[c].Detached?, s.pipe)
  {
    if s.closers[c].Joined? {
      forall e | e in s.pipe.queue
        ensures e in Flow(s.pipe) && e !in PoppedEver(s.pipe)
      {
        assert e in multiset(s.pipe.queue);
        QueuedOnce(s, e);
      }
    }
  }

  lemma {:induction false} CloserMonotone(k: Closer, s: State, step: Step)
    requires Inv(s) && Enabled(s, step) && CloserGood(k, s.closed, s.stop, s.pipe)
    ensures CloserGood(k, Apply(s, step).closed, Apply(s, step).stop, ApplyPipe(s, step))
  {
    if s.stop {
      StepPopped(s, step);
    }
    StepPipe(s, step);
    FlowGrows(s, step);
  }

  lemma {:induction false} FlowGrows(s: State, step: Step)
    requires Inv(s) && Enabled(s, step)
    ensures forall e | e in Flow(s.pipe) :: e in Flow(ApplyPipe(s, step))
  {
    StepPipe(s, step);
    assert forall e | e in s.front.published :: e in ApplyFront(s, step).published;
  }

  lemma {:induction false} StepClosers(s: State, step: Step)
    requires Inv(s) && Enabled(s, step)
    ensures var t := Apply(s, step);
            forall i | 0 <= i < |t.closers| :: CloserGood(t.closers[i], t.closed, t.stop, t.pipe)
  {
    var t := Apply(s, step);
    forall i | 0 <= i < |t.closers|
      ensures CloserGood(t.closers[i], t.closed, t.stop, t.pipe)
    {
      if step.CloseStep? && step.c == i {
        ProgressGood(s, i);
      } else if i < |s.closers| {
        CloserMonotone(s.closers[i], s, step);
      }
    }
  }

  lemma {:induction false} StepInv(s: State, step: Step)
    requires Inv(s) && Enabled(s, step)
    ensures Inv(Apply(s, step))
  {
    StepFront(s, step);
    StepPipe(s, step);
    StepClosers(s, step);
    if step.CloseStep? {
      assert CloserGood(s.closers[step.c], s.closed, s.stop, s.pipe);
    }
  }

  lemma {:induction false} ReachesInv(s: State, steps: seq<Step>, t: State)
    requires Inv(s) && Reaches(s, steps, t)
    ensures Inv(t)
    decreases |steps|
  {
    if steps != [] {
      StepInv(s, steps[0]);
      ReachesInv(Apply(s, steps[0]), steps[1..], t);
    }
  }

  // ---------------------------------------------------------------- delivery order

  lemma {:induction false} FilterSubsequence<T(!new)>(s: seq<T>, keep: T -> bool)
    ensures Subsequence(Filter(s, keep), s)
  {
    if s != [] {
      var n := |s| - 1;
      FilterSubsequence(s[..n], keep);
      assert s == s[..n] + [s[n]];
      SubsequenceAppend(Filter(s[..n], keep), s[..n], s[n]);
      assert Filter(s, keep) == if keep(s[n]) then Filter(s[..n], keep) + [s[n]] else Filter(s[..n], keep);
    }
  }

  lemma {:induction false} SliceSubsequence<T(!new)>(s: seq<T>, lo: nat, hi: nat)
    requires lo <= hi <= |s|
    ensures Subsequence(s[lo..hi], s)
    decreases |s|
  {
    if lo == hi {
    } else if hi < |s| {
      SliceSubsequence(s[..|s| - 1], lo, hi);
      assert s[..|s| - 1][lo..hi] == s[lo..hi];
    } else {
      SliceSubsequence(s[..|s| - 1], lo, hi - 1);
      assert s[lo..hi][..hi - lo - 1] == s[..|s| - 1][lo..hi - 1];
    }
  }

  lemma {:induction false} SubInOrder(sub: Sub, published: seq<Event>)
    requires SubGood(sub, published)
    ensures Subsequence(Q.Surviving(sub.trace), published)
  {
    var slice := published[sub.from..sub.upto];
    SliceSubsequence(published, sub.from, sub.upto);
    FilterSubsequence(slice, (e: Event) => Asked(sub.trace.now.kinds, e));
    SubsequenceTrans(sub.trace.accepted, slice, published);
    SubsequenceTrans(Q.Surviving(sub.trace), sub.trace.accepted, published);
  }

  /**
   Under any interleaving, what a subscription handed out followed by what it still queues is
   a strictly `seqNo`-increasing subsequence of the published events; exactly the events it
   asked for between registration and leaving are accounted for; and a refused candidate's
   number appears nowhere.
   */
  lemma {:induction false} DeliveryOrder(qmax: Capacity, steps: seq<Step>, t: State, i: nat)
    requires Reaches(Init(qmax), steps, t) && i < |t.front.subs|
    ensures Q.Increasing(t.front.published) && Q.Increasing(Q.Surviving(t.front.subs[i].trace))
    ensures Subsequence(Q.Surviving(t.front.subs[i].trace), t.front.published)
    ensures forall e | e in Q.Surviving(t.front.subs[i].trace) :: e.seqNo !in t.front.refused
    ensures var sub := t.front.subs[i];
            && sub.from <= sub.upto <= |t.front.published|
            && (sub.live && !sub.trace.now.closed ==> sub.upto == |t.front.published|)
            && multiset(Wanted(sub.trace.now.kinds, t.front.published[sub.from..sub.upto]))
               == multiset(Q.Surviving(sub.trace)) + multiset(sub.trace.lost)
  {
    InitInv(qmax);
    ReachesInv(Init(qmax), steps, t);
    var sub := t.front.subs[i];
    SubInOrder(sub, t.front.published);
    Q.SubsequenceIncreasing(Q.Surviving(sub.trace), t.front.published);
    forall e | e in Q.Surviving(sub.trace)
      ensures e.seqNo !in t.front.refused
    {
      SubsequenceMember(Q.Surviving(sub.trace), t.front.published, e);
    }
  }

  lemma LeftStep(s: State, step: Step, i: nat)
    requires Enabled(s, step) && i < |s.front.subs| && !s.front.subs[i].live
    ensures var f := ApplyFront(s, step);
            i < |f.subs| && !f.subs[i].live && f.subs[i].trace.accepted == s.front.subs[i].trace.accepted
  {
    hide Taken, Offered, Arrive, Cost;
  }

  lemma {:induction false} LeftRun(s: State, steps: seq<Step>, t: State, i: nat)
    requires Reaches(s, steps, t) && i < |s.front.subs| && !s.front.subs[i].live
    ensures i < |t.front.subs| && t.front.subs[i].trace.accepted == s.front.subs[i].trace.accepted
    decreases |steps|
  {
    if steps != [] {
      LeftStep(s, steps[0], i);
      hide Enabled, ApplyFront;
      LeftRun(Apply(s, steps[0]), steps[1..], t, i);
    }
  }

  /** A subscription that left takes in no event published afterwards. */
  lemma {:induction false} LeftHearsNothing(s: State, i: nat, steps: seq<Step>, t: State)
    requires i < |s.front.subs| && Reaches(Apply(s, Unsubscribe(i)), steps, t)
    ensures i < |t.front.subs| && t.front.subs[i].trace.accepted == s.front.subs[i].trace.accepted
  {
    var u := Apply(s, Unsubscribe(i));
    assert !u.front.subs[i].live && u.front.subs[i].trace == s.front.subs[i].trace;
    hide Apply, Reaches, Enabled;
    LeftRun(u, steps, t, i);
  }

  // ---------------------------------------------------------------- close stops the broker

  /** `t`'s client saw at most the event in flight in `s`, beyond what `s`'s client saw. */
  predicate AtMostInFlight(s: Pipe, t: Pipe) {
    || t.reached == s.reached
    || (s.worker.Busy? && t.reached == s.reached + [s.worker.event])
  }

  /** Since `s`: nothing popped, no worker started, the in-flight event delivered at most once. */
  predicate Carried(s: Pipe, t: Pipe) {
    && AtMostInFlight(s, t)
    && PoppedEver(t) == PoppedEver(s)
    && (Alive(t.worker) ==> Alive(s.worker))
    && (t.worker.Busy? ==> s.worker.Busy? && t.worker.event == s.worker.event && t.reached == s.reached)
  }

  lemma {:induction false} AdvanceCarried(s: Pipe, u: Pipe, next: Next)
    requires u.worker.Busy? && Carried(s, u)
    ensures Carried(s, Advance(u, next))
  {
    AdvanceFlow(u, next);
  }

  lemma {:induction false} StoppedStep(s: Pipe, u: State, step: Step)
    requires u.stop && Enabled(u, step) && Carried(s, u.pipe)
    ensures Carried(s, ApplyPipe(u, step))
  {
    if step.Work? {
      AdvanceCarried(s, u.pipe, Connect(u.pipe.worker.stage, u.conn, u.closed, step.ok).1);
    } else if !step.PopOne? {
      PoppedFrame(u, step);
    }
  }

  lemma {:induction false} StoppedRun(s: Pipe, u: State, steps: seq<Step>, t: State)
    requires u.stop && Carried(s, u.pipe) && Reaches(u, steps, t)
    ensures Carried(s, t.pipe)
    decreases |steps|
  {
    if steps != [] {
      StoppedStep(s, u, steps[0]);
      StoppedRun(s, Apply(u, steps[0]), steps[1..], t);
    }
  }

  /**
   Once some `close` has been through its `_broker_cv` section, for every continuation: no
   event is popped, no worker thread starts, and at most the one already-popped event reaches
   the client.
   */
  lemma {:induction false} CloseStopsBroker(s: State, after: seq<Step>, t: State)
    requires s.stop && Reaches(s, after, t)
    ensures PoppedEver(t.pipe) == PoppedEver(s.pipe)
    ensures Alive(t.pipe.worker) ==> Alive(s.pipe.worker)
    ensures AtMostInFlight(s.pipe, t.pipe)
  {
    StoppedRun(s.pipe, s, after, t);
  }

  predicate Reporting(k: Closer) {
    k.Counted? || k.Returned?
  }

  lemma {:induction false} ReportStays(s: State, steps: seq<Step>, t: State, c: nat)
    requires Reaches(s, steps, t) && c < |s.closers| && Reporting(s.closers[c])
    ensures c < |t.closers| && Reporting(t.closers[c])
    ensures t.closers[c].unsent == s.closers[c].unsent && t.closers[c].workerStopped == s.closers[c].workerStopped
    decreases |steps|
  {
    if steps != [] {
      ReportStays(Apply(s, steps[0]), steps[1..], t, c);
    }
  }

  /**
   What a `close` call reports stays true for every continuation: no event it counted as
   unsent ever reaches the client, and when it reports the worker stopped the client sees
   nothing more at all.
   */
  lemma {:induction false} ReportIsTrue(qmax: Capacity, before: seq<Step>, s: State, after: seq<Step>, t: State, c: nat)
    requires Reaches(Init(qmax), before, s) && c < |s.closers| && Reporting(s.closers[c]) && Reaches(s, after, t)
    ensures forall e | e in s.closers[c].unsent :: e !in t.pipe.reached
    ensures s.closers[c].workerStopped ==> t.pipe.reached == s.pipe.reached
  {
    hide Reaches, FrontGood, PipeGood, Flow;
    InitInv(qmax);
    ReachesInv(Init(qmax), before, s);
    ReachesInv(s, after, t);
    ReportStays(s, after, t, c);
    assert CloserGood(t.closers[c], t.closed, t.stop, t.pipe) && CloserGood(s.closers[c], s.closed, s.stop, s.pipe);
    forall e | e in s.closers[c].unsent
      ensures e !in t.pipe.reached
    {
      assert e !in PoppedEver(t.pipe);
    }
    CloseStopsBroker(s, after, t);
  }

  /** Everything queued when a close call counts is named by its report, for ever. */
  lemma {:induction false} ReportNamesQueued(s: State, c: nat, after: seq<Step>, t: State)
    requires c < |s.closers| && s.closers[c].Joined? && Reaches(Apply(s, CloseStep(c)), after, t)
    ensures c < |t.closers| && Reporting(t.closers[c]) && t.closers[c].unsent == s.pipe.queue
  {
    hide Reaches;
    ReportStays(Apply(s, CloseStep(c)), after, t, c);
  }

  /** Past its first closed read, the in-flight event is the only one that can still be sent. */
  predicate ClosedCarried(s: Pipe, t: Pipe) {
    && AtMostInFlight(s, t)
    && (t.worker.Busy? && t.worker.stage != ReadClosed ==>
          s.worker.Busy? && t.worker.event == s.worker.event && t.reached == s.reached)
  }

  lemma {:induction false} ClosedStep(s: Pipe, u: State, step: Step)
    requires u.closed && ClosedCarried(s, u.pipe) && Enabled(u, step)
    ensures ClosedCarried(s, ApplyPipe(u, step))
  {
  }

  /** The same bound already holds from the moment `_closed` is set, before the worker is told to stop. */
  lemma {:induction false} ClosedBoundsSends(s: Pipe, u: State, steps: seq<Step>, t: State)
    requires u.closed && ClosedCarried(s, u.pipe) && Reaches(u, steps, t)
    ensures AtMostInFlight(s, t.pipe)
    decreases |steps|
  {
    if steps != [] {
      ClosedStep(s, u, steps[0]);
      ClosedBoundsSends(s, Apply(u, steps[0]), steps[1..], t);
    }
  }

  // ---------------------------------------------------------------- what never leaves the process

  /** No local-only event is past the check that keeps it in the process. */
  ghost predicate Remote(p: Pipe) {
    && (forall e | e in p.enabled || e in p.queue || e in p.reached || e in p.discarded :: e.kind !in LOCAL_ONLY_KINDS)
    && (p.worker.Busy? ==> p.worker.event.kind !in LOCAL_ONLY_KINDS)
  }

  lemma ArriveMembers(q: seq<Event>, m: Capacity, e: Event)
    requires |q| <= m
    ensures forall x | x in Arrive(q, m, e) :: x in q || x == e
  {
    Q.ArriveShape(q, m, e);
  }

  lemma {:induction false} RemoteStep(s: State, step: Step)
    requires Remote(s.pipe) && |s.pipe.queue| <= s.pipe.qmax && Enabled(s, step)
    ensures Remote(ApplyPipe(s, step))
  {
    hide Arrive, Cost, Connect, Candidate;
    if step.Admit? {
      ArriveMembers(s.pipe.queue, s.pipe.qmax, step.e);
    }
  }

  lemma {:induction false} RemoteRun(s: State, steps: seq<Step>, t: State)
    requires Inv(s) && Remote(s.pipe) && Reaches(s, steps, t)
    ensures Remote(t.pipe)
    decreases |steps|
  {
    if steps != [] {
      assert PipeGood(s.pipe, s.front.published);
      RemoteStep(s, steps[0]);
      StepInv(s, steps[0]);
      assert Apply(s, steps[0]).pipe == ApplyPipe(s, steps[0]);
      hide Inv, Remote, Apply, Enabled;
      RemoteRun(Apply(s, steps[0]), steps[1..], t);
    }
  }

  /** No event of a local-only kind is ever queued for the broker, let alone handed to its client. */
  lemma {:induction false} LocalNeverLeaves(qmax: Capacity, steps: seq<Step>, t: State)
    requires Reaches(Init(qmax), steps, t)
    ensures forall e | e in t.pipe.queue || e in t.pipe.reached :: e.kind !in LOCAL_ONLY_KINDS
  {
    InitInv(qmax);
    RemoteRun(Init(qmax), steps, t);
  }

  lemma {:induction false} SkippedRun(s: State, steps: seq<Step>, t: State)
    requires Reaches(s, steps, t)
    ensures s.pipe.skipped <= t.pipe.skipped
    decreases |steps|
  {
    if steps != [] {
      SkippedStep(s, steps[0]);
      hide Apply, Enabled;
      SkippedRun(Apply(s, steps[0]), steps[1..], t);
    }
  }

  lemma SkippedStep(s: State, step: Step)
    requires Enabled(s, step)
    ensures s.pipe.skipped <= Apply(s, step).pipe.skipped
  {
    hide Arrive, Cost, Connect, Candidate;
  }

  /** A skipped event is nowhere else. */
  lemma SkippedNowhere(t: State, e: Event)
    requires Inv(t) && e in t.pipe.skipped
    ensures e !in t.pipe.queue && e !in t.pipe.reached
  {
    assert PipeGood(t.pipe, t.front.published) && Numbered(t.front);
    IncreasingOnce(t.front.published, e);
    hide Inv, Numbered, FrontGood, PipeGood;
    assert Flow(t.pipe)[e] <= 1 && t.pipe.skipped[e] >= 1;
    assert multiset(t.pipe.queue)[e] == 0 && multiset(t.pipe.reached)[e] == 0;
  }

  lemma CheckSkips(s: State, e: Event)
    requires e in s.pipe.committed && (s.conn.disabled || e.kind in LOCAL_ONLY_KINDS)
    ensures Enabled(s, Check(e)) && e in Apply(s, Check(e)).pipe.skipped
  {
  }

  /** An event whose publisher finds the broker disabled, or its kind local, is never queued and never sent. */
  lemma {:induction false} SkippedStays(qmax: Capacity, before: seq<Step>, s: State, e: Event, after: seq<Step>,
      t: State)
    requires Reaches(Init(qmax), before, s) && e in s.pipe.committed
    requires s.conn.disabled || e.kind in LOCAL_ONLY_KINDS
    requires Reaches(Apply(s, Check(e)), after, t)
    ensures e !in t.pipe.queue && e !in t.pipe.reached
  {
    hide Inv, Apply, Enabled, Reaches, Init;
    CheckSkips(s, e);
    InitInv(qmax);
    ReachesInv(Init(qmax), before, s);
    StepInv(s, Check(e));
    ReachesInv(Apply(s, Check(e)), after, t);
    SkippedRun(Apply(s, Check(e)), after, t);
    SkippedNowhere(t, e);
  }

  // ---------------------------------------------------------------- the connection

  lemma ConnectMoves(stage: Stage, c: Conn, closed: bool, ok: bool)
    ensures var d := Connect(stage, c, closed, ok).0;
            var resets := c.disabled && stage == Reset;
            var loads := !c.core && !c.disabled && stage == EnsureCore;
            var builds := !c.client && !c.disabled && stage == EnsureClient;
            var fails := !ok && (loads || builds || stage == Hand);
            && (d.disabled <==> fails || (c.disabled && !resets))
            && (d.core <==> !resets && (c.core || (loads && ok)))
            && (d.client <==> !resets && (c.client || (builds && ok)))
            && d.built == c.built + (if builds && ok then 1 else 0)
  {
  }

  /** The stage a step works at, if it works on the connection, and whether what it tries succeeds. */
  function WorkedAt(s: State, step: Step): Option<(Stage, bool)> {
    if step.Work? && s.pipe.worker.Busy? then Some((s.pipe.worker.stage, step.ok))
    else if step.TickWork? then Some((step.stage, step.ok)) else None
  }

  /**
   What becomes of the connection, field by field. The broker is disabled by a failure to load the
   core, to build a client or to send, and enabled by a retry alone; a core and a client stand until a
   retry drops both, the client also until a close call drops it; and a client is installed only where
   there is none and the broker is enabled.
   */
  lemma {:induction false} ConnectionMoves(s: State, step: Step)
    requires Enabled(s, step)
    ensures var c, d, work := s.conn, ApplyConn(s, step), WorkedAt(s, step);
            var at, ok := if work.Some? then Some(work.value.0) else None, work.Some? && work.value.1;
            var resets := c.disabled && at == Some(Reset);
            var loads := !c.core && !c.disabled && at == Some(EnsureCore);
            var builds := !c.client && !c.disabled && at == Some(EnsureClient);
            var fails := !ok && (loads || builds || at == Some(Hand));
            var lets := step.CloseStep? && s.closers[step.c].Counted?;
            && (d.disabled <==> fails || (c.disabled && !resets))
            && (d.core <==> !resets && (c.core || (loads && ok)))
            && (d.client <==> !resets && !lets && (c.client || (builds && ok)))
            && d.built == c.built + (if builds && ok then 1 else 0)
  {
    hide Connect;
    match step
    case Work(ok) => ConnectMoves(s.pipe.worker.stage, s.conn, s.closed, ok);
    case TickWork(stage, ok) => ConnectMoves(stage, s.conn, s.closed, ok);
    case _ =>
  }

  function Rank(stage: Stage): nat {
    match stage
    case Reset => 9 case ReadClosed => 8 case CheckDisabled => 7 case CoreReadClosed => 6 case EnsureCore => 5
    case ClientReadClosed => 4 case EnsureClient => 3 case ReadCore => 2 case Hand => 1
  }

  /** Whether an event is sent from a stage on, if nobody interferes. */
  predicate Sends(stage: Stage, conn: Conn, closed: bool, loads: bool, builds: bool) {
    var at := Rank(stage);
    && (at >= 4 ==> !closed)
    && (at >= 7 ==> !conn.disabled)
    && (at >= 5 && !conn.core ==> !conn.disabled && loads)
    && (at >= 3 && !conn.client ==> !conn.disabled && builds)
    && (2 <= at < 5 ==> conn.core)
  }

  lemma ConnectSends(stage: Stage, conn: Conn, closed: bool, loads: bool, builds: bool, sends: bool)
    requires stage != Reset
    ensures var ok := if stage == EnsureCore then loads else if stage == EnsureClient then builds else sends;
            var (after, next) := Connect(stage, conn, closed, ok);
            var sent := Sends(stage, conn, closed, loads, builds);
            match next
            case Go(to) =>
              && to != Reset && Rank(to) < Rank(stage) && Sends(to, after, closed, loads, builds) == sent
              && after.disabled == (conn.disabled || (!sent && after.disabled))
            case GiveUp => !sent
            case Delivered => sent && after.disabled == (conn.disabled || !sends)
  {
  }

  lemma WorkEffect(s: State, ok: bool)
    requires s.pipe.worker.Busy?
    ensures var step := Work(ok);
            && Enabled(s, step)
            && var t := Apply(s, step);
               var (after, next) := Connect(s.pipe.worker.stage, s.conn, s.closed, ok);
               && t.conn == after && t.pipe == Advance(s.pipe, next) && t.front == s.front && t.closed == s.closed
  {
    hide Connect, Advance;
  }

  lemma {:induction false} Driven(s: State, loads: bool, builds: bool, sends: bool) returns (steps: seq<Step>, t: State)
    requires s.pipe.worker.Busy? && s.pipe.worker.stage != Reset
    ensures Reaches(s, steps, t) && t.pipe.worker == Idle && forall step | step in steps :: step.Work?
    ensures var sent := Sends(s.pipe.worker.stage, s.conn, s.closed, loads, builds);
            && t.pipe.reached == s.pipe.reached + (if sent then [s.pipe.worker.event] else [])
            && (sent ==> t.conn.disabled == (s.conn.disabled || !sends))
    ensures t.pipe.queue == s.pipe.queue && t.front == s.front
    decreases Rank(s.pipe.worker.stage)
  {
    hide Reaches, Apply, Enabled, Connect, Sends, Rank;
    var stage := s.pipe.worker.stage;
    var ok := if stage == EnsureCore then loads else if stage == EnsureClient then builds else sends;
    ConnectSends(stage, s.conn, s.closed, loads, builds, sends);
    WorkEffect(s, ok);
    ReachesOne(s, Work(ok));
    t := Apply(s, Work(ok));
    steps := [Work(ok)];
    if t.pipe.worker.Busy? {
      var more, u := Driven(t, loads, builds, sends);
      ReachesThen(s, steps, t, more, u);
      steps, t := steps + more, u;
    }
  }

  /**
   Left alone, the worker sends the event it took exactly when the bus is open, the broker enabled,
   and the core and the client are there or can be had; a failed send disables the broker.
   */
  lemma {:induction false} SendsIff(s: State, loads: bool, builds: bool, sends: bool)
    returns (steps: seq<Step>, t: State)
    requires s.pipe.worker.Busy? && s.pipe.worker.stage == ReadClosed
    ensures Reaches(s, steps, t) && t.pipe.worker == Idle && forall step | step in steps :: step.Work?
    ensures var ready := !s.closed && !s.conn.disabled && (s.conn.core || loads) && (s.conn.client || builds);
            && t.pipe.reached == s.pipe.reached + (if ready then [s.pipe.worker.event] else [])
            && (ready ==> t.conn.disabled == !sends)
    ensures t.pipe.queue == s.pipe.queue && t.front == s.front
  {
    steps, t := Driven(s, loads, builds, sends);
    hide Reaches;
  }

  lemma TickEffect(s: State, stage: Stage, ok: bool)
    requires stage in s.ticking
    ensures var step := TickWork(stage, ok);
            && Enabled(s, step)
            && var t := Apply(s, step);
               var (after, next) := Connect(stage, s.conn, s.closed, ok);
               && t.conn == after && t.pipe == s.pipe && t.front == s.front && t.closed == s.closed
               && (next.Go? && stage != EnsureClient ==> next.stage in t.ticking)
  {
    hide Connect;
  }

  /** A retry under way on a freshly enabled connection: nothing of what is still ahead of it is there. */
  predicate Retrying(stage: Stage, c: Conn) {
    && (stage.CoreReadClosed? || stage.EnsureCore? || stage.ClientReadClosed? || stage.EnsureClient?)
    && !c.disabled && !c.client && c.core == (stage.ClientReadClosed? || stage.EnsureClient?)
  }

  /** One move of it: on to the next stage, or to the end. */
  lemma RetryMoves(stage: Stage, c: Conn, loads: bool, builds: bool)
    requires Retrying(stage, c)
    ensures var (d, next) := Connect(stage, c, false, if stage == EnsureCore then loads else builds);
            var all := (c.core || loads) && builds;
            if next.Go? && stage != EnsureClient then
              Retrying(next.stage, d) && Rank(next.stage) < Rank(stage) && d.built == c.built
              && ((d.core || loads) && builds) == all
            else d.disabled == !all && (all ==> d.core && d.client && d.built == c.built + 1)
  {
  }

  lemma {:induction false} Retried(s: State, stage: Stage, loads: bool, builds: bool)
    returns (steps: seq<Step>, t: State)
    requires stage in s.ticking && !s.closed && Retrying(stage, s.conn)
    ensures Reaches(s, steps, t) && t.pipe == s.pipe && t.front == s.front
    ensures var all := (s.conn.core || loads) && builds;
            && t.conn.disabled == !all
            && (all ==> t.conn.core && t.conn.client && t.conn.built == s.conn.built + 1)
    decreases Rank(stage)
  {
    hide Reaches, Apply, Enabled, Connect, Rank, Retrying;
    var ok := if stage == EnsureCore then loads else builds;
    RetryMoves(stage, s.conn, loads, builds);
    TickEffect(s, stage, ok);
    ReachesOne(s, TickWork(stage, ok));
    t := Apply(s, TickWork(stage, ok));
    steps := [TickWork(stage, ok)];
    var next := Connect(stage, s.conn, s.closed, ok).1;
    if next.Go? && stage != EnsureClient {
      var more, u := Retried(t, next.stage, loads, builds);
      ReachesThen(s, steps, t, more, u);
      steps, t := steps + more, u;
    }
  }

  lemma RetryStarts(s: State)
    requires !s.closed && s.conn.disabled
    ensures Enabled(s, TickBegin) && Enabled(Apply(s, TickBegin), TickWork(Reset, true))
    ensures var t := Apply(Apply(s, TickBegin), TickWork(Reset, true));
            && t.conn == Conn(false, false, false, s.conn.built) && CoreReadClosed in t.ticking
            && t.pipe == s.pipe && t.front == s.front && !t.closed
  {
  }

  /**
   A retry tick on an open bus whose broker is disabled, left alone, loads the core and installs a new
   client, and the broker is enabled again exactly when both succeed.
   */
  lemma {:induction false} RetryRestores(s: State, loads: bool, builds: bool) returns (steps: seq<Step>, t: State)
    requires !s.closed && s.conn.disabled
    ensures steps != [] && steps[0] == TickBegin && Reaches(s, steps, t) && t.pipe == s.pipe && t.front == s.front
    ensures t.conn.disabled == !(loads && builds)
    ensures loads && builds ==> t.conn.core && t.conn.client && t.conn.built == s.conn.built + 1
  {
    hide Reaches, Apply, Enabled;
    RetryStarts(s);
    var u := Apply(s, TickBegin);
    var v := Apply(u, TickWork(Reset, true));
    ReachesOne(s, TickBegin);
    ReachesOne(u, TickWork(Reset, true));
    ReachesThen(s, [TickBegin], u, [TickWork(Reset, true)], v);
    var more;
    more, t := Retried(v, CoreReadClosed, loads, builds);
    ReachesThen(s, [TickBegin] + [TickWork(Reset, true)], v, more, t);
    steps := [TickBegin] + [TickWork(Reset, true)] + more;
  }

  // ---------------------------------------------------------------- clients built after close

  /** Some thread is past its last closed read on the way to building a client. */
  predicate Committing(s: State) {
    (s.pipe.worker.Busy? && s.pipe.worker.stage == EnsureClient) || EnsureClient in s.ticking
  }

  lemma ConnectBuilds(stage: Stage, conn: Conn, closed: bool, ok: bool)
    ensures stage != EnsureClient ==> Connect(stage, conn, closed, ok).0.built == conn.built
    ensures closed ==> Connect(stage, conn, closed, ok).1 != Go(EnsureClient)
  {
  }

  lemma {:induction false} NoBuildStep(s: State, step: Step)
    requires s.closed && !Committing(s) && Enabled(s, step)
    ensures ApplyConn(s, step).built == s.conn.built && !Committing(Apply(s, step))
  {
    match step
    case Work(ok) => ConnectBuilds(s.pipe.worker.stage, s.conn, s.closed, ok);
    case TickWork(stage, ok) => ConnectBuilds(stage, s.conn, s.closed, ok);
    case _ =>
  }

  /** Some thread past its last closed read finds the broker enabled, or a pending retry re-enables it. */
  predicate MayBuild(s: State) {
    Committing(s) && (!s.conn.disabled || Reset in s.ticking)
  }

  /** Only a retry tick re-enables the broker: the worker never stands at that stage. */
  predicate WorkerPastReset(p: Pipe) {
    p.worker.Busy? ==> p.worker.stage != Reset
  }

  lemma ConnectNeverResets(stage: Stage, conn: Conn, closed: bool, ok: bool)
    ensures Connect(stage, conn, closed, ok).1 != Go(Reset)
    ensures stage != Reset && conn.disabled ==> Connect(stage, conn, closed, ok).0.disabled
    ensures stage == EnsureClient && conn.disabled ==> Connect(stage, conn, closed, ok).0.built == conn.built
  {
  }

  lemma {:induction false} WorkerPastResetStep(s: State, step: Step)
    requires WorkerPastReset(s.pipe) && Enabled(s, step)
    ensures WorkerPastReset(ApplyPipe(s, step))
  {
    hide Connect;
    if step.Work? {
      ConnectNeverResets(s.pipe.worker.stage, s.conn, s.closed, step.ok);
    }
  }

  lemma {:induction false} WorkerPastResetRun(s: State, steps: seq<Step>, t: State)
    requires WorkerPastReset(s.pipe) && Reaches(s, steps, t)
    ensures WorkerPastReset(t.pipe)
    decreases |steps|
  {
    if steps != [] {
      WorkerPastResetStep(s, steps[0]);
      hide Enabled, Apply, WorkerPastReset;
      assert Apply(s, steps[0]).pipe == ApplyPipe(s, steps[0]) by {
        ApplyPipeOf(s, steps[0]);
      }
      WorkerPastResetRun(Apply(s, steps[0]), steps[1..], t);
    }
  }

  lemma ApplyPipeOf(s: State, step: Step)
    requires Enabled(s, step)
    ensures Apply(s, step).pipe == ApplyPipe(s, step)
  {
  }

  /** A disabled broker with no retry pending stays so while the bus is closed. */
  lemma {:induction false} DisabledStays(s: State, step: Step)
    requires s.closed && WorkerPastReset(s.pipe) && s.conn.disabled && Reset !in s.ticking && Enabled(s, step)
    ensures ApplyConn(s, step).disabled && ApplyConn(s, step).built == s.conn.built && Reset !in ApplyTicking(s, step)
  {
    hide Connect;
    match step
    case Work(ok) =>
      ConnectNeverResets(s.pipe.worker.stage, s.conn, s.closed, ok);
      ConnectBuilds(s.pipe.worker.stage, s.conn, s.closed, ok);
    case TickWork(stage, ok) =>
      ConnectNeverResets(stage, s.conn, s.closed, ok);
      ConnectBuilds(stage, s.conn, s.closed, ok);
    case _ =>
  }

  lemma {:induction false} NoBuildStays(s: State, step: Step)
    requires s.closed && WorkerPastReset(s.pipe) && !MayBuild(s) && Enabled(s, step)
    ensures ApplyConn(s, step).built == s.conn.built && !MayBuild(Apply(s, step))
  {
    if Committing(s) {
      DisabledStays(s, step);
    } else {
      NoBuildStep(s, step);
    }
  }

  /** Once the bus is closed and nothing may build, no client is ever built. */
  lemma {:induction false} NoBuildAfterClose(s: State, steps: seq<Step>, t: State)
    requires s.closed && WorkerPastReset(s.pipe) && !MayBuild(s) && Reaches(s, steps, t)
    ensures t.conn.built == s.conn.built
    decreases |steps|
  {
    if steps != [] {
      var u := Apply(s, steps[0]);
      NoBuildStays(s, steps[0]);
      WorkerPastResetStep(s, steps[0]);
      assert u.closed && u.pipe == ApplyPipe(s, steps[0]) && u.conn == ApplyConn(s, steps[0]);
      hide Enabled, Apply, MayBuild, WorkerPastReset;
      NoBuildAfterClose(u, steps[1..], t);
    }
  }

  /** `s` after one whole `close` call with nobody else moving. */
  function AfterClose(s: State): State {
    s.(front := s.front.(subs := LeaveAll(s.front.subs)), conn := s.conn.(client := false),
       closed := true, stop := true, closers := s.closers + [Returned(!Alive(s.pipe.worker), s.pipe.queue)])
  }

  function WithCloser(s: State, k: Closer): State {
    s.(closers := s.closers + [k])
  }

  lemma {:induction false} CloserMoves(s: State, k: Closer)
    requires !k.Returned?
    ensures Enabled(WithCloser(s, k), CloseStep(|s.closers|))
    ensures Apply(WithCloser(s, k), CloseStep(|s.closers|)) ==
            WithCloser(s.(front := if k.Marked? then s.front.(subs := LeaveAll(s.front.subs)) else s.front,
                          conn := if k.Counted? then s.conn.(client := false) else s.conn,
                          stop := s.stop || k.Detached?), Progress(k, s.pipe))
  {
    var all := s.closers + [k];
    assert all[|s.closers| := Progress(k, s.pipe)] == s.closers + [Progress(k, s.pipe)];
  }

  /** Moving call `k` one section on, then `rest`. */
  lemma {:induction false} CloserThen(s: State, k: Closer, rest: seq<Step>, t: State)
    requires !k.Returned?
    requires Reaches(WithCloser(s.(front := if k.Marked? then s.front.(subs := LeaveAll(s.front.subs)) else s.front,
                                   conn := if k.Counted? then s.conn.(client := false) else s.conn,
                                   stop := s.stop || k.Detached?), Progress(k, s.pipe)), rest, t)
    ensures Reaches(WithCloser(s, k), [CloseStep(|s.closers|)] + rest, t)
  {
    CloserMoves(s, k);
    assert ([CloseStep(|s.closers|)] + rest)[1..] == rest;
  }

  /** The sections before stop, and then those after it, of one `close` call run alone. */
  lemma {:induction false} CloseRunsToStop(s: State, rest: seq<Step>, t: State) returns (steps: seq<Step>)
    requires Reaches(WithCloser(s.(front := s.front.(subs := LeaveAll(s.front.subs)), closed := true,
        stop := true), Stopped), rest, t)
    ensures Reaches(s, steps, t)
  {
    var k := CloseStep(|s.closers|);
    var s1 := s.(closed := true);
    CloserThen(s1.(front := s.front.(subs := LeaveAll(s.front.subs))), Detached, rest, t);
    CloserThen(s1, Marked, [k] + rest, t);
    steps := [k] + ([k] + rest);
    assert Apply(s, BeginClose) == WithCloser(s1, Marked);
    assert ([BeginClose] + steps)[1..] == steps;
    steps := [BeginClose] + steps;
  }

  lemma {:induction false} CloseRunsFromStop(s: State) returns (steps: seq<Step>)
    ensures Reaches(WithCloser(s, Stopped), steps,
                    WithCloser(s.(conn := s.conn.(client := false)), Returned(!Alive(s.pipe.worker), s.pipe.queue)))
  {
    var k := CloseStep(|s.closers|);
    var w := !Alive(s.pipe.worker);
    var t := WithCloser(s.(conn := s.conn.(client := false)), Returned(w, s.pipe.queue));
    CloserThen(s, Counted(w, s.pipe.queue), [], t);
    CloserThen(s, Joined(w), [k] + [], t);
    CloserThen(s, Stopped, [k] + ([k] + []), t);
    steps := [k] + ([k] + ([k] + []));
  }

  /** One `close` call can run to its end from any state. */
  lemma {:induction false} CloseRuns(s: State) returns (steps: seq<Step>)
    ensures Reaches(s, steps, AfterClose(s))
  {
    var mid := s.(front := s.front.(subs := LeaveAll(s.front.subs)), closed := true, stop := true);
    steps := CloseRunsFromStop(mid);
    steps := CloseRunsToStop(s, steps, AfterClose(s));
  }

  /** From any state where a thread may build, a `close` call returns and a client is built after it. */
  lemma {:induction false} BuildAfterCloseRace(s: State) returns (steps: seq<Step>, last: seq<Step>, t: State)
    requires MayBuild(s)
    ensures Reaches(s, steps, AfterClose(s)) && Reaches(AfterClose(s), last, t)
    ensures t.conn.built == s.conn.built + 1
  {
    steps := CloseRuns(s);
    last, t := BuildsNow(AfterClose(s));
  }

  lemma ReachesOne(s: State, step: Step)
    requires Enabled(s, step)
    ensures Reaches(s, [step], Apply(s, step))
  {
    hide Apply;
    assert [step][1..] == [];
  }

  /** A retry under way enables a disabled broker and leaves the committed thread where it is. */
  lemma RetryEnables(s: State)
    requires Committing(s) && s.conn.disabled && Reset in s.ticking
    ensures Enabled(s, TickWork(Reset, true))
    ensures var u := Apply(s, TickWork(Reset, true));
            Committing(u) && !u.conn.disabled && !u.conn.client && u.conn.built == s.conn.built
  {
  }

  function BuildStep(s: State): Step {
    if EnsureClient in s.ticking then TickWork(EnsureClient, true) else Work(true)
  }

  lemma CommittedBuilds(s: State)
    requires Committing(s) && !s.conn.disabled && !s.conn.client
    ensures Enabled(s, BuildStep(s)) && Apply(s, BuildStep(s)).conn.built == s.conn.built + 1
  {
  }

  /** Without a cached client, the committed thread builds one. */
  lemma {:induction false} BuildsNow(s: State) returns (steps: seq<Step>, t: State)
    requires MayBuild(s) && !s.conn.client
    ensures Reaches(s, steps, t) && t.conn.built == s.conn.built + 1
  {
    var u := s;
    steps := [];
    if s.conn.disabled {
      RetryEnables(s);
      u := Apply(s, TickWork(Reset, true));
      ReachesOne(s, TickWork(Reset, true));
      steps := [TickWork(Reset, true)];
    }
    CommittedBuilds(u);
    hide Apply, Enabled;
    ReachesOne(u, BuildStep(u));
    ReachesThen(s, steps, u, [BuildStep(u)], Apply(u, BuildStep(u)));
    steps, t := steps + [BuildStep(u)], Apply(u, BuildStep(u));
  }

  /** Some continuation builds a client. */
  ghost predicate StillBuilds(s: State) {
    exists steps, t :: Reaches(s, steps, t) && t.conn.built > s.conn.built
  }

  /**
   "A closed bus builds no client" exactly: in every reachable closed state some continuation
   builds a client if and only if a thread is past its last closed read and the broker is enabled,
   or a retry that was already under way is about to enable it.
   */
  lemma {:induction false} StillBuildsIff(qmax: Capacity, before: seq<Step>, s: State)
    requires Reaches(Init(qmax), before, s) && s.closed
    ensures StillBuilds(s) <==> MayBuild(s)
  {
    hide Reaches, MayBuild, StillBuilds, WorkerPastReset;
    InitPastReset(qmax);
    WorkerPastResetRun(Init(qmax), before, s);
    if MayBuild(s) {
      MayBuildBuilds(s);
    } else if StillBuilds(s) {
      OnlyMayBuild(s);
    }
  }

  lemma InitPastReset(qmax: Capacity)
    ensures WorkerPastReset(Init(qmax).pipe)
  {
  }

  lemma {:induction false} MayBuildBuilds(s: State)
    requires MayBuild(s)
    ensures StillBuilds(s)
  {
    hide Reaches, MayBuild, AfterClose;
    var steps, last, t := BuildAfterCloseRace(s);
    ReachesThen(s, steps, AfterClose(s), last, t);
  }

  lemma {:induction false} OnlyMayBuild(s: State)
    requires s.closed && WorkerPastReset(s.pipe) && StillBuilds(s)
    ensures MayBuild(s)
  {
    hide Reaches, MayBuild, WorkerPastReset;
    if !MayBuild(s) {
      var steps, t :| Reaches(s, steps, t) && t.conn.built > s.conn.built;
      NoBuildAfterClose(s, steps, t);
      assert false;
    }
  }

  lemma {:induction false} ReachesThen(s: State, a: seq<Step>, mid: State, b: seq<Step>, t: State)
    requires Reaches(s, a, mid) && Reaches(mid, b, t)
    ensures Reaches(s, a + b, t)
    decreases |a|
  {
    hide Apply, Enabled;
    if a == [] {
      assert a + b == b;
    } else {
      assert (a + b)[1..] == a[1..] + b;
      ReachesThen(Apply(s, a[0]), a[1..], mid, b, t);
    }
  }

  /** A request that is not local-only. */
  const MIC: Request := Request("mic", "")

  const MIC_EVENT: Event := Event("mic", 1, "", 0)

  /** One publisher takes its event to the broker queue. */
  lemma {:induction false} OneQueued(qmax: Capacity) returns (steps: seq<Step>, s: State)
    ensures Reaches(Init(qmax), steps, s)
    ensures s.pipe.queue == [MIC_EVENT] && s.pipe.worker.NoThread? && s.starting == 1
    ensures !s.closed && !s.stop && s.conn == Conn(false, false, false, 0)
  {
    var s0 := Init(qmax);
    var s1 := s0.(checked := multiset{MIC});
    var s2 := s1.(checked := multiset{}, front := Front(1, [MIC_EVENT], {}, []), pipe := Enter(s0.pipe, MIC_EVENT));
    var s3 := s2.(pipe := s0.pipe.(enabled := multiset{MIC_EVENT}));
    s := s3.(pipe := Enqueue(s3.pipe, MIC_EVENT), starting := 1);
    assert Apply(s0, BeginPublish(MIC)) == s1;
    CommitsMic(s1, s2);
    ChecksMic(s2, s3);
    assert Apply(s3, Admit(MIC_EVENT)) == s;
    hide Apply;
    ReachesOne(s0, BeginPublish(MIC));
    ReachesOne(s1, Commit(MIC, false));
    ReachesOne(s2, Check(MIC_EVENT));
    ReachesOne(s3, Admit(MIC_EVENT));
    hide Enabled, Reaches;
    ReachesThen(s2, [Check(MIC_EVENT)], s3, [Admit(MIC_EVENT)], s);
    ReachesThen(s1, [Commit(MIC, false)], s2, [Check(MIC_EVENT)] + [Admit(MIC_EVENT)], s);
    steps := [BeginPublish(MIC)] + ([Commit(MIC, false)] + ([Check(MIC_EVENT)] + [Admit(MIC_EVENT)]));
    ReachesThen(s0, [BeginPublish(MIC)], s1, [Commit(MIC, false)] + ([Check(MIC_EVENT)] + [Admit(MIC_EVENT)]), s);
  }

  lemma CommitsMic(s: State, t: State)
    requires s.checked == multiset{MIC} && s.front == Front(0, [], {}, []) && s.pipe.committed == multiset{}
    requires t == s.(checked := multiset{}, front := Front(1, [MIC_EVENT], {}, []), pipe := Enter(s.pipe, MIC_EVENT))
    ensures Enabled(s, Commit(MIC, false)) && Apply(s, Commit(MIC, false)) == t
  {
    assert OfferAll([], MIC_EVENT, 1) == [];
    assert Candidate(s.front, MIC) == MIC_EVENT;
  }

  lemma ChecksMic(s: State, t: State)
    requires s.pipe.committed == multiset{MIC_EVENT} && s.pipe.enabled == multiset{} && !s.conn.disabled
    requires t == s.(pipe := s.pipe.(committed := multiset{}, enabled := multiset{MIC_EVENT}))
    ensures Enabled(s, Check(MIC_EVENT)) && Apply(s, Check(MIC_EVENT)) == t
  {
    assert MIC_EVENT.kind !in LOCAL_ONLY_KINDS;
  }

  /** A worker step that goes on to the next stage. */
  lemma {:induction false} WorkGoes(s0: State, steps: seq<Step>, s: State) returns (more: seq<Step>, t: State)
    requires Reaches(s0, steps, s) && s.pipe.worker.Busy?
    requires Connect(s.pipe.worker.stage, s.conn, s.closed, true).1.Go?
    ensures Reaches(s0, more, t) && t.closed == s.closed
    ensures var (conn, next) := Connect(s.pipe.worker.stage, s.conn, s.closed, true);
            t.conn == conn && t.pipe.worker == Busy(s.pipe.worker.event, next.stage)
  {
    t := Apply(s, Work(true));
    ReachesOne(s, Work(true));
    hide Apply, Enabled, Connect, Reaches;
    ReachesThen(s0, steps, s, [Work(true)], t);
    more := steps + [Work(true)];
  }

  lemma StartsWorker(s: State)
    requires s.starting > 0 && s.pipe.worker.NoThread? && !s.stop
    ensures Enabled(s, EnsureThread)
    ensures var t := Apply(s, EnsureThread);
            && t.pipe == s.pipe.(worker := Idle) && t.conn == s.conn && t.closed == s.closed && t.stop == s.stop
  {
  }

  lemma PopsFirst(s: State)
    requires s.pipe.worker.Idle? && !s.stop && s.pipe.queue != []
    ensures Enabled(s, PopOne)
    ensures var t := Apply(s, PopOne);
            t.pipe.worker == Busy(s.pipe.queue[0], ReadClosed) && t.conn == s.conn && t.closed == s.closed
  {
  }

  /** The thread starts and takes the event. */
  lemma {:induction false} OneTaken(qmax: Capacity) returns (steps: seq<Step>, s: State)
    ensures Reaches(Init(qmax), steps, s) && s.pipe.worker == Busy(MIC_EVENT, ReadClosed)
    ensures !s.closed && s.conn == Conn(false, false, false, 0)
  {
    hide Apply, Enabled, Reaches;
    var first, queued := OneQueued(qmax);
    StartsWorker(queued);
    var started := Apply(queued, EnsureThread);
    PopsFirst(started);
    s := Apply(started, PopOne);
    ReachesOne(queued, EnsureThread);
    ReachesOne(started, PopOne);
    ReachesThen(Init(qmax), first, queued, [EnsureThread], started);
    ReachesThen(Init(qmax), first + [EnsureThread], started, [PopOne], s);
    steps := first + [EnsureThread] + [PopOne];
  }

  /** From the start, one published event takes the worker past its last closed read. */
  lemma {:induction false} CommittingReachable(qmax: Capacity) returns (steps: seq<Step>, s: State)
    ensures Reaches(Init(qmax), steps, s) && Committing(s) && !s.conn.disabled && !s.closed
  {
    hide Reaches, Apply;
    steps, s := OneTaken(qmax);
    steps, s := WorkGoes(Init(qmax), steps, s);
    steps, s := WorkGoes(Init(qmax), steps, s);
    steps, s := WorkGoes(Init(qmax), steps, s);
    steps, s := WorkGoes(Init(qmax), steps, s);
    steps, s := WorkGoes(Init(qmax), steps, s);
  }

  /** So a run from the start builds a client after a `close` call has returned. */
  lemma {:induction false} BuildsAfterClose(qmax: Capacity)
    returns (before: seq<Step>, s: State, after: seq<Step>, t: State)
    ensures Reaches(Init(qmax), before, s) && s.closed && (exists c :: 0 <= c < |s.closers| && s.closers[c].Returned?)
    ensures Reaches(s, after, t) && t.conn.built > s.conn.built
  {
    var first, mid := CommittingReachable(qmax);
    var closing, last, end := BuildAfterCloseRace(mid);
    s := AfterClose(mid);
    ReachesThen(Init(qmax), first, mid, closing, s);
    before, after, t := first + closing, last, end;
    assert s.closers[|mid.closers|].Returned?;
    hide Reaches;
  }
}
