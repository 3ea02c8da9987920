/**
 The bus object: its critical sections as methods over the live subscribers and the broker
 queue. Each section is one function on what the object holds; the protocol's steps are proved
 to move the same view of a protocol state by the same function.
 */
module Bus {
  import opened Common
  import opened EventQueue
  import P = BusProtocol
  import Q = QueueLaws

  /** The kinds of the protected events one offer evicts, subscription by subscription. */
  function SacrificedKinds(states: seq<SubState>, e: Event): seq<string> {
    if states == [] then []
    else
      var n := |states| - 1;
      var k := Sacrificed(states[n], e);
      SacrificedKinds(states[..n], e) + (if k.Some? then [k.value] else [])
  }

  lemma SacrificedKindsNext(states: seq<SubState>, i: nat, e: Event)
    requires i < |states|
    ensures var k := Sacrificed(states[i], e);
            SacrificedKinds(states[..i + 1], e) == SacrificedKinds(states[..i], e) + (if k.Some? then [k.value] else [])
  {
    assert states[..i + 1][..i] == states[..i];
  }

  /** The kinds name, in order, the subscriptions whose full queue of protected events loses its oldest. */
  lemma {:induction false} SacrificedKindsAre(states: seq<SubState>, e: Event) returns (places: seq<nat>)
    ensures |places| == |SacrificedKinds(states, e)| && forall i, j | 0 <= i < j < |places| :: places[i] < places[j]
    ensures forall p :: p in places <==>
              && 0 <= p < |states| && !states[p].closed && |states[p].queue| >= states[p].maxsize && IsProtected(e)
              && (states[p].kinds.None? || e.kind in states[p].kinds.value)
              && (forall x | x in states[p].queue :: IsProtected(x))
    ensures forall i | 0 <= i < |places| ::
              && places[i] < |states| && states[places[i]].queue != []
              && SacrificedKinds(states, e)[i] == states[places[i]].queue[0].kind
    decreases |states|
  {
    places := [];
    if states != [] {
      var n := |states| - 1;
      places := SacrificedKindsAre(states[..n], e);
      var k := Sacrificed(states[n], e);
      hide Sacrificed, IsProtected;
      if k.Some? {
        places := places + [n];
      }
    }
  }

  // ---------------------------------------------------------------- the sections, as functions

  /** What the bus holds: the live subscriptions in order, the broker queue and the flags. */
  datatype View = View(
    seqNo: nat, live: seq<SubState>, queue: seq<Event>, qmax: Capacity, dropped: nat,
    alive: bool, stop: bool, closed: bool, disabled: bool)

  function OfferedAll(states: seq<SubState>, e: Event): (r: seq<SubState>)
    ensures |r| == |states|
  {
    seq(|states|, i requires 0 <= i < |states| => Offered(states[i], e))
  }

  function Committed(v: View, req: P.Request, refuse: bool): View {
    var e := Event(req.kind, v.seqNo + 1, req.data, 0);
    v.(seqNo := v.seqNo + 1, live := if refuse then v.live else OfferedAll(v.live, e))
  }

  function Ensured(v: View): View {
    v.(alive := v.alive || !v.stop)
  }

  predicate Skipped(v: View, e: Event) {
    e.kind in P.LOCAL_ONLY_KINDS || v.disabled
  }

  /** A drop-first event that finds the queue full is dropped itself and starts no worker. */
  function Enqueued(v: View, e: Event): View {
    if Skipped(v, e) then v
    else
      var w := v.(queue := Arrive(v.queue, v.qmax, e), dropped := v.dropped + |Cost(v.queue, v.qmax, e)|);
      if |v.queue| < v.qmax || IsProtected(e) then Ensured(w) else w
  }

  function Published(v: View, req: P.Request, refuse: bool): View {
    if v.closed then v
    else if refuse then Committed(v, req, true)
    else Enqueued(Committed(v, req, false), Event(req.kind, v.seqNo + 1, req.data, 0))
  }

  /** The worker's turn: stop wins over a backlog. */
  function WorkerTook(v: View): View {
    if v.stop then v.(alive := false)
    else if v.queue == [] then v
    else v.(queue := v.queue[1..])
  }

  function CloseBegun(v: View): View {
    v.(live := [], stop := true, closed := true)
  }

  // ---------------------------------------------------------------- the object

  class Bus {
    var seqNo: nat
    var subscribers: seq<Subscription>
    var closed: bool
    var stop: bool
    var workerAlive: bool
    var brokerDisabled: bool
    var brokerEventsDropped: nat
    const brokerQueue: Deque
    const brokerQueueMaxsize: Capacity

    /** Subscriptions are distinct objects and share no queue with each other or the broker. */
    ghost predicate Valid()
      reads this
    {
      && (forall i, j | 0 <= i < j < |subscribers| ::
            subscribers[i] != subscribers[j] && subscribers[i].queue != subscribers[j].queue)
      && (forall s | s in subscribers :: s.queue != brokerQueue)
    }

    ghost function Queues(): set<Deque>
      reads this
    {
      set s | s in subscribers :: s.queue
    }

    ghost function States(): (r: seq<SubState>)
      reads this, subscribers, Queues()
      ensures |r| == |subscribers|
    {
      seq(|subscribers|, i requires 0 <= i < |subscribers| reads this, subscribers, Queues() =>
        assert subscribers[i] in subscribers;
        subscribers[i].State())
    }

    ghost function Contents(): View
      reads this, subscribers, Queues(), brokerQueue
    {
      View(seqNo, States(), brokerQueue.items, brokerQueueMaxsize, brokerEventsDropped,
           workerAlive, stop, closed, brokerDisabled)
    }

    constructor (brokerQueueSize: int)
      ensures Valid() && subscribers == [] && seqNo == 0 && !closed && !stop && !workerAlive
      ensures fresh(brokerQueue) && brokerQueue.items == [] && brokerQueueMaxsize == Clamp(brokerQueueSize)
    {
      seqNo, subscribers := 0, [];
      closed, stop, workerAlive, brokerDisabled, brokerEventsDropped := false, false, false, false, 0;
      brokerQueueMaxsize := Clamp(brokerQueueSize);
      brokerQueue := new Deque();
    }

    method Subscribe(kinds: Option<set<string>>, maxsize: int) returns (sub: Subscription)
      requires Valid()
      modifies this`subscribers
      ensures Valid() && fresh(sub) && fresh(sub.queue)
      ensures subscribers == old(subscribers) + [sub]
      ensures sub.State() == Fresh(kinds, maxsize)
      ensures Contents() == old(Contents()).(live := old(Contents()).live + [Fresh(kinds, maxsize)])
    {
      sub := new Subscription(kinds, maxsize);
      subscribers := subscribers + [sub];
    }

    /** One offer to every live subscription; the kinds sacrificed come back in order. */
    method OfferToSubscribersLocked(event: Event) returns (protectedKinds: seq<string>)
      requires Valid()
      modifies subscribers, Queues()
      ensures Valid()
      ensures protectedKinds == SacrificedKinds(old(States()), event)
      ensures forall s | s in subscribers :: s.State() == Offered(old(s.State()), event)
      ensures States() == OfferedAll(old(States()), event)
    {
      hide Offered, Sacrificed;
      protectedKinds := [];
      var i := 0;
      ghost var before := States();
      while i < |subscribers|
        invariant i <= |subscribers| && Valid()
        invariant protectedKinds == SacrificedKinds(before[..i], event)
        invariant forall j | 0 <= j < i :: subscribers[j].State() == Offered(old(subscribers[j].State()), event)
        invariant forall j | i <= j < |subscribers| :: subscribers[j].State() == old(subscribers[j].State())
      {
        var sub := subscribers[i];
        assert sub in subscribers && sub.queue in Queues();
        var sacrificed := sub.Offer(event);
        if sacrificed.Some? {
          protectedKinds := protectedKinds + [sacrificed.value];
        }
        SacrificedKindsNext(before, i, event);
        i := i + 1;
      }
      assert before[..i] == before;
    }

    /** The section under `_lock`: one number, the screening verdict, and, if accepted, delivery. */
    method CommitLocked(kind: string, data: string, refuse: bool)
      returns (event: Option<Event>, protectedKinds: seq<string>)
      requires Valid()
      modifies this`seqNo, subscribers, Queues()
      ensures Valid() && seqNo == old(seqNo) + 1
      ensures refuse ==> event == None && protectedKinds == []
      ensures refuse ==> forall s | s in subscribers :: s.State() == old(s.State())
      ensures !refuse ==> event == Some(Event(kind, seqNo, data, 0))
      ensures !refuse ==> protectedKinds == SacrificedKinds(old(States()), event.value)
      ensures !refuse ==> forall s | s in subscribers :: s.State() == Offered(old(s.State()), event.value)
      ensures Contents() == Committed(old(Contents()), P.Request(kind, data), refuse)
    {
      hide Offered, OfferedAll, SacrificedKinds;
      seqNo := seqNo + 1;
      if refuse {
        return None, [];
      }
      var candidate := Event(kind, seqNo, data, 0);
      event := Some(candidate);
      assert States() == old(States());
      protectedKinds := OfferToSubscribersLocked(candidate);
    }

    /** Handing one committed event to the broker fan-out queue. */
    method EnqueueBroker(event: Event)
      requires Valid()
      modifies this`brokerEventsDropped, this`workerAlive, brokerQueue
      ensures Valid()
      ensures var skipped := event.kind in P.LOCAL_ONLY_KINDS || brokerDisabled;
              var q := old(brokerQueue.items);
              && brokerQueue.items == (if skipped then q else Arrive(q, brokerQueueMaxsize, event))
              && brokerEventsDropped == old(brokerEventsDropped) + (if skipped then 0 else |Cost(q,
                  brokerQueueMaxsize, event)|)
              && (workerAlive && !old(workerAlive) ==> !stop)
              && (old(workerAlive) ==> workerAlive)
      ensures Contents() == Enqueued(old(Contents()), event)
    {
      hide Evicts;
      if event.kind in P.LOCAL_ONLY_KINDS || brokerDisabled {
        return;
      }
      var accept, droppedKind, _ := DropPolicy(brokerQueue, brokerQueueMaxsize, event.kind);
      if droppedKind.Some? {
        brokerEventsDropped := brokerEventsDropped + 1;
      }
      if accept {
        brokerQueue.items := brokerQueue.items + [event];
        EnsureBrokerThread();
      }
    }

    method EnsureBrokerThread()
      modifies this`workerAlive
      ensures workerAlive == (old(workerAlive) || !stop)
      ensures Contents() == Ensured(old(Contents()))
    {
      if workerAlive || stop {
        return;
      }
      workerAlive := true;
    }

    /** `publish` as one caller runs it: a closed bus or bad data costs no number and touches no queue. */
    method Publish(kind: string, data: string, valid: bool, refuse: bool) returns (event: Option<Event>)
      requires Valid()
      modifies this`seqNo, this`brokerEventsDropped, this`workerAlive, subscribers, Queues(), brokerQueue
      ensures Valid()
      ensures event.Some? <==> !old(closed) && valid && !refuse
      ensures seqNo == old(seqNo) + (if old(closed) || !valid then 0 else 1)
      ensures event.Some? ==> event.value == Event(kind, seqNo, data, 0)
      ensures forall s | s in subscribers ::
                s.State() == if event.Some? then Offered(old(s.State()), event.value) else old(s.State())
      ensures event.None? ==> brokerQueue.items == old(brokerQueue.items)
      ensures event.None? ==> brokerEventsDropped == old(brokerEventsDropped)
      ensures event.Some? ==>
                var skipped := kind in P.LOCAL_ONLY_KINDS || brokerDisabled;
                var q := old(brokerQueue.items);
                && brokerQueue.items == (if skipped then q else Arrive(q, brokerQueueMaxsize, event.value))
                && brokerEventsDropped == old(brokerEventsDropped) +
                                          (if skipped then 0 else |Cost(q, brokerQueueMaxsize, event.value)|)
      ensures Contents() == if valid then Published(old(Contents()), P.Request(kind, data), refuse) else old(Contents())
    {
      if closed || !valid {
        return None;
      }
      var protectedKinds;
      event, protectedKinds := CommitLocked(kind, data, refuse);
      if event.Some? {
        EnqueueBroker(event.value);
      }
    }

    /** The worker's section under `_broker_cv`, once its wait is over: stop wins over a backlog. */
    method TakeForBroker() returns (exit: bool, event: Option<Event>)
      requires Valid()
      modifies this`workerAlive, brokerQueue
      ensures exit == stop && (exit ==> event == None && !workerAlive && brokerQueue.items == old(brokerQueue.items))
      ensures !exit ==> workerAlive == old(workerAlive)
      ensures !exit && old(brokerQueue.items) == [] ==> event == None && brokerQueue.items == []
      ensures !exit && old(brokerQueue.items) != [] ==>
                event == Some(old(brokerQueue.items)[0]) && brokerQueue.items == old(brokerQueue.items)[1..]
      ensures Contents() == WorkerTook(old(Contents()))
    {
      if stop {
        workerAlive := false;
        return true, None;
      }
      if |brokerQueue.items| == 0 {
        return false, None;
      }
      event := Some(brokerQueue.items[0]);
      brokerQueue.items := brokerQueue.items[1..];
      exit := false;
    }

    /** `close` up to its `_broker_cv` section: closed first, then detach, shut and stop. */
    method BeginClose() returns (subscribersClosed: nat)
      requires Valid()
      modifies this`closed, this`stop, this`subscribers, subscribers
      ensures Valid() && closed && stop && subscribers == []
      ensures subscribersClosed == |old(subscribers)|
      ensures forall s | s in old(subscribers) :: s.State() == old(s.State()).(closed := true)
      ensures Contents() == CloseBegun(old(Contents()))
    {
      closed := true;
      var subs := subscribers;
      subscribers := [];
      var i := 0;
      while i < |subs|
        invariant i <= |subs|
        invariant forall j | 0 <= j < i :: subs[j].State() == old(subs[j].State()).(closed := true)
        invariant forall j | i <= j < |subs| :: subs[j].State() == old(subs[j].State())
        modifies subs
      {
        subs[i].Close();
        i := i + 1;
      }
      stop := true;
      subscribersClosed := |subs|;
    }
  }

  // ---------------------------------------------------------------- the protocol makes the same moves

  function LiveStates(subs: seq<P.Sub>): seq<SubState> {
    if subs == [] then []
    else
      var n := |subs| - 1;
      LiveStates(subs[..n]) + (if subs[n].live then [subs[n].trace.now] else [])
  }

  function ViewOf(s: P.State): View {
    View(s.front.seqNo, LiveStates(s.front.subs), s.pipe.queue, s.pipe.qmax, |s.pipe.evicted|,
         P.Alive(s.pipe.worker), s.stop, s.closed, s.conn.disabled)
  }

  lemma {:induction false} LiveOffered(subs: seq<P.Sub>, e: Event, count: nat)
    ensures LiveStates(P.OfferAll(subs, e, count)) == OfferedAll(LiveStates(subs), e)
    decreases |subs|
  {
    if subs != [] {
      var n := |subs| - 1;
      LiveOffered(subs[..n], e, count);
      assert P.OfferAll(subs, e, count)[..n] == P.OfferAll(subs[..n], e, count);
    }
  }

  lemma {:induction false} LiveLeft(subs: seq<P.Sub>)
    ensures LiveStates(P.LeaveAll(subs)) == []
    decreases |subs|
  {
    if subs != [] {
      var n := |subs| - 1;
      LiveLeft(subs[..n]);
      assert P.LeaveAll(subs)[..n] == P.LeaveAll(subs[..n]);
    }
  }

  lemma {:induction false} SubscribeStep(s: P.State, kinds: Option<set<string>>, maxsize: int)
    ensures ViewOf(P.Apply(s, P.Subscribe(kinds, maxsize))) ==
            ViewOf(s).(live := ViewOf(s).live + [Fresh(kinds, maxsize)])
  {
    var subs := P.Apply(s, P.Subscribe(kinds, maxsize)).front.subs;
    assert subs[..|subs| - 1] == s.front.subs;
  }

  lemma {:induction false} CommitView(f: P.Front, req: P.Request, refuse: bool)
    ensures var e, f' := P.Candidate(f, req), P.CommitFront(f, req, refuse);
            && e == Event(req.kind, f.seqNo + 1, req.data, 0) && f'.seqNo == f.seqNo + 1
            && LiveStates(f'.subs) == if refuse then LiveStates(f.subs) else OfferedAll(LiveStates(f.subs), e)
  {
    hide LiveStates, OfferedAll, P.OfferAll;
    LiveOffered(f.subs, P.Candidate(f, req), |f.published| + 1);
  }

  /** The section under `_lock`. */
  lemma {:induction false} CommitStep(s: P.State, req: P.Request, refuse: bool)
    requires P.Enabled(s, P.Commit(req, refuse))
    ensures ViewOf(P.Apply(s, P.Commit(req, refuse))) == Committed(ViewOf(s), req, refuse)
    ensures !refuse ==> P.Candidate(s.front, req) in P.Apply(s, P.Commit(req, refuse)).pipe.committed
  {
    hide LiveStates, OfferedAll, P.CommitFront, P.Alive;
    CommitView(s.front, req, refuse);
  }

  /** What a publisher does after its commit: the check, and unless skipped the queue and the worker. */
  function EnqueueSteps(v: View, e: Event): seq<P.Step> {
    if Skipped(v, e) then [P.Check(e)]
    else if |v.queue| < v.qmax || IsProtected(e) then [P.Check(e), P.Admit(e), P.EnsureThread]
    else [P.Check(e), P.Admit(e)]
  }

  lemma EnqueueStep1(s: P.State, e: Event)
    requires e in s.pipe.committed
    ensures P.Enabled(s, P.Check(e)) && ViewOf(P.Apply(s, P.Check(e))) == ViewOf(s)
    ensures !Skipped(ViewOf(s), e) ==> P.Enabled(P.Apply(s, P.Check(e)), P.Admit(e))
  {
  }

  lemma EnqueueStep2(s: P.State, e: Event)
    requires P.Enabled(s, P.Admit(e))
    ensures var t, v := P.Apply(s, P.Admit(e)), ViewOf(s);
            && ViewOf(t) == v.(queue := Arrive(v.queue, v.qmax, e), dropped := v.dropped + |Cost(v.queue, v.qmax, e)|)
            && (|v.queue| < v.qmax || IsProtected(e) ==> P.Enabled(t, P.EnsureThread))
  {
  }

  lemma EnsureStep(s: P.State)
    requires P.Enabled(s, P.EnsureThread)
    ensures ViewOf(P.Apply(s, P.EnsureThread)) == Ensured(ViewOf(s))
  {
  }

  /** Handing a committed event to the broker queue, run without interruption. */
  lemma {:induction false} EnqueueRun(s: P.State, e: Event) returns (t: P.State)
    requires e in s.pipe.committed
    ensures P.Reaches(s, EnqueueSteps(ViewOf(s), e), t) && ViewOf(t) == Enqueued(ViewOf(s), e)
  {
    hide P.Apply, P.Enabled, P.Reaches, ViewOf, Skipped, Arrive, Cost;
    EnqueueStep1(s, e);
    P.ReachesOne(s, P.Check(e));
    t := P.Apply(s, P.Check(e));
    if !Skipped(ViewOf(s), e) {
      EnqueueStep2(t, e);
      P.ReachesOne(t, P.Admit(e));
      var u := P.Apply(t, P.Admit(e));
      P.ReachesThen(s, [P.Check(e)], t, [P.Admit(e)], u);
      assert [P.Check(e)] + [P.Admit(e)] == [P.Check(e), P.Admit(e)];
      t := u;
      if |ViewOf(s).queue| < ViewOf(s).qmax || IsProtected(e) {
        EnsureStep(u);
        P.ReachesOne(u, P.EnsureThread);
        t := P.Apply(u, P.EnsureThread);
        assert [P.Check(e), P.Admit(e)] + [P.EnsureThread] == [P.Check(e), P.Admit(e), P.EnsureThread];
        P.ReachesThen(s, [P.Check(e)] + [P.Admit(e)], u, [P.EnsureThread], t);
      }
    }
  }

  lemma BeginPublishStep(s: P.State, req: P.Request, refuse: bool)
    requires !s.closed
    ensures P.Enabled(s, P.BeginPublish(req))
    ensures var u := P.Apply(s, P.BeginPublish(req));
            && ViewOf(u) == ViewOf(s) && !ViewOf(s).closed && P.Enabled(u, P.Commit(req, refuse))
            && P.Candidate(u.front, req) == Event(req.kind, ViewOf(s).seqNo + 1, req.data, 0)
  {
  }

  /** One `publish`, run without interruption, moves the view as the object's method does. */
  lemma {:induction false} PublishRun(s: P.State, req: P.Request, refuse: bool)
    returns (steps: seq<P.Step>, t: P.State)
    requires !s.closed
    ensures P.Reaches(s, steps, t) && ViewOf(t) == Published(ViewOf(s), req, refuse)
    ensures [P.BeginPublish(req), P.Commit(req, refuse)] <= steps
  {
    hide P.Apply, P.Enabled, P.Reaches, Enqueued, OfferedAll, ViewOf, P.Candidate;
    BeginPublishStep(s, req, refuse);
    var u := P.Apply(s, P.BeginPublish(req));
    CommitStep(u, req, refuse);
    P.ReachesOne(s, P.BeginPublish(req));
    P.ReachesOne(u, P.Commit(req, refuse));
    t := P.Apply(u, P.Commit(req, refuse));
    P.ReachesThen(s, [P.BeginPublish(req)], u, [P.Commit(req, refuse)], t);
    steps := [P.BeginPublish(req)] + [P.Commit(req, refuse)];
    if !refuse {
      var e := P.Candidate(u.front, req);
      var mid := t;
      t := EnqueueRun(mid, e);
      P.ReachesThen(s, steps, mid, EnqueueSteps(ViewOf(mid), e), t);
      steps := steps + EnqueueSteps(ViewOf(mid), e);
    }
  }

  /** The worker's section: it leaves exactly when stopped, else takes the oldest event if there is one. */
  lemma TakeStep(s: P.State)
    requires s.pipe.worker.Idle?
    ensures s.stop ==> P.Enabled(s, P.WorkerExit) && ViewOf(P.Apply(s, P.WorkerExit)) == WorkerTook(ViewOf(s))
    ensures !s.stop && s.pipe.queue != [] ==>
              && P.Enabled(s, P.PopOne) && ViewOf(P.Apply(s, P.PopOne)) == WorkerTook(ViewOf(s))
              && P.Apply(s, P.PopOne).pipe.worker.event == s.pipe.queue[0]
    ensures !P.Enabled(s, P.WorkerExit) && !P.Enabled(s, P.PopOne) <==> !s.stop && s.pipe.queue == []
    ensures !s.stop && s.pipe.queue == [] ==> WorkerTook(ViewOf(s)) == ViewOf(s)
  {
  }

  /** Closing one detached subscription: it alone changes, and the view does not. */
  lemma {:induction false} CloseSubStep(s: P.State, i: nat)
    requires i < |s.front.subs| && !s.front.subs[i].live
    ensures var t := P.Apply(s, P.CloseSub(i));
            && t.front.subs == s.front.subs[i := t.front.subs[i]] && !t.front.subs[i].live
            && t.front.subs[i].trace.now == s.front.subs[i].trace.now.(closed := true)
            && t.closers == s.closers && ViewOf(t) == ViewOf(s)
  {
    LiveFrame(s.front.subs, P.Apply(s, P.CloseSub(i)).front.subs);
  }

  lemma {:induction false} LiveFrame(a: seq<P.Sub>, b: seq<P.Sub>)
    requires |a| == |b| && forall i | 0 <= i < |a| :: a[i] == b[i] || (!a[i].live && !b[i].live)
    ensures LiveStates(a) == LiveStates(b)
    decreases |a|
  {
    if a != [] {
      LiveFrame(a[..|a| - 1], b[..|b| - 1]);
    }
  }

  /** The subscriptions a `close` has detached and now shuts, one after the other. */
  lemma {:induction false} CloseSubsRun(s: P.State, which: set<nat>, n: nat) returns (steps: seq<P.Step>, t: P.State)
    requires n <= |s.front.subs| && forall i | 0 <= i < |s.front.subs| :: !s.front.subs[i].live
    ensures P.Reaches(s, steps, t) && ViewOf(t) == ViewOf(s) && t.closers == s.closers
    ensures |t.front.subs| == |s.front.subs| && forall i | 0 <= i < |s.front.subs| ::
              && !t.front.subs[i].live
              && t.front.subs[i].trace.now ==
                 if i in which && i < n then s.front.subs[i].trace.now.(closed := true) else s.front.subs[i].trace.now
    decreases n
  {
    hide P.Apply, ViewOf;
    if n == 0 {
      return [], s;
    }
    var before, u := CloseSubsRun(s, which, n - 1);
    steps, t := before, u;
    if n - 1 in which {
      CloseSubStep(u, n - 1);
      t := P.Apply(u, P.CloseSub(n - 1));
      P.ReachesOne(u, P.CloseSub(n - 1));
      P.ReachesThen(s, before, u, [P.CloseSub(n - 1)], t);
      steps := before + [P.CloseSub(n - 1)];
    }
  }

  lemma {:induction false} DetachStep(s: P.State, c: nat)
    requires c < |s.closers| && s.closers[c].Marked?
    ensures P.Enabled(s, P.CloseStep(c))
    ensures var t := P.Apply(s, P.CloseStep(c));
            && t.closers == s.closers[c := P.Detached] && t.front == s.front.(subs := P.LeaveAll(s.front.subs))
            && ViewOf(t) == ViewOf(s).(live := [])
  {
    LiveLeft(s.front.subs);
  }

  lemma StopStep(s: P.State, c: nat)
    requires c < |s.closers| && s.closers[c].Detached?
    ensures P.Enabled(s, P.CloseStep(c))
    ensures var t := P.Apply(s, P.CloseStep(c)); t.front == s.front && ViewOf(t) == ViewOf(s).(stop := true)
  {
  }

  lemma MarkStep(s: P.State)
    ensures P.Enabled(s, P.BeginClose)
    ensures var t := P.Apply(s, P.BeginClose);
            ViewOf(t) == ViewOf(s).(closed := true) && t.front == s.front && t.closers == s.closers + [P.Marked]
  {
  }

  /** `close` up to its `_broker_cv` section, run without interruption. */
  lemma {:induction false} CloseRun(s: P.State) returns (steps: seq<P.Step>, t: P.State)
    ensures P.Reaches(s, steps, t) && ViewOf(t) == CloseBegun(ViewOf(s))
    ensures |t.front.subs| == |s.front.subs| && forall i | 0 <= i < |s.front.subs| ::
              t.front.subs[i].trace.now ==
              if s.front.subs[i].live then s.front.subs[i].trace.now.(closed := true) else s.front.subs[i].trace.now
  {
    hide P.Apply, P.Enabled, ViewOf, P.Reaches;
    var c := |s.closers|;
    MarkStep(s);
    var u1 := P.Apply(s, P.BeginClose);
    P.ReachesOne(s, P.BeginClose);
    DetachStep(u1, c);
    var u2 := P.Apply(u1, P.CloseStep(c));
    P.ReachesOne(u1, P.CloseStep(c));
    P.ReachesThen(s, [P.BeginClose], u1, [P.CloseStep(c)], u2);
    var which := set i: nat | i < |s.front.subs| && s.front.subs[i].live;
    var shuts, u3 := CloseSubsRun(u2, which, |s.front.subs|);
    P.ReachesThen(s, [P.BeginClose] + [P.CloseStep(c)], u2, shuts, u3);
    StopStep(u3, c);
    t := P.Apply(u3, P.CloseStep(c));
    P.ReachesOne(u3, P.CloseStep(c));
    P.ReachesThen(s, [P.BeginClose] + [P.CloseStep(c)] + shuts, u3, [P.CloseStep(c)], t);
    steps := [P.BeginClose] + [P.CloseStep(c)] + shuts + [P.CloseStep(c)];
  }
}
