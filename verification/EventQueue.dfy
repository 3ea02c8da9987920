/**
 The bounded per-subscriber queue of the event bus: the eviction policy, the subscription
 object that applies it, and the pure step function both are proved against.
 */
module EventQueue {
  import opened Common

  /** Kinds sacrificed first under back-pressure. */
  const DROP_FIRST_KINDS: set<string> := {"features", "stream"}

  datatype Event = Event(kind: string, seqNo: nat, data: string, gap: nat)

  predicate DropFirst(e: Event) {
    e.kind in DROP_FIRST_KINDS
  }

  predicate IsProtected(e: Event) {
    !DropFirst(e)
  }

  /** The events that are not drop-first, in order. */
  function Protected(q: seq<Event>): seq<Event> {
    Filter(q, e => IsProtected(e))
  }

  function Without(q: seq<Event>, i: nat): seq<Event>
    requires i < |q|
  {
    q[..i] + q[i + 1..]
  }

  // ---------------------------------------------------------------- the eviction policy

  datatype Verdict = Verdict(kept: seq<Event>, accept: bool, droppedKind: Option<string>, sacrificed: bool)

  /** Position of the oldest drop-first event, or `|q|` when there is none. */
  function OldestDroppable(q: seq<Event>): (i: nat)
    ensures i <= |q|
    ensures forall j | 0 <= j < i :: IsProtected(q[j])
    ensures i < |q| ==> DropFirst(q[i])
  {
    if q == [] || DropFirst(q[0]) then 0 else 1 + OldestDroppable(q[1..])
  }

  /** The event that makes room in a full queue: the oldest drop-first one, else the oldest. */
  function Victim(q: seq<Event>): (i: nat)
    requires q != []
    ensures i < |q|
  {
    if OldestDroppable(q) < |q| then OldestDroppable(q) else 0
  }

  function Policy(q: seq<Event>, maxsize: Capacity, kind: string): Verdict
  {
    if |q| < maxsize then Verdict(q, true, None, false)
    else if kind in DROP_FIRST_KINDS then Verdict(q, false, Some(kind), false)
    else
      var v := Victim(q);
      Verdict(Without(q, v), true, Some(q[v].kind), IsProtected(q[v]))
  }

  /** The oldest drop-first event is at `i`. */
  predicate FirstDroppable(q: seq<Event>, i: int) {
    0 <= i < |q| && DropFirst(q[i]) && forall j | 0 <= j < i :: IsProtected(q[j])
  }

  lemma OldestIsFirst(q: seq<Event>)
    ensures forall i | FirstDroppable(q, i) :: i == OldestDroppable(q)
  {
    assert forall j | 0 <= j < OldestDroppable(q) :: !DropFirst(q[j]);
  }

  /**
   The eviction rule of the queue, stated by its effect: room takes the arrival; a full queue
   refuses a drop-first one and otherwise gives up its oldest drop-first event, else its oldest.
   */
  ghost predicate Evicts(q: seq<Event>, maxsize: Capacity, kind: string, v: Verdict) {
    && (|q| < maxsize ==> v == Verdict(q, true, None, false))
    && (|q| >= maxsize && kind in DROP_FIRST_KINDS ==> v == Verdict(q, false, Some(kind), false))
    && (forall i | FirstDroppable(q, i) && |q| >= maxsize && kind !in DROP_FIRST_KINDS ::
          v == Verdict(q[..i] + q[i + 1..], true, Some(q[i].kind), false))
    && (|q| >= maxsize && kind !in DROP_FIRST_KINDS && (forall e | e in q :: IsProtected(e)) ==>
          v == Verdict(q[1..], true, Some(q[0].kind), true))
  }

  lemma {:induction false} PolicyEvicts(q: seq<Event>, maxsize: Capacity, kind: string)
    ensures Evicts(q, maxsize, kind, Policy(q, maxsize, kind))
  {
    var k := OldestDroppable(q);
    OldestIsFirst(q);
    assert k < |q| ==> q[k] in q;
    assert q != [] ==> q[..0] + q[1..] == q[1..];
  }

  /** The queue after one arrival. */
  function Arrive(q: seq<Event>, maxsize: Capacity, e: Event): seq<Event>
  {
    var v := Policy(q, maxsize, e.kind);
    if v.accept then v.kept + [e] else v.kept
  }

  /** The events one arrival costs: nothing, the arrival itself, or the victim. */
  function Cost(q: seq<Event>, maxsize: Capacity, e: Event): seq<Event>
  {
    if |q| < maxsize then [] else if DropFirst(e) then [e] else [q[Victim(q)]]
  }

  /** A mutable queue, shared by reference between its owner and the policy. */
  class Deque {
    var items: seq<Event>

    constructor ()
      ensures items == []
    {
      items := [];
    }
  }

  method DropPolicy(queue: Deque, maxsize: Capacity, incomingKind: string)
    returns (accept: bool, droppedKind: Option<string>, sacrificed: bool)
    modifies queue
    ensures Verdict(queue.items, accept, droppedKind, sacrificed) == Policy(old(queue.items), maxsize, incomingKind)
    ensures Evicts(old(queue.items), maxsize, incomingKind, Verdict(queue.items, accept, droppedKind, sacrificed))
  {
    PolicyEvicts(queue.items, maxsize, incomingKind);
    hide Evicts;
    if |queue.items| < maxsize {
      return true, None, false;
    }
    if incomingKind in DROP_FIRST_KINDS {
      return false, Some(incomingKind), false;
    }
    var index := 0;
    while index < |queue.items|
      invariant index <= |queue.items| && queue.items == old(queue.items)
      invariant OldestDroppable(queue.items) == index + OldestDroppable(queue.items[index..])
    {
      var queued := queue.items[index];
      if queued.kind in DROP_FIRST_KINDS {
        queue.items := queue.items[..index] + queue.items[index + 1..];
        return true, Some(queued.kind), false;
      }
      assert queue.items[index..][1..] == queue.items[index + 1..];
      index := index + 1;
    }
    var evicted := queue.items[0];
    queue.items := queue.items[1..];
    return true, Some(evicted.kind), true;
  }

  // ---------------------------------------------------------------- the subscription

  datatype SubState = SubState(
    kinds: Option<set<string>>, maxsize: Capacity, queue: seq<Event>,
    pending: nat, lifetime: nat, byKind: map<string, nat>, protectedDrops: nat, closed: bool)

  function Fresh(kinds: Option<set<string>>, maxsize: int): SubState {
    SubState(kinds, Clamp(maxsize), [], 0, 0, map[], 0, false)
  }

  predicate Wants(s: SubState, e: Event) {
    s.kinds.None? || e.kind in s.kinds.value
  }

  function Tally(byKind: map<string, nat>, kind: string): nat {
    if kind in byKind then byKind[kind] else 0
  }

  function RecordDrop(s: SubState, kind: string, sacrificed: bool): SubState {
    s.(pending := s.pending + 1, lifetime := s.lifetime + 1,
       byKind := s.byKind[kind := Tally(s.byKind, kind) + 1],
       protectedDrops := s.protectedDrops + if sacrificed then 1 else 0)
  }

  function Offered(s: SubState, e: Event): SubState
  {
    if !Wants(s, e) || s.closed then s
    else
      var v := Policy(s.queue, s.maxsize, e.kind);
      var counted := if v.droppedKind.Some? then RecordDrop(s, v.droppedKind.value, v.sacrificed) else s;
      counted.(queue := Arrive(s.queue, s.maxsize, e))
  }

  /** The kind of the protected event an offer evicts, if it evicts one. */
  function Sacrificed(s: SubState, e: Event): (k: Option<string>)
    ensures k.Some? <==> Wants(s, e) && !s.closed && |s.queue| >= s.maxsize && IsProtected(e)
                         && forall x | x in s.queue :: IsProtected(x)
    ensures k.Some? ==> k.value == s.queue[0].kind
  {
    if !Wants(s, e) || s.closed then None
    else
      var v := Policy(s.queue, s.maxsize, e.kind);
      if v.sacrificed then v.droppedKind else None
  }

  /** The oldest event, stamped with the drops since the last delivery; `None` when empty. */
  function Taken(s: SubState): (SubState, Option<Event>) {
    if s.queue == [] then (s, None)
    else
      var e := s.queue[0];
      (s.(queue := s.queue[1..], pending := 0), Some(if s.pending > 0 then e.(gap := s.pending) else e))
  }

  function TakenAll(s: SubState): (r: (SubState, seq<Event>))
    decreases |s.queue|
  {
    if s.queue == [] then (s, [])
    else
      var (s1, e) := Taken(s);
      var (s2, rest) := TakenAll(s1);
      (s2, [e.value] + rest)
  }

  class Subscription {
    const kinds: Option<set<string>>
    const maxsize: Capacity
    const queue: Deque
    var pendingDrops: nat
    var lifetimeDrops: nat
    var dropsByKind: map<string, nat>
    var protectedDrops: nat
    var closed: bool

    ghost function State(): SubState
      reads this, queue
    {
      SubState(kinds, maxsize, queue.items, pendingDrops, lifetimeDrops, dropsByKind, protectedDrops, closed)
    }

    constructor (kinds: Option<set<string>>, maxsize: int)
      ensures fresh(queue)
      ensures State() == Fresh(kinds, maxsize)
    {
      this.kinds := kinds;
      this.maxsize := Clamp(maxsize);
      queue := new Deque();
      pendingDrops, lifetimeDrops, dropsByKind, protectedDrops := 0, 0, map[], 0;
      closed := false;
    }

    method RecordDropLocked(droppedKind: string, sacrificed: bool)
      modifies this
      ensures State() == RecordDrop(old(State()), droppedKind, sacrificed)
    {
      pendingDrops := pendingDrops + 1;
      lifetimeDrops := lifetimeDrops + 1;
      var before := if droppedKind in dropsByKind then dropsByKind[droppedKind] else 0;
      dropsByKind := dropsByKind[droppedKind := before + 1];
      if sacrificed {
        protectedDrops := protectedDrops + 1;
      }
    }

    /** Returns the kind of a protected event this offer had to evict, if any. */
    method Offer(event: Event) returns (evictedKind: Option<string>)
      modifies this, queue
      ensures State() == Offered(old(State()), event)
      ensures evictedKind == Sacrificed(old(State()), event)
    {
      hide Evicts;
      if kinds.Some? && event.kind !in kinds.value {
        return None;
      }
      if closed {
        return None;
      }
      var accept, droppedKind, sacrificed := DropPolicy(queue, maxsize, event.kind);
      if droppedKind.Some? {
        RecordDropLocked(droppedKind.value, sacrificed);
      }
      if accept {
        queue.items := queue.items + [event];
      }
      return if sacrificed then droppedKind else None;
    }

    /** One delivery, once the wait is over: the oldest event, or `None` (timeout, or closed and drained). */
    method Get() returns (event: Option<Event>)
      modifies this, queue
      ensures (State(), event) == Taken(old(State()))
    {
      if |queue.items| == 0 {
        return None;
      }
      var head := queue.items[0];
      queue.items := queue.items[1..];
      var gap := pendingDrops;
      pendingDrops := 0;
      if gap > 0 {
        head := head.(gap := gap);
      }
      return Some(head);
    }

    method Drain() returns (out: seq<Event>)
      modifies this, queue
      ensures (State(), out) == TakenAll(old(State()))
    {
      out := [];
      ghost var all := TakenAll(State());
      while true
        invariant all.0 == TakenAll(State()).0
        invariant all.1 == out + TakenAll(State()).1
        decreases |queue.items|
      {
        ghost var before := State();
        var event := Get();
        if event.None? {
          assert TakenAll(State()).1 == [] && out + [] == out;
          return;
        }
        assert TakenAll(before).1 == [event.value] + TakenAll(State()).1;
        out := out + [event.value];
      }
    }

    method Close()
      modifies this
      ensures State() == old(State()).(closed := true)
    {
      closed := true;
    }
  }
}
