/**
 Laws of a subscription over any run of offers, deliveries and closes: conservation of
 events and of drop counts, delivery order, and refinement of a plain drop-oldest ring.
 */
module QueueLaws {
  import opened Common
  import opened EventQueue

  // ---------------------------------------------------------------- runs and their history

  datatype Op = Offer(e: Event) | Take | Shut

  /** A subscription with its history: what it took in, what it handed out, what it lost. */
  datatype Trace = Trace(now: SubState, accepted: seq<Event>, delivered: seq<Event>, lost: seq<Event>)

  function Start(kinds: Option<set<string>>, maxsize: int): Trace {
    Trace(Fresh(kinds, maxsize), [], [], [])
  }

  /** An offer the subscription acts on: a kind it asked for, while it is open. */
  predicate Matches(s: SubState, e: Event) {
    Wants(s, e) && !s.closed
  }

  function Step(t: Trace, op: Op): Trace
  {
    match op
    case Offer(e) =>
      if !Matches(t.now, e) then t
      else Trace(Offered(t.now, e), t.accepted + [e], t.delivered, t.lost + Cost(t.now.queue, t.now.maxsize, e))
    case Take =>
      var (s, e) := Taken(t.now);
      Trace(s, t.accepted, if e.Some? then t.delivered + [e.value] else t.delivered, t.lost)
    case Shut => t.(now := t.now.(closed := true))
  }

  function Run(t: Trace, ops: seq<Op>): (r: Trace)
    ensures r.now.maxsize == t.now.maxsize
    decreases |ops|
  {
    if ops == [] then t else Run(Step(t, ops[0]), ops[1..])
  }

  /** Publishers never set `gap`; only a delivery does. */
  predicate Ungapped(op: Op) {
    op.Offer? ==> op.e.gap == 0
  }

  function Bare(delivered: seq<Event>): (r: seq<Event>)
    ensures |r| == |delivered|
  {
    seq(|delivered|, i requires 0 <= i < |delivered| => delivered[i].(gap := 0))
  }

  function SumGaps(delivered: seq<Event>): nat {
    if delivered == [] then 0
    else SumGaps(delivered[..|delivered| - 1]) + delivered[|delivered| - 1].gap
  }

  /** Everything taken in and not lost, in order: handed out first, then still queued. */
  function Surviving(t: Trace): seq<Event> {
    Bare(t.delivered) + t.now.queue
  }

  function OfKind(s: seq<Event>, kind: string): seq<Event> {
    Filter(s, (e: Event) => e.kind == kind)
  }

  ghost predicate Increasing(s: seq<Event>) {
    forall i, j | 0 <= i < j < |s| :: s[i].seqNo < s[j].seqNo
  }

  // ---------------------------------------------------------------- conservation

  /** The counters of `s` agree with the events handed out and lost. */
  ghost predicate CountsAgree(s: SubState, delivered: seq<Event>, lost: seq<Event>) {
    && |lost| == s.lifetime
    && SumGaps(delivered) + s.pending == s.lifetime
    && s.protectedDrops == |Protected(lost)|
    && (forall k :: Tally(s.byKind, k) == |OfKind(lost, k)|)
  }

  /** Capacity, multiset conservation and order, for handed-out events `d` and a queue `q`. */
  ghost predicate Conserves(maxsize: Capacity, d: seq<Event>, q: seq<Event>, accepted: seq<Event>, lost: seq<Event>) {
    && |q| <= maxsize
    && (forall e | e in q :: e.gap == 0)
    && multiset(accepted) == multiset(d + q) + multiset(lost)
    && Subsequence(d + q, accepted)
  }

  ghost predicate EventsConserved(t: Trace) {
    Conserves(t.now.maxsize, Bare(t.delivered), t.now.queue, t.accepted, t.lost)
  }

  ghost predicate Good(t: Trace) {
    CountsAgree(t.now, t.delivered, t.lost) && EventsConserved(t)
  }

  lemma {:induction false} StartIsGood(kinds: Option<set<string>>, maxsize: int)
    ensures Good(Start(kinds, maxsize))
  {
  }

  lemma ProtectedAppend(s: seq<Event>, e: Event)
    ensures Protected(s + [e]) == if IsProtected(e) then Protected(s) + [e] else Protected(s)
  {
    assert (s + [e])[..|s|] == s;
  }

  lemma OfKindAppend(s: seq<Event>, e: Event, k: string)
    ensures OfKind(s + [e], k) == if e.kind == k then OfKind(s, k) + [e] else OfKind(s, k)
  {
    assert (s + [e])[..|s|] == s;
  }

  /** Where the lost event comes from, and what is left of the queue. */
  lemma ArriveShape(q: seq<Event>, maxsize: Capacity, e: Event)
    requires |q| <= maxsize
    ensures |Arrive(q, maxsize, e)| <= maxsize
    ensures |q| < maxsize ==> Arrive(q, maxsize, e) == q + [e] && Cost(q, maxsize, e) == []
    ensures |q| == maxsize && DropFirst(e) ==> Arrive(q, maxsize, e) == q && Cost(q, maxsize, e) == [e]
    ensures |q| == maxsize && !DropFirst(e) ==>
              && Arrive(q, maxsize, e) == Without(q, Victim(q)) + [e]
              && Cost(q, maxsize, e) == [q[Victim(q)]]
  {
  }

  /**
   What one arrival costs, in full: nothing while there is room; itself when it is drop-first and
   there is none; else the oldest drop-first event queued; else, all being protected, the oldest.
   The rest of the queue keeps its order and the arrival goes last.
   */
  lemma {:induction false} ArrivalCosts(q: seq<Event>, maxsize: Capacity, e: Event)
    requires |q| <= maxsize
    ensures |q| < maxsize ==> Cost(q, maxsize, e) == [] && Arrive(q, maxsize, e) == q + [e]
    ensures |q| == maxsize && DropFirst(e) ==> Cost(q, maxsize, e) == [e] && Arrive(q, maxsize, e) == q
    ensures forall i | FirstDroppable(q, i) && |q| == maxsize && IsProtected(e) ::
              Cost(q, maxsize, e) == [q[i]] && Arrive(q, maxsize, e) == q[..i] + q[i + 1..] + [e]
    ensures |q| == maxsize && IsProtected(e) && (forall x | x in q :: IsProtected(x)) ==>
              Cost(q, maxsize, e) == [q[0]] && Arrive(q, maxsize, e) == q[1..] + [e]
  {
    ArriveShape(q, maxsize, e);
    PolicyEvicts(q, maxsize, e.kind);
    if |q| == maxsize {
      var k := OldestDroppable(q);
      assert k < |q| ==> q[k] in q;
      assert q[..0] + q[1..] == q[1..];
      OldestIsFirst(q);
    }
  }

  /** A closed or uninterested subscription is untouched; any other takes the arrival into its queue. */
  lemma OfferLands(s: SubState, e: Event)
    ensures s.closed || (s.kinds.Some? && e.kind !in s.kinds.value) ==> Offered(s, e) == s
    ensures !s.closed && (s.kinds.None? || e.kind in s.kinds.value) ==>
              Offered(s, e).queue == Arrive(s.queue, s.maxsize, e)
    ensures Offered(s, e).closed == s.closed && Offered(s, e).kinds == s.kinds && Offered(s, e).maxsize == s.maxsize
  {
  }

  lemma {:induction false} RecordCounts(s: SubState, delivered: seq<Event>, lost: seq<Event>, x: Event)
    requires CountsAgree(s, delivered, lost)
    ensures CountsAgree(RecordDrop(s, x.kind, IsProtected(x)), delivered, lost + [x])
  {
    ProtectedAppend(lost, x);
    forall k
      ensures Tally(RecordDrop(s, x.kind, IsProtected(x)).byKind, k) == |OfKind(lost + [x], k)|
    {
      OfKindAppend(lost, x, k);
    }
  }

  lemma {:induction false} OfferCounts(s: SubState, delivered: seq<Event>, lost: seq<Event>, e: Event)
    requires CountsAgree(s, delivered, lost) && Matches(s, e) && |s.queue| <= s.maxsize
    ensures CountsAgree(Offered(s, e), delivered, lost + Cost(s.queue, s.maxsize, e))
  {
    var cost := Cost(s.queue, s.maxsize, e);
    if cost == [] {
      assert lost + cost == lost;
    } else {
      assert cost == [cost[0]];
      RecordCounts(s, delivered, lost, cost[0]);
    }
  }

  lemma {:induction false} MultisetDelete<T>(a: seq<T>, i: nat)
    requires i < |a|
    ensures multiset(a) == multiset(a[..i] + a[i + 1..]) + multiset{a[i]}
  {
    assert a == a[..i] + ([a[i]] + a[i + 1..]);
  }

  /** Evicting one survivor to append `e` keeps the order and moves one event to the lost ones. */
  lemma {:induction false} EvictConserves(
    all: seq<Event>, i: nat, rest: seq<Event>, e: Event, accepted: seq<Event>, lost: seq<Event>)
    requires i < |all| && rest == all[..i] + all[i + 1..]
    requires multiset(accepted) == multiset(all) + multiset(lost)
    requires Subsequence(all, accepted)
    ensures multiset(accepted + [e]) == multiset(rest + [e]) + multiset(lost + [all[i]])
    ensures Subsequence(rest + [e], accepted + [e])
  {
    SubsequenceDelete(all, i, accepted);
    SubsequenceAppend(rest, accepted, e);
    MultisetDelete(all, i);
  }

  lemma {:induction false} AppendConserves(
    m: Capacity, d: seq<Event>, q: seq<Event>, accepted: seq<Event>, lost: seq<Event>, e: Event)
    requires |q| < m && e.gap == 0 && Conserves(m, d, q, accepted, lost)
    ensures Conserves(m, d, q + [e], accepted + [e], lost)
  {
    assert d + (q + [e]) == d + q + [e];
    SubsequenceAppend(d + q, accepted, e);
  }

  lemma {:induction false} RefusalConserves(
    m: Capacity, d: seq<Event>, q: seq<Event>, accepted: seq<Event>, lost: seq<Event>, e: Event)
    requires Conserves(m, d, q, accepted, lost)
    ensures Conserves(m, d, q, accepted + [e], lost + [e])
  {
    SubsequenceAppend(d + q, accepted, e);
  }

  lemma WithoutAfter(d: seq<Event>, q: seq<Event>, v: nat, e: Event)
    requires v < |q|
    ensures (d + q)[..|d| + v] + (d + q)[|d| + v + 1..] == d + Without(q, v)
    ensures (d + q)[|d| + v] == q[v]
    ensures d + (Without(q, v) + [e]) == d + Without(q, v) + [e]
    ensures forall x | x in Without(q, v) :: x in q
  {
  }

  lemma {:induction false} EvictionConserves(
    m: nat, d: seq<Event>, q: seq<Event>, v: nat, accepted: seq<Event>, lost: seq<Event>, e: Event)
    requires v < |q| && e.gap == 0 && |q| <= m && forall x | x in q :: x.gap == 0
    requires multiset(accepted) == multiset(d + q) + multiset(lost) && Subsequence(d + q, accepted)
    ensures |Without(q, v) + [e]| <= m && forall x | x in Without(q, v) + [e] :: x.gap == 0
    ensures multiset(accepted + [e]) == multiset(d + (Without(q, v) + [e])) + multiset(lost + [q[v]])
    ensures Subsequence(d + (Without(q, v) + [e]), accepted + [e])
  {
    WithoutAfter(d, q, v, e);
    EvictConserves(d + q, |d| + v, d + Without(q, v), e, accepted, lost);
  }

  lemma {:induction false} ArriveConserves(
    m: Capacity, d: seq<Event>, q: seq<Event>, accepted: seq<Event>, lost: seq<Event>, e: Event)
    requires e.gap == 0 && Conserves(m, d, q, accepted, lost)
    ensures Conserves(m, d, Arrive(q, m, e), accepted + [e], lost + Cost(q, m, e))
  {
    ArriveShape(q, m, e);
    if |q| < m {
      AppendConserves(m, d, q, accepted, lost, e);
      assert lost + [] == lost;
    } else if DropFirst(e) {
      RefusalConserves(m, d, q, accepted, lost, e);
    } else {
      EvictionConserves(m, d, q, Victim(q), accepted, lost, e);
    }
  }

  lemma {:induction false} TakeKeepsGood(t: Trace)
    requires Good(t)
    ensures Good(Step(t, Take))
    ensures Surviving(Step(t, Take)) == Surviving(t)
  {
    if t.now.queue != [] {
      var e := Taken(t.now).1.value;
      var t' := Step(t, Take);
      assert t'.delivered[..|t.delivered|] == t.delivered;
      assert t.now.queue[0] in t.now.queue;
      assert Bare(t'.delivered) == Bare(t.delivered) + [t.now.queue[0]];
      assert Surviving(t') == Surviving(t);
    }
  }

  lemma {:induction false} StepKeepsGood(t: Trace, op: Op)
    requires Good(t) && Ungapped(op)
    ensures Good(Step(t, op))
  {
    match op
    case Offer(e) =>
      if Matches(t.now, e) {
        OfferCounts(t.now, t.delivered, t.lost, e);
        ArriveConserves(t.now.maxsize, Bare(t.delivered), t.now.queue, t.accepted, t.lost, e);
      }
    case Take => TakeKeepsGood(t);
    case Shut =>
      assert Surviving(Step(t, op)) == Surviving(t);
  }

  /**
   Queue conservation over any run: every matching offer is delivered, queued or counted as
   dropped exactly once; gaps delivered plus pending drops are the lifetime drops; the
   per-kind tallies and the protected tally count the lost events exactly; the queue is bounded.
   */
  lemma {:induction false} RunConserves(t: Trace, ops: seq<Op>)
    requires Good(t) && forall op | op in ops :: Ungapped(op)
    ensures Good(Run(t, ops))
    decreases |ops|
  {
    if ops != [] {
      StepKeepsGood(t, ops[0]);
      RunConserves(Step(t, ops[0]), ops[1..]);
    }
  }

  function InKinds(s: seq<Event>, kinds: set<string>): seq<Event> {
    Filter(s, (e: Event) => e.kind in kinds)
  }

  ghost function Pick(kinds: set<string>): (k: string)
    requires kinds != {}
    ensures k in kinds
  {
    var k :| k in kinds;
    k
  }

  /** The tallies of some kinds, added up. */
  ghost function SumTallies(byKind: map<string, nat>, kinds: set<string>): nat
    decreases |kinds|
  {
    if kinds == {} then 0
    else Tally(byKind, Pick(kinds)) + SumTallies(byKind, kinds - {Pick(kinds)})
  }

  lemma {:induction false} InKindsSplit(s: seq<Event>, kinds: set<string>, k: string)
    requires k in kinds
    ensures |InKinds(s, kinds)| == |OfKind(s, k)| + |InKinds(s, kinds - {k})|
    decreases |s|
  {
    if s != [] {
      InKindsSplit(s[..|s| - 1], kinds, k);
    }
  }

  lemma {:induction false} SumIsCount(byKind: map<string, nat>, lost: seq<Event>, kinds: set<string>)
    requires forall k :: Tally(byKind, k) == |OfKind(lost, k)|
    ensures SumTallies(byKind, kinds) == |InKinds(lost, kinds)|
    decreases |kinds|
  {
    hide OfKind;
    if kinds == {} {
      FilterNone(lost, (e: Event) => e.kind in kinds);
    } else {
      var k := Pick(kinds);
      SumIsCount(byKind, lost, kinds - {k});
      InKindsSplit(lost, kinds, k);
    }
  }

  /** Every lost event's kind has a tally, so the tallies count all of them. */
  lemma {:induction false} InKindsIs(lost: seq<Event>, byKind: map<string, nat>)
    requires forall k :: Tally(byKind, k) == |OfKind(lost, k)|
    requires forall e | e in lost :: e.kind in byKind
    ensures |InKinds(lost, byKind.Keys)| == |lost|
    ensures InKinds(lost, byKind.Keys - DROP_FIRST_KINDS) == Protected(lost)
  {
    FilterAll(lost, (e: Event) => e.kind in byKind.Keys);
    FilterSame(lost, (e: Event) => e.kind in byKind.Keys - DROP_FIRST_KINDS, e => IsProtected(e));
  }

  lemma {:induction false} LostHasTally(byKind: map<string, nat>, lost: seq<Event>, e: Event)
    requires (forall k :: Tally(byKind, k) == |OfKind(lost, k)|) && e in lost
    ensures e.kind in byKind
  {
    if OfKind(lost, e.kind) == [] {
      FilterKeeps(lost, (x: Event) => x.kind == e.kind, e);
    }
  }

  /** Over any run the values of the per-kind map add up to the lifetime drops, the protected kinds to theirs. */
  lemma {:induction false} TalliesAddUp(t: Trace, ops: seq<Op>)
    requires Good(t) && forall op | op in ops :: Ungapped(op)
    ensures var s := Run(t, ops).now;
            && SumTallies(s.byKind, s.byKind.Keys) == s.lifetime
            && SumTallies(s.byKind, s.byKind.Keys - DROP_FIRST_KINDS) == s.protectedDrops
  {
    RunConserves(t, ops);
    var u := Run(t, ops);
    forall e | e in u.lost
      ensures e.kind in u.now.byKind
    {
      LostHasTally(u.now.byKind, u.lost, e);
    }
    hide OfKind, Protected, Run;
    InKindsIs(u.lost, u.now.byKind);
    SumIsCount(u.now.byKind, u.lost, u.now.byKind.Keys);
    SumIsCount(u.now.byKind, u.lost, u.now.byKind.Keys - DROP_FIRST_KINDS);
  }

  /** Every delivery reports all drops not reported before: after it the gaps add up to the lifetime drops. */
  lemma {:induction false} DeliveryReportsDrops(t: Trace, ops: seq<Op>)
    requires Good(t) && forall op | op in ops :: Ungapped(op)
    requires Run(t, ops).now.queue != []
    ensures var u := Run(t, ops);
            var v := Step(u, Take);
            && SumGaps(v.delivered) == v.now.lifetime == u.now.lifetime
            && v.delivered == u.delivered + [u.now.queue[0].(gap := u.now.pending)]
            && v.now.queue == u.now.queue[1..] && v.now.pending == 0
  {
    RunConserves(t, ops);
    var u := Run(t, ops);
    hide Run;
    TakeKeepsGood(u);
    assert u.now.queue[0] in u.now.queue;
    assert u.now.queue[0].(gap := 0) == u.now.queue[0];
  }

  /** A drain hands out the whole queue in order; the first event is stamped with the drops not yet reported. */
  lemma {:induction false} DrainHandsOutAll(s: SubState)
    requires forall e | e in s.queue :: e.gap == 0
    ensures var (t, out) := TakenAll(s);
            && t == s.(queue := [], pending := if s.queue == [] then s.pending else 0)
            && out == if s.queue == [] then [] else [s.queue[0].(gap := s.pending)] + s.queue[1..]
    decreases |s.queue|
  {
    if s.queue != [] {
      var u := Taken(s).0;
      DrainHandsOutAll(u);
      assert s.queue[0] in s.queue;
      if u.queue != [] {
        assert u.queue[0] in s.queue;
        assert u.queue == [u.queue[0]] + u.queue[1..];
      }
    }
  }

  /** What is handed out, followed by what is queued, is in publication order. */
  lemma {:induction false} SubsequenceIncreasing(a: seq<Event>, b: seq<Event>)
    requires Subsequence(a, b) && Increasing(b)
    ensures Increasing(a)
    decreases |b|
  {
    if a == [] {
      return;
    }
    var m, n := |a| - 1, |b| - 1;
    if a[m] == b[n] && Subsequence(a[..m], b[..n]) {
      SubsequenceIncreasing(a[..m], b[..n]);
      forall i, j | 0 <= i < j < |a|
        ensures a[i].seqNo < a[j].seqNo
      {
        if j == m {
          assert a[i] == a[..m][i];
          SubsequenceMember(a[..m], b[..n], a[i]);
          var k :| 0 <= k < n && b[..n][k] == a[i];
          assert b[k].seqNo < b[n].seqNo;
        } else {
          assert a[i] == a[..m][i] && a[j] == a[..m][j];
        }
      }
    } else {
      SubsequenceIncreasing(a, b[..n]);
    }
  }

  // ---------------------------------------------------------------- the ring refinement

  /** A plain drop-oldest ring of capacity `cap`, with the same kind of history. */
  datatype Ring = Ring(cap: Capacity, held: seq<Event>, popped: seq<Event>, overwritten: seq<Event>)

  datatype RingOp = Push(e: Event) | Pop

  function RingStep(r: Ring, op: RingOp): Ring
  {
    match op
    case Push(e) =>
      if |r.held| < r.cap then r.(held := r.held + [e])
      else if r.held == [] then r
      else r.(held := r.held[1..] + [e], overwritten := r.overwritten + [r.held[0]])
    case Pop => if r.held == [] then r else r.(held := r.held[1..], popped := r.popped + [r.held[0]])
  }

  function RingRun(r: Ring, ops: seq<RingOp>): (r': Ring)
    ensures r'.cap == r.cap
    decreases |ops|
  {
    if ops == [] then r else RingRun(RingStep(r, ops[0]), ops[1..])
  }

  /** What the ring sees of one step: pushes of protected arrivals, pops of protected heads. */
  function Seen(t: Trace, op: Op): seq<RingOp> {
    match op
    case Offer(e) => if Matches(t.now, e) && IsProtected(e) then [Push(e)] else []
    case Take => if t.now.queue != [] && IsProtected(t.now.queue[0]) then [Pop] else []
    case Shut => []
  }

  function SeenRun(t: Trace, ops: seq<Op>): seq<RingOp>
    decreases |ops|
  {
    if ops == [] then [] else Seen(t, ops[0]) + SeenRun(Step(t, ops[0]), ops[1..])
  }

  /** The protected part of a subscription, viewed as a ring. */
  function AsRing(t: Trace): Ring {
    Ring(t.now.maxsize, Protected(t.now.queue), Protected(Bare(t.delivered)), Protected(t.lost))
  }

  lemma {:induction false} ProtectedConcat(a: seq<Event>, b: seq<Event>)
    ensures Protected(a + b) == Protected(a) + Protected(b)
  {
    FilterConcat(a, b, e => IsProtected(e));
  }

  lemma {:induction false} ProtectedWithout(q: seq<Event>, i: nat)
    requires i < |q| && DropFirst(q[i])
    ensures Protected(Without(q, i)) == Protected(q)
  {
    assert q == q[..i] + [q[i]] + q[i + 1..];
    ProtectedConcat(q[..i] + [q[i]], q[i + 1..]);
    ProtectedAppend(q[..i], q[i]);
    ProtectedConcat(q[..i], q[i + 1..]);
  }

  lemma {:induction false} ProtectedHead(q: seq<Event>)
    requires q != []
    ensures Protected(q) == (if IsProtected(q[0]) then [q[0]] else []) + Protected(q[1..])
  {
    assert q == [q[0]] + q[1..];
    ProtectedConcat([q[0]], q[1..]);
    assert [] + [q[0]] == [q[0]];
    ProtectedAppend([], q[0]);
  }

  /** A queue with no drop-first event is its own protected part. */
  lemma {:induction false} AllProtected(q: seq<Event>)
    requires OldestDroppable(q) == |q|
    ensures Protected(q) == q
  {
    FilterAll(q, e => IsProtected(e));
  }

  lemma {:induction false} RoomIsRingStep(q: seq<Event>, m: Capacity, e: Event)
    requires |q| < m
    ensures Protected(Cost(q, m, e)) == []
    ensures Protected(Arrive(q, m, e)) == if IsProtected(e) then Protected(q) + [e] else Protected(q)
    ensures |Protected(q)| < m
  {
    ProtectedAppend(q, e);
  }

  /** A full queue gives up a drop-first event if it has one: the ring had room all along. */
  lemma {:induction false} YieldIsRingStep(q: seq<Event>, m: Capacity, e: Event)
    requires |q| == m && IsProtected(e) && OldestDroppable(q) < |q|
    ensures Protected(Cost(q, m, e)) == []
    ensures Protected(Arrive(q, m, e)) == Protected(q) + [e]
    ensures |Protected(q)| < m
  {
    var v := Victim(q);
    FilterShorter(q, x => IsProtected(x), v);
    ProtectedWithout(q, v);
    ProtectedAppend(Without(q, v), e);
    FilterNone(Cost(q, m, e), x => IsProtected(x));
  }

  lemma {:induction false} OverwriteIsRingStep(q: seq<Event>, m: Capacity, e: Event)
    requires |q| == m && IsProtected(e) && OldestDroppable(q) == |q|
    ensures Protected(q) == q
    ensures Protected(Cost(q, m, e)) == [q[0]]
    ensures Protected(Arrive(q, m, e)) == q[1..] + [e]
  {
    AllProtected(q);
    assert Without(q, 0) == q[1..];
    FilterAll(q[1..], x => IsProtected(x));
    ProtectedAppend(q[1..], e);
    FilterAll([q[0]], x => IsProtected(x));
  }

  lemma {:induction false} OfferIsRingStep(t: Trace, e: Event)
    requires |t.now.queue| <= t.now.maxsize && Matches(t.now, e)
    ensures AsRing(Step(t, Offer(e))) == if IsProtected(e) then RingStep(AsRing(t), Push(e)) else AsRing(t)
  {
    var q, m := t.now.queue, t.now.maxsize;
    ProtectedConcat(t.lost, Cost(q, m, e));
    if |q| < m {
      RoomIsRingStep(q, m, e);
    } else if DropFirst(e) {
      FilterNone([e], x => IsProtected(x));
    } else if OldestDroppable(q) < |q| {
      YieldIsRingStep(q, m, e);
    } else {
      OverwriteIsRingStep(q, m, e);
    }
  }

  lemma {:induction false} TakeIsRingStep(t: Trace)
    requires t.now.queue != [] && t.now.queue[0].gap == 0
    ensures AsRing(Step(t, Take)) == if IsProtected(t.now.queue[0]) then RingStep(AsRing(t), Pop) else AsRing(t)
  {
    ProtectedHead(t.now.queue);
    var head := t.now.queue[0];
    assert Bare(Step(t, Take).delivered) == Bare(t.delivered) + [head];
    ProtectedAppend(Bare(t.delivered), head);
  }

  lemma RingRunOne(r: Ring, op: RingOp)
    ensures RingRun(r, [op]) == RingStep(r, op)
  {
    assert [op][1..] == [];
  }

  lemma {:induction false} StepIsRingStep(t: Trace, op: Op)
    requires |t.now.queue| <= t.now.maxsize && forall e | e in t.now.queue :: e.gap == 0
    ensures AsRing(Step(t, op)) == RingRun(AsRing(t), Seen(t, op))
  {
    match op
    case Offer(e) =>
      RingRunOne(AsRing(t), Push(e));
      if Matches(t.now, e) {
        OfferIsRingStep(t, e);
      }
    case Take =>
      RingRunOne(AsRing(t), Pop);
      if t.now.queue != [] {
        TakeIsRingStep(t);
      }
    case Shut =>
  }

  lemma {:induction false} RingRunConcat(r: Ring, a: seq<RingOp>, b: seq<RingOp>)
    ensures RingRun(r, a + b) == RingRun(RingRun(r, a), b)
    decreases |a|
  {
    if a == [] {
      assert a + b == b;
    } else {
      assert (a + b)[0] == a[0] && (a + b)[1..] == a[1..] + b;
      RingRunConcat(RingStep(r, a[0]), a[1..], b);
    }
  }

  /**
   Restricted to protected events, a subscription behaves exactly as a drop-oldest ring of
   capacity `maxsize`, over any run: same contents, same deliveries, same losses. Drop-first
   traffic never costs a protected event.
   */
  lemma {:induction false} RefinesRing(t: Trace, ops: seq<Op>)
    requires Good(t) && forall op | op in ops :: Ungapped(op)
    ensures AsRing(Run(t, ops)) == RingRun(AsRing(t), SeenRun(t, ops))
    decreases |ops|
  {
    if ops != [] {
      StepIsRingStep(t, ops[0]);
      StepKeepsGood(t, ops[0]);
      RefinesRing(Step(t, ops[0]), ops[1..]);
      RingRunConcat(AsRing(t), Seen(t, ops[0]), SeenRun(Step(t, ops[0]), ops[1..]));
    }
  }

  /**
   Exactly when an arrival costs a protected event: it is itself protected, and the queue is
   full of protected events; the cost is then the oldest of them.
   */
  lemma {:induction false} ProtectedLossIff(q: seq<Event>, maxsize: Capacity, e: Event)
    requires |q| <= maxsize
    ensures Protected(Cost(q, maxsize, e)) != [] <==>
            IsProtected(e) && |q| == maxsize && forall x | x in q :: IsProtected(x)
    ensures Protected(Cost(q, maxsize, e)) != [] ==> Cost(q, maxsize, e) == [q[0]]
  {
    if |q| == maxsize {
      if DropFirst(e) {
        FilterNone([e], x => IsProtected(x));
      } else {
        var x := q[Victim(q)];
        assert x in q;
        if IsProtected(x) { FilterAll([x], y => IsProtected(y)); } else { FilterNone([x], y => IsProtected(y)); }
      }
    }
  }
}
