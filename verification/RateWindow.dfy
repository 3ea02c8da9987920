/**
 The two sliding-window limiters: the ask book filters its list of starts, the judge budget pops
 the front of a deque. Under a nondecreasing clock they are the same rule.
 */
module RateWindow {
  import opened Common

  datatype Limit = Limit(cap: int, window: real)

  predicate Recent(limit: Limit, now: real, t: real) {
    now - t < limit.window
  }

  function RecentAt(limit: Limit, now: real): (f: real -> bool)
    ensures forall t :: f(t) == Recent(limit, now, t)
  {
    (t: real) => Recent(limit, now, t)
  }

  // ---------------------------------------------------------------- the rule itself

  /** How many of these times fall within the window that ends now. */
  function CountRecent(limit: Limit, accepted: seq<real>, now: real): nat {
    |Filter(accepted, RecentAt(limit, now))|
  }

  /** The reference: accept exactly when fewer than `cap` accepted calls are recent. */
  predicate Accepts(limit: Limit, accepted: seq<real>, now: real) {
    CountRecent(limit, accepted, now) < limit.cap
  }

  /** Every accepted call of a history of calls. */
  function Accepted(limit: Limit, times: seq<real>): seq<real> {
    if times == [] then []
    else
      var before := Accepted(limit, times[..|times| - 1]);
      var now := times[|times| - 1];
      if Accepts(limit, before, now) then before + [now] else before
  }

  /** The accepted calls less than a window ago, by their places. */
  ghost function RecentPlaces(limit: Limit, accepted: seq<real>, now: real): set<nat> {
    set i: nat | i < |accepted| && now - accepted[i] < limit.window
  }

  lemma {:induction false} CountsPlaces(limit: Limit, accepted: seq<real>, now: real)
    ensures CountRecent(limit, accepted, now) == |RecentPlaces(limit, accepted, now)|
    decreases |accepted|
  {
    var places := RecentPlaces(limit, accepted, now);
    if accepted != [] {
      var n := |accepted| - 1;
      CountsPlaces(limit, accepted[..n], now);
      var before := RecentPlaces(limit, accepted[..n], now);
      assert places == before + if now - accepted[n] < limit.window then {n as nat} else {};
    } else {
      assert places == {};
    }
  }

  /** A call is accepted exactly when fewer than `cap` accepted ones are less than a window ago. */
  lemma {:induction false} AcceptedNext(limit: Limit, times: seq<real>, now: real)
    ensures var before := Accepted(limit, times);
            Accepted(limit, times + [now])
            == if |RecentPlaces(limit, before, now)| < limit.cap then before + [now] else before
  {
    assert (times + [now])[..|times|] == times;
    CountsPlaces(limit, Accepted(limit, times), now);
  }

  predicate Nondecreasing(s: seq<real>) {
    forall i, j | 0 <= i < j < |s| :: s[i] <= s[j]
  }

  // ---------------------------------------------------------------- the two implementations

  /** The ask book: keep what is recent, refuse at the cap, else append. */
  function FilterTake(limit: Limit, kept: seq<real>, now: real): (seq<real>, bool) {
    var recent := Filter(kept, RecentAt(limit, now));
    if |recent| >= limit.cap then (recent, false) else (recent + [now], true)
  }

  /** The judge budget: drop from the front while the front is old. */
  function PopOld(limit: Limit, calls: seq<real>, now: real): seq<real> {
    if calls != [] && !Recent(limit, now, calls[0]) then PopOld(limit, calls[1..], now) else calls
  }

  function PopTake(limit: Limit, calls: seq<real>, now: real): (seq<real>, bool) {
    var recent := PopOld(limit, calls, now);
    if |recent| >= limit.cap then (recent, false) else (recent + [now], true)
  }

  class JudgeBudget {
    const limit: Limit
    var calls: seq<real>

    constructor (maxCalls: int, window: real)
      ensures limit == Limit(maxCalls, window) && calls == []
    {
      limit, calls := Limit(maxCalls, window), [];
    }

    method Take(now: real) returns (granted: bool)
      modifies this
      ensures (calls, granted) == PopTake(limit, old(calls), now)
    {
      while calls != [] && now - calls[0] >= limit.window
        invariant PopOld(limit, calls, now) == PopOld(limit, old(calls), now)
        decreases |calls|
      {
        calls := calls[1..];
      }
      if |calls| >= limit.cap {
        return false;
      }
      calls := calls + [now];
      return true;
    }
  }

  // ---------------------------------------------------------------- both are the rule

  /** What a limiter remembers after a history of calls: the accepted ones still recent at the last. */
  function Memory(limit: Limit, accepted: seq<real>, now: real): seq<real> {
    Filter(accepted, RecentAt(limit, now))
  }

  /** On an ordered list, popping the old front is filtering. */
  lemma {:induction false} PopIsFilter(limit: Limit, calls: seq<real>, now: real)
    requires Nondecreasing(calls)
    ensures PopOld(limit, calls, now) == Filter(calls, RecentAt(limit, now))
    decreases |calls|
  {
    var recent := RecentAt(limit, now);
    hide RecentAt;
    if calls == [] {
    } else if recent(calls[0]) {
      forall x | x in calls
        ensures recent(x)
      {
        var i :| 0 <= i < |calls| && calls[i] == x;
      }
      FilterAll(calls, recent);
    } else {
      PopIsFilter(limit, calls[1..], now);
      assert calls == [calls[0]] + calls[1..];
      FilterConcat([calls[0]], calls[1..], recent);
      FilterNone([calls[0]], recent);
    }
  }

  lemma {:induction false} FilterOrdered(s: seq<real>, keep: real -> bool)
    requires Nondecreasing(s)
    ensures Nondecreasing(Filter(s, keep))
    decreases |s|
  {
    if s != [] {
      var n := |s| - 1;
      FilterOrdered(s[..n], keep);
      var kept := Filter(s[..n], keep);
      forall i | 0 <= i < |kept|
        ensures kept[i] <= s[n]
      {
        assert kept[i] in kept;
      }
    }
  }

  /** Filtering at an earlier time first changes nothing. */
  lemma {:induction false} FilterTwice(limit: Limit, s: seq<real>, earlier: real, now: real)
    requires earlier <= now
    ensures Filter(Filter(s, RecentAt(limit, earlier)), RecentAt(limit, now))
            == Filter(s, RecentAt(limit, now))
    decreases |s|
  {
    if s != [] {
      var n := |s| - 1;
      var first, second := RecentAt(limit, earlier), RecentAt(limit, now);
      FilterTwice(limit, s[..n], earlier, now);
      var head := if first(s[n]) then [s[n]] else [];
      FilterConcat(Filter(s[..n], first), head, second);
      FilterHead(s[n], first, second);
    }
  }

  lemma FilterHead(x: real, first: real -> bool, second: real -> bool)
    requires second(x) ==> first(x)
    ensures Filter(if first(x) then [x] else [], second) == if second(x) then [x] else []
  {
    assert [x][..0] == [];
  }

  datatype Run = Run(memory: seq<real>, decisions: seq<bool>)

  /** The decisions of the rule over a history of calls. */
  function RuleRun(limit: Limit, times: seq<real>): (decisions: seq<bool>)
    ensures |decisions| == |times|
  {
    if times == [] then []
    else
      var n := |times| - 1;
      RuleRun(limit, times[..n]) + [Accepts(limit, Accepted(limit, times[..n]), times[n])]
  }

  function FilterRun(limit: Limit, times: seq<real>): Run {
    if times == [] then Run([], [])
    else
      var r := FilterRun(limit, times[..|times| - 1]);
      var (memory, granted) := FilterTake(limit, r.memory, times[|times| - 1]);
      Run(memory, r.decisions + [granted])
  }

  function PopRun(limit: Limit, times: seq<real>): Run {
    if times == [] then Run([], [])
    else
      var r := PopRun(limit, times[..|times| - 1]);
      var (memory, granted) := PopTake(limit, r.memory, times[|times| - 1]);
      Run(memory, r.decisions + [granted])
  }

  /** The memory answers every later question about the accepted history. */
  ghost predicate Faithful(limit: Limit, memory: seq<real>, accepted: seq<real>, last: real) {
    && Nondecreasing(memory) && (forall i | 0 <= i < |memory| :: memory[i] <= last)
    && forall now | now >= last :: Memory(limit, memory, now) == Memory(limit, accepted, now)
  }

  /** Dropping what is old now changes no later answer; appending the new call appends to both. */
  lemma {:induction false} LaterAnswers(limit: Limit, memory: seq<real>, accepted: seq<real>, now: real, later: real)
    requires now <= later && Memory(limit, memory, later) == Memory(limit, accepted, later)
    ensures Memory(limit, Memory(limit, memory, now), later) == Memory(limit, accepted, later)
    ensures Memory(limit, Memory(limit, memory, now) + [now], later) == Memory(limit, accepted + [now], later)
  {
    var recent := RecentAt(limit, later);
    FilterTwice(limit, memory, now, later);
    FilterConcat(Memory(limit, memory, now), [now], recent);
    FilterConcat(accepted, [now], recent);
  }

  lemma {:induction false} TakeOrdered(limit: Limit, memory: seq<real>, now: real)
    requires Nondecreasing(memory) && forall i | 0 <= i < |memory| :: memory[i] <= now
    ensures var m := FilterTake(limit, memory, now).0; Nondecreasing(m) && forall i | 0 <= i < |m| :: m[i] <= now
  {
    var recent := RecentAt(limit, now);
    var kept := Filter(memory, recent);
    FilterOrdered(memory, recent);
    assert forall i | 0 <= i < |kept| :: kept[i] in kept;
  }

  lemma {:induction false} TakeFaithful(limit: Limit, memory: seq<real>, accepted: seq<real>, last: real, now: real)
    requires Faithful(limit, memory, accepted, last) && last <= now
    ensures var (memory', granted) := FilterTake(limit, memory, now);
            && granted == Accepts(limit, accepted, now)
            && Faithful(limit, memory', if granted then accepted + [now] else accepted, now)
  {
    TakeOrdered(limit, memory, now);
    hide Filter, Nondecreasing;
    assert Memory(limit, memory, now) == Memory(limit, accepted, now);
    forall later | later >= now
      ensures Memory(limit, Memory(limit, memory, now), later) == Memory(limit, accepted, later)
      ensures Memory(limit, Memory(limit, memory, now) + [now], later) == Memory(limit, accepted + [now], later)
    {
      assert Memory(limit, memory, later) == Memory(limit, accepted, later);
      LaterAnswers(limit, memory, accepted, now, later);
    }
  }

  /** Over any nondecreasing clock the filtering limiter decides by the rule. */
  lemma {:induction false} FilterRunIsRule(limit: Limit, times: seq<real>)
    requires Nondecreasing(times)
    ensures FilterRun(limit, times).decisions == RuleRun(limit, times)
    ensures times != [] ==> Faithful(limit, FilterRun(limit, times).memory, Accepted(limit, times), times[|times| - 1])
    decreases |times|
  {
    hide Faithful, Accepts;
    if times != [] {
      var n := |times| - 1;
      FilterRunIsRule(limit, times[..n]);
      if n == 0 {
        NothingFaithful(limit, times[0]);
      }
      TakeFaithful(limit, FilterRun(limit, times[..n]).memory, Accepted(limit, times[..n]),
                   if n == 0 then times[0] else times[n - 1], times[n]);
    }
  }

  lemma NothingFaithful(limit: Limit, last: real)
    ensures Faithful(limit, [], [], last)
  {
  }

  /** Over any nondecreasing clock the two limiters make the same decisions from the same memory. */
  lemma {:induction false} LimitersAgree(limit: Limit, times: seq<real>)
    requires Nondecreasing(times)
    ensures PopRun(limit, times) == FilterRun(limit, times)
    decreases |times|
  {
    if times != [] {
      var n := |times| - 1;
      LimitersAgree(limit, times[..n]);
      var memory := FilterRun(limit, times[..n]).memory;
      FilterRunIsRule(limit, times[..n]);
      assert n > 0 ==> Faithful(limit, memory, Accepted(limit, times[..n]), times[n - 1]);
      PopIsFilter(limit, memory, times[n]);
    }
  }

  /** A clock that steps back tells them apart: the hypothesis is needed. */
  lemma {:induction false} BackwardClockDiffers()
    ensures var limit := Limit(2, 600.0);
            && PopTake(limit, [100.0, 0.0], 600.0) == ([100.0, 0.0], false)
            && FilterTake(limit, [100.0, 0.0], 600.0) == ([100.0, 600.0], true)
            && PopRun(limit, [100.0, 0.0]) == FilterRun(limit, [100.0, 0.0]) == Run([100.0, 0.0], [true, true])
  {
    var limit := Limit(2, 600.0);
    hide Filter;
    var one, two: seq<real> := [100.0], [100.0, 0.0];
    var first := RunOne(limit, 100.0);
    FilterPair(100.0, 0.0, RecentAt(limit, 600.0));
    assert Filter(two, RecentAt(limit, 600.0)) == one;
    FilterHead(100.0, (t: real) => true, RecentAt(limit, 0.0));
    assert Filter(one, RecentAt(limit, 0.0)) == one;
    assert two[..1] == one && one + [600.0] == [100.0, 600.0];
  }

  /** One call on an empty limiter. */
  lemma {:induction false} RunOne(limit: Limit, now: real) returns (r: Run)
    requires limit.cap > 0
    ensures r == Run([now], [true]) == FilterRun(limit, [now]) == PopRun(limit, [now])
  {
    assert [now][..0] == [];
    r := Run([now], [true]);
  }

  lemma {:induction false} FilterPair(x: real, y: real, keep: real -> bool)
    ensures Filter([x, y], keep) == (if keep(x) then [x] else []) + (if keep(y) then [y] else [])
  {
    assert [x, y] == [x] + [y];
    FilterConcat([x], [y], keep);
    FilterHead(x, (t: real) => true, keep);
    FilterHead(y, (t: real) => true, keep);
  }

  // ---------------------------------------------------------------- what the cap means

  lemma {:induction false} AcceptedOrdered(limit: Limit, times: seq<real>)
    requires Nondecreasing(times)
    ensures Nondecreasing(Accepted(limit, times))
    ensures forall i | 0 <= i < |Accepted(limit, times)| :: Accepted(limit, times)[i] <= times[|times| - 1]
    decreases |times|
  {
    if times != [] {
      AcceptedOrdered(limit, times[..|times| - 1]);
    }
  }

  /** If an accepted call is recent, so is every later one. */
  lemma {:induction false} RecentTail(limit: Limit, accepted: seq<real>, i: nat, now: real)
    requires Nondecreasing(accepted) && i < |accepted| && Recent(limit, now, accepted[i])
    ensures CountRecent(limit, accepted, now) >= |accepted| - i
    decreases |accepted|
  {
    var n := |accepted| - 1;
    var recent := RecentAt(limit, now);
    assert recent(accepted[n]);
    if i < n {
      RecentTail(limit, accepted[..n], i, now);
    }
  }

  /** Any `cap + 1` accepted calls span at least the window. */
  lemma {:induction false} AcceptedSpan(limit: Limit, times: seq<real>, i: nat)
    requires Nondecreasing(times) && limit.cap >= 1 && i + limit.cap < |Accepted(limit, times)|
    ensures Accepted(limit, times)[i + limit.cap] - Accepted(limit, times)[i] >= limit.window
    decreases |times|
  {
    var n := |times| - 1;
    var before := Accepted(limit, times[..n]);
    AcceptedOrdered(limit, times[..n]);
    if i + limit.cap < |before| {
      AcceptedSpan(limit, times[..n], i);
    } else if Recent(limit, times[n], before[i]) {
      RecentTail(limit, before, i, times[n]);
    }
  }
}
