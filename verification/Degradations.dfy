/** The bus's bounded degradation ledger: every occurrence counted, each recorded code once. */
module Degradations {
  import opened Common

  const MAX_DEGRADATION_CODES: nat := 64

  datatype Record = Record(code: string, reason: string)

  datatype Ledger = Ledger(
    counts: map<string, nat>, seen: set<string>, records: seq<Record>, dropped: nat, hooked: seq<Record>,
        hookErrors: nat)

  const EMPTY: Ledger := Ledger(map[], {}, [], 0, [], 0)

  function CountOf(l: Ledger, code: string): nat {
    if code in l.counts then l.counts[code] else 0
  }

  /** One `_degrade` call; the hook, when it fires, may raise. */
  function Degraded(l: Ledger, r: Record, hookRaises: bool): Ledger {
    var l1 := l.(counts := l.counts[r.code := CountOf(l, r.code) + 1]);
    if r.code in l.seen then l1
    else if |l.seen| >= MAX_DEGRADATION_CODES then l1.(dropped := l.dropped + 1)
    else l1.(seen := l.seen + {r.code}, records := l.records + [r], hooked := l.hooked + [r],
             hookErrors := if hookRaises then l.hookErrors + 1 else l.hookErrors)
  }

  /** The ledger after a sequence of calls. */
  function After(calls: seq<Record>, raises: seq<bool>): Ledger
    requires |raises| == |calls|
    decreases |calls|
  {
    if calls == [] then EMPTY
    else
      var n := |calls| - 1;
      Degraded(After(calls[..n], raises[..n]), calls[n], raises[n])
  }

  function Occurrences(calls: seq<Record>, code: string): nat {
    if calls == [] then 0
    else Occurrences(calls[..|calls| - 1], code) + if calls[|calls| - 1].code == code then 1 else 0
  }

  /** How many calls named a code that was never recorded. */
  function Unrecorded(calls: seq<Record>, seen: set<string>): nat {
    if calls == [] then 0
    else Unrecorded(calls[..|calls| - 1], seen) + if calls[|calls| - 1].code !in seen then 1 else 0
  }

  ghost predicate Counted(l: Ledger, calls: seq<Record>) {
    && (forall code :: CountOf(l, code) == Occurrences(calls, code))
    && l.dropped == Unrecorded(calls, l.seen)
    && (l.dropped > 0 ==> |l.seen| >= MAX_DEGRADATION_CODES)
  }

  ghost predicate Recorded(l: Ledger, calls: seq<Record>) {
    && |l.seen| == |l.records| <= MAX_DEGRADATION_CODES
    && (forall i | 0 <= i < |l.records| :: l.records[i].code in l.seen && l.records[i] in calls)
    && (forall i, j | 0 <= i < j < |l.records| :: l.records[i].code != l.records[j].code)
    && l.hooked == l.records && l.hookErrors <= |l.hooked|
  }

  lemma {:induction false} UnrecordedShrinks(calls: seq<Record>, seen: set<string>, code: string)
    ensures Unrecorded(calls, seen + {code}) <= Unrecorded(calls, seen)
    decreases |calls|
  {
    if calls != [] {
      UnrecordedShrinks(calls[..|calls| - 1], seen, code);
    }
  }

  lemma {:induction false} StepCounted(l: Ledger, calls: seq<Record>, r: Record, hookRaises: bool)
    requires Counted(l, calls)
    ensures Counted(Degraded(l, r, hookRaises), calls + [r])
  {
    var t := Degraded(l, r, hookRaises);
    assert (calls + [r])[..|calls|] == calls;
    UnrecordedShrinks(calls, l.seen, r.code);
    forall code
      ensures CountOf(t, code) == Occurrences(calls + [r], code)
    {
      assert CountOf(l, code) == Occurrences(calls, code);
    }
  }

  lemma StepRecorded(l: Ledger, calls: seq<Record>, r: Record, hookRaises: bool)
    requires Recorded(l, calls)
    ensures Recorded(Degraded(l, r, hookRaises), calls + [r])
  {
  }

  /**
   After any calls: every code's count is its number of occurrences; at most 64 records are kept,
   each for a different code and each announced to the hook exactly once; and the calls dropped are
   exactly those whose code was never recorded, which happens only once the ledger is full.
   */
  lemma {:induction false} LedgerIsExact(calls: seq<Record>, raises: seq<bool>)
    requires |raises| == |calls|
    ensures Counted(After(calls, raises), calls) && Recorded(After(calls, raises), calls)
    decreases |calls|
  {
    if calls != [] {
      var n := |calls| - 1;
      LedgerIsExact(calls[..n], raises[..n]);
      assert calls == calls[..n] + [calls[n]];
      hide Counted, Recorded, Degraded;
      StepCounted(After(calls[..n], raises[..n]), calls[..n], calls[n], raises[n]);
      StepRecorded(After(calls[..n], raises[..n]), calls[..n], calls[n], raises[n]);
    }
  }

  function Codes(calls: seq<Record>): set<string> {
    set r | r in calls :: r.code
  }

  /** Call `k` is the first with its code, and fewer than 64 codes came before it. */
  predicate Announced(calls: seq<Record>, k: nat)
    requires k < |calls|
  {
    calls[k].code !in Codes(calls[..k]) && |Codes(calls[..k])| < MAX_DEGRADATION_CODES
  }

  /** The first call of each of the first 64 codes, in order. */
  function Firsts(calls: seq<Record>): seq<Record> {
    if calls == [] then []
    else
      var n := |calls| - 1;
      Firsts(calls[..n]) + if Announced(calls, n) then [calls[n]] else []
  }

  /** How many of them found a hook that raised. */
  function FailedHooks(calls: seq<Record>, raises: seq<bool>): nat
    requires |raises| == |calls|
  {
    if calls == [] then 0
    else
      var n := |calls| - 1;
      FailedHooks(calls[..n], raises[..n]) + if Announced(calls, n) && raises[n] then 1 else 0
  }

  lemma CodesNext(calls: seq<Record>, n: nat)
    requires n == |calls| - 1
    ensures Codes(calls) == Codes(calls[..n]) + {calls[n].code}
    ensures |Codes(calls)| == |Codes(calls[..n])| + if calls[n].code in Codes(calls[..n]) then 0 else 1
  {
    var before, code := Codes(calls[..n]), calls[n].code;
    assert calls == calls[..n] + [calls[n]];
    assert Codes(calls) == before + {code};
    hide Codes;
    assert code in before ==> before + {code} == before;
  }

  /** How the codes seen and the codes named grow together. */
  ghost predicate Follow(seen: set<string>, named: set<string>) {
    && seen <= named
    && if |named| <= MAX_DEGRADATION_CODES then seen == named else |seen| == MAX_DEGRADATION_CODES
  }

  lemma FollowNext(l: Ledger, named: set<string>, r: Record, raises: bool, next: set<string>)
    requires Follow(l.seen, named) && next == named + {r.code}
    requires |next| == |named| + if r.code in named then 0 else 1
    ensures Follow(Degraded(l, r, raises).seen, next)
  {
    if r.code in named {
      assert next == named;
      assert r.code in l.seen || |l.seen| >= MAX_DEGRADATION_CODES;
    }
  }

  /** The codes seen are all codes named, as long as these are no more than 64. */
  lemma {:induction false} SeenCodes(calls: seq<Record>, raises: seq<bool>)
    requires |raises| == |calls|
    ensures Follow(After(calls, raises).seen, Codes(calls))
    decreases |calls|
  {
    hide Degraded;
    if calls != [] {
      var n := |calls| - 1;
      SeenCodes(calls[..n], raises[..n]);
      CodesNext(calls, n);
      FollowNext(After(calls[..n], raises[..n]), Codes(calls[..n]), calls[n], raises[n], Codes(calls));
    }
  }

  /** The records are the first ones of the first 64 codes, and every hook that raised was counted. */
  lemma {:induction false} LedgerKeepsFirsts(calls: seq<Record>, raises: seq<bool>)
    requires |raises| == |calls|
    ensures After(calls, raises).records == Firsts(calls)
    ensures After(calls, raises).hookErrors == FailedHooks(calls, raises)
    decreases |calls|
  {
    if calls != [] {
      var n := |calls| - 1;
      LedgerKeepsFirsts(calls[..n], raises[..n]);
      SeenCodes(calls[..n], raises[..n]);
      hide Codes;
    }
  }

  /** The ledger as the bus holds it. */
  class DegradationLedger {
    var counts: map<string, nat>
    var seen: set<string>
    var records: seq<Record>
    var dropped: nat
    var hookErrors: nat
    ghost var hooked: seq<Record>

    ghost function Contents(): Ledger
      reads this
    {
      Ledger(counts, seen, records, dropped, hooked, hookErrors)
    }

    constructor ()
      ensures Contents() == EMPTY
    {
      counts, seen, records, dropped, hookErrors, hooked := map[], {}, [], 0, 0, [];
    }

    /** Counts the code; records and announces it the first time, while there is room. */
    method Degrade(record: Record, hookRaises: bool)
      modifies this
      ensures Contents() == Degraded(old(Contents()), record, hookRaises)
    {
      var code := record.code;
      counts := counts[code := (if code in counts then counts[code] else 0) + 1];
      var isNew := false;
      if code !in seen {
        if |seen| >= MAX_DEGRADATION_CODES {
          dropped := dropped + 1;
        } else {
          seen := seen + {code};
          records := records + [record];
          isNew := true;
        }
      }
      if isNew {
        hooked := hooked + [record];
        if hookRaises {
          hookErrors := hookErrors + 1;
        }
      }
    }
  }
}
