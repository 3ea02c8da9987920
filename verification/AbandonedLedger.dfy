/** The bounded ledger of late failures: it loses the detail of the oldest, never their number. */
module AbandonedLedger {
  import opened Common

  datatype Drained<T> = Drained(records: seq<T>, dropped: nat)

  /** The ledger with the history it is accountable for: `log[since..]` is not yet drained. */
  datatype Account<T> = Account(log: seq<T>, since: nat, kept: seq<T>, dropped: nat, drains: seq<Drained<T>>)

  function Append<T>(a: Account<T>, cap: Capacity, e: T): Account<T> {
    var full := |a.kept| >= cap;
    Account(a.log + [e], a.since,
            (if full && a.kept != [] then a.kept[1..] else a.kept) + [e],
            if full then a.dropped + 1 else a.dropped, a.drains)
  }

  function Drain<T>(a: Account<T>): Account<T> {
    Account(a.log, |a.log|, [], 0, a.drains + [Drained(a.kept, a.dropped)])
  }

  function AppendAll<T>(a: Account<T>, cap: Capacity, es: seq<T>): Account<T>
    decreases |es|
  {
    if es == [] then a else Append(AppendAll(a, cap, es[..|es| - 1]), cap, es[|es| - 1])
  }

  /** The newest `n` of what was appended since `since`. */
  ghost predicate NewestOf<T>(kept: seq<T>, log: seq<T>, since: nat) {
    since + |kept| <= |log| && kept == log[|log| - |kept|..]
  }

  function Told<T>(drains: seq<Drained<T>>): nat {
    if drains == [] then 0
    else Told(drains[..|drains| - 1]) + |drains[|drains| - 1].records| + drains[|drains| - 1].dropped
  }

  /**
   What is kept is the newest undrained entries, the drop counter is how many older ones were
   displaced, nothing is displaced while there is room, and every drained entry was told once.
   */
  ghost predicate AccountGood<T>(a: Account<T>, cap: Capacity) {
    && |a.kept| <= cap
    && NewestOf(a.kept, a.log, a.since)
    && a.since + |a.kept| + a.dropped == |a.log|
    && (a.dropped > 0 ==> |a.kept| == cap)
    && Told(a.drains) == a.since
  }

  function Fresh<T>(): Account<T> {
    Account([], 0, [], 0, [])
  }

  lemma FreshGood<T>(cap: Capacity)
    ensures AccountGood(Fresh<T>(), cap)
  {
  }

  lemma {:induction false} AppendGood<T>(a: Account<T>, cap: Capacity, e: T)
    requires AccountGood(a, cap)
    ensures AccountGood(Append(a, cap, e), cap)
    ensures Append(a, cap, e).log == a.log + [e]
  {
    var b := Append(a, cap, e);
    assert b.kept == b.log[|b.log| - |b.kept|..];
  }

  lemma {:induction false} DrainGood<T>(a: Account<T>, cap: Capacity)
    requires AccountGood(a, cap)
    ensures AccountGood(Drain(a), cap)
  {
    var b := Drain(a);
    assert b.drains[..|a.drains|] == a.drains;
    assert b.log[|b.log|..] == [];
  }

  lemma {:induction false} AppendAllGood<T>(a: Account<T>, cap: Capacity, es: seq<T>)
    requires AccountGood(a, cap)
    ensures AccountGood(AppendAll(a, cap, es), cap)
    ensures AppendAll(a, cap, es).log == a.log + es
    decreases |es|
  {
    hide AccountGood, Append;
    if es != [] {
      AppendAllGood(a, cap, es[..|es| - 1]);
      AppendGood(AppendAll(a, cap, es[..|es| - 1]), cap, es[|es| - 1]);
      assert es == es[..|es| - 1] + [es[|es| - 1]];
    }
  }

  /** The abandoned ledger as the layer holds it, in step with its account. */
  class Ledger<T> {
    const maxlen: Capacity
    var abandoned: seq<T>
    var abandonedDropped: nat
    ghost var account: Account<T>

    ghost predicate Valid()
      reads this
    {
      AccountGood(account, maxlen) && abandoned == account.kept && abandonedDropped == account.dropped
    }

    constructor (maxAbandoned: int)
      ensures Valid() && account == Fresh() && maxlen == Clamp(maxAbandoned)
    {
      hide AccountGood;
      maxlen := Clamp(maxAbandoned);
      abandoned, abandonedDropped := [], 0;
      account := Fresh();
      FreshGood<T>(Clamp(maxAbandoned));
    }

    method RecordAbandoned(e: T)
      requires Valid()
      modifies this
      ensures Valid() && account == Append(old(account), maxlen, e)
    {
      hide NewestOf, Told;
      if |abandoned| == maxlen {
        abandonedDropped := abandonedDropped + 1;
        abandoned := abandoned[1..];
      }
      abandoned := abandoned + [e];
      AppendGood(account, maxlen, e);
      account := Append(account, maxlen, e);
    }

    /** The newest entries since the last drain, at most `maxlen`, and the count of the rest. */
    method DrainAbandoned() returns (drained: Drained<T>)
      requires Valid()
      modifies this
      ensures Valid() && account == Drain(old(account))
      ensures drained == Drained(old(account.kept), old(account.dropped))
      ensures |drained.records| + drained.dropped == |old(account.log)| - old(account.since)
      ensures drained.dropped > 0 ==> |drained.records| == maxlen
      ensures drained.records == old(account.log)[|old(account.log)| - |drained.records|..]
    {
      drained := Drained(abandoned, abandonedDropped);
      abandoned, abandonedDropped := [], 0;
      account := Drain(account);
      DrainGood(old(account), maxlen);
    }
  }
}
