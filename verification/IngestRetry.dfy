/**
 Retrying an ingest batch: which faults and which stores leave a clean run ending where it would
 have ended alone, with deferred jobs landing whenever they do.
 */
module IngestRetry {
  import opened Common
  import opened Ingest

  // ---------------------------------------------------------------- a real batch, then its retry

  function Records(items: seq<Item>, n: nat): seq<Record>
    requires n <= |items|
  {
    if n == 0 then []
    else Records(items, n - 1) + if items[n - 1].Prepared? then [items[n - 1].record] else []
  }

  function Batch(items: seq<Item>): seq<Record> {
    Records(items, |items|)
  }

  /** Whatever faults strike, the batch amounts to some of its jobs, whole or without their flip. */
  lemma {:induction false} PlayScatters(s: Store, items: seq<Item>, faults: seq<Fault>, n: nat)
      returns (pieces: seq<Piece>)
    requires Unique(s) && |faults| == |items| && n <= |items|
    ensures Within(pieces, Records(items, n)) && Play(s, items, faults, n).store == Scattered(s, pieces)
    decreases n
  {
    hide After, StoreUnder, VerdictUnder;
    if n == 0 {
      return [];
    }
    pieces := PlayScatters(s, items, faults, n - 1);
    var p := Play(s, items, faults, n - 1);
    if !p.halted && items[n - 1].Prepared? {
      pieces := JobScatters(s, pieces, items[n - 1].record, faults[n - 1]);
    }
  }

  lemma {:induction false} JobScatters(s: Store, pieces: seq<Piece>, r: Record, fault: Fault) returns (more: seq<Piece>)
    requires Unique(s)
    ensures more == pieces || more == pieces + [Piece(r, true)] || more == pieces + [Piece(r, false)]
    ensures Scattered(s, more) == StoreUnder(Scattered(s, pieces), r, fault)
  {
    var extent := ExtentUnder(Scattered(s, pieces), r, fault);
    if extent == Nothing {
      return pieces;
    }
    var piece := Piece(r, extent.Everything?);
    assert (pieces + [piece])[..|pieces|] == pieces;
    return pieces + [piece];
  }

  /** With distinct texts, a batch that met any faults is put right by one clean run. */
  lemma {:induction false} RetryRepairs(s: Store, items: seq<Item>, faults: seq<Fault>)
    requires Unique(s) && |faults| == |items|
    requires BatchApart(Batch(items)) && KeepsTexts(s, Batch(items)) && DistinctTexts(Batch(items))
    ensures Run(Play(s, items, faults, |items|).store, Batch(items)) == Run(s, Batch(items))
  {
    hide After, StoreUnder, VerdictUnder;
    var pieces := PlayScatters(s, items, faults, |items|);
    ScatteredConverges(s, Batch(items), pieces);
  }

  /** Whatever faults struck the batch, and on whatever store, a clean run of it ends where one alone does. */
  ghost predicate Converges(batch: seq<Record>) {
    forall s: Store, items, faults |
      Unique(s) && KeepsTexts(s, batch) && Batch(items) == batch && |faults| == |items|
      :: Run(Play(s, items, faults, |items|).store, batch) == Run(s, batch)
  }

  /** A batch without one of its records. */
  function Without(batch: seq<Record>, skip: nat): seq<Record>
    requires skip < |batch|
  {
    batch[..skip] + batch[skip + 1..]
  }

  function AllPrepared(batch: seq<Record>): (items: seq<Item>)
    ensures |items| == |batch|
  {
    seq(|batch|, i requires 0 <= i < |batch| => Prepared(batch[i]))
  }

  /** Exactly one write is refused; everything else goes through. */
  function OneRefused(n: nat, skip: nat): (faults: seq<Fault>)
    ensures |faults| == n
  {
    seq(n, i => if i == skip then WriteRefused else NoFault)
  }

  lemma {:induction false} RecordsAll(batch: seq<Record>, n: nat)
    requires n <= |batch|
    ensures Records(AllPrepared(batch), n) == batch[..n]
    decreases n
  {
    if n > 0 {
      RecordsAll(batch, n - 1);
    }
  }

  /** A batch with one refused write leaves what the others leave. */
  lemma {:induction false} RefusedPlay(s: Store, batch: seq<Record>, skip: nat, n: nat)
    requires Unique(s) && skip < |batch| && n <= |batch|
    ensures var p := Play(s, AllPrepared(batch), OneRefused(|batch|, skip), n);
            !p.halted && p.store == Run(s, if n <= skip then batch[..n] else Without(batch[..n], skip))
    decreases n
  {
    hide After, VerdictUnder;
    if n > 0 {
      var m := n - 1;
      RefusedPlay(s, batch, skip, m);
      if m < skip {
        assert batch[..n] == batch[..m] + [batch[m]];
        RunSnoc(s, batch[..m], batch[m]);
      } else if m == skip {
        assert Without(batch[..n], skip) == batch[..m];
      } else {
        assert Without(batch[..n], skip) == Without(batch[..m], skip) + [batch[m]];
        RunSnoc(s, Without(batch[..m], skip), batch[m]);
      }
    }
  }

  /** Only a batch's own ids enter the store. */
  lemma {:induction false} IdsFrom(s: Store, batch: seq<Record>, id: Id)
    requires Unique(s) && id !in s && forall i | 0 <= i < |batch| :: batch[i].id != id
    ensures id !in Run(s, batch)
    decreases |batch|
  {
    if batch != [] {
      IdsFrom(After(s, batch[0]), batch[1..], id);
    }
  }

  lemma {:induction false} WithoutApart(batch: seq<Record>, skip: nat)
    requires BatchApart(batch) && skip < |batch|
    ensures var rest := Without(batch, skip);
            BatchApart(rest) && forall k | 0 <= k < |rest| :: rest[k] in batch && Apart(batch[skip], rest[k])
  {
    ApartMember(batch, skip);
    var rest := Without(batch, skip);
    forall k | 0 <= k < |rest|
      ensures rest[k] in batch && Apart(batch[skip], rest[k])
    {
      assert rest[k] == batch[if k < skip then k else k + 1];
    }
  }

  /** Where the first of two records with one text was refused, the other keeps it out for good. */
  lemma {:induction false} RefusedStaysOut(batch: seq<Record>, first: nat, j: nat)
    requires BatchApart(batch) && first < j < |batch| && batch[first].text == batch[j].text
    requires forall k | 0 <= k < first :: batch[k].text != batch[first].text
    ensures batch[first].id !in Run(Run(map[], Without(batch, first)), batch)
  {
    hide Run, After;
    var r, rest := batch[first], Without(batch, first);
    WithoutApart(batch, first);
    IdsFrom(map[], rest, r.id);
    var t := Run(map[], rest);
    assert rest[j - 1] == batch[j];
    var q := FirstWithText(rest, j - 1);
    FirstIsStored(rest, q);
    RunKeepsTexts(map[], rest, batch);
    var m :| 0 <= m < |batch| && batch[m] == rest[q];
    assert KeepsText(t, batch[m]);
    assert Blocks(t, r, rest[q].id);
    ApartMember(batch, first);
    StaysOut(t, r, batch);
  }

  /** Two records with one text: a refused write of the first, then a clean run, loses it. */
  lemma {:induction false} SharedTextDiverges(batch: seq<Record>, i: nat, j: nat)
    requires BatchApart(batch) && i < j < |batch| && batch[i].text == batch[j].text
    ensures exists skip | 0 <= skip < |batch| ::
              var t := Play(map[], AllPrepared(batch), OneRefused(|batch|, skip), |batch|).store;
              batch[skip].id in Run(map[], batch) && batch[skip].id !in Run(t, batch)
  {
    hide Run, After, Play;
    var first := FirstWithText(batch, i);
    RefusedPlay(map[], batch, first, |batch|);
    assert batch[..|batch|] == batch;
    RefusedStaysOut(batch, first, j);
    FirstIsStored(batch, first);
  }

  lemma {:induction false} DistinctConverges(batch: seq<Record>)
    requires BatchApart(batch) && DistinctTexts(batch)
    ensures Converges(batch)
  {
    hide Run, Play, BatchApart, DistinctTexts, Records;
    forall s: Store, items, faults |
      Unique(s) && KeepsTexts(s, batch) && Batch(items) == batch && |faults| == |items|
      ensures Run(Play(s, items, faults, |items|).store, batch) == Run(s, batch)
    {
      RetryRepairs(s, items, faults);
    }
  }

  lemma {:induction false} SharedNeverConverges(batch: seq<Record>, i: nat, j: nat)
    requires BatchApart(batch) && i < j < |batch| && batch[i].text == batch[j].text
    ensures !Converges(batch)
  {
    SharedTextDiverges(batch, i, j);
    RecordsAll(batch, |batch|);
    assert batch[..|batch|] == batch;
    hide Run, Play, BatchApart, Records;
    assert |AllPrepared(batch)| == |batch| && Batch(AllPrepared(batch)) == batch;
    assert KeepsTexts(map[], batch) && Unique(map[]);
  }

  /**
   A batch may be retried after any faults, those that do not halt it included, exactly when no
   two of its records share a text; one refused write is enough to lose a record otherwise.
   */
  lemma {:induction false} ConvergesIff(batch: seq<Record>)
    requires BatchApart(batch)
    ensures Converges(batch) <==> DistinctTexts(batch)
  {
    hide Converges;
    if DistinctTexts(batch) {
      DistinctConverges(batch);
    } else {
      var i, j :| 0 <= i < j < |batch| && batch[i].text == batch[j].text;
      SharedNeverConverges(batch, i, j);
    }
  }

  /** A fault that strikes a record only by halting the batch at it. */
  predicate Clean(fault: Fault) {
    fault.NoFault? || Halts(fault)
  }

  lemma {:induction false} RunSnoc(s: Store, batch: seq<Record>, r: Record)
    requires Unique(s)
    ensures Run(s, batch + [r]) == After(Run(s, batch), r)
  {
    RunConcat(s, batch, [r]);
    assert Run(Run(s, batch), [r]) == After(Run(s, batch), r);
  }

  /** The first `k` records' jobs, then perhaps the next one's write without its flip. */
  function RunPart(s: Store, batch: seq<Record>, k: nat, part: bool): (t: Store)
    requires Unique(s) && k <= |batch| && (part ==> k < |batch|)
    ensures Unique(t)
  {
    if part then After(Run(s, batch[..k]), Part(batch[k], false)) else Run(s, batch[..k])
  }

  /** A batch that only ever halted amounts to such a prefix, and to all its records when it did not. */
  lemma {:induction false} HaltedIsPrefix(s: Store, items: seq<Item>, faults: seq<Fault>, n: nat)
    returns (k: nat, part: bool)
    requires Unique(s) && |faults| == |items| && n <= |items| && forall i | 0 <= i < n :: Clean(faults[i])
    ensures k <= |Records(items, n)| && (part ==> k < |Records(items, n)|)
    ensures Play(s, items, faults, n).store == RunPart(s, Records(items, n), k, part)
    ensures !Play(s, items, faults, n).halted ==> k == |Records(items, n)|
    decreases n
  {
    hide After;
    if n == 0 {
      return 0, false;
    }
    var front, all := Records(items, n - 1), Records(items, n);
    k, part := HaltedIsPrefix(s, items, faults, n - 1);
    assert all[..k] == front[..k] && (part ==> all[k] == front[k]);
    var p := Play(s, items, faults, n - 1);
    if !p.halted && items[n - 1].Prepared? {
      var r := items[n - 1].record;
      var extent := ExtentUnder(p.store, r, faults[n - 1]);
      assert front[..k] == front && all[k] == r;
      if extent.Everything? {
        RunSnoc(s, front, r);
        k := k + 1;
        assert all[..k] == all;
      } else if extent.WriteOnly? {
        part := true;
      }
    }
  }

  /** After any batch that halted, a clean run of the whole batch ends where one clean run would. */
  lemma {:induction false} HaltedRetry(s: Store, items: seq<Item>, faults: seq<Fault>)
    requires Unique(s) && |faults| == |items| && forall i | 0 <= i < |faults| :: Clean(faults[i])
    requires BatchApart(Batch(items)) && Steady(s, Batch(items))
    ensures Run(Play(s, items, faults, |items|).store, Batch(items)) == Run(s, Batch(items))
  {
    hide After, StoreUnder, VerdictUnder;
    var batch := Batch(items);
    var k, part := HaltedIsPrefix(s, items, faults, |items|);
    PrefixAbsorbs(s, batch, k, |batch|);
    assert batch[..|batch|] == batch;
    if part {
      RunSettles(s, batch, k);
      NextAbsorbed(Run(s, batch[..k]), batch, k, false);
    }
  }

  // ---------------------------------------------------------------- on which stores a retry is safe

  /** Whatever halts struck the batch, on every store, a clean run of it ends where one alone does. */
  ghost predicate HaltsConverge(batch: seq<Record>) {
    forall s: Store, items: seq<Item>, faults: seq<Fault> {:trigger Play(s, items, faults, |items|)} |
      Unique(s) && Batch(items) == batch && |faults| == |items| && (forall i | 0 <= i < |faults| :: Clean(faults[i]))
      :: Run(Play(s, items, faults, |items|).store, batch) == Run(s, batch)
  }

  /** Whatever faults struck the batch, on every store. */
  ghost predicate AlwaysConverges(batch: seq<Record>) {
    forall s: Store, items: seq<Item>, faults: seq<Fault> {:trigger Play(s, items, faults, |items|)} |
      Unique(s) && Batch(items) == batch && |faults| == |items|
      :: Run(Play(s, items, faults, |items|).store, batch) == Run(s, batch)
  }

  /** Record `at` is not waited for, though its job finishes. */
  function HaltAt(n: nat, at: nat): (faults: seq<Fault>)
    ensures |faults| == n && forall i | 0 <= i < n :: Clean(faults[i])
  {
    seq(n, i => if i == at then TimedOut(Everything) else NoFault)
  }

  lemma {:induction false} HaltPlay(s: Store, batch: seq<Record>, at: nat, n: nat)
    requires Unique(s) && at < |batch| && n <= |batch|
    ensures var p := Play(s, AllPrepared(batch), HaltAt(|batch|, at), n);
            (p.halted <==> at < n) && p.store == Run(s, batch[..if n <= at then n else at + 1])
    decreases n
  {
    hide After, VerdictUnder;
    if n > 0 {
      HaltPlay(s, batch, at, n - 1);
      if n - 1 <= at {
        assert batch[..n] == batch[..n - 1] + [batch[n - 1]];
        RunSnoc(s, batch[..n - 1], batch[n - 1]);
      }
    }
  }

  /** The store in which record `j` still holds the text the batch's first record now has. */
  function HeldBy(batch: seq<Record>, j: nat): (s: Store)
    requires j < |batch|
    ensures Unique(s)
  {
    map[batch[j].id := Stored(batch[0].text, false)]
  }

  lemma {:induction false} HeldBlocks(batch: seq<Record>, j: nat)
    requires BatchApart(batch) && 0 < j < |batch|
    requires forall i | 0 <= i < j :: batch[i].text == batch[0].text
    ensures Run(HeldBy(batch, j), batch[..j]) == HeldBy(batch, j)
  {
    var s := HeldBy(batch, j);
    ApartMember(batch, j);
    forall i | 0 <= i < j
      ensures Settled(s, batch[..j][i])
    {
      assert Blocks(s, batch[i], batch[j].id);
    }
    SettledRun(s, batch[..j]);
  }

  lemma HeldRewritten(batch: seq<Record>, j: nat)
    requires BatchApart(batch) && 0 < j < |batch| && batch[j].text != batch[0].text
    ensures After(HeldBy(batch, j), batch[j]) == map[batch[j].id := Stored(batch[j].text, false)]
  {
    assert Clash(HeldBy(batch, j), batch[j].id, batch[j].text).None?;
  }

  /**
   The first record with a second text frees the first record's text when it is rewritten: one
   run leaves the first record out, and so does no run after a halt there.
   */
  lemma {:induction false} RewriteDiverges(batch: seq<Record>, j: nat)
    requires BatchApart(batch) && 0 < j < |batch| && batch[j].text != batch[0].text
    requires forall i | 0 <= i < j :: batch[i].text == batch[0].text
    ensures batch[0].id !in Run(HeldBy(batch, j), batch)
    ensures batch[0].id in Run(Run(HeldBy(batch, j), batch[..j + 1]), batch)
  {
    var s := HeldBy(batch, j);
    HeldBlocks(batch, j);
    HeldRewritten(batch, j);
    ApartMember(batch, 0);
    assert batch == batch[..j] + batch[j..] && batch[..j + 1] == batch[..j] + [batch[j]];
    RunConcat(s, batch[..j], batch[j..]);
    IdsFrom(s, batch[j..], batch[0].id);
    RunSnoc(s, batch[..j], batch[j]);
    FirstEnters(Run(s, batch[..j + 1]), batch);
  }

  /** In particular a batch of distinct texts, run to the end twice. */
  lemma {:induction false} SecondRunDiffers(batch: seq<Record>)
    requires BatchApart(batch) && DistinctTexts(batch) && |batch| >= 2
    ensures var s := HeldBy(batch, 1);
            batch[0].id !in Run(s, batch) && batch[0].id in Run(Run(s, batch), batch)
  {
    hide After, HeldBy;
    RewriteDiverges(batch, 1);
    HeldOnce(batch);
    var u, t := After(HeldBy(batch, 1), batch[1]), Run(HeldBy(batch, 1), batch);
    HeldRewritten(batch, 1);
    TextsFrom(u, batch[2..], batch[0].text);
    assert forall a | a in t :: t[a].text != batch[0].text;
    ApartMember(batch, 0);
    FirstEnters(t, batch);
  }

  lemma {:induction false} HeldOnce(batch: seq<Record>)
    requires BatchApart(batch) && |batch| >= 2 && batch[1].text != batch[0].text
    ensures Run(HeldBy(batch, 1), batch) == Run(After(HeldBy(batch, 1), batch[1]), batch[2..])
  {
    hide After, HeldBy;
    HeldBlocks(batch, 1);
    assert batch == batch[..1] + ([batch[1]] + batch[2..]);
    RunConcat(HeldBy(batch, 1), batch[..1], [batch[1]] + batch[2..]);
    assert ([batch[1]] + batch[2..])[1..] == batch[2..];
  }

  /** A record whose text nobody holds enters, and stays while nothing supersedes it. */
  lemma {:induction false} FirstEnters(s: Store, batch: seq<Record>)
    requires Unique(s) && batch != [] && (forall a | a in s :: s[a].text != batch[0].text)
    requires forall i | 0 <= i < |batch| :: i != 0 ==> batch[i].supersedes != Some(batch[0].id)
    ensures batch[0].id in Run(s, batch)
  {
    assert Clash(s, batch[0].id, batch[0].text).None?;
    StaysIn(After(s, batch[0]), batch[0].id, batch[1..]);
  }

  lemma {:induction false} FirstOther(batch: seq<Record>, j: nat) returns (first: nat)
    requires 0 < j < |batch| && batch[j].text != batch[0].text
    ensures 0 < first <= j && batch[first].text != batch[0].text
    ensures forall i | 0 <= i < first :: batch[i].text == batch[0].text
    decreases j
  {
    if i :| 0 < i < j && batch[i].text != batch[0].text {
      first := FirstOther(batch, i);
    } else {
      first := j;
    }
  }

  /** The halted play behind `RewriteDiverges`. */
  lemma {:induction false} RewritePlay(batch: seq<Record>, j: nat)
    requires BatchApart(batch) && 0 < j < |batch| && batch[j].text != batch[0].text
    requires forall i | 0 <= i < j :: batch[i].text == batch[0].text
    ensures Batch(AllPrepared(batch)) == batch
    ensures var t := Play(HeldBy(batch, j), AllPrepared(batch), HaltAt(|batch|, j), |batch|).store;
            Run(t, batch) != Run(HeldBy(batch, j), batch)
  {
    hide Run, Play, After, HeldBy, BatchApart;
    RewriteDiverges(batch, j);
    HaltPlay(HeldBy(batch, j), batch, j, |batch|);
    RecordsAll(batch, |batch|);
    assert batch[..|batch|] == batch;
  }

  lemma {:induction false} TwoTextsDiverge(batch: seq<Record>, j: nat)
    requires BatchApart(batch) && 0 < j < |batch| && batch[j].text != batch[0].text
    ensures !HaltsConverge(batch)
  {
    var first := FirstOther(batch, j);
    hide Run, Play, BatchApart, Records, HeldBy, Batch, Clean, AllPrepared, HaltAt;
    RewritePlay(batch, first);
    assert Unique(HeldBy(batch, first));
  }

  lemma {:induction false} OneTextConverges(batch: seq<Record>)
    requires BatchApart(batch) && OneText(batch)
    ensures HaltsConverge(batch)
  {
    hide Run, Play, BatchApart, OneText, Batch, Clean;
    forall s: Store, items: seq<Item>, faults: seq<Fault> {:trigger Play(s, items, faults, |items|)} |
      Unique(s) && Batch(items) == batch && |faults| == |items| && (forall i | 0 <= i < |faults| :: Clean(faults[i]))
      ensures Run(Play(s, items, faults, |items|).store, batch) == Run(s, batch)
    {
      HaltedRetry(s, items, faults);
    }
  }

  /** On every store, halts are safe exactly for a batch with a single text. */
  lemma {:induction false} HaltsConvergeIff(batch: seq<Record>)
    requires BatchApart(batch)
    ensures HaltsConverge(batch) <==> OneText(batch)
  {
    hide HaltsConverge;
    if OneText(batch) {
      OneTextConverges(batch);
    } else {
      var i, j :| 0 <= i < j < |batch| && batch[i].text != batch[j].text;
      TwoTextsDiverge(batch, if batch[j].text != batch[0].text then j else i);
    }
  }

  lemma {:induction false} ScatteredOne(s: Store, r: Record, pieces: seq<Piece>)
    requires Unique(s) && forall i | 0 <= i < |pieces| :: pieces[i].record == r
    ensures After(Scattered(s, pieces), r) == After(s, r)
    decreases |pieces|
  {
    if pieces != [] {
      var n := |pieces| - 1;
      ScatteredOne(s, r, pieces[..n]);
      PartAbsorbed(Scattered(s, pieces[..n]), r, pieces[n].whole);
    }
  }

  lemma {:induction false} SingleConverges(s: Store, items: seq<Item>, faults: seq<Fault>, batch: seq<Record>)
    requires Unique(s) && |faults| == |items| && Batch(items) == batch && |batch| <= 1
    ensures Run(Play(s, items, faults, |items|).store, batch) == Run(s, batch)
  {
    hide After, StoreUnder, VerdictUnder;
    var pieces := PlayScatters(s, items, faults, |items|);
    if pieces != [] {
      var r := pieces[0].record;
      assert r in batch;
      assert batch == [r] && batch[1..] == [];
      ScatteredOne(s, r, pieces);
    }
  }

  lemma {:induction false} SingleAlways(batch: seq<Record>)
    requires |batch| <= 1
    ensures AlwaysConverges(batch)
  {
    hide Run, Play, Batch;
    forall s: Store, items: seq<Item>, faults: seq<Fault> {:trigger Play(s, items, faults, |items|)} |
      Unique(s) && Batch(items) == batch && |faults| == |items|
      ensures Run(Play(s, items, faults, |items|).store, batch) == Run(s, batch)
    {
      SingleConverges(s, items, faults, batch);
    }
  }

  lemma AlwaysIsBoth(batch: seq<Record>)
    requires AlwaysConverges(batch)
    ensures HaltsConverge(batch) && Converges(batch)
  {
    hide Run, Play, Records;
  }

  lemma {:induction false} TwoNeverAlways(batch: seq<Record>)
    requires BatchApart(batch) && |batch| >= 2
    ensures !AlwaysConverges(batch)
  {
    hide AlwaysConverges, HaltsConverge, Converges;
    HaltsConvergeIff(batch);
    ConvergesIff(batch);
    assert OneText(batch) ==> batch[0].text == batch[1].text;
    if AlwaysConverges(batch) {
      AlwaysIsBoth(batch);
    }
  }

  /** On every store, arbitrary faults are safe exactly for a batch of at most one record. */
  lemma {:induction false} AlwaysConvergesIff(batch: seq<Record>)
    requires BatchApart(batch)
    ensures AlwaysConverges(batch) <==> |batch| <= 1
  {
    hide AlwaysConverges;
    if |batch| <= 1 {
      SingleAlways(batch);
    } else {
      TwoNeverAlways(batch);
    }
  }

  // ---------------------------------------------------------------- batches whose records are not apart

  lemma RunThree(s: Store, a: Record, b: Record, c: Record)
    requires Unique(s)
    ensures Run(s, [a, b, c]) == After(After(After(s, a), b), c)
  {
    hide After;
    assert [] + [a] == [a] && [a] + [b] == [a, b] && [a, b] + [c] == [a, b, c];
    RunSnoc(s, [], a);
    RunSnoc(s, [a], b);
    RunSnoc(s, [a, b], c);
  }

  lemma Collapses(s: Store, r: Record, c: Id)
    requires Unique(s) && Blocks(s, r, c)
    ensures After(s, r) == s
  {
    SettledStays(s, r);
  }

  lemma TakesOver(s: Store, r: Record, c: Id)
    requires Unique(s) && c in s && c != r.id && s[c].text == r.text && r.supersedes == Some(c)
    ensures After(s, r) == Upsert(s, r)
  {
    assert Clash(s, r.id, r.text) == Some(c);
  }

  lemma Enters(s: Store, r: Record)
    requires Unique(s) && forall a | a in s && s[a].text == r.text :: a == r.id
    ensures var t := Upsert(s, r);
            var flips := r.supersedes.Some? && r.supersedes.value != r.id;
            After(s, r) == if flips then Archive(t, r.supersedes.value) else t
  {
    assert Clash(s, r.id, r.text).None?;
  }

  /** Entering a store where the text is free, under an id that is stored with it or not at all. */
  lemma EntersFree(s: Store, r: Record)
    requires Unique(s) && r.supersedes.None? && forall a | a in s :: s[a].text == r.text ==> a == r.id
    ensures After(s, r) == s[r.id := Stored(r.text, false)]
  {
    Enters(s, r);
    hide After;
    assert Upsert(s, r) == s[r.id := Stored(r.text, false)];
  }

  lemma EntersArchiving(s: Store, r: Record, gone: Id)
    requires Unique(s) && r.supersedes == Some(gone) && gone in s && gone != r.id
    requires forall a | a in s :: s[a].text != r.text
    ensures After(s, r) == s[r.id := Stored(r.text, false)][gone := s[gone].(archived := true)]
  {
    Enters(s, r);
    hide After;
    assert Upsert(s, r) == s[r.id := Stored(r.text, false)];
  }

  /** `c` supersedes `b`, which supersedes `a`, all in one batch: a second run makes `a` active again. */
  lemma {:induction false} ChainDiverges(a: Id, b: Id, c: Id, x: string, y: string)
    requires a != b && b != c && a != c && x != y
    ensures var batch := [Record(a, x, None), Record(b, y, Some(a)), Record(c, y, Some(b))];
            && Run(map[], batch) == map[a := Stored(x, true), c := Stored(y, false)]
            && Run(Run(map[], batch), batch) == map[a := Stored(x, false), c := Stored(y, false)]
  {
    hide After, Run;
    var ra, rb, rc := Record(a, x, None), Record(b, y, Some(a)), Record(c, y, Some(b));
    RunThree(map[], ra, rb, rc);
    RunThree(map[a := Stored(x, true), c := Stored(y, false)], ra, rb, rc);
    ChainOnce(a, b, c, x, y);
    ChainTwice(a, b, c, x, y);
  }

  lemma ChainOnce(a: Id, b: Id, c: Id, x: string, y: string)
    requires a != b && b != c && a != c && x != y
    ensures After(After(After(map[], Record(a, x, None)), Record(b, y, Some(a))), Record(c, y, Some(b))) ==
            map[a := Stored(x, true), c := Stored(y, false)]
  {
    hide After, Run;
    var two: Store := map[a := Stored(x, true), b := Stored(y, false)];
    var one: Store := map[a := Stored(x, false)];
    EntersFree(map[], Record(a, x, None));
    assert After(map[], Record(a, x, None)) == one;
    EntersArchiving(one, Record(b, y, Some(a)), a);
    assert After(one, Record(b, y, Some(a))) == two;
    TakesOver(two, Record(c, y, Some(b)), b);
  }

  lemma ChainTwice(a: Id, b: Id, c: Id, x: string, y: string)
    requires a != b && b != c && a != c && x != y
    ensures var first: Store := map[a := Stored(x, true), c := Stored(y, false)];
            After(After(After(first, Record(a, x, None)), Record(b, y, Some(a))), Record(c, y, Some(b))) ==
                map[a := Stored(x, false), c := Stored(y, false)]
  {
    hide After, Run;
    var first: Store := map[a := Stored(x, true), c := Stored(y, false)];
    var second: Store := map[a := Stored(x, false), c := Stored(y, false)];
    EntersFree(first, Record(a, x, None));
    assert After(first, Record(a, x, None)) == second;
    Collapses(second, Record(b, y, Some(a)), c);
    Enters(second, Record(c, y, Some(b)));
    assert Upsert(second, Record(c, y, Some(b))) == second;
  }

  /** An id given two texts in one batch: a second run stores `a`, which the first left out. */
  lemma {:induction false} RepeatedIdDiverges(a: Id, b: Id, c: Id, x: string, y: string)
    requires a != b && b != c && a != c && x != y
    ensures var batch := [Record(a, x, None), Record(b, x, Some(c)), Record(b, y, None)];
            var s: Store := map[c := Stored(x, false)];
            && Run(s, batch) == map[b := Stored(y, false)]
            && Run(Run(s, batch), batch) == map[a := Stored(x, false), b := Stored(y, false)]
  {
    hide After, Run;
    var ra, rb, rc := Record(a, x, None), Record(b, x, Some(c)), Record(b, y, None);
    RunThree(map[c := Stored(x, false)], ra, rb, rc);
    RunThree(map[b := Stored(y, false)], ra, rb, rc);
    RepeatedOnce(a, b, c, x, y);
    RepeatedTwice(a, b, c, x, y);
  }

  lemma RepeatedOnce(a: Id, b: Id, c: Id, x: string, y: string)
    requires a != b && b != c && a != c && x != y
    ensures var s: Store := map[c := Stored(x, false)];
            After(After(After(s, Record(a, x, None)), Record(b, x, Some(c))), Record(b, y, None)) ==
                map[b := Stored(y, false)]
  {
    hide After, Run;
    var s: Store := map[c := Stored(x, false)];
    var one: Store := map[b := Stored(x, false)];
    Collapses(s, Record(a, x, None), c);
    TakesOver(s, Record(b, x, Some(c)), c);
    assert After(s, Record(b, x, Some(c))) == one;
    EntersFree(one, Record(b, y, None));
  }

  lemma RepeatedTwice(a: Id, b: Id, c: Id, x: string, y: string)
    requires a != b && b != c && a != c && x != y
    ensures var first: Store := map[b := Stored(y, false)];
            After(After(After(first, Record(a, x, None)), Record(b, x, Some(c))), Record(b, y, None)) ==
                map[a := Stored(x, false), b := Stored(y, false)]
  {
    hide After, Run;
    var first: Store := map[b := Stored(y, false)];
    var second: Store := map[a := Stored(x, false), b := Stored(y, false)];
    EntersFree(first, Record(a, x, None));
    assert After(first, Record(a, x, None)) == second;
    Collapses(second, Record(b, x, Some(c)), a);
    EntersFree(second, Record(b, y, None));
  }

  // ---------------------------------------------------------------- jobs that land late

  /** A batch under retry: its store, the next record of this attempt, whether none failed in it, and deferred jobs. */
  datatype Retry = Retry(store: Store, at: nat, unfailed: bool, late: multiset<nat>)

  /** The next record's job, waited for, failing without a halt, or deferred; a deferred job landing; starting over. */
  datatype Event = Job | Fail(extent: Extent) | Defer | Land(k: nat, extent: Extent) | Again

  predicate Happens(batch: seq<Record>, q: Retry, e: Event) {
    match e
    case Land(k, _) => k < |batch| && k in q.late
    case Again => true
    case _ => q.at < |batch|
  }

  function Next(batch: seq<Record>, q: Retry, e: Event): (t: Retry)
    requires Unique(q.store) && Happens(batch, q, e)
    ensures Unique(t.store)
  {
    match e
    case Job => q.(store := After(q.store, batch[q.at]), at := q.at + 1)
    case Fail(extent) => q.(store := Landed(q.store, batch[q.at], extent), at := q.at + 1, unfailed := false)
    case Defer => q.(late := q.late + multiset{q.at}, at := 0, unfailed := true)
    case Land(k, extent) => q.(store := Landed(q.store, batch[k], extent), late := q.late - multiset{k})
    case Again => q.(at := 0, unfailed := true)
  }

  ghost predicate Follows(batch: seq<Record>, q: Retry, events: seq<Event>, t: Retry)
    requires Unique(q.store)
    decreases |events|
  {
    if events == [] then q == t
    else Happens(batch, q, events[0]) && Follows(batch, Next(batch, q, events[0]), events[1..], t)
  }

  function Untried(s: Store): Retry {
    Retry(s, 0, true, multiset{})
  }

  /** The first `high` records are settled, no attempt is past them, and no deferred job is either. */
  ghost predicate Ahead(batch: seq<Record>, q: Retry, high: nat) {
    && q.at <= high <= |batch| && (forall k | k in q.late :: k <= high)
    && Unique(q.store) && Steady(q.store, batch) && AllSettled(q.store, batch[..high])
  }

  /** A part of a settled record's job changes nothing. */
  lemma SettledPartStays(s: Store, r: Record, extent: Extent)
    requires Unique(s) && Settled(s, r)
    ensures Landed(s, r, extent) == s
  {
    SettledStays(s, r);
    if Blocked(s, r) {
      var c :| Blocks(s, r, c);
      assert Blocks(s, Part(r, false), c);
    }
    assert Settled(s, Part(r, false));
    SettledStays(s, Part(r, false));
  }

  /** The job of the first record not yet settled, or a part of it, may land at any time. */
  lemma {:induction false} LandingAhead(batch: seq<Record>, s: Store, k: nat, high: nat, extent: Extent)
    returns (more: nat)
    requires BatchApart(batch) && Unique(s) && Steady(s, batch) && k <= high <= |batch| && k < |batch|
    requires AllSettled(s, batch[..high])
    ensures var t := Landed(s, batch[k], extent);
            && high <= more <= |batch| && (extent.Everything? ==> k < more)
            && Steady(t, batch) && AllSettled(t, batch[..more]) && Run(t, batch) == Run(s, batch)
  {
    hide After, Run;
    more := high;
    if k < high {
      assert batch[..high][k] == batch[k];
      SettledPartStays(s, batch[k], extent);
    } else if !extent.Nothing? {
      NextAbsorbed(s, batch, k, extent.Everything?);
      more := if extent.Everything? then k + 1 else high;
    }
  }

  lemma {:induction false} HaltsNext(batch: seq<Record>, q: Retry, e: Event, high: nat) returns (more: nat)
    requires BatchApart(batch) && Ahead(batch, q, high) && Happens(batch, q, e) && !e.Fail?
    ensures var u := Next(batch, q, e); Ahead(batch, u, more) && Run(u.store, batch) == Run(q.store, batch)
  {
    hide After, Run, Landed, Steady, BatchApart, AllSettled;
    more := high;
    match e
    case Job =>
      more := LandingAhead(batch, q.store, q.at, high, Everything);
      JobLands(q.store, batch, q.at);
    case Land(k, extent) => more := LandingAhead(batch, q.store, k, high, extent);
    case _ =>
  }

  lemma {:induction false} HaltsFrom(batch: seq<Record>, q: Retry, events: seq<Event>, t: Retry, high: nat)
    requires BatchApart(batch) && Ahead(batch, q, high)
    requires Follows(batch, q, events, t) && t.at == |batch| && forall i | 0 <= i < |events| :: !events[i].Fail?
    ensures t.store == Run(q.store, batch)
    decreases |events|
  {
    hide After, Run, Landed, Steady, BatchApart, Next, Happens;
    if events == [] {
      assert batch[..high] == batch;
      SettledRun(q.store, batch);
    } else {
      var more := HaltsNext(batch, q, events[0], high);
      assert forall i | 0 <= i < |events| - 1 :: events[1..][i] == events[i + 1];
      HaltsFrom(batch, Next(batch, q, events[0]), events[1..], t, more);
    }
  }

  lemma JobLands(s: Store, batch: seq<Record>, k: nat)
    requires Unique(s)
    ensures k < |batch| ==> Landed(s, batch[k], Everything) == After(s, batch[k])
  {
  }

  /**
   However often the batch halted, and whenever its deferred jobs landed, wholly, in part or not
   at all, between and after the jobs of later attempts: once an attempt has run to the end the
   store is the one a single clean run leaves.
   */
  lemma {:induction false} LateHaltsConverge(s: Store, batch: seq<Record>, events: seq<Event>, t: Retry)
    requires Unique(s) && BatchApart(batch) && Steady(s, batch)
    requires Follows(batch, Untried(s), events, t) && t.at == |batch|
    requires forall i | 0 <= i < |events| :: !events[i].Fail?
    ensures t.store == Run(s, batch)
  {
    HaltsFrom(batch, Untried(s), events, t, 0);
  }

  /** What holds throughout when records may fail too: a clean run would end in the same place. */
  ghost predicate Repairable(batch: seq<Record>, q: Retry) {
    && q.at <= |batch| && Unique(q.store) && KeepsTexts(q.store, batch)
    && (q.unfailed ==> AllSettled(q.store, batch[..q.at]))
  }

  lemma {:induction false} LandingRepairs(batch: seq<Record>, s: Store, k: nat, extent: Extent, done: nat)
    requires BatchApart(batch) && DistinctTexts(batch) && Unique(s) && KeepsTexts(s, batch)
    requires k < |batch| && done <= |batch|
    ensures var t := Landed(s, batch[k], extent);
            && KeepsTexts(t, batch) && Run(t, batch) == Run(s, batch)
            && (AllSettled(s, batch[..done]) ==> AllSettled(t, batch[..done]))
  {
    hide Run, After;
    if !extent.Nothing? {
      var whole := extent.Everything?;
      PieceAbsorbed(s, batch, k, whole);
      PieceKeepsTexts(s, batch, k, whole);
      ApartMember(batch, k);
      if AllSettled(s, batch[..done]) {
        forall i | 0 <= i < done
          ensures Settled(Landed(s, batch[k], extent), batch[..done][i])
        {
          assert Settled(s, batch[..done][i]);
          if i == k {
            SettledPartStays(s, batch[k], extent);
          } else {
            SettledStable(s, batch[i], Part(batch[k], whole));
          }
        }
      }
    }
  }

  lemma {:induction false} RepairsFrom(batch: seq<Record>, q: Retry, events: seq<Event>, t: Retry)
    requires BatchApart(batch) && DistinctTexts(batch) && Repairable(batch, q)
    requires Follows(batch, q, events, t) && t.at == |batch| && t.unfailed
    ensures t.store == Run(q.store, batch)
    decreases |events|
  {
    hide After, Run, Landed, KeepsTexts, BatchApart, DistinctTexts;
    if events == [] {
      assert batch[..|batch|] == batch;
      SettledRun(q.store, batch);
    } else {
      RepairsNext(batch, q, events[0]);
      RepairsFrom(batch, Next(batch, q, events[0]), events[1..], t);
    }
  }

  lemma {:induction false} RepairsNext(batch: seq<Record>, q: Retry, e: Event)
    requires BatchApart(batch) && DistinctTexts(batch) && Repairable(batch, q) && Happens(batch, q, e)
    ensures var u := Next(batch, q, e); Repairable(batch, u) && Run(u.store, batch) == Run(q.store, batch)
  {
    hide After, Run, Landed, KeepsTexts, BatchApart, DistinctTexts;
    match e
    case Job =>
      LandingRepairs(batch, q.store, q.at, Everything, q.at);
      JobLands(q.store, batch, q.at);
      if q.unfailed {
        JobSettles(q.store, batch, q.at);
      }
    case Fail(extent) => LandingRepairs(batch, q.store, q.at, extent, q.at);
    case Land(k, extent) => LandingRepairs(batch, q.store, k, extent, q.at);
    case _ =>
  }

  lemma {:induction false} JobSettles(s: Store, batch: seq<Record>, k: nat)
    requires Unique(s) && k < |batch| && AllSettled(After(s, batch[k]), batch[..k])
    ensures AllSettled(After(s, batch[k]), batch[..k + 1])
  {
    AfterSettles(s, batch[k]);
    var before, done := batch[..k], batch[..k + 1];
    forall i | 0 <= i < |done|
      ensures Settled(After(s, batch[k]), done[i])
    {
      if i < k {
        assert Settled(After(s, batch[k]), before[i]);
      }
    }
  }

  /**
   With distinct texts the same holds when records also failed without a halt, after writing all,
   their text alone or nothing, once an attempt has run to the end with no failure of its own.
   */
  lemma {:induction false} LateRepairs(s: Store, batch: seq<Record>, events: seq<Event>, t: Retry)
    requires Unique(s) && BatchApart(batch) && KeepsTexts(s, batch) && DistinctTexts(batch)
    requires Follows(batch, Untried(s), events, t) && t.at == |batch| && t.unfailed
    ensures t.store == Run(s, batch)
  {
    RepairsFrom(batch, Untried(s), events, t);
  }
}
