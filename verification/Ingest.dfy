/**
 The ingest batch: each record is one job under the store lock that detects a text collision,
 writes, and archives what the record supersedes. A record's text stands for its hash.
 */
module Ingest {
  import opened Common

  type Id = string

  datatype Stored = Stored(text: string, archived: bool)

  type Store = map<Id, Stored>

  datatype Record = Record(id: Id, text: string, supersedes: Option<Id>)

  datatype Kind = Written(flipped: Option<Id>) | Collapsed(onto: Id) | Replaced(superseded: Id)

  // ---------------------------------------------------------------- one record

  /** No two stored records share a text. */
  ghost predicate Unique(s: Store) {
    forall a, b | a in s && b in s && s[a].text == s[b].text :: a == b
  }

  /** The other stored record with this text, archived ones included. */
  function Clash(s: Store, id: Id, text: string): (c: Option<Id>)
    requires Unique(s)
    ensures c.Some? ==> c.value in s && c.value != id && s[c.value].text == text
    ensures c.None? ==> forall a | a in s && s[a].text == text :: a == id
  {
    if exists a :: a in s && a != id && s[a].text == text then
      var a :| a in s && a != id && s[a].text == text;
      Some(a)
    else None
  }

  /** The backend's upsert: active, and any other record with the same text is gone. */
  function Upsert(s: Store, r: Record): (t: Store)
    ensures Unique(s) ==> Unique(t)
  {
    (map a | a in s && s[a].text != r.text :: s[a])[r.id := Stored(r.text, false)]
  }

  /** Archiving a missing or already archived record changes nothing. */
  function Archive(s: Store, id: Id): (t: Store)
    ensures Unique(s) ==> Unique(t)
  {
    if id in s then s[id := s[id].(archived := true)] else s
  }

  function Job(s: Store, r: Record): (Store, Kind)
    requires Unique(s)
  {
    var clash := Clash(s, r.id, r.text);
    if clash.Some? && clash != r.supersedes then (s, Collapsed(clash.value))
    else
      var written := Upsert(s, r);
      if clash.Some? then (written, Replaced(clash.value))
      else if r.supersedes.None? || r.supersedes.value == r.id then (written, Written(None))
      else
        var superseded := r.supersedes.value;
        (Archive(written, superseded), Written(if superseded in written &&
            !written[superseded].archived then Some(superseded) else None))
  }

  function After(s: Store, r: Record): (t: Store)
    requires Unique(s)
    ensures Unique(t)
  {
    Job(s, r).0
  }

  function Run(s: Store, batch: seq<Record>): (t: Store)
    requires Unique(s)
    ensures Unique(t)
    decreases |batch|
  {
    if batch == [] then s else Run(After(s, batch[0]), batch[1..])
  }

  lemma {:induction false} RunConcat(s: Store, a: seq<Record>, b: seq<Record>)
    requires Unique(s)
    ensures Run(s, a + b) == Run(Run(s, a), b)
    decreases |a|
  {
    if a == [] {
      assert a + b == b;
    } else {
      assert (a + b)[1..] == a[1..] + b;
      RunConcat(After(s, a[0]), a[1..], b);
    }
  }

  // ---------------------------------------------------------------- what a caller must respect

  /** Two records of one batch: different ids, and neither supersedes the other. */
  predicate Apart(a: Record, b: Record) {
    a.id != b.id && a.supersedes != Some(b.id) && b.supersedes != Some(a.id)
  }

  ghost predicate BatchApart(batch: seq<Record>) {
    forall i, j | 0 <= i < j < |batch| :: Apart(batch[i], batch[j])
  }

  predicate KeepsText(s: Store, r: Record) {
    r.id in s ==> s[r.id].text == r.text
  }

  /** The batch gives no stored id a new text. */
  ghost predicate KeepsTexts(s: Store, batch: seq<Record>) {
    forall i | 0 <= i < |batch| :: KeepsText(s, batch[i])
  }

  /** All the batch's texts are the same. */
  predicate OneText(batch: seq<Record>) {
    forall i, j | 0 <= i < j < |batch| :: batch[i].text == batch[j].text
  }

  /** No job of the batch frees a text another of its records is waiting for. */
  ghost predicate Steady(s: Store, batch: seq<Record>) {
    KeepsTexts(s, batch) || OneText(batch)
  }

  lemma AfterKeepsText(s: Store, r: Record, other: Record)
    requires Unique(s) && KeepsText(s, other) && (r.id == other.id ==> r.text == other.text)
    ensures KeepsText(After(s, r), other)
  {
  }

  lemma {:induction false} ApartMember(batch: seq<Record>, i: nat)
    requires BatchApart(batch) && i < |batch|
    ensures forall j | 0 <= j < |batch| && j != i :: Apart(batch[j], batch[i])
  {
  }

  // ---------------------------------------------------------------- retry converges

  /** `r` has had its effect: it sits there active, or another record holds its text. */
  ghost predicate Settled(s: Store, r: Record) {
    || Blocked(s, r)
    || (&& r.id in s && s[r.id] == Stored(r.text, false)
        && (r.supersedes.Some? && r.supersedes.value != r.id && r.supersedes.value in s ==>
            s[r.supersedes.value].archived))
  }

  /** Another record, which `r` does not supersede, holds `r`'s text. */
  ghost predicate Blocked(s: Store, r: Record) {
    exists c :: Blocks(s, r, c)
  }

  predicate Blocks(s: Store, r: Record, c: Id) {
    c in s && c != r.id && s[c].text == r.text && Some(c) != r.supersedes
  }

  lemma AfterSettles(s: Store, r: Record)
    requires Unique(s)
    ensures Settled(After(s, r), r)
  {
    var clash := Clash(s, r.id, r.text);
    if clash.Some? && clash != r.supersedes {
      assert Blocks(s, r, clash.value);
    }
  }

  /** Running a settled record again changes nothing. */
  lemma SettledStays(s: Store, r: Record)
    requires Unique(s) && Settled(s, r)
    ensures After(s, r) == s
  {
    if Blocked(s, r) {
      var c :| Blocks(s, r, c);
      assert Clash(s, r.id, r.text) == Some(c);
    } else {
      assert Clash(s, r.id, r.text).None?;
      assert Upsert(s, r) == s;
    }
  }

  lemma BlockedStable(s: Store, r: Record, other: Record)
    requires Unique(s) && Blocked(s, r) && Apart(r, other) && (KeepsText(s, other) || r.text == other.text)
    ensures Blocked(After(s, other), r)
  {
    var c :| Blocks(s, r, c);
    var t := After(s, other);
    if c == other.id || (Clash(s, other.id, other.text) == Some(c) && Some(c) == other.supersedes) {
      assert Blocks(t, r, other.id);
    } else {
      assert Blocks(t, r, c);
    }
  }

  lemma SettledStable(s: Store, r: Record, other: Record)
    requires Unique(s) && Settled(s, r) && Apart(r, other) && (KeepsText(s, other) || r.text == other.text)
    ensures Settled(After(s, other), r)
  {
    if Blocked(s, r) {
      BlockedStable(s, r, other);
    }
  }

  ghost predicate AllSettled(s: Store, batch: seq<Record>) {
    forall i | 0 <= i < |batch| :: Settled(s, batch[i])
  }

  lemma {:induction false} RunKeepsTexts(s: Store, done: seq<Record>, batch: seq<Record>)
    requires Unique(s) && BatchApart(batch) && KeepsTexts(s, batch)
    requires forall i | 0 <= i < |done| :: done[i] in batch
    ensures KeepsTexts(Run(s, done), batch)
    decreases |done|
  {
    if done != [] {
      var r := done[0];
      var k :| 0 <= k < |batch| && batch[k] == r;
      var t := After(s, r);
      forall i | 0 <= i < |batch|
        ensures KeepsText(t, batch[i])
      {
        if i != k {
          ApartMember(batch, k);
        }
        AfterKeepsText(s, r, batch[i]);
      }
      RunKeepsTexts(t, done[1..], batch);
    }
  }

  lemma {:induction false} AllSettledNext(s: Store, done: seq<Record>, r: Record)
    requires Unique(s) && AllSettled(s, done)
    requires KeepsText(s, r) || forall i | 0 <= i < |done| :: done[i].text == r.text
    requires forall i | 0 <= i < |done| :: Apart(done[i], r)
    ensures AllSettled(After(s, r), done + [r])
  {
    AfterSettles(s, r);
    forall i | 0 <= i < |done|
      ensures Settled(After(s, r), done[i])
    {
      SettledStable(s, done[i], r);
    }
  }

  lemma {:induction false} RunSteady(s: Store, done: seq<Record>, batch: seq<Record>)
    requires Unique(s) && BatchApart(batch) && Steady(s, batch)
    requires forall i | 0 <= i < |done| :: done[i] in batch
    ensures Steady(Run(s, done), batch)
  {
    if KeepsTexts(s, batch) {
      RunKeepsTexts(s, done, batch);
    }
  }

  /** What already ran stays settled while the rest of the batch runs. */
  lemma {:induction false} RunSettles(s: Store, batch: seq<Record>, k: nat)
    requires Unique(s) && BatchApart(batch) && Steady(s, batch) && k <= |batch|
    ensures AllSettled(Run(s, batch[..k]), batch[..k])
    ensures Steady(Run(s, batch[..k]), batch)
    decreases k
  {
    RunSteady(s, batch[..k], batch);
    if k > 0 {
      RunSettles(s, batch, k - 1);
      var before := Run(s, batch[..k - 1]);
      var r := batch[k - 1];
      assert batch[..k] == batch[..k - 1] + [r];
      RunConcat(s, batch[..k - 1], [r]);
      assert Run(before, [r]) == After(before, r);
      SteadyNext(before, batch, k - 1);
      AllSettledNext(before, batch[..k - 1], r);
    }
  }

  lemma SteadyNext(s: Store, batch: seq<Record>, k: nat)
    requires Steady(s, batch) && k < |batch|
    ensures KeepsText(s, batch[k]) || forall i | 0 <= i < k :: batch[..k][i].text == batch[k].text
  {
  }

  lemma {:induction false} SettledRun(s: Store, batch: seq<Record>)
    requires Unique(s) && AllSettled(s, batch)
    ensures Run(s, batch) == s
    decreases |batch|
  {
    if batch != [] {
      SettledStays(s, batch[0]);
      assert forall i | 0 <= i < |batch| - 1 :: batch[1..][i] == batch[i + 1];
      SettledRun(s, batch[1..]);
    }
  }

  /** Two interrupted attempts are worth the longer one. */
  lemma {:induction false} PrefixAbsorbs(s: Store, batch: seq<Record>, j: nat, k: nat)
    requires Unique(s) && BatchApart(batch) && Steady(s, batch) && j <= |batch| && k <= |batch|
    ensures Run(Run(s, batch[..j]), batch[..k]) == Run(s, batch[..if j < k then k else j])
  {
    var mid := Run(s, batch[..j]);
    RunSettles(s, batch, j);
    var both := if j < k then j else k;
    assert forall i | 0 <= i < both :: batch[..both][i] == batch[..j][i];
    SettledRun(mid, batch[..both]);
    if j < k {
      assert batch[..k] == batch[..j] + batch[j..k];
      RunConcat(mid, batch[..j], batch[j..k]);
      RunConcat(s, batch[..j], batch[j..k]);
    }
  }

  /** The store after attempts that each halted somewhere, then one that ran to the end. */
  function Attempts(s: Store, batch: seq<Record>, halts: seq<nat>): (t: Store)
    requires Unique(s) && forall i | 0 <= i < |halts| :: halts[i] <= |batch|
    ensures Unique(t)
    decreases |halts|
  {
    if halts == [] then Run(s, batch)
    else Attempts(Run(s, batch[..halts[0]]), batch, halts[1..])
  }

  /**
   Retrying converges: however often the batch halted before, and wherever, once it runs to
   the end the store (texts and lifecycles) is the one a single clean run leaves, provided the
   batch gives no stored id a new text, or has only one.
   */
  lemma {:induction false} RetryConverges(s: Store, batch: seq<Record>, halts: seq<nat>)
    requires Unique(s) && BatchApart(batch) && Steady(s, batch)
    requires forall i | 0 <= i < |halts| :: halts[i] <= |batch|
    ensures Attempts(s, batch, halts) == Run(s, batch)
    decreases |halts|
  {
    if halts != [] {
      var j := halts[0];
      RunSettles(s, batch, j);
      RetryConverges(Run(s, batch[..j]), batch, halts[1..]);
      assert batch[..|batch|] == batch;
      PrefixAbsorbs(s, batch, j, |batch|);
    }
  }

  // ---------------------------------------------------------------- nothing leaves silently

  /** A stored id leaves the scope exactly when the job reports having replaced it. */
  lemma LeavesOnlyReplaced(s: Store, r: Record, id: Id)
    requires Unique(s) && id in s
    ensures id !in After(s, r) <==> Job(s, r).1 == Replaced(id)
  {
    var clash := Clash(s, r.id, r.text);
    if clash.None? && s[id].text == r.text {
      assert id == r.id;
    }
  }

  /** An active id that stays is hidden exactly when the job reports the flip, or rewrites it. */
  lemma HiddenOnlyReported(s: Store, r: Record, id: Id)
    requires Unique(s) && id in s && !s[id].archived && id in After(s, r)
    ensures After(s, r)[id].archived <==> Job(s, r).1 == Written(Some(id))
  {
  }

  // ---------------------------------------------------------------- retry after failures

  /** What stands at `k` after `r`'s job, read off without building a map. */
  ghost function At(s: Store, r: Record, k: Id): Option<Stored> {
    if !Blocked(s, r) && k == r.id then Some(Stored(r.text, false))
    else if k !in s || (!Blocked(s, r) && s[k].text == r.text) then None
    else if !Blocked(s, r) && r.supersedes == Some(k) then Some(s[k].(archived := true))
    else Some(s[k])
  }

  ghost function Lookup(s: Store, k: Id): Option<Stored> {
    if k in s then Some(s[k]) else None
  }

  lemma AfterAt(s: Store, r: Record, k: Id)
    requires Unique(s) && KeepsText(s, r)
    ensures Lookup(After(s, r), k) == At(s, r, k)
  {
    var clash := Clash(s, r.id, r.text);
    if clash.Some? && clash != r.supersedes {
      assert Blocks(s, r, clash.value);
    } else {
      assert !Blocked(s, r);
    }
  }

  /** A job with another text neither creates nor lifts a block. */
  lemma BlockedFrame(s: Store, a: Record, b: Record)
    requires Unique(s) && Apart(a, b) && a.text != b.text && KeepsText(s, b)
    ensures Blocked(After(s, b), a) <==> Blocked(s, a)
  {
    var t := After(s, b);
    forall c | c != a.id
      ensures Blocks(t, a, c) <==> Blocks(s, a, c)
    {
      AfterAt(s, b, c);
      assert Lookup(t, c) == At(s, b, c);
    }
    assert forall c :: Blocks(t, a, c) <==> Blocks(s, a, c);
  }

  /** What the two jobs leave at `k`, in terms of the store before both. */
  ghost function BothAt(s: Store, a: Record, b: Record, k: Id): Option<Stored> {
    if !Blocked(s, a) && k == a.id then Some(Stored(a.text, false))
    else if !Blocked(s, b) && k == b.id then Some(Stored(b.text, false))
    else if k !in s || (!Blocked(s, a) && s[k].text == a.text) || (!Blocked(s, b) && s[k].text == b.text) then None
    else if (!Blocked(s, a) && a.supersedes == Some(k)) || (!Blocked(s, b) && b.supersedes == Some(k)) then
      Some(s[k].(archived := true))
    else Some(s[k])
  }

  lemma CommuteAt(s: Store, a: Record, b: Record, k: Id)
    requires Unique(s) && Apart(a, b) && a.text != b.text && KeepsText(s, a) && KeepsText(s, b)
    ensures Lookup(After(After(s, a), b), k) == BothAt(s, a, b, k)
    ensures BothAt(s, a, b, k) == BothAt(s, b, a, k)
  {
    AfterKeepsText(s, a, b);
    BlockedFrame(s, b, a);
    AfterAt(s, a, k);
    AfterAt(After(s, a), b, k);
  }

  /** Jobs of different texts may run in either order. */
  lemma Commute(s: Store, a: Record, b: Record)
    requires Unique(s) && Apart(a, b) && a.text != b.text && KeepsText(s, a) && KeepsText(s, b)
    ensures After(After(s, a), b) == After(After(s, b), a)
  {
    var ab, ba := After(After(s, a), b), After(After(s, b), a);
    forall k
      ensures Lookup(ab, k) == Lookup(ba, k)
    {
      CommuteAt(s, a, b, k);
      CommuteAt(s, b, a, k);
    }
    SameLookups(ab, ba);
  }

  lemma SameLookups(s: Store, t: Store)
    requires forall k :: Lookup(s, k) == Lookup(t, k)
    ensures s == t
  {
    assert forall k :: k in s <==> Lookup(s, k).Some?;
    assert forall k :: k in t <==> Lookup(t, k).Some?;
    assert forall k | k in s :: Lookup(s, k) == Some(s[k]) && Lookup(t, k) == Some(t[k]);
  }

  /** How far one record's job got before it failed: the write alone, or all of it. */
  datatype Piece = Piece(record: Record, whole: bool)

  function Part(r: Record, whole: bool): Record {
    if whole then r else r.(supersedes := None)
  }

  predicate Within(pieces: seq<Piece>, batch: seq<Record>) {
    forall i | 0 <= i < |pieces| :: pieces[i].record in batch
  }

  /** The store after such jobs, in any order. */
  function Scattered(s: Store, pieces: seq<Piece>): (t: Store)
    requires Unique(s)
    ensures Unique(t)
    decreases |pieces|
  {
    if pieces == [] then s
    else
      var n := |pieces| - 1;
      After(Scattered(s, pieces[..n]), Part(pieces[n].record, pieces[n].whole))
  }

  predicate DistinctTexts(batch: seq<Record>) {
    forall i, j | 0 <= i < j < |batch| :: batch[i].text != batch[j].text
  }

  /** A partial job followed by the whole one is worth the whole one. */
  lemma PartAbsorbed(s: Store, r: Record, whole: bool)
    requires Unique(s)
    ensures After(After(s, Part(r, whole)), r) == After(s, r)
  {
    var t := After(s, Part(r, whole));
    if whole {
      AfterSettles(s, r);
      SettledStays(t, r);
    } else if Clash(s, r.id, r.text).Some? {
      assert t == s;
    } else {
      assert Clash(t, r.id, r.text).None?;
      assert Upsert(t, r) == t == Upsert(s, r);
    }
  }

  lemma {:induction false} TailKeepsTexts(s: Store, batch: seq<Record>)
    requires Unique(s) && BatchApart(batch) && KeepsTexts(s, batch) && batch != []
    ensures KeepsTexts(After(s, batch[0]), batch[1..]) && BatchApart(batch[1..])
  {
    forall i | 0 <= i < |batch| - 1
      ensures KeepsText(After(s, batch[0]), batch[1..][i])
    {
      AfterKeepsText(s, batch[0], batch[i + 1]);
    }
  }

  lemma {:induction false} PieceAbsorbed(s: Store, batch: seq<Record>, k: nat, whole: bool)
    requires Unique(s) && BatchApart(batch) && KeepsTexts(s, batch) && DistinctTexts(batch) && k < |batch|
    ensures Run(After(s, Part(batch[k], whole)), batch) == Run(s, batch)
    decreases |batch|
  {
    hide After;
    var r, h := batch[k], batch[0];
    if k == 0 {
      PartAbsorbed(s, r, whole);
    } else {
      Commute(s, Part(r, whole), h);
      TailKeepsTexts(s, batch);
      PieceAbsorbed(After(s, h), batch[1..], k - 1, whole);
    }
  }

  lemma {:induction false} PieceKeepsTexts(s: Store, batch: seq<Record>, k: nat, whole: bool)
    requires Unique(s) && BatchApart(batch) && KeepsTexts(s, batch) && k < |batch|
    ensures KeepsTexts(After(s, Part(batch[k], whole)), batch)
  {
    forall i | 0 <= i < |batch|
      ensures KeepsText(After(s, Part(batch[k], whole)), batch[i])
    {
      if i != k {
        ApartMember(batch, k);
      }
      AfterKeepsText(s, Part(batch[k], whole), batch[i]);
    }
  }

  lemma {:induction false} ScatteredKeepsTexts(s: Store, batch: seq<Record>, pieces: seq<Piece>)
    requires Unique(s) && BatchApart(batch) && KeepsTexts(s, batch) && Within(pieces, batch)
    ensures KeepsTexts(Scattered(s, pieces), batch)
    decreases |pieces|
  {
    if pieces != [] {
      var n := |pieces| - 1;
      ScatteredKeepsTexts(s, batch, pieces[..n]);
      var k :| 0 <= k < |batch| && batch[k] == pieces[n].record;
      PieceKeepsTexts(Scattered(s, pieces[..n]), batch, k, pieces[n].whole);
    }
  }

  /** With distinct texts, no earlier failure of any kind changes where a full run ends. */
  lemma {:induction false} ScatteredConverges(s: Store, batch: seq<Record>, pieces: seq<Piece>)
    requires Unique(s) && BatchApart(batch) && KeepsTexts(s, batch) && DistinctTexts(batch) && Within(pieces, batch)
    ensures Run(Scattered(s, pieces), batch) == Run(s, batch)
    decreases |pieces|
  {
    if pieces != [] {
      var n := |pieces| - 1;
      ScatteredKeepsTexts(s, batch, pieces[..n]);
      ScatteredConverges(s, batch, pieces[..n]);
      var k :| 0 <= k < |batch| && batch[k] == pieces[n].record;
      PieceAbsorbed(Scattered(s, pieces[..n]), batch, k, pieces[n].whole);
    }
  }

  /** A blocked record that is not stored stays out. */
  lemma {:induction false} StaysOut(s: Store, r: Record, rest: seq<Record>)
    requires Unique(s) && Blocked(s, r) && r.id !in s
    requires BatchApart(rest) && KeepsTexts(s, rest)
    requires forall i | 0 <= i < |rest| :: rest[i] == r || Apart(r, rest[i])
    ensures r.id !in Run(s, rest)
    decreases |rest|
  {
    if rest != [] {
      var h := rest[0];
      var t := After(s, h);
      if h == r {
        SettledStays(s, r);
      } else {
        BlockedStable(s, r, h);
        AfterAt(s, h, r.id);
        assert Lookup(t, r.id).None?;
      }
      TailKeepsTexts(s, rest);
      StaysOut(t, r, rest[1..]);
    }
  }

  /** A stored record stays in while no record of the batch supersedes it. */
  lemma {:induction false} StaysIn(s: Store, id: Id, rest: seq<Record>)
    requires Unique(s) && id in s
    requires forall i | 0 <= i < |rest| :: rest[i].supersedes != Some(id)
    ensures id in Run(s, rest)
    decreases |rest|
  {
    if rest != [] {
      LeavesOnlyReplaced(s, rest[0], id);
      StaysIn(After(s, rest[0]), id, rest[1..]);
    }
  }

  /** A batch run on an empty store stores only its own texts. */
  lemma {:induction false} TextsFrom(s: Store, batch: seq<Record>, text: string)
    requires Unique(s) && (forall a | a in s :: s[a].text != text)
    requires forall i | 0 <= i < |batch| :: batch[i].text != text
    ensures forall a | a in Run(s, batch) :: Run(s, batch)[a].text != text
    decreases |batch|
  {
    if batch != [] {
      TextsFrom(After(s, batch[0]), batch[1..], text);
    }
  }

  /** The first record with a text is stored by a clean run on an empty store. */
  lemma {:induction false} FirstIsStored(batch: seq<Record>, i: nat)
    requires BatchApart(batch) && i < |batch| && (forall k | 0 <= k < i :: batch[k].text != batch[i].text)
    ensures batch[i].id in Run(map[], batch)
  {
    var r := batch[i];
    TextsFrom(map[], batch[..i], r.text);
    var before := Run(map[], batch[..i]);
    assert batch == batch[..i] + ([r] + batch[i + 1..]);
    RunConcat(map[], batch[..i], [r] + batch[i + 1..]);
    assert ([r] + batch[i + 1..])[1..] == batch[i + 1..];
    assert Clash(before, r.id, r.text).None?;
    assert r.id in After(before, r);
    StaysIn(After(before, r), r.id, batch[i + 1..]);
  }

  lemma {:induction false} FirstWithText(batch: seq<Record>, i: nat) returns (first: nat)
    requires i < |batch|
    ensures first <= i && batch[first].text == batch[i].text
    ensures forall k | 0 <= k < first :: batch[k].text != batch[first].text
  {
    if k :| 0 <= k < i && batch[k].text == batch[i].text {
      first := FirstWithText(batch, k);
    } else {
      first := i;
    }
  }

  /** The next record's job, or its write alone, leaves a full run ending in the same place. */
  lemma {:induction false} NextAbsorbed(s: Store, batch: seq<Record>, k: nat, whole: bool)
    requires Unique(s) && BatchApart(batch) && Steady(s, batch) && k < |batch| && AllSettled(s, batch[..k])
    ensures var t := After(s, Part(batch[k], whole));
            && Steady(t, batch) && AllSettled(t, batch[..k]) && (whole ==> AllSettled(t, batch[..k + 1]))
            && Run(t, batch) == Run(s, batch)
  {
    hide After;
    var r := Part(batch[k], whole);
    var t := After(s, r);
    if KeepsTexts(s, batch) {
      PieceKeepsTexts(s, batch, k, whole);
    }
    SteadyNext(s, batch, k);
    ApartMember(batch, k);
    AllSettledNext(s, batch[..k], r);
    assert forall i | 0 <= i < k :: batch[..k][i] == (batch[..k] + [r])[i];
    assert whole ==> batch[..k + 1] == batch[..k] + [r];
    PartAbsorbed(s, batch[k], whole);
    RunFromSettled(s, batch, k);
    RunFromSettled(t, batch, k);
  }

  lemma {:induction false} RunFromSettled(s: Store, batch: seq<Record>, k: nat)
    requires Unique(s) && k < |batch| && AllSettled(s, batch[..k])
    ensures Run(s, batch) == Run(After(s, batch[k]), batch[k + 1..])
  {
    hide After;
    assert batch == batch[..k] + batch[k..];
    RunConcat(s, batch[..k], batch[k..]);
    SettledRun(s, batch[..k]);
    assert batch[k..][1..] == batch[k + 1..];
  }

  // ---------------------------------------------------------------- the batch and its report

  /** An input of the batch: a record fit to write, or one refused with the id it showed. */
  datatype Item = Invalid(shown: Id) | Prepared(record: Record)

  function ShownId(item: Item): Id {
    if item.Invalid? then item.shown else item.record.id
  }

  /** How much of a job that was not waited for, or that raised, reached the store. */
  datatype Extent = Nothing | WriteOnly | Everything

  datatype Fault =
    | NoFault
    | SlotRefused
    | TimedOut(extent: Extent)
    | Raised(extent: Extent)
    | RootRefused
    | WriteRefused
    | FlipRefused

  datatype Verdict =
    | Wrote(flipped: Option<Id>)
    | TookOver(from: Id)
    | Collapsing(onto: Id)
    | Failing
    | NotAttempted

  function Landed(s: Store, r: Record, extent: Extent): (t: Store)
    requires Unique(s)
    ensures Unique(t)
  {
    match extent
    case Nothing => s
    case WriteOnly => After(s, Part(r, false))
    case Everything => After(s, r)
  }

  predicate Halts(fault: Fault) {
    fault.SlotRefused? || fault.TimedOut?
  }

  /** A flip is attempted only after a write that replaced nothing. */
  predicate Flips(s: Store, r: Record)
    requires Unique(s)
  {
    r.supersedes.Some? && r.supersedes.value != r.id && Clash(s, r.id, r.text).None?
  }

  function VerdictOf(kind: Kind): Verdict {
    match kind
    case Written(flipped) => Wrote(flipped)
    case Replaced(superseded) => TookOver(superseded)
    case Collapsed(onto) => Collapsing(onto)
  }

  function VerdictUnder(s: Store, r: Record, fault: Fault): (v: Verdict)
    requires Unique(s)
    ensures v != NotAttempted
  {
    var kind := Job(s, r).1;
    match fault
    case NoFault => VerdictOf(kind)
    case WriteRefused => if kind.Collapsed? then VerdictOf(kind) else Failing
    case FlipRefused => if Flips(s, r) then Failing else VerdictOf(kind)
    case _ => Failing
  }

  /** How far the job gets under each fault; a refused flip leaves the write standing. */
  function ExtentUnder(s: Store, r: Record, fault: Fault): Extent
    requires Unique(s)
  {
    match fault
    case SlotRefused => Nothing
    case RootRefused => Nothing
    case WriteRefused => Nothing
    case TimedOut(extent) => extent
    case Raised(extent) => extent
    case FlipRefused => if Flips(s, r) then WriteOnly else Everything
    case NoFault => Everything
  }

  function StoreUnder(s: Store, r: Record, fault: Fault): (t: Store)
    requires Unique(s)
    ensures Unique(t)
  {
    Landed(s, r, ExtentUnder(s, r, fault))
  }

  datatype Progress = Progress(store: Store, halted: bool, verdicts: seq<Verdict>)

  /** One more input. */
  function Advance(p: Progress, item: Item, fault: Fault): (q: Progress)
    requires Unique(p.store)
    ensures Unique(q.store) && |q.verdicts| == |p.verdicts| + 1
  {
    if p.halted then p.(verdicts := p.verdicts + [NotAttempted])
    else if item.Invalid? then p.(verdicts := p.verdicts + [Failing])
    else Progress(StoreUnder(p.store, item.record, fault), Halts(fault),
                  p.verdicts + [VerdictUnder(p.store, item.record, fault)])
  }

  /** The first `n` inputs of a batch: what the store becomes and what befalls each. */
  function Play(s: Store, items: seq<Item>, faults: seq<Fault>, n: nat): (p: Progress)
    requires Unique(s) && |faults| == |items| && n <= |items|
    ensures Unique(p.store) && |p.verdicts| == n
    decreases n
  {
    if n == 0 then Progress(s, false, [])
    else Advance(Play(s, items, faults, n - 1), items[n - 1], faults[n - 1])
  }

  datatype Report = Report(
    written: seq<Id>, collapsed: seq<(Id, Id)>, superseded: seq<Id>, failed: seq<Id>, notAttempted: seq<Id>)

  function Entered(report: Report, id: Id, v: Verdict): Report {
    match v
    case Wrote(flipped) =>
      report.(written := report.written + [id],
              superseded := if flipped.Some? then report.superseded + [flipped.value] else report.superseded)
    case TookOver(from) =>
      report.(written := report.written + [id], collapsed := report.collapsed + [(id, from)],
              superseded := report.superseded + [from])
    case Collapsing(onto) => report.(collapsed := report.collapsed + [(id, onto)])
    case Failing => report.(failed := report.failed + [id])
    case NotAttempted => report.(notAttempted := report.notAttempted + [id])
  }

  /** The report on the inputs whose verdicts are given. */
  function ReportOf(items: seq<Item>, verdicts: seq<Verdict>): Report
    requires |verdicts| <= |items|
    decreases |verdicts|
  {
    if verdicts == [] then Report([], [], [], [], [])
    else
      var n := |verdicts| - 1;
      Entered(ReportOf(items, verdicts[..n]), ShownId(items[n]), verdicts[n])
  }

  /** The report after `n` inputs. */
  function Reported(s: Store, items: seq<Item>, faults: seq<Fault>, n: nat): Report
    requires Unique(s) && |faults| == |items| && n <= |items|
  {
    ReportOf(items, Play(s, items, faults, n).verdicts)
  }

  lemma {:induction false} ReportedNext(s: Store, items: seq<Item>, faults: seq<Fault>, n: nat)
    requires Unique(s) && |faults| == |items| && n < |items|
    ensures Play(s, items, faults, n + 1) == Advance(Play(s, items, faults, n), items[n], faults[n])
    ensures Reported(s, items, faults, n + 1) ==
            Entered(Reported(s, items, faults, n), ShownId(items[n]), Play(s, items, faults, n + 1).verdicts[n])
  {
    hide After, StoreUnder, VerdictUnder;
    assert Play(s, items, faults, n + 1).verdicts[..n] == Play(s, items, faults, n).verdicts;
  }

  /** The running outcome of one batch. */
  class Tally {
    var written: seq<Id>
    var collapsed: seq<(Id, Id)>
    var superseded: seq<Id>
    var failed: seq<Id>

    constructor ()
      ensures Contents([]) == Report([], [], [], [], [])
    {
      written, collapsed, superseded, failed := [], [], [], [];
    }

    function Contents(notAttempted: seq<Id>): Report
      reads this
    {
      Report(written, collapsed, superseded, failed, notAttempted)
    }

    method Fail(id: Id)
      modifies this
      ensures Contents([]) == Entered(old(Contents([])), id, Failing)
    {
      failed := failed + [id];
    }

    method Collapse(id: Id, detail: Id)
      modifies this`collapsed
      ensures Contents([]) == Entered(old(Contents([])), id, Collapsing(detail))
    {
      collapsed := collapsed + [(id, detail)];
    }

    method Outcome(id: Id, v: Verdict)
      requires v != NotAttempted
      modifies this
      ensures Contents([]) == Entered(old(Contents([])), id, v)
    {
      match v
      case Wrote(flipped) =>
        written := written + [id];
        if flipped.Some? {
          superseded := superseded + [flipped.value];
        }
      case TookOver(from) =>
        written := written + [id];
        Collapse(id, from);
        superseded := superseded + [from];
      case Collapsing(onto) => Collapse(id, onto);
      case Failing => Fail(id);
    }
  }

  /** The private ingest scope of a room's memory. */
  class Scope {
    var store: Store

    constructor (initial: Store)
      ensures store == initial
    {
      store := initial;
    }

    /** The worker: collision check, write and flip under one hold of the store lock. */
    method IngestOne(r: Record, fault: Fault) returns (verdict: Verdict)
      requires Unique(store)
      modifies this
      ensures store == StoreUnder(old(store), r, fault) && verdict == VerdictUnder(old(store), r, fault)
    {
      match fault
      case SlotRefused => return Failing;
      case RootRefused => return Failing;
      case TimedOut(extent) =>
        store := Landed(store, r, extent);
        return Failing;
      case Raised(extent) =>
        store := Landed(store, r, extent);
        return Failing;
      case NoFault => verdict := IngestLocked(r, false, false);
      case WriteRefused => verdict := IngestLocked(r, true, false);
      case FlipRefused => verdict := IngestLocked(r, false, true);
    }

    method IngestLocked(r: Record, writeRefused: bool, flipRefused: bool) returns (verdict: Verdict)
      requires Unique(store) && !(writeRefused && flipRefused)
      modifies this
      ensures var fault := if writeRefused then WriteRefused else if flipRefused then FlipRefused else NoFault;
              store == StoreUnder(old(store), r, fault) && verdict == VerdictUnder(old(store), r, fault)
    {
      var clash := Clash(store, r.id, r.text);
      if clash.Some? && clash != r.supersedes {
        return Collapsing(clash.value);
      }
      if writeRefused {
        return Failing;
      }
      store := Upsert(store, r);
      var flipped: Option<Id> := None;
      if r.supersedes.Some? && r.supersedes.value != r.id && clash.None? {
        if flipRefused {
          return Failing;
        }
        var superseded := r.supersedes.value;
        if superseded in store && !store[superseded].archived {
          flipped := Some(superseded);
        }
        store := Archive(store, superseded);
      }
      if clash.Some? {
        return TookOver(clash.value);
      }
      return Wrote(flipped);
    }

    /** Writes the batch in order; a refused or deferred record halts it. */
    method IngestRecords(items: seq<Item>, faults: seq<Fault>) returns (report: Report)
      requires Unique(store) && |faults| == |items|
      modifies this
      ensures store == Play(old(store), items, faults, |items|).store
      ensures report == Reported(old(store), items, faults, |items|)
    {
      hide StoreUnder, VerdictUnder;
      var tally := new Tally();
      var i := 0;
      var halted := false;
      ghost var before := store;
      while i < |items| && !halted
        invariant i <= |items| && fresh(tally)
        invariant var p := Play(before, items, faults, i); store == p.store && halted == p.halted
        invariant tally.Contents([]) == Reported(before, items, faults, i)
        decreases |items| - i
      {
        ReportedNext(before, items, faults, i);
        match items[i] {
          case Invalid(shown) => tally.Fail(shown);
          case Prepared(r) =>
            var verdict := IngestOne(r, faults[i]);
            tally.Outcome(r.id, verdict);
            halted := Halts(faults[i]);
        }
        i := i + 1;
      }
      HaltedStays(before, items, faults, i, |items|);
      HaltedRest(before, items, faults, i, |items|);
      assert items[i..|items|] == items[i..];
      report := tally.Contents(Shown(items[i..]));
    }
  }

  function Shown(items: seq<Item>): seq<Id> {
    seq(|items|, k requires 0 <= k < |items| => ShownId(items[k]))
  }

  function Abandon(r: Report, ids: seq<Id>): Report {
    r.(notAttempted := r.notAttempted + ids)
  }

  lemma AbandonNext(r: Report, items: seq<Item>, i: nat, n: nat)
    requires i <= n < |items|
    ensures Abandon(Abandon(r, Shown(items[i..n])), [ShownId(items[n])]) == Abandon(r, Shown(items[i..n + 1]))
  {
    assert Shown(items[i..n + 1]) == Shown(items[i..n]) + [ShownId(items[n])];
    assert r.notAttempted + Shown(items[i..n]) + [ShownId(items[n])] == r.notAttempted + Shown(items[i..n + 1]);
  }

  /** Once halted, nothing more runs. */
  lemma {:induction false} HaltedStays(s: Store, items: seq<Item>, faults: seq<Fault>, i: nat, n: nat)
    requires Unique(s) && |faults| == |items| && i <= n <= |items|
    requires i < n ==> Play(s, items, faults, i).halted
    ensures Play(s, items, faults, n).store == Play(s, items, faults, i).store
    ensures Play(s, items, faults, n).halted == Play(s, items, faults, i).halted
    decreases n
  {
    hide After, StoreUnder, VerdictUnder;
    if i < n {
      HaltedStays(s, items, faults, i, n - 1);
    }
  }

  lemma {:induction false} HaltedNext(s: Store, items: seq<Item>, faults: seq<Fault>, n: nat)
    requires Unique(s) && |faults| == |items| && n < |items| && Play(s, items, faults, n).halted
    ensures Reported(s, items, faults, n + 1) == Abandon(Reported(s, items, faults, n), [ShownId(items[n])])
  {
    hide After, StoreUnder, VerdictUnder;
    ReportedNext(s, items, faults, n);
  }

  /** And the rest of the batch is reported as not attempted. */
  lemma {:induction false} HaltedRest(s: Store, items: seq<Item>, faults: seq<Fault>, i: nat, n: nat)
    requires Unique(s) && |faults| == |items| && i <= n <= |items|
    requires i < n ==> Play(s, items, faults, i).halted
    ensures Reported(s, items, faults, n) == Abandon(Reported(s, items, faults, i), Shown(items[i..n]))
    decreases n
  {
    hide After, StoreUnder, VerdictUnder, Play, ReportOf;
    if i == n {
      assert Shown(items[i..n]) == [];
    } else {
      HaltedRest(s, items, faults, i, n - 1);
      HaltedStays(s, items, faults, i, n - 1);
      HaltedNext(s, items, faults, n - 1);
      AbandonNext(Reported(s, items, faults, i), items, i, n - 1);
    }
  }

  // ---------------------------------------------------------------- what the report says

  function Firsts(pairs: seq<(Id, Id)>): seq<Id> {
    seq(|pairs|, k requires 0 <= k < |pairs| => pairs[k].0)
  }

  /** The inputs whose write took a superseded record's place: reported written and collapsed. */
  function TookOverIds(items: seq<Item>, verdicts: seq<Verdict>): seq<Id>
    requires |verdicts| <= |items|
    decreases |verdicts|
  {
    if verdicts == [] then []
    else
      var n := |verdicts| - 1;
      TookOverIds(items, verdicts[..n]) + if verdicts[n].TookOver? then [ShownId(items[n])] else []
  }

  /** Every id the report names, once per list that names an input. */
  function Named(r: Report): multiset<Id> {
    multiset(r.written) + multiset(Firsts(r.collapsed)) + multiset(r.failed) + multiset(r.notAttempted)
  }

  lemma FirstsNext(pairs: seq<(Id, Id)>, pair: (Id, Id))
    ensures Firsts(pairs + [pair]) == Firsts(pairs) + [pair.0]
  {
  }

  lemma EnteredNames(r: Report, id: Id, v: Verdict)
    ensures Named(Entered(r, id, v)) == Named(r) + multiset{id} + (if v.TookOver? then multiset{id} else multiset{})
  {
    match v
    case TookOver(from) => FirstsNext(r.collapsed, (id, from));
    case Collapsing(onto) => FirstsNext(r.collapsed, (id, onto));
    case Wrote(_) =>
    case Failing =>
    case NotAttempted =>
  }

  lemma NothingNamed()
    ensures Named(Report([], [], [], [], [])) == multiset{}
  {
  }

  /**
   Every input ends in exactly one place: written, failed, not attempted, or collapsed; the
   only ones reported twice are those that took a superseded record's place.
   */
  lemma {:induction false} ReportPartitions(items: seq<Item>, verdicts: seq<Verdict>)
    requires |verdicts| <= |items|
    ensures Named(ReportOf(items, verdicts)) ==
            multiset(Shown(items[..|verdicts|])) + multiset(TookOverIds(items, verdicts))
    decreases |verdicts|
  {
    hide Named, Entered;
    if verdicts == [] {
      NothingNamed();
    } else {
      var n := |verdicts| - 1;
      ReportPartitions(items, verdicts[..n]);
      EnteredNames(ReportOf(items, verdicts[..n]), ShownId(items[n]), verdicts[n]);
      assert Shown(items[..n + 1]) == Shown(items[..n]) + [ShownId(items[n])];
    }
  }

  /** A report only grows. */
  lemma EnteredGrows(report: Report, id: Id, v: Verdict)
    ensures var r := Entered(report, id, v);
            && (forall x | x in report.superseded :: x in r.superseded)
            && (forall pair | pair in report.collapsed :: pair in r.collapsed)
  {
  }

  ghost predicate ReportedGone(r: Report, id: Id) {
    id in r.superseded && exists x :: (x, id) in r.collapsed
  }

  /** Input `i` is the last to have removed `id`: it was there before and never again. */
  ghost predicate RemovedAt(s: Store, items: seq<Item>, faults: seq<Fault>, n: nat, id: Id, i: nat)
    requires Unique(s) && |faults| == |items| && i < n <= |items|
  {
    && id in Play(s, items, faults, i).store
    && forall j | i < j <= n :: id !in Play(s, items, faults, j).store
  }

  /** The job that removed `id` confirmed it, or superseded it and was reported failed. */
  ghost predicate Owned(s: Store, items: seq<Item>, faults: seq<Fault>, n: nat, id: Id, i: nat)
    requires Unique(s) && |faults| == |items| && i < n <= |items|
  {
    var v := Play(s, items, faults, n).verdicts[i];
    && items[i].Prepared? && items[i].record.supersedes == Some(id)
    && ((v == TookOver(id) && ReportedGone(Reported(s, items, faults, n), id)) || v.Failing?)
  }

  lemma JobLeaves(s: Store, r: Record, fault: Fault, id: Id)
    requires Unique(s) && id in s && id !in StoreUnder(s, r, fault)
    ensures r.supersedes == Some(id)
    ensures VerdictUnder(s, r, fault) == TookOver(id) || VerdictUnder(s, r, fault).Failing?
  {
    LeavesOnlyReplaced(s, r, id);
    LeavesOnlyReplaced(s, Part(r, false), id);
  }

  /**
   A stored id that is gone was last removed by the job of a record superseding it, and that job
   reported it, as superseded and as the partner of a collapse, or is itself reported failed.
   */
  lemma {:induction false} BatchLosesNothing(s: Store, items: seq<Item>, faults: seq<Fault>, n: nat, id: Id)
      returns (i: nat)
    requires Unique(s) && |faults| == |items| && n <= |items| && id in s && id !in Play(s, items, faults, n).store
    ensures i < n && RemovedAt(s, items, faults, n, id, i) && Owned(s, items, faults, n, id, i)
    decreases n
  {
    hide After, StoreUnder, VerdictUnder, ReportOf;
    var m := n - 1;
    var p, q := Play(s, items, faults, m), Play(s, items, faults, n);
    ReportedNext(s, items, faults, m);
    EnteredGrows(Reported(s, items, faults, m), ShownId(items[m]), q.verdicts[m]);
    if id in p.store {
      i := m;
      JobLeaves(p.store, items[m].record, faults[m], id);
      if q.verdicts[m].TookOver? {
        assert (ShownId(items[m]), id) in Reported(s, items, faults, n).collapsed;
      }
    } else {
      i := BatchLosesNothing(s, items, faults, m, id);
      assert q.verdicts[i] == p.verdicts[i];
    }
  }

  // ---------------------------------------------------------------- what an answer means

  /** What was stored is as it was, but for the record written and the one archived. */
  ghost predicate OnlyWrites(s: Store, t: Store, r: Record, archives: Option<Id>) {
    && r.id in t && t[r.id] == Stored(r.text, false)
    && forall a | a != r.id :: Lookup(t, a) == if Some(a) == archives && a in s then Some(s[a].(archived := true))
                                               else Lookup(s, a)
  }

  lemma UpsertAt(s: Store, r: Record, a: Id)
    ensures Lookup(Upsert(s, r), a) ==
            if a == r.id then Some(Stored(r.text, false))
            else if a in s && s[a].text != r.text then Some(s[a]) else None
  {
  }

  /** A job that writes with no other record holding its text. */
  lemma {:induction false} WritesAlone(s: Store, r: Record)
    requires Unique(s) && Clash(s, r.id, r.text).None?
    ensures OnlyWrites(s, After(s, r), r, if r.supersedes == Some(r.id) then None else r.supersedes)
  {
    hide Upsert;
    var t := After(s, r);
    UpsertAt(s, r, r.id);
    forall a | a != r.id
      ensures Lookup(t, a) == if r.supersedes == Some(a) && a in s then Some(s[a].(archived := true)) else Lookup(s, a)
    {
      UpsertAt(s, r, a);
      assert a in s ==> s[a].text != r.text;
    }
  }

  /** A job that writes in the place of the record it supersedes. */
  lemma {:induction false} WritesOver(s: Store, r: Record, from: Id)
    requires Unique(s) && Clash(s, r.id, r.text) == Some(from) && r.supersedes == Some(from)
    ensures from !in After(s, r) && OnlyWrites(s - {from}, After(s, r), r, None)
  {
    var t := After(s, r);
    assert t == Upsert(s, r);
    assert forall a | a in s && a != from :: s[a].text != r.text;
    hide Upsert, Unique;
    UpsertAt(s, r, r.id);
    UpsertAt(s, r, from);
    assert from in t <==> Lookup(t, from).Some?;
    forall a | a != r.id
      ensures Lookup(t, a) == Lookup(s - {from}, a)
    {
      UpsertAt(s, r, a);
    }
  }

  /** What a job found and did: wrote alone, collapsed, or took over. */
  lemma JobCases(s: Store, r: Record)
    requires Unique(s)
    ensures var clash, kind := Clash(s, r.id, r.text), Job(s, r).1;
            && (kind.Written? <==> clash.None?)
            && (kind.Collapsed? <==> clash.Some? && clash != r.supersedes)
            && (kind.Collapsed? ==> kind.onto == clash.value && After(s, r) == s)
            && (kind.Replaced? ==> kind.superseded == clash.value)
            && (kind.Written? ==> forall x :: kind.flipped == Some(x) <==>
                  x != r.id && r.supersedes == Some(x) && x in s && !s[x].archived)
  {
    if Clash(s, r.id, r.text).None? && r.supersedes.Some? {
      UpsertAt(s, r, r.supersedes.value);
    }
    hide Upsert;
  }

  /**
   What one job's answer says of the store: written, with the active record it hid if any;
   written in place of the record it superseded, which is gone; or not written, another record
   holding its text. Without a fault a job never fails, and a refused one changes nothing.
   */
  lemma {:induction false} AnswerMeans(s: Store, r: Record, fault: Fault)
    requires Unique(s)
    ensures var t, v := StoreUnder(s, r, fault), VerdictUnder(s, r, fault);
            && (v.Wrote? ==>
                  && (forall a | a in s && s[a].text == r.text :: a == r.id)
                  && OnlyWrites(s, t, r, if r.supersedes == Some(r.id) then None else r.supersedes)
                  && (forall x :: v.flipped == Some(x) <==>
                        x != r.id && r.supersedes == Some(x) && x in s && !s[x].archived))
            && (v.TookOver? ==>
                  && r.supersedes == Some(v.from) && v.from != r.id && v.from in s && s[v.from].text == r.text
                  && v.from !in t && OnlyWrites(s - {v.from}, t, r, None))
            && (v.Collapsing? ==>
                  && t == s && v.onto in s && v.onto != r.id && s[v.onto].text == r.text
                  && r.supersedes != Some(v.onto))
            && (fault.NoFault? ==> !v.Failing?)
            && (fault.SlotRefused? || fault.RootRefused? || fault.WriteRefused? ==> t == s)
  {
    JobCases(s, r);
    hide Job, After, OnlyWrites, Unique;
    var clash := Clash(s, r.id, r.text);
    if clash.None? {
      WritesAlone(s, r);
    } else if clash == r.supersedes {
      WritesOver(s, r, clash.value);
    }
  }

  /** Another record holds the text, and the record does not supersede that one. */
  ghost predicate Taken(s: Store, r: Record) {
    exists a :: a in s && a != r.id && s[a].text == r.text && r.supersedes != Some(a)
  }

  /** No other record holds the text, and another one is to be archived. */
  ghost predicate MustFlip(s: Store, r: Record) {
    r.supersedes.Some? && r.supersedes != Some(r.id) && forall a | a in s && s[a].text == r.text :: a == r.id
  }

  /**
   What each fault does to a job. A refused write fails every job that had one to make; a refused
   flip fails exactly the jobs that had one to make, the record standing and the old one left as it
   was; a job that raised or was not waited for is reported failed, however much of it landed.
   */
  lemma {:induction false} FaultMeans(s: Store, r: Record, fault: Fault)
    requires Unique(s)
    ensures var t, v := StoreUnder(s, r, fault), VerdictUnder(s, r, fault);
            && (fault.SlotRefused? || fault.RootRefused? || fault.TimedOut? || fault.Raised? ==> v.Failing?)
            && (fault.WriteRefused? ==> (v.Failing? <==> !Taken(s, r)))
            && (fault.FlipRefused? ==> (v.Failing? <==> MustFlip(s, r)))
            && (fault.FlipRefused? && !v.Failing? ==>
                  t == StoreUnder(s, r, NoFault) && v == VerdictUnder(s, r, NoFault))
            && (fault.FlipRefused? && v.Failing? ==> OnlyWrites(s, t, r, None))
            && (fault.TimedOut? || fault.Raised? ==>
                  t == match fault.extent
                       case Nothing => s
                       case WriteOnly => StoreUnder(s, r.(supersedes := None), NoFault)
                       case Everything => StoreUnder(s, r, NoFault))
  {
    assert Taken(s, r) <==> Clash(s, r.id, r.text).Some? && Clash(s, r.id, r.text) != r.supersedes;
    assert MustFlip(s, r) <==> Flips(s, r);
    JobCases(s, r);
    if Flips(s, r) {
      WritesAlone(s, r.(supersedes := None));
    }
    hide Job, After, OnlyWrites, Unique, Clash, MustFlip, Taken;
  }

  /** The lists of a report, each picked from the inputs' verdicts in order. */
  function Picked<T>(items: seq<Item>, verdicts: seq<Verdict>, pick: (Id, Verdict) -> Option<T>): seq<T>
    requires |verdicts| <= |items|
    decreases |verdicts|
  {
    if verdicts == [] then []
    else
      var n := |verdicts| - 1;
      var picked := pick(ShownId(items[n]), verdicts[n]);
      Picked(items, verdicts[..n], pick) + if picked.Some? then [picked.value] else []
  }

  const WRITTEN: (Id, Verdict) -> Option<Id> := (id: Id, v: Verdict) =>
    if v.Wrote? || v.TookOver? then Some(id) else None
  const FAILED: (Id, Verdict) -> Option<Id> := (id: Id, v: Verdict) => if v.Failing? then Some(id) else None
  const NOT_ATTEMPTED: (Id, Verdict) -> Option<Id> := (id: Id, v: Verdict) => if v.NotAttempted? then Some(id) else None
  const COLLAPSED: (Id, Verdict) -> Option<(Id, Id)> := (id: Id, v: Verdict) =>
    match v case Collapsing(onto) => Some((id, onto)) case TookOver(from) => Some((id, from)) case _ => None
  const SUPERSEDED: (Id, Verdict) -> Option<Id> := (id: Id, v: Verdict) =>
    match v case Wrote(flipped) => flipped case TookOver(from) => Some(from) case _ => None

  /** Each list of the report holds exactly the inputs, or the records hidden, that belong to it, in order. */
  lemma {:induction false} ReportLists(items: seq<Item>, verdicts: seq<Verdict>)
    requires |verdicts| <= |items|
    ensures ReportOf(items, verdicts) == Report(
              Picked(items, verdicts, WRITTEN), Picked(items, verdicts, COLLAPSED), Picked(items, verdicts, SUPERSEDED),
              Picked(items, verdicts, FAILED), Picked(items, verdicts, NOT_ATTEMPTED))
    decreases |verdicts|
  {
    if verdicts != [] {
      ReportLists(items, verdicts[..|verdicts| - 1]);
    }
  }

  /** An active record was archived, or a record is gone. */
  predicate Hides(s: Store, t: Store, id: Id) {
    id in s && (id !in t || (!s[id].archived && t[id].archived))
  }

  /** A job that did not fail hides exactly the record its verdict says. */
  lemma {:induction false} VerdictHides(s: Store, r: Record, fault: Fault, id: Id)
    requires Unique(s) && !VerdictUnder(s, r, fault).Failing?
    ensures Hides(s, StoreUnder(s, r, fault), id) <==> SUPERSEDED(r.id, VerdictUnder(s, r, fault)) == Some(id)
  {
    AnswerMeans(s, r, fault);
    hide StoreUnder, VerdictUnder, Unique;
    var t, v := StoreUnder(s, r, fault), VerdictUnder(s, r, fault);
    assert Lookup(s, id).Some? <==> id in s;
    assert Lookup(t, id).Some? <==> id in t;
    if v.Wrote? {
      assert v.flipped == Some(id) <==> id != r.id && r.supersedes == Some(id) && id in s && !s[id].archived;
    } else if v.TookOver? {
      assert Lookup(s - {v.from}, id) == if id == v.from then None else Lookup(s, id);
    }
  }

  /** Input `i` hid `id` and was not reported failed. */
  ghost predicate HidAt(s: Store, items: seq<Item>, faults: seq<Fault>, n: nat, id: Id, i: nat)
    requires Unique(s) && |faults| == |items| && i < n <= |items|
  {
    && !Play(s, items, faults, n).verdicts[i].Failing?
    && Hides(Play(s, items, faults, i).store, Play(s, items, faults, i + 1).store, id)
  }

  lemma {:induction false} StepHides(s: Store, items: seq<Item>, faults: seq<Fault>, m: nat, id: Id)
    requires Unique(s) && |faults| == |items| && m < |items|
    ensures var p, q := Play(s, items, faults, m), Play(s, items, faults, m + 1);
            !q.verdicts[m].Failing? ==>
                (Hides(p.store, q.store, id) <==> SUPERSEDED(ShownId(items[m]), q.verdicts[m]) == Some(id))
  {
    var p := Play(s, items, faults, m);
    if !p.halted && items[m].Prepared? {
      var r := items[m].record;
      if !VerdictUnder(p.store, r, faults[m]).Failing? {
        VerdictHides(p.store, r, faults[m], id);
      }
    }
    hide StoreUnder, VerdictUnder;
  }

  /**
   The report's `superseded` list names exactly the records that some input of the batch hid, by
   archiving an active one or taking its place, apart from what failed inputs did.
   */
  lemma {:induction false} SupersededIff(s: Store, items: seq<Item>, faults: seq<Fault>, n: nat, id: Id)
    requires Unique(s) && |faults| == |items| && n <= |items|
    ensures id in Reported(s, items, faults, n).superseded <==>
            exists i :: 0 <= i < n && HidAt(s, items, faults, n, id, i)
    decreases n
  {
    hide StoreUnder, VerdictUnder, Hides, ReportOf;
    if n == 0 {
      ReportLists(items, []);
    } else {
      var m := n - 1;
      SupersededIff(s, items, faults, m, id);
      ReportedNext(s, items, faults, m);
      StepHides(s, items, faults, m, id);
      SupersededNext(s, items, faults, m, n, id);
    }
  }

  lemma {:induction false} SupersededNext(s: Store, items: seq<Item>, faults: seq<Fault>, m: nat, n: nat, id: Id)
    requires Unique(s) && |faults| == |items| && m < |items| && n == m + 1
    ensures (exists i :: 0 <= i < n && HidAt(s, items, faults, n, id, i)) <==>
            (exists i :: 0 <= i < m && HidAt(s, items, faults, m, id, i)) || HidAt(s, items, faults, n, id, m)
  {
    hide StoreUnder, VerdictUnder, Hides;
    assert forall i | 0 <= i < m :: HidAt(s, items, faults, n, id, i) == HidAt(s, items, faults, m, id, i);
  }

  /** A batch is halted exactly when some prepared record was refused a slot or not waited for. */
  lemma {:induction false} HaltedIff(s: Store, items: seq<Item>, faults: seq<Fault>, n: nat)
    requires Unique(s) && |faults| == |items| && n <= |items|
    ensures Play(s, items, faults, n).halted <==>
            exists j :: 0 <= j < n && items[j].Prepared? && (faults[j].SlotRefused? || faults[j].TimedOut?)
    decreases n
  {
    hide StoreUnder, VerdictUnder;
    if n > 0 {
      HaltedIff(s, items, faults, n - 1);
    }
  }

  /** The step of input `i` is one of three: not attempted, invalid, or a record's job. */
  lemma {:induction false} StepShape(s: Store, items: seq<Item>, faults: seq<Fault>, i: nat, next: nat)
    requires Unique(s) && |faults| == |items| && i < |items| && next == i + 1
    ensures var p, q := Play(s, items, faults, i), Play(s, items, faults, next);
            && (q.verdicts[i].NotAttempted? <==> p.halted)
            && (p.halted || items[i].Invalid? ==> q.store == p.store)
            && (!p.halted && items[i].Invalid? ==> q.verdicts[i].Failing?)
  {
    var p := Play(s, items, faults, i);
    if !p.halted && items[i].Prepared? {
      assert !VerdictUnder(p.store, items[i].record, faults[i]).NotAttempted?;
    }
    hide StoreUnder, VerdictUnder;
  }

  /** A verdict, once given, stays. */
  lemma {:induction false} VerdictStays(s: Store, items: seq<Item>, faults: seq<Fault>, i: nat, m: nat, n: nat)
    requires Unique(s) && |faults| == |items| && i < m <= n <= |items|
    ensures Play(s, items, faults, n).verdicts[i] == Play(s, items, faults, m).verdicts[i]
    decreases n
  {
    hide StoreUnder, VerdictUnder;
    if m < n {
      VerdictStays(s, items, faults, i, m, n - 1);
    }
  }

  /**
   An input is not attempted, and leaves the store alone, exactly when an earlier record was refused a
   slot or not waited for; an input that was attempted and is no record at all is reported failed.
   */
  lemma {:induction false} NotAttemptedIff(s: Store, items: seq<Item>, faults: seq<Fault>, n: nat, i: nat)
    requires Unique(s) && |faults| == |items| && i < n <= |items|
    ensures var v := Play(s, items, faults, n).verdicts[i];
            && (v.NotAttempted? <==>
                exists j :: 0 <= j < i && items[j].Prepared? && (faults[j].SlotRefused? || faults[j].TimedOut?))
            && (v.NotAttempted? || items[i].Invalid? ==>
                Play(s, items, faults, i + 1).store == Play(s, items, faults, i).store)
            && (!v.NotAttempted? && items[i].Invalid? ==> v.Failing?)
  {
    hide StoreUnder, VerdictUnder, Play;
    HaltedIff(s, items, faults, i);
    StepShape(s, items, faults, i, i + 1);
    VerdictStays(s, items, faults, i, i + 1, n);
  }
}
