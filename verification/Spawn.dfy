/** How far delegation reaches: the allowance that bounds a tree of drives. */
module Spawn {
  import opened Common

  const NO_SPAWNS: int := 0

  function AsCount(value: int): (r: nat)
    ensures r >= value && (r == value || r == 0)
  {
    if value < NO_SPAWNS then 0 else value
  }

  /** One generation of decay: one less, floored at zero. */
  function Attenuate(allowance: int): (r: nat)
    ensures allowance > 0 ==> r < allowance
  {
    var below := AsCount(allowance) - 1;
    if below < NO_SPAWNS then 0 else below
  }

  /** A request may only lower what was already decided. */
  function Narrow(requested: Option<int>, ceiling: nat): (r: nat)
    ensures r <= ceiling && (requested.None? ==> r == ceiling)
    ensures requested.Some? && 0 <= requested.value <= ceiling ==> r == requested.value
    ensures requested.Some? && requested.value < 0 ==> r == 0
    ensures requested.Some? && requested.value > ceiling ==> r == ceiling
  {
    if requested.None? then ceiling
    else if AsCount(requested.value) < ceiling then AsCount(requested.value) else ceiling
  }

  /** A drive and the children it created, in order of creation. */
  datatype Drive = Drive(allowance: nat, children: seq<Drive>)

  /** One mint: the parent's allowance just before it, and what the child was given. */
  datatype Mint = Mint(before: nat, child: nat)

  /** A parent pays one per mint, whatever the seam then does, and gives each child less than it had. */
  ghost predicate LegalMints(initial: nat, mints: seq<Mint>, remaining: nat) {
    && |mints| + remaining == initial
    && forall i | 0 <= i < |mints| :: mints[i].before == initial - i && mints[i].child < mints[i].before
  }

  /** Every drive of the tree minted its children legally. */
  ghost predicate Legal(d: Drive)
    decreases d
  {
    && |d.children| <= d.allowance
    && forall i | 0 <= i < |d.children| ::
         d.children[i].allowance <= d.allowance - 1 - i && Legal(d.children[i])
  }

  function Descendants(d: Drive): nat
    decreases d, |d.children| + 1
  {
    DescendantsUpTo(d, |d.children|)
  }

  /** The first `k` children and everything below them. */
  function DescendantsUpTo(d: Drive, k: nat): nat
    requires k <= |d.children|
    decreases d, k
  {
    if k == 0 then 0 else DescendantsUpTo(d, k - 1) + 1 + Descendants(d.children[k - 1])
  }

  function Depth(d: Drive): nat
    decreases d, |d.children| + 1
  {
    DepthUpTo(d, |d.children|)
  }

  function DepthUpTo(d: Drive, k: nat): nat
    requires k <= |d.children|
    decreases d, k
  {
    if k == 0 then 0
    else
      var before, here := DepthUpTo(d, k - 1), 1 + Depth(d.children[k - 1]);
      if before < here then here else before
  }

  function Pow2(n: nat): (r: nat)
    ensures r >= 1
  {
    if n == 0 then 1 else 2 * Pow2(n - 1)
  }

  lemma {:induction false} Pow2Monotone(a: nat, b: nat)
    requires a <= b
    ensures Pow2(a) <= Pow2(b)
    decreases b - a
  {
    if a < b {
      Pow2Monotone(a + 1, b);
    }
  }

  lemma {:induction false} BoundUpTo(d: Drive, k: nat)
    requires Legal(d) && k <= |d.children|
    ensures DescendantsUpTo(d, k) <= Pow2(d.allowance) - Pow2(d.allowance - k)
    decreases d, k
  {
    if k > 0 {
      var child := d.children[k - 1];
      BoundUpTo(d, k - 1);
      DescendantsBounded(child);
      Pow2Monotone(child.allowance, d.allowance - k);
    }
  }

  /** A drive with allowance `a` creates at most `2^a - 1` descendants over its whole tree. */
  lemma {:induction false} DescendantsBounded(d: Drive)
    requires Legal(d)
    ensures Descendants(d) <= Pow2(d.allowance) - 1
    decreases d, |d.children| + 1
  {
    BoundUpTo(d, |d.children|);
  }

  lemma {:induction false} DepthUpToBounded(d: Drive, k: nat)
    requires Legal(d) && k <= |d.children|
    ensures DepthUpTo(d, k) <= d.allowance
    decreases d, k
  {
    if k > 0 {
      DepthUpToBounded(d, k - 1);
      DepthBounded(d.children[k - 1]);
    }
  }

  /** No chain of descendants is longer than the root's allowance. */
  lemma {:induction false} DepthBounded(d: Drive)
    requires Legal(d)
    ensures Depth(d) <= d.allowance
    decreases d, |d.children| + 1
  {
    DepthUpToBounded(d, |d.children|);
  }

  /** The tree in which every drive spawns all it may, and gives away all it can. */
  function Fullest(a: nat): (d: Drive)
    ensures d.allowance == a && |d.children| == a
    decreases a
  {
    Drive(a, seq(a, i requires 0 <= i < a => Fullest(a - 1 - i)))
  }

  lemma {:induction false} FullestUpTo(a: nat, k: nat)
    requires k <= a
    ensures DescendantsUpTo(Fullest(a), k) == Pow2(a) - Pow2(a - k)
    ensures forall i | 0 <= i < k :: Legal(Fullest(a).children[i])
    decreases a, k
  {
    if k > 0 {
      FullestUpTo(a, k - 1);
      BoundAttained(a - k);
      assert Fullest(a).children[k - 1] == Fullest(a - k);
    }
  }

  /** The bound is met: some legal tree has exactly `2^a - 1` descendants. */
  lemma {:induction false} BoundAttained(a: nat)
    ensures Legal(Fullest(a)) && Descendants(Fullest(a)) == Pow2(a) - 1
    decreases a, a + 1
  {
    FullestUpTo(a, a);
    var d := Fullest(a);
    forall i | 0 <= i < |d.children|
      ensures d.children[i].allowance <= d.allowance - 1 - i && Legal(d.children[i])
    {
      assert d.children[i] == Fullest(a - 1 - i);
    }
  }

  /** The mint behind each child, in order; a mint whose seam failed is behind none. */
  ghost predicate BornOf(children: seq<Drive>, mints: seq<Mint>, born: seq<nat>) {
    && |born| == |children|
    && (forall i, j | 0 <= i < j < |born| :: born[i] < born[j])
    && forall i | 0 <= i < |born| :: born[i] < |mints| && children[i].allowance <= mints[born[i]].child
  }

  lemma {:induction false} BornLate(born: seq<nat>, i: nat)
    requires i < |born| && forall j, k | 0 <= j < k < |born| :: born[j] < born[k]
    ensures i <= born[i]
    decreases i
  {
    if i > 0 {
      BornLate(born, i - 1);
    }
  }

  /** A tree whose nodes were minted as a drive mints them is legal, whichever mints came to nothing. */
  lemma {:induction false} MintsAreLegal(d: Drive, mints: seq<Mint>, remaining: nat, born: seq<nat>)
    requires LegalMints(d.allowance, mints, remaining) && BornOf(d.children, mints, born)
    requires forall i | 0 <= i < |d.children| :: Legal(d.children[i])
    ensures Legal(d) && Descendants(d) <= Pow2(d.allowance) - 1
  {
    forall i | 0 <= i < |born|
      ensures i <= born[i]
    {
      BornLate(born, i);
    }
    if born != [] {
      assert |born| - 1 <= born[|born| - 1] < |mints|;
    }
    DescendantsBounded(d);
  }
}
