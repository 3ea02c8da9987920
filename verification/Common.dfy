/** Small shared vocabulary: optional values, capacities, subsequences and filters. */
module Common {

  datatype Option<+T> = None | Some(value: T)

  /** A queue bound; every owner clamps its configured size to at least one. */
  type Capacity = n: nat | n >= 1 witness 1

  function Clamp(maxsize: int): (c: Capacity)
    ensures c >= maxsize && (c == maxsize || c == 1)
  {
    if maxsize < 1 then 1 else maxsize
  }

  /** `a` can be obtained from `b` by deleting elements, keeping the order of the rest. */
  ghost predicate Subsequence<T(!new)>(a: seq<T>, b: seq<T>)
    decreases |b|
  {
    || a == []
    || (b != [] && a[|a| - 1] == b[|b| - 1] && Subsequence(a[..|a| - 1], b[..|b| - 1]))
    || (b != [] && Subsequence(a, b[..|b| - 1]))
  }

  /** Deleting one element keeps the relation. */
  lemma {:induction false} SubsequenceDelete<T(!new)>(a: seq<T>, i: nat, b: seq<T>)
    requires i < |a|
    requires Subsequence(a, b)
    ensures Subsequence(a[..i] + a[i + 1..], b)
    decreases |b|
  {
    var shorter := a[..i] + a[i + 1..];
    var m, n := |a| - 1, |b| - 1;
    if a[m] == b[n] && Subsequence(a[..m], b[..n]) {
      if i == m {
        assert shorter == a[..m];
      } else {
        SubsequenceDelete(a[..m], i, b[..n]);
        assert a[..m][..i] + a[..m][i + 1..] == shorter[..m - 1];
      }
    } else {
      SubsequenceDelete(a, i, b[..n]);
    }
  }

  lemma {:induction false} SubsequenceAppend<T(!new)>(a: seq<T>, b: seq<T>, x: T)
    requires Subsequence(a, b)
    ensures Subsequence(a + [x], b + [x])
    ensures Subsequence(a, b + [x])
  {
    assert (a + [x])[..|a|] == a && (b + [x])[..|b|] == b;
  }

  lemma {:induction false} SubsequenceMember<T(!new)>(a: seq<T>, b: seq<T>, x: T)
    requires Subsequence(a, b) && x in a
    ensures x in b
    decreases |b|
  {
    var m, n := |a| - 1, |b| - 1;
    if a[m] == b[n] && Subsequence(a[..m], b[..n]) {
      if x != a[m] {
        assert a == a[..m] + [a[m]];
        SubsequenceMember(a[..m], b[..n], x);
      }
    } else {
      SubsequenceMember(a, b[..n], x);
    }
  }

  lemma {:induction false} SubsequenceTrans<T(!new)>(a: seq<T>, b: seq<T>, c: seq<T>)
    requires Subsequence(a, b) && Subsequence(b, c)
    ensures Subsequence(a, c)
    decreases |b| + |c|
  {
    if a == [] {
      return;
    }
    var l, m, n := |a| - 1, |b| - 1, |c| - 1;
    if b[m] == c[n] && Subsequence(b[..m], c[..n]) {
      if a[l] == b[m] && Subsequence(a[..l], b[..m]) {
        SubsequenceTrans(a[..l], b[..m], c[..n]);
      } else {
        SubsequenceTrans(a, b[..m], c[..n]);
      }
    } else {
      SubsequenceTrans(a, b, c[..n]);
    }
  }

  /** The elements of `s` that satisfy `keep`, in order. */
  function Filter<T>(s: seq<T>, keep: T -> bool): (r: seq<T>)
    ensures |r| <= |s|
    ensures forall x | x in r :: x in s && keep(x)
  {
    if s == [] then []
    else Filter(s[..|s| - 1], keep) + (if keep(s[|s| - 1]) then [s[|s| - 1]] else [])
  }

  lemma {:induction false} FilterSame<T>(s: seq<T>, f: T -> bool, g: T -> bool)
    requires forall i | 0 <= i < |s| :: f(s[i]) == g(s[i])
    ensures Filter(s, f) == Filter(s, g)
    decreases |s|
  {
    if s != [] {
      FilterSame(s[..|s| - 1], f, g);
    }
  }

  lemma {:induction false} FilterKeeps<T>(s: seq<T>, f: T -> bool, x: T)
    requires x in s && f(x)
    ensures x in Filter(s, f)
    decreases |s|
  {
    if s[|s| - 1] != x {
      FilterKeeps(s[..|s| - 1], f, x);
    }
  }

  lemma {:induction false} FilterConcat<T>(a: seq<T>, b: seq<T>, keep: T -> bool)
    ensures Filter(a + b, keep) == Filter(a, keep) + Filter(b, keep)
    decreases |b|
  {
    if b == [] {
      assert a + b == a;
    } else {
      var n := |b| - 1;
      assert (a + b)[..|a + b| - 1] == a + b[..n];
      FilterConcat(a, b[..n], keep);
    }
  }

  /** What becomes of one element among others. */
  lemma {:induction false} FilterMiddle<T>(a: seq<T>, x: T, b: seq<T>, keep: T -> bool)
    ensures Filter(a + [x] + b, keep) == Filter(a, keep) + (if keep(x) then [x] else []) + Filter(b, keep)
  {
    FilterOne(x, keep);
    hide Filter;
    FilterConcat(a + [x], b, keep);
    FilterConcat(a, [x], keep);
  }

  lemma FilterOne<T>(x: T, keep: T -> bool)
    ensures Filter([x], keep) == if keep(x) then [x] else []
  {
    assert [x][..0] == [];
  }

  lemma {:induction false} FilterAll<T>(s: seq<T>, keep: T -> bool)
    requires forall x | x in s :: keep(x)
    ensures Filter(s, keep) == s
  {
    if s != [] {
      var n := |s| - 1;
      assert s[n] in s;
      FilterAll(s[..n], keep);
      assert s == s[..n] + [s[n]];
    }
  }

  lemma {:induction false} FilterNone<T>(s: seq<T>, keep: T -> bool)
    requires forall x | x in s :: !keep(x)
    ensures Filter(s, keep) == []
  {
    if s != [] {
      var n := |s| - 1;
      assert s[n] in s;
      FilterNone(s[..n], keep);
    }
  }

  /** A filter that drops something is strictly shorter. */
  lemma {:induction false} FilterShorter<T>(s: seq<T>, keep: T -> bool, i: nat)
    requires i < |s| && !keep(s[i])
    ensures |Filter(s, keep)| < |s|
  {
    var n := |s| - 1;
    if i < n {
      FilterShorter(s[..n], keep, i);
    }
  }
}
