/**
 * The order in which `words.iter().permutations(n)` yields orderings: every
 * arrangement of the input positions exactly once, in lexicographic order of
 * the position sequences. The i-th ordering is computed from i directly, by
 * the factorial number system.
 */
module Permutations {

  function Factorial(n: nat): (f: nat)
    ensures f >= 1
  {
    if n == 0 then 1 else n * Factorial(n - 1)
  }

  /** The input positions `0, 1, ..., n-1`. */
  function Positions(n: nat): (r: seq<nat>)
    ensures |r| == n
    ensures forall i :: 0 <= i < n ==> r[i] == i
  {
    seq(n, i => i)
  }

  predicate Increasing(s: seq<nat>) {
    forall i, j :: 0 <= i < j < |s| ==> s[i] < s[j]
  }

  /** `s` with its element at `d` removed. */
  function Without(s: seq<nat>, d: nat): (r: seq<nat>)
    requires d < |s|
    ensures |r| == |s| - 1
  {
    s[..d] + s[d + 1..]
  }

  lemma MulAtLeast(a: nat, b: nat, f: nat)
    requires a >= b
    ensures a * f >= b * f
  {
    assert a * f == b * f + (a - b) * f;
  }

  lemma QuotientBelow(k: nat, f: nat, n: nat)
    requires f > 0 && k < n * f
    ensures k / f < n
  {
    if k / f >= n {
      MulAtLeast(k / f, n, f);
    }
  }

  lemma QuotientOf(d: nat, r: nat, f: nat)
    requires r < f
    ensures (d * f + r) / f == d && (d * f + r) % f == r
  {
    var k := d * f + r;
    var q := k / f;
    if q > d {
      MulAtLeast(q, d + 1, f);
    } else if q < d {
      MulAtLeast(d, q + 1, f);
    }
  }

  /**
   * The `k`-th arrangement of `pool` in lexicographic order: the first element
   * is the one whose block of `(|pool| - 1)!` arrangements holds `k`.
   */
  function Unrank(pool: seq<nat>, k: nat): (p: seq<nat>)
    requires k < Factorial(|pool|)
    ensures |p| == |pool|
    decreases |pool|
  {
    if |pool| == 0 then []
    else
      var f := Factorial(|pool| - 1);
      QuotientBelow(k, f, |pool|);
      var d := k / f;
      [pool[d]] + Unrank(Without(pool, d), k % f)
  }

  /** The `k`-th ordering of `n` input positions that the permutation iterator yields. */
  function Ordering(n: nat, k: nat): (p: seq<nat>)
    requires k < Factorial(n)
    ensures |p| == n && forall j :: 0 <= j < n ==> p[j] < n
  {
    var p := Unrank(Positions(n), k);
    UnrankPermutes(Positions(n), k);
    assert forall j :: 0 <= j < n ==> p[j] in multiset(Positions(n));
    p
  }

  /** Lexicographic order on position sequences. */
  predicate LexLess(a: seq<nat>, b: seq<nat>) {
    |a| > 0 && |b| > 0 && (a[0] < b[0] || (a[0] == b[0] && LexLess(a[1..], b[1..])))
  }

  lemma LexLessByHead(a: seq<nat>, b: seq<nat>)
    requires |a| > 0 && |b| > 0
    requires a[0] < b[0] || (a[0] == b[0] && LexLess(a[1..], b[1..]))
    ensures LexLess(a, b)
  {
  }

  lemma {:induction false} LexLessIrreflexive(a: seq<nat>)
    ensures !LexLess(a, a)
  {
    if |a| > 0 {
      LexLessIrreflexive(a[1..]);
    }
  }

  lemma WithoutKeepsIncreasing(s: seq<nat>, d: nat)
    requires d < |s| && Increasing(s)
    ensures Increasing(Without(s, d))
  {
    var r := Without(s, d);
    forall i, j | 0 <= i < j < |r|
      ensures r[i] < r[j]
    {
      var i' := if i < d then i else i + 1;
      var j' := if j < d then j else j + 1;
      assert r[i] == s[i'] && r[j] == s[j'];
    }
  }

  lemma WithoutMultiset(s: seq<nat>, d: nat)
    requires d < |s|
    ensures multiset(Without(s, d)) + multiset{s[d]} == multiset(s)
  {
    assert s == s[..d] + [s[d]] + s[d + 1..];
  }

  /** Every arrangement is a rearrangement of the pool. */
  lemma {:induction false} UnrankPermutes(pool: seq<nat>, k: nat)
    requires k < Factorial(|pool|)
    ensures multiset(Unrank(pool, k)) == multiset(pool)
  {
    if |pool| > 0 {
      var f := Factorial(|pool| - 1);
      QuotientBelow(k, f, |pool|);
      var d := k / f;
      UnrankPermutes(Without(pool, d), k % f);
      WithoutMultiset(pool, d);
    }
  }

  /** Ranks compare by block first, then by offset within the block. */
  lemma BlockOrder(dk: nat, rk: nat, dm: nat, rm: nat, f: nat)
    requires rk < f && rm < f
    requires dk * f + rk < dm * f + rm
    ensures dk <= dm
    ensures dk == dm ==> rk < rm
  {
    if dk > dm {
      MulAtLeast(dk, dm + 1, f);
    }
  }

  /** How an arrangement starts, and what follows its first element. */
  lemma UnrankHead(pool: seq<nat>, k: nat) returns (d: nat, r: nat)
    requires 0 < |pool| && k < Factorial(|pool|)
    ensures d < |pool| && r < Factorial(|pool| - 1)
    ensures k == d * Factorial(|pool| - 1) + r
    ensures Unrank(pool, k)[0] == pool[d]
    ensures Unrank(pool, k)[1..] == Unrank(Without(pool, d), r)
  {
    var f := Factorial(|pool| - 1);
    QuotientBelow(k, f, |pool|);
    d, r := k / f, k % f;
  }

  /** The arrangement that starts with `pool[d]` and continues with the `r`-th of the rest. */
  lemma UnrankCompose(pool: seq<nat>, d: nat, r: nat) returns (k: nat)
    requires d < |pool| && r < Factorial(|pool| - 1)
    ensures k == d * Factorial(|pool| - 1) + r && k < Factorial(|pool|)
    ensures Unrank(pool, k) == [pool[d]] + Unrank(Without(pool, d), r)
  {
    var f := Factorial(|pool| - 1);
    QuotientOf(d, r, f);
    MulAtLeast(|pool| - 1, d, f);
    MulAtLeast(d, 0, f);
    assert |pool| * f == (|pool| - 1) * f + f;
    k := d * f + r;
  }

  /** Arrangements of an increasing pool come in strictly increasing lexicographic order. */
  lemma {:induction false} UnrankOrdered(pool: seq<nat>, k: nat, m: nat)
    requires Increasing(pool)
    requires k < m < Factorial(|pool|)
    ensures LexLess(Unrank(pool, k), Unrank(pool, m))
  {
    var f := Factorial(|pool| - 1);
    var a, b := Unrank(pool, k), Unrank(pool, m);
    var dk, rk := UnrankHead(pool, k);
    var dm, rm := UnrankHead(pool, m);
    BlockOrder(dk, rk, dm, rm, f);
    if dk == dm {
      WithoutKeepsIncreasing(pool, dk);
      UnrankOrdered(Without(pool, dk), rk, rm);
      LexLessByHead(a, b);
    } else {
      assert pool[dk] < pool[dm];
      LexLessByHead(a, b);
    }
  }

  /**
   * The orderings the iterator yields are rearrangements of the positions,
   * in strictly increasing lexicographic order, hence pairwise distinct.
   */
  lemma OrderingsDistinct(n: nat, k: nat, m: nat)
    requires k < Factorial(n) && m < Factorial(n)
    ensures multiset(Ordering(n, k)) == multiset(Positions(n))
    ensures k < m ==> LexLess(Ordering(n, k), Ordering(n, m))
    ensures k != m ==> Ordering(n, k) != Ordering(n, m)
  {
    UnrankPermutes(Positions(n), k);
    if k < m {
      UnrankOrdered(Positions(n), k, m);
      LexLessIrreflexive(Ordering(n, k));
    } else if m < k {
      UnrankOrdered(Positions(n), m, k);
      LexLessIrreflexive(Ordering(n, m));
    }
  }

  /** After the first element, a rearrangement of the pool rearranges the rest of it. */
  lemma TailRearranges(pool: seq<nat>, p: seq<nat>, d: nat)
    requires multiset(p) == multiset(pool)
    requires d < |pool| && 0 < |p| && pool[d] == p[0]
    ensures multiset(p[1..]) == multiset(Without(pool, d))
  {
    WithoutMultiset(pool, d);
    assert p == [p[0]] + p[1..];
    assert multiset(p) == multiset{p[0]} + multiset(p[1..]);
    assert multiset(p[1..]) == multiset(p) - multiset{p[0]};
    assert multiset(Without(pool, d)) == multiset(pool) - multiset{pool[d]};
  }

  /** Every rearrangement of an increasing pool is its arrangement of some rank. */
  lemma {:induction false} UnrankCovers(pool: seq<nat>, p: seq<nat>) returns (k: nat)
    requires Increasing(pool)
    requires multiset(p) == multiset(pool)
    ensures k < Factorial(|pool|) && Unrank(pool, k) == p
  {
    assert |p| == |multiset(p)| == |pool|;
    if |pool| == 0 {
      k := 0;
    } else {
      assert p[0] in multiset(pool);
      var d :| 0 <= d < |pool| && pool[d] == p[0];
      var rest := Without(pool, d);
      TailRearranges(pool, p, d);
      WithoutKeepsIncreasing(pool, d);
      var r := UnrankCovers(rest, p[1..]);
      k := UnrankCompose(pool, d, r);
      assert [p[0]] + p[1..] == p;
    }
  }

  /** Uncapped, the iterator visits every ordering of the `n` positions within its first `n!` steps. */
  lemma EveryOrderingVisited(n: nat, p: seq<nat>)
    requires multiset(p) == multiset(Positions(n))
    ensures exists k :: 0 <= k < Factorial(n) && Ordering(n, k) == p
  {
    assert Increasing(Positions(n));
    var k := UnrankCovers(Positions(n), p);
    assert Ordering(n, k) == p;
  }
}
