/** Small value types shared by every module. */
module Base {
  datatype Option<+T> = None | Some(value: T)

  /** No element occurs twice. */
  ghost predicate NoDup<T>(xs: seq<T>) {
    forall i, j :: 0 <= i < j < |xs| ==> xs[i] != xs[j]
  }

  /** The value under `k`, or 0: the reading of a counter map such as the
      scheduler's per-slot and per-model hash maps. */
  function Count<K>(m: map<K, nat>, k: K): nat {
    if k in m then m[k] else 0
  }

  /** Adds `n` under `k` (`*entry(k).or_default() += n`). */
  function Bump<K>(m: map<K, nat>, k: K, n: nat): map<K, nat> {
    m[k := Count(m, k) + n]
  }

  function Min(a: int, b: int): int { if a <= b then a else b }

  function Max(a: int, b: int): int { if a <= b then b else a }
}

/** Sums and filters over sequences, with the laws the accounting proofs use. */
module Sums {
  import opened Base

  function Sum<T>(xs: seq<T>, f: T -> nat): nat {
    if |xs| == 0 then 0 else f(xs[0]) + Sum(xs[1..], f)
  }

  function Keep<T(!new)>(xs: seq<T>, p: T -> bool): (r: seq<T>)
    ensures |r| <= |xs|
  {
    if |xs| == 0 then [] else if p(xs[0]) then [xs[0]] + Keep(xs[1..], p) else Keep(xs[1..], p)
  }

  lemma {:induction false} SumConcat<T>(a: seq<T>, b: seq<T>, f: T -> nat)
    ensures Sum(a + b, f) == Sum(a, f) + Sum(b, f)
  {
    if |a| == 0 {
      assert a + b == b;
    } else {
      SumConcat(a[1..], b, f);
      assert (a + b)[1..] == a[1..] + b;
    }
  }

  lemma SumPush<T>(a: seq<T>, x: T, f: T -> nat)
    ensures Sum(a + [x], f) == Sum(a, f) + f(x)
  {
    SumConcat(a, [x], f);
    assert [x][1..] == [];
  }

  lemma SumPrefix<T>(xs: seq<T>, k: nat, f: T -> nat)
    requires k < |xs|
    ensures Sum(xs[..k + 1], f) == Sum(xs[..k], f) + f(xs[k])
  {
    assert xs[..k + 1] == xs[..k] + [xs[k]];
    SumPush(xs[..k], xs[k], f);
  }

  /** Pointwise order carries over to sums. */
  lemma {:induction false} SumLe<T>(xs: seq<T>, f: T -> nat, g: T -> nat)
    requires forall x :: x in xs ==> f(x) <= g(x)
    ensures Sum(xs, f) <= Sum(xs, g)
  {
    if |xs| > 0 {
      assert xs[0] in xs;
      SumLe(xs[1..], f, g);
    }
  }

  lemma SumSame<T>(xs: seq<T>, f: T -> nat, g: T -> nat)
    requires forall x :: x in xs ==> f(x) == g(x)
    ensures Sum(xs, f) == Sum(xs, g)
  {
    SumLe(xs, f, g);
    SumLe(xs, g, f);
  }

  lemma {:induction false} SumZero<T>(xs: seq<T>, f: T -> nat)
    requires forall x :: x in xs ==> f(x) == 0
    ensures Sum(xs, f) == 0
  {
    if |xs| > 0 {
      assert xs[0] in xs;
      SumZero(xs[1..], f);
    }
  }

  lemma {:induction false} SumMember<T>(xs: seq<T>, x: T, f: T -> nat)
    requires x in xs
    ensures f(x) <= Sum(xs, f)
  {
    if xs[0] != x {
      SumMember(xs[1..], x, f);
    }
  }

  /** Summing a filtered list is summing the masked function. */
  lemma {:induction false} SumKeep<T(!new)>(xs: seq<T>, p: T -> bool, f: T -> nat, g: T -> nat)
    requires forall x :: x in xs ==> g(x) == if p(x) then f(x) else 0
    ensures Sum(Keep(xs, p), f) == Sum(xs, g)
  {
    if |xs| > 0 {
      assert xs[0] in xs;
      SumKeep(xs[1..], p, f, g);
      if p(xs[0]) {
        assert Keep(xs, p)[1..] == Keep(xs[1..], p);
      }
    }
  }

  lemma {:induction false} KeepIn<T(!new)>(xs: seq<T>, p: T -> bool)
    ensures forall x :: x in Keep(xs, p) <==> x in xs && p(x)
  {
    if |xs| > 0 {
      KeepIn(xs[1..], p);
      assert xs == [xs[0]] + xs[1..];
    }
  }

  lemma {:induction false} KeepNoDup<T(!new)>(xs: seq<T>, p: T -> bool)
    requires NoDup(xs)
    ensures NoDup(Keep(xs, p))
  {
    if |xs| > 0 {
      assert NoDup(xs[1..]);
      KeepNoDup(xs[1..], p);
      KeepIn(xs[1..], p);
      var r := Keep(xs[1..], p);
      forall k | 0 <= k < |r| ensures xs[0] != r[k] {
        assert r[k] in xs[1..];
      }
    }
  }

  lemma {:induction false} KeepAll<T(!new)>(xs: seq<T>, p: T -> bool)
    requires forall x :: x in xs ==> p(x)
    ensures Keep(xs, p) == xs
  {
    if |xs| > 0 {
      assert xs[0] in xs;
      KeepAll(xs[1..], p);
    }
  }

  lemma {:induction false} KeepConcat<T(!new)>(a: seq<T>, b: seq<T>, p: T -> bool)
    ensures Keep(a + b, p) == Keep(a, p) + Keep(b, p)
  {
    if |a| == 0 {
      assert a + b == b;
    } else {
      KeepConcat(a[1..], b, p);
      assert (a + b)[1..] == a[1..] + b && (a + b)[0] == a[0];
    }
  }

  lemma KeepPrefix<T(!new)>(xs: seq<T>, k: nat, p: T -> bool)
    requires k < |xs|
    ensures Keep(xs[..k + 1], p) == Keep(xs[..k], p) + (if p(xs[k]) then [xs[k]] else [])
  {
    assert xs[..k + 1] == xs[..k] + [xs[k]];
    KeepConcat(xs[..k], [xs[k]], p);
    assert [xs[k]][1..] == [];
  }

  /** Two filters in a row are one. */
  lemma {:induction false} KeepKeep<T(!new)>(xs: seq<T>, p: T -> bool, q: T -> bool, pq: T -> bool)
    requires forall x :: x in xs ==> pq(x) == (p(x) && q(x))
    ensures Keep(Keep(xs, p), q) == Keep(xs, pq)
  {
    if |xs| > 0 {
      assert xs[0] in xs;
      KeepKeep(xs[1..], p, q, pq);
      if p(xs[0]) {
        assert Keep(xs, p)[1..] == Keep(xs[1..], p);
      }
    }
  }

  /** A sum over distinct elements changes only by what one element changes. */
  lemma {:induction false} SumChangeOne<T>(xs: seq<T>, x: T, f: T -> nat, g: T -> nat)
    requires NoDup(xs)
    requires forall y :: y in xs && y != x ==> f(y) == g(y)
    ensures x in xs ==> Sum(xs, f) + g(x) == Sum(xs, g) + f(x)
    ensures x !in xs ==> Sum(xs, f) == Sum(xs, g)
  {
    if |xs| > 0 {
      assert xs[0] in xs;
      assert NoDup(xs[1..]);
      if xs[0] == x {
        forall y | y in xs[1..] ensures f(y) == g(y) {
          var k :| 0 <= k < |xs[1..]| && xs[1..][k] == y;
          assert xs[k + 1] == y;
        }
        SumSame(xs[1..], f, g);
      } else {
        SumChangeOne(xs[1..], x, f, g);
      }
    }
  }

  /** The positions at which `p` holds. */
  ghost function Where<T(!new)>(xs: seq<T>, p: T -> bool): set<nat> {
    set k: nat | k < |xs| && p(xs[k])
  }

  /** A sum of ones is a number of positions. */
  lemma {:induction false} SumCounts<T(!new)>(xs: seq<T>, p: T -> bool, f: T -> nat)
    requires forall x :: x in xs ==> f(x) == if p(x) then 1 else 0
    ensures Sum(xs, f) == |Where(xs, p)|
    decreases |xs|
  {
    if |xs| > 0 {
      var n := |xs| - 1;
      SumCounts(xs[..n], p, f);
      SumPrefix(xs, n, f);
      assert xs[..n + 1] == xs;
      assert Where(xs, p) == if p(xs[n]) then Where(xs[..n], p) + {n} else Where(xs[..n], p);
    }
  }

  /** So is the size of a filtered list. */
  lemma {:induction false} KeepCounts<T(!new)>(xs: seq<T>, p: T -> bool)
    ensures |Keep(xs, p)| == |Where(xs, p)|
    decreases |xs|
  {
    if |xs| > 0 {
      var n := |xs| - 1;
      KeepCounts(xs[..n], p);
      KeepPrefix(xs, n, p);
      assert xs[..n + 1] == xs;
      assert Where(xs, p) == if p(xs[n]) then Where(xs[..n], p) + {n} else Where(xs[..n], p);
    }
  }

  lemma SumRotate<T>(ys: seq<T>, k: nat, f: T -> nat)
    requires k < |ys|
    ensures Sum(ys, f) == f(ys[k]) + Sum(ys[..k] + ys[k + 1..], f)
  {
    assert ys == ys[..k] + ([ys[k]] + ys[k + 1..]);
    SumConcat(ys[..k], [ys[k]] + ys[k + 1..], f);
    SumConcat([ys[k]], ys[k + 1..], f);
    SumConcat(ys[..k], ys[k + 1..], f);
    assert [ys[k]][1..] == [];
  }

  lemma TakeOut<T>(xs: seq<T>, ys: seq<T>) returns (k: nat)
    requires multiset(xs) == multiset(ys) && |xs| > 0
    ensures k < |ys| && ys[k] == xs[0]
    ensures multiset(xs[1..]) == multiset(ys[..k] + ys[k + 1..])
  {
    assert xs[0] in multiset(xs);
    k :| 0 <= k < |ys| && ys[k] == xs[0];
    assert xs == [xs[0]] + xs[1..];
    assert ys == ys[..k] + [ys[k]] + ys[k + 1..];
    assert multiset(ys) == multiset(ys[..k]) + multiset{ys[k]} + multiset(ys[k + 1..]);
    assert multiset(xs) == multiset{xs[0]} + multiset(xs[1..]);
    assert multiset(ys[..k] + ys[k + 1..]) == multiset(ys) - multiset{ys[k]};
    assert multiset(xs[1..]) == multiset(xs) - multiset{xs[0]};
  }

  /** Sums do not depend on the order of the list. */
  lemma {:induction false} SumPermutation<T>(xs: seq<T>, ys: seq<T>, f: T -> nat)
    requires multiset(xs) == multiset(ys)
    ensures Sum(xs, f) == Sum(ys, f)
    decreases |xs|
  {
    assert |multiset(xs)| == |xs| && |multiset(ys)| == |ys|;
    if |xs| > 0 {
      var k := TakeOut(xs, ys);
      SumPermutation(xs[1..], ys[..k] + ys[k + 1..], f);
      SumRotate(ys, k, f);
    }
  }
}
