/**
 * Python's `random` module as the scripts use it. Every random number comes
 * from a stream `draws` of raw values; the k-th call of `randbelow(n)` gives
 * `draws(k) % n`. The algorithms on top of it follow CPython's `choice`,
 * `shuffle` and `sample`, so a property proved for every stream holds for
 * whatever the generator produces.
 */
module Random {

  /** `randbelow(n)` made from draw number `k`. */
  function Below(draws: nat -> nat, k: nat, n: nat): (j: nat)
    requires n > 0
    ensures j < n
  {
    draws(k) % n
  }

  /** `random.choice(xs)`: one draw. */
  function Choice<T>(xs: seq<T>, draws: nat -> nat, k: nat): (x: T)
    requires |xs| > 0
    ensures x in xs
  {
    xs[Below(draws, k, |xs|)]
  }

  /** `x[i], x[j] = x[j], x[i]`. */
  function Swap<T>(s: seq<T>, i: nat, j: nat): seq<T>
    requires i < |s| && j < |s|
  {
    s[i := s[j]][j := s[i]]
  }

  lemma {:induction false} SwapPermutes<T>(s: seq<T>, i: nat, j: nat)
    requires i < |s| && j < |s|
    ensures |Swap(s, i, j)| == |s| && multiset(Swap(s, i, j)) == multiset(s)
  {
  }

  /** The steps `i, i-1, ..., 1` of the shuffle loop; draw number `k` serves step `i`. */
  function ShuffleDown<T>(s: seq<T>, i: nat, draws: nat -> nat, k: nat): seq<T>
    requires i < |s|
    decreases i
  {
    if i == 0 then s else ShuffleDown(Swap(s, i, Below(draws, k, i + 1)), i - 1, draws, k + 1)
  }

  /** `random.shuffle(x)`: for i from len(x)-1 down to 1, swap x[i] with x[randbelow(i+1)]. */
  function Shuffle<T>(s: seq<T>, draws: nat -> nat, k: nat): seq<T>
  {
    if |s| <= 1 then s else ShuffleDown(s, |s| - 1, draws, k)
  }

  /** How many draws a shuffle of `n` elements uses. */
  function ShuffleDraws(n: nat): nat
  {
    if n <= 1 then 0 else n - 1
  }

  lemma {:induction false} ShuffleDownPermutes<T>(s: seq<T>, i: nat, draws: nat -> nat, k: nat)
    requires i < |s|
    ensures |ShuffleDown(s, i, draws, k)| == |s|
    ensures multiset(ShuffleDown(s, i, draws, k)) == multiset(s)
    decreases i
  {
    if i > 0 {
      var j := Below(draws, k, i + 1);
      SwapPermutes(s, i, j);
      ShuffleDownPermutes(Swap(s, i, j), i - 1, draws, k + 1);
    }
  }

  /** Whatever the draws, a shuffle only reorders: same length, same multiset. */
  lemma {:induction false} ShufflePermutes<T>(s: seq<T>, draws: nat -> nat, k: nat)
    ensures |Shuffle(s, draws, k)| == |s|
    ensures multiset(Shuffle(s, draws, k)) == multiset(s)
  {
    if |s| > 1 {
      ShuffleDownPermutes(s, |s| - 1, draws, k);
    }
  }

  /** A shuffle keeps the length. */
  lemma {:induction false} ShuffleLength<T>(s: seq<T>, draws: nat -> nat, k: nat)
    ensures |Shuffle(s, draws, k)| == |s|
  {
    ShufflePermutes(s, draws, k);
  }

  /** Shuffling `s + [x]`: an element occurs as often as in `s`, once more if it is `x`. */
  lemma {:induction false} ShuffleSnoc<T>(s: seq<T>, x: T, draws: nat -> nat, k: nat, y: T)
    ensures |Shuffle(s + [x], draws, k)| == |s| + 1
    ensures multiset(Shuffle(s + [x], draws, k))[y] == multiset(s)[y] + (if y == x then 1 else 0)
    ensures y in Shuffle(s + [x], draws, k) <==> y in s || y == x
  {
    ShufflePermutes(s + [x], draws, k);
    assert multiset(s + [x]) == multiset(s) + multiset{x};
    assert y in Shuffle(s + [x], draws, k) <==> y in multiset(Shuffle(s + [x], draws, k));
  }

  /** The first `n` elements of a shuffle are drawn from the list, without replacement. */
  lemma {:induction false} ShufflePrefixWithin<T>(s: seq<T>, n: nat, draws: nat -> nat, k: nat)
    requires n <= |s|
    ensures |Shuffle(s, draws, k)| == |s|
    ensures multiset(Shuffle(s, draws, k)[..n]) <= multiset(s)
    ensures forall y :: y in Shuffle(s, draws, k)[..n] ==> y in s
  {
    var r := Shuffle(s, draws, k);
    ShufflePermutes(s, draws, k);
    assert r == r[..n] + r[n..];
    assert multiset(r) == multiset(r[..n]) + multiset(r[n..]);
    forall y | y in r[..n] ensures y in s {
      assert y in multiset(r[..n]);
      assert y in multiset(s);
    }
  }

  /** `random.shuffle` on a list, in place. */
  method ShuffleInPlace<T>(a: array<T>, draws: nat -> nat, k: nat)
    modifies a
    ensures a[..] == Shuffle(old(a[..]), draws, k)
  {
    if a.Length <= 1 {
      return;
    }
    var i := a.Length - 1;
    var next := k;
    while i > 0
      invariant 0 <= i < a.Length
      invariant next == k + (a.Length - 1 - i)
      invariant Shuffle(old(a[..]), draws, k) == ShuffleDown(a[..], i, draws, next)
    {
      var j := Below(draws, next, i + 1);
      ghost var before := a[..];
      a[i], a[j] := a[j], a[i];
      assert a[..] == Swap(before, i, j);
      i, next := i - 1, next + 1;
    }
  }

  /** `random.shuffle(x)` on a list built for the purpose: copied into a buffer, shuffled in place, read back. */
  method ShuffleList<T>(s: seq<T>, draws: nat -> nat, k: nat) returns (r: seq<T>)
    ensures r == Shuffle(s, draws, k)
  {
    var buffer := new T[|s|](i requires 0 <= i < |s| => s[i]);
    assert buffer[..] == s;
    ShuffleInPlace(buffer, draws, k);
    r := buffer[..];
  }

  lemma {:induction false} PoolStep<T>(pool: seq<T>, j: nat)
    requires j < |pool|
    ensures multiset(pool) == multiset{pool[j]} + multiset(pool[j := pool[|pool| - 1]][..|pool| - 1])
  {
    var n := |pool|;
    assert pool == pool[..n - 1] + [pool[n - 1]];
    if j < n - 1 {
      assert pool[j := pool[n - 1]][..n - 1] == pool[..n - 1][j := pool[n - 1]];
    } else {
      assert pool[j := pool[n - 1]][..n - 1] == pool[..n - 1];
    }
  }

  /**
   * `random.sample(population, count)` by the pool method: draw an index
   * below the pool size, take that element, move the pool's last element
   * into its place, shrink the pool.
   */
  function Sample<T>(pool: seq<T>, count: nat, draws: nat -> nat, k: nat): (r: seq<T>)
    requires count <= |pool|
    ensures |r| == count
    decreases count
  {
    if count == 0 then []
    else
      var n := |pool|;
      var j := Below(draws, k, n);
      [pool[j]] + Sample(pool[j := pool[n - 1]][..n - 1], count - 1, draws, k + 1)
  }

  /** Every element of a sample comes from the population, and no more often than it occurs there. */
  lemma {:induction false} SampleMember<T>(pool: seq<T>, count: nat, draws: nat -> nat, k: nat, y: T)
    requires count <= |pool|
    ensures multiset(Sample(pool, count, draws, k))[y] <= multiset(pool)[y]
    ensures y in Sample(pool, count, draws, k) ==> y in pool
  {
    SampleWithinPopulation(pool, count, draws, k);
    assert y in Sample(pool, count, draws, k) ==> y in multiset(Sample(pool, count, draws, k));
  }

  /** A sample takes elements from distinct positions: as a multiset it fits in the population. */
  lemma {:induction false} SampleWithinPopulation<T>(pool: seq<T>, count: nat, draws: nat -> nat, k: nat)
    requires count <= |pool|
    ensures multiset(Sample(pool, count, draws, k)) <= multiset(pool)
    decreases count
  {
    if count > 0 {
      var n := |pool|;
      var rest := pool[Below(draws, k, n) := pool[n - 1]][..n - 1];
      SampleWithinPopulation(rest, count - 1, draws, k + 1);
      SampleStepWithin(pool, count, draws, k);
    }
  }

  /** One draw keeps the inclusion: the drawn element plus a sample of what is left. */
  lemma SampleStepWithin<T>(pool: seq<T>, count: nat, draws: nat -> nat, k: nat)
    requires 0 < count <= |pool|
    requires var n := |pool|;
      multiset(Sample(pool[Below(draws, k, n) := pool[n - 1]][..n - 1], count - 1, draws, k + 1))
      <= multiset(pool[Below(draws, k, n) := pool[n - 1]][..n - 1])
    ensures multiset(Sample(pool, count, draws, k)) <= multiset(pool)
  {
    var n := |pool|;
    var j := Below(draws, k, n);
    var rest := pool[j := pool[n - 1]][..n - 1];
    var tail := Sample(rest, count - 1, draws, k + 1);
    var first := multiset{pool[j]};
    calc {
      multiset(Sample(pool, count, draws, k));
    == { assert Sample(pool, count, draws, k) == [pool[j]] + tail; }
      first + multiset(tail);
    <= { AddWithin(first, multiset(tail), multiset(rest)); }
      first + multiset(rest);
    == { PoolStep(pool, j); }
      multiset(pool);
    }
  }

  /** Adding the same elements to both sides keeps the inclusion (a proof helper, no counterpart in the script). */
  lemma AddWithin<T>(a: multiset<T>, b: multiset<T>, c: multiset<T>)
    requires b <= c
    ensures a + b <= a + c
  {
  }

  /** `random.sample(pool, count)` when the pool is large enough, otherwise the whole pool. */
  function SampleUpTo<T>(pool: seq<T>, count: nat, draws: nat -> nat, k: nat): (r: seq<T>)
    ensures |r| == if |pool| >= count then count else |pool|
  {
    if |pool| >= count then Sample(pool, count, draws, k) else pool
  }

  /** Up to `count` elements sampled from `pool` hold no element more often than the pool does. */
  lemma SampleUpToWithin<T>(pool: seq<T>, count: nat, draws: nat -> nat, k: nat, y: T)
    ensures multiset(SampleUpTo(pool, count, draws, k))[y] <= multiset(pool)[y]
  {
    if |pool| >= count {
      SampleMember(pool, count, draws, k, y);
    }
  }

  /**
   * Up to `count` elements sampled from `pool`, `x` appended, the whole shuffled:
   * `x` occurs once when it is not in the pool, and everything else comes from the pool.
   */
  lemma {:induction false} ShuffledPick<T>(pool: seq<T>, count: nat, x: T, draws: nat -> nat, k: nat, k2: nat)
    requires x !in pool
    ensures var picked := Shuffle(SampleUpTo(pool, count, draws, k) + [x], draws, k2);
      && |picked| == (if |pool| >= count then count else |pool|) + 1
      && multiset(picked)[x] == 1
      && forall y :: y in picked ==> y in pool || y == x
  {
    var wrong := SampleUpTo(pool, count, draws, k);
    var picked := Shuffle(wrong + [x], draws, k2);
    if |pool| >= count {
      SampleWithinPopulation(pool, count, draws, k);
    }
    assert multiset(wrong) <= multiset(pool);
    ShufflePermutes(wrong + [x], draws, k2);
    assert multiset(picked) == multiset(wrong) + multiset{x};
    forall y | y in picked ensures y in pool || y == x {
      assert y in multiset(picked);
      if y != x {
        assert y in multiset(wrong);
        assert y in multiset(pool);
      }
    }
  }
}
