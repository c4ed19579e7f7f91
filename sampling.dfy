/**
 * Reviewer selection. `random.sample(reviewers, 3)` is replaced by an
 * injected random number `rnd` read as a sequence of digits in a mixed
 * radix: each digit picks one of the reviewers not yet drawn.
 */
module Sampling {
  import opened Accounts

  predicate Distinct<T(==)>(s: seq<T>)
  {
    forall i, j :: 0 <= i < j < |s| ==> s[i] != s[j]
  }

  function Min(a: nat, b: nat): nat
  {
    if a <= b then a else b
  }

  /** The sequence without its element at index `i`. */
  function RemoveAt<T(==)>(s: seq<T>, i: nat): (r: seq<T>)
    requires i < |s|
    ensures |r| == |s| - 1
    ensures forall x :: x in r ==> x in s
    ensures forall x :: x in s && x != s[i] ==> x in r
    ensures Distinct(s) ==> Distinct(r) && s[i] !in r
  {
    assert s == s[..i] + [s[i]] + s[i + 1..];
    s[..i] + s[i + 1..]
  }

  /** Draws `k` reviewers without replacement, driven by `rnd`. */
  function Draw(pool: seq<UserId>, k: nat, rnd: nat): (r: seq<UserId>)
    ensures |r| == Min(k, |pool|)
    ensures forall x :: x in r ==> x in pool
    ensures Distinct(pool) ==> Distinct(r)
    decreases k
  {
    if k == 0 || |pool| == 0 then []
    else
      var i := rnd % |pool|;
      [pool[i]] + Draw(RemoveAt(pool, i), k - 1, rnd / |pool|)
  }

  /**
   * `assign_reviewers`' choice: everybody when fewer than three reviewers
   * exist, otherwise a sample of three.
   */
  function ChooseReviewers(pool: seq<UserId>, rnd: nat): (chosen: seq<UserId>)
    ensures |chosen| == Min(3, |pool|)
    ensures forall x :: x in chosen ==> x in pool
    ensures Distinct(pool) ==> Distinct(chosen)
    ensures |pool| < 3 ==> chosen == pool
  {
    if |pool| < 3 then pool else Draw(pool, 3, rnd)
  }

  lemma {:induction false} MulAtLeast(n: nat, a: nat)
    requires a >= 1
    ensures n * a >= n
  {
    if a > 1 {
      MulAtLeast(n, a - 1);
      assert n * a == n * (a - 1) + n;
    }
  }

  /** Euclidean division undoes `i + n * q` when `i < n`. */
  lemma DivModOfCombined(i: nat, n: nat, q: nat)
    requires i < n
    ensures (i + n * q) % n == i && (i + n * q) / n == q
  {
    var x := i + n * q;
    var d, m := x / n, x % n;
    assert x == n * d + m && 0 <= m < n;
    assert n * q - n * d == m - i;
    if q > d {
      assert n * (q - d) == n * q - n * d;
      MulAtLeast(n, q - d);
    } else if q < d {
      assert n * (d - q) == n * d - n * q;
      MulAtLeast(n, d - q);
    }
  }

  /** Some `rnd` picks `pool[i]` first and continues as `q` does: `rnd = i + |pool| * q`. */
  lemma DrawStep(pool: seq<UserId>, k: nat, i: nat, q: nat)
    requires k >= 1 && i < |pool|
    ensures exists rnd: nat :: Draw(pool, k, rnd) == [pool[i]] + Draw(RemoveAt(pool, i), k - 1, q)
  {
    var rnd := i + |pool| * q;
    DivModOfCombined(i, |pool|, q);
    assert Draw(pool, k, rnd) == [pool[i]] + Draw(RemoveAt(pool, i), k - 1, q);
  }

  /** After an element is drawn, the rest of a distinct sample lies in the rest of the pool. */
  lemma TailInRest(pool: seq<UserId>, s: seq<UserId>, i: nat)
    requires Distinct(pool) && Distinct(s) && |s| >= 1 && i < |pool| && pool[i] == s[0]
    requires forall x :: x in s ==> x in pool
    ensures Distinct(s[1..]) && forall x :: x in s[1..] ==> x in RemoveAt(pool, i)
  {
    forall x | x in s[1..] ensures x in RemoveAt(pool, i) {
      assert x in s && x != s[0];
    }
  }

  /**
   * Nothing `random.sample` can return is out of reach: every sequence of
   * `k` distinct reviewers from the pool is drawn for some `rnd`.
   */
  lemma {:induction false} EverySampleReachable(pool: seq<UserId>, k: nat, s: seq<UserId>)
    requires Distinct(pool) && Distinct(s) && |s| == k && k <= |pool|
    requires forall x :: x in s ==> x in pool
    ensures exists rnd: nat :: Draw(pool, k, rnd) == s
  {
    if k == 0 {
      assert Draw(pool, 0, 0) == s;
    } else {
      assert s[0] in pool;
      var i :| 0 <= i < |pool| && pool[i] == s[0];
      var rest := RemoveAt(pool, i);
      var tail := s[1..];
      TailInRest(pool, s, i);
      EverySampleReachable(rest, k - 1, tail);
      var q: nat :| Draw(rest, k - 1, q) == tail;
      DrawStep(pool, k, i, q);
      var rnd: nat :| Draw(pool, k, rnd) == [pool[i]] + Draw(rest, k - 1, q);
      assert Draw(pool, k, rnd) == s;
    }
  }
}
