/**
 * Exponential backoff as both retrying services compute it: the k-th used
 * attempt, when it schedules a retry at all, schedules it base * 2^(k-1)
 * seconds later, and only while k is below the attempt budget.
 */
module Backoff {
  import opened Prelude

  function Pow2(n: nat): (p: nat)
    ensures p >= 1
  {
    if n == 0 then 1 else 2 * Pow2(n - 1)
  }

  /** The delay computed after `used` attempts; the source clamps the exponent at zero. */
  function Delay(base: int, used: int): int {
    base * Pow2(Max(used - 1, 0))
  }

  /** The sum of the delays scheduled after the attempts listed in `ks`. */
  function TotalDelay(base: int, ks: seq<nat>): int {
    if ks == [] then 0 else TotalDelay(base, ks[..|ks| - 1]) + Delay(base, ks[|ks| - 1])
  }

  /** Attempt numbers in the order they happened: distinct, counted from 1, none beyond `last`. */
  ghost predicate Ascending(ks: seq<nat>, last: int) {
    && (forall i :: 0 <= i < |ks| ==> 1 <= ks[i] <= last)
    && (forall i, j :: 0 <= i < j < |ks| ==> ks[i] < ks[j])
  }

  lemma {:induction false} Pow2Grows(m: nat, n: nat)
    requires m <= n
    ensures Pow2(m) <= Pow2(n)
  {
    if m < n {
      Pow2Grows(m, n - 1);
    }
  }

  /** However many attempts schedule a retry, the delays stay below one full doubling. */
  lemma {:induction false} TotalDelayBounded(base: nat, ks: seq<nat>, last: nat)
    requires Ascending(ks, last)
    ensures TotalDelay(base, ks) <= base * (Pow2(last) - 1)
  {
    if ks == [] {
      assert base * (Pow2(last) - 1) >= 0;
    } else {
      var n := |ks| - 1;
      var k := ks[n];
      assert forall i :: 0 <= i < n ==> ks[..n][i] == ks[i];
      TotalDelayBounded(base, ks[..n], k - 1);
      Pow2Grows(k, last);
      Doubling(base, k);
      Scale(base, Pow2(k) - 1, Pow2(last) - 1);
      hide Pow2;
    }
  }

  lemma Doubling(base: int, k: nat)
    requires k >= 1
    ensures base * (Pow2(k - 1) - 1) + Delay(base, k) == base * (Pow2(k) - 1)
  {
    var p := Pow2(k - 1);
    assert base * (2 * p - 1) == base * (p - 1) + base * p;
  }

  lemma Scale(base: nat, a: int, b: int)
    requires a <= b
    ensures base * a <= base * b
  {
  }

  /** Every attempt from 1 to n scheduling a retry adds up to exactly base * (2^n - 1). */
  lemma {:induction false} TotalDelayExact(base: int, n: nat)
    ensures TotalDelay(base, UpTo(n)) == base * (Pow2(n) - 1)
  {
    if n > 0 {
      assert UpTo(n)[..n - 1] == UpTo(n - 1);
      TotalDelayExact(base, n - 1);
    }
  }

  /** The sequence 1, 2, ..., n. */
  function UpTo(n: nat): (s: seq<nat>)
    ensures |s| == n && forall i :: 0 <= i < n ==> s[i] == i + 1
  {
    seq(n, i => i + 1)
  }
}
