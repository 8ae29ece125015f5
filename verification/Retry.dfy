/** Retry policy: which statuses are retried, and the capped exponential backoff. Durations are
    nanoseconds. */
module Retry {
  import opened Prelude

  const BASE_DELAY: nat := 100_000_000
  const MAX_DELAY: nat := 30_000_000_000
  const INT64_LIMIT: int := 0x8000_0000_0000_0000

  predicate RetryableStatus(code: int) {
    code == 429 || code == 502 || code == 503 || code == 504 || code >= 500
  }

  /** Too many requests and every server error are retried, and nothing else. */
  lemma RetryableCodes(code: int)
    ensures RetryableStatus(code) <==> code == 429 || code >= 500
  {
  }

  function Pow2(n: nat): nat {
    if n == 0 then 1 else 2 * Pow2(n - 1)
  }

  /** The mathematical ceiling of the delay before retry n. */
  function Ceiling(n: nat): nat {
    if BASE_DELAY * Pow2(n) > MAX_DELAY then MAX_DELAY else BASE_DELAY * Pow2(n)
  }

  /** The ceiling the code computes: a duration is an int64, and converting a float beyond its range
      yields whatever the platform yields, here `overflow`. */
  function CeilingInt64(n: nat, overflow: int): int {
    var exact := BASE_DELAY * Pow2(n);
    var converted := if exact < INT64_LIMIT then exact else overflow;
    if converted > MAX_DELAY then MAX_DELAY else converted
  }

  lemma {:induction false} Pow2Monotone(m: nat, n: nat)
    requires m <= n
    ensures Pow2(m) <= Pow2(n)
  {
    if m < n {
      Pow2Monotone(m, n - 1);
    }
  }

  lemma Pow2At9()
    ensures Pow2(8) == 256 && Pow2(9) == 512
  {
    assert Pow2(4) == 16;
    assert Pow2(8) == 256;
  }

  lemma {:induction false} Pow2Sum(m: nat, n: nat)
    ensures Pow2(m + n) == Pow2(m) * Pow2(n)
    decreases n
  {
    if n > 0 {
      Pow2Sum(m, n - 1);
      assert Pow2(m + n) == 2 * Pow2(m + (n - 1));
    }
  }

  lemma Pow2At37()
    ensures Pow2(36) == 68_719_476_736 && Pow2(37) == 137_438_953_472
  {
    Pow2At9();
    Pow2Sum(9, 9);
    Pow2Sum(18, 18);
    assert Pow2(37) == 2 * Pow2(36);
  }

  /** The code computes the capped exponential on every platform exactly for exponents up to 36;
      from 37 on the result depends on the platform's conversion. */
  lemma CeilingExactIff(n: nat)
    ensures (forall overflow :: CeilingInt64(n, overflow) == Ceiling(n)) <==> n <= 36
  {
    Pow2At37();
    if n <= 36 {
      Pow2Monotone(n, 36);
    } else {
      Pow2Monotone(37, n);
      assert CeilingInt64(n, -1) != Ceiling(n);
    }
  }

  /** Every delay lies between 0 and the 30 second cap, and the bound of a positive draw exists. */
  lemma CeilingRange(n: nat)
    ensures 0 < Ceiling(n) <= MAX_DELAY
    ensures n <= 8 ==> Ceiling(n) == BASE_DELAY * Pow2(n)
    ensures n >= 9 ==> Ceiling(n) == MAX_DELAY
  {
    Pow2At9();
    Pow2Monotone(0, n);
    if n <= 8 { Pow2Monotone(n, 8); } else { Pow2Monotone(9, n); }
  }

  function Total(delays: seq<nat>): nat {
    if |delays| == 0 then 0 else Total(delays[..|delays| - 1]) + delays[|delays| - 1]
  }

  /** The code can draw delay `delays[n]` before retry n on a platform that converts to `overflow`. */
  ghost predicate Drawn(delays: seq<nat>, overflow: int) {
    forall n :: 0 <= n < |delays| ==> delays[n] <= CeilingInt64(n, overflow)
  }

  /** Beyond the exponents it computes exactly the code's ceiling still never exceeds the cap. */
  lemma CeilingInt64Bounded(n: nat, overflow: int)
    ensures CeilingInt64(n, overflow) <= Ceiling(n)
  {
    CeilingRange(n);
    if n <= 8 {
      CeilingExactIff(n);
    }
  }

  /** The delays of a call with r retries, drawn as the code draws them on whatever platform, sum to
      at most 100 ms times 2^r - 1 for up to nine retries, and 51.1 s plus 30 s for each retry after
      the ninth. */
  lemma {:induction false} TotalBackoff(delays: seq<nat>, overflow: int)
    requires Drawn(delays, overflow)
    ensures |delays| <= 9 ==> Total(delays) <= BASE_DELAY * (Pow2(|delays|) - 1)
    ensures |delays| >= 9 ==> Total(delays) <= 51_100_000_000 + MAX_DELAY * (|delays| - 9)
  {
    Pow2At9();
    if |delays| > 0 {
      var n := |delays| - 1;
      TotalBackoff(delays[..n], overflow);
      CeilingRange(n);
      CeilingInt64Bounded(n, overflow);
      assert delays[n] <= CeilingInt64(n, overflow);
    }
  }

  /** The delays that are each at their mathematical ceiling. */
  function Longest(r: nat): seq<nat> {
    if r == 0 then [] else Longest(r - 1) + [Ceiling(r - 1)]
  }

  lemma {:induction false} LongestAt(r: nat)
    ensures |Longest(r)| == r && forall n :: 0 <= n < r ==> Longest(r)[n] == Ceiling(n)
  {
    if r > 0 {
      LongestAt(r - 1);
    }
  }

  lemma {:induction false} LongestTotal(r: nat)
    ensures r <= 9 ==> Total(Longest(r)) == BASE_DELAY * (Pow2(r) - 1)
    ensures r >= 9 ==> Total(Longest(r)) == 51_100_000_000 + MAX_DELAY * (r - 9)
  {
    Pow2At9();
    if r > 0 {
      LongestTotal(r - 1);
      CeilingRange(r - 1);
      LastOfLongest(r);
    }
  }

  lemma LastOfLongest(r: nat)
    requires r > 0
    ensures Total(Longest(r)) == Total(Longest(r - 1)) + Ceiling(r - 1)
  {
    LongestAt(r - 1);
    assert Longest(r)[..r - 1] == Longest(r - 1);
  }

  /** The bounds are reached, by the longest delays, and the code can draw those on every platform
      exactly for up to 37 retries. */
  lemma {:induction false} BackoffBoundsReached(r: nat)
    ensures r <= 9 ==> Total(Longest(r)) == BASE_DELAY * (Pow2(r) - 1)
    ensures r >= 9 ==> Total(Longest(r)) == 51_100_000_000 + MAX_DELAY * (r - 9)
    ensures |Longest(r)| == r && ((forall overflow :: Drawn(Longest(r), overflow)) <==> r <= 37)
  {
    LongestTotal(r);
    LongestAt(r);
    if r <= 37 {
      forall overflow ensures Drawn(Longest(r), overflow) {
        forall n | 0 <= n < r ensures Longest(r)[n] <= CeilingInt64(n, overflow) {
          CeilingExactIff(n);
        }
      }
    } else {
      Pow2At37();
      CeilingRange(37);
      assert Longest(r)[37] == Ceiling(37);
      assert !Drawn(Longest(r), -1);
    }
  }

  /** `rand.Int63n` panics unless its argument, the ceiling plus one, is positive. A delay can be drawn
      on every platform exactly for exponents up to 36. */
  lemma DrawsEverywhereIff(n: nat)
    ensures (forall overflow :: CeilingInt64(n, overflow) + 1 > 0) <==> n <= 36
  {
    Pow2At37();
    if n <= 36 {
      Pow2Monotone(n, 36);
    } else {
      Pow2Monotone(37, n);
      assert CeilingInt64(n, -1) + 1 <= 0;
    }
  }
}
