/** The wait before the next attempt of a failed outbox event. */
module Backoff {
  const MAX_WAIT := 300.0
  const MIN_JITTER := 0.1
  const MAX_JITTER := 1.5

  function Pow2(r: nat): (p: nat)
    ensures p >= 1
  {
    if r == 0 then 1 else 2 * Pow2(r - 1)
  }

  predicate IsJitter(jitter: real) { MIN_JITTER <= jitter <= MAX_JITTER }

  /** min(300, 2 ** retry_count + random.uniform(0.1, 1.5)). */
  function Wait(retryCount: nat, jitter: real): real {
    var w := Pow2(retryCount) as real + jitter;
    if w < MAX_WAIT then w else MAX_WAIT
  }

  /** Whatever jitters are drawn, the wait after a later failure is no shorter. */
  lemma {:induction false} WaitsNeverShrink(r: nat, r': nat, jitter: real, jitter': real)
    requires 1 <= r < r' && IsJitter(jitter) && IsJitter(jitter')
    ensures Wait(r, jitter) <= Wait(r', jitter')
  {
    Pow2Grows(r, r');
  }

  lemma {:induction false} Pow2Grows(r: nat, r': nat)
    requires r < r'
    ensures Pow2(r') >= 2 * Pow2(r)
    ensures 1 <= r ==> Pow2(r) >= 2
  {
    if r + 1 < r' { Pow2Grows(r, r' - 1); }
    if 1 < r { Pow2Grows(r - 1, r); }
  }

  /** The waits after failures 1, 2, ..., |jitters|, summed. */
  function TotalWait(jitters: seq<real>): real {
    if jitters == [] then 0.0
    else TotalWait(jitters[..|jitters| - 1]) + Wait(|jitters|, jitters[|jitters| - 1])
  }

  /** An event that fails n - 1 times before its last round waits no longer than this in all. */
  lemma {:induction false} TotalWaitBound(jitters: seq<real>)
    requires forall i :: 0 <= i < |jitters| ==> IsJitter(jitters[i])
    ensures TotalWait(jitters) <= MAX_WAIT * |jitters| as real
    ensures TotalWait(jitters) <= Pow2(|jitters| + 1) as real - 2.0 + MAX_JITTER * |jitters| as real
  {
    if jitters != [] {
      TotalWaitBound(jitters[..|jitters| - 1]);
      assert Pow2(|jitters| + 1) == 2 * Pow2(|jitters|);
    } else {
      assert Pow2(1) == 2 * Pow2(0);
    }
  }

  /** Pow2 is the power of two: 2 for one, and a product for a sum. */
  lemma {:induction false} Pow2IsPower(a: nat, b: nat)
    ensures Pow2(1) == 2 && Pow2(a + b) == Pow2(a) * Pow2(b)
  {
    assert Pow2(1) == 2 * Pow2(0);
    if a > 0 {
      Pow2IsPower(a - 1, b);
      assert Pow2(a + b) == 2 * Pow2(a - 1 + b);
    }
  }

  /** The cap of five minutes. */
  function Capped(seconds: real): (r: real)
    ensures r <= 300.0 && r <= seconds && (r == 300.0 || r == seconds)
  {
    if seconds < 300.0 then seconds else 300.0
  }

  /** Each wait lies between its capped extremes. */
  lemma WaitBounds(r: nat, jitter: real)
    requires 0.1 <= jitter <= 1.5
    ensures Capped(Pow2(r) as real + 0.1) <= Wait(r, jitter) <= Capped(Pow2(r) as real + 1.5)
    ensures Wait(r, MIN_JITTER) <= Wait(r, jitter) <= Wait(r, MAX_JITTER)
    ensures Wait(r, jitter) == MAX_WAIT <==> Pow2(r) as real + jitter >= MAX_WAIT
    ensures r <= 8 ==> Wait(r, jitter) < MAX_WAIT
    ensures r >= 9 ==> Wait(r, jitter) == MAX_WAIT
  {
    assert Pow2(8) == 256 by {
      assert Pow2(4) == 16;
      assert Pow2(8) == 2 * 2 * Pow2(6);
    }
    assert Pow2(9) == 2 * Pow2(8);
    if r < 8 { Pow2Grows(r, 8); }
    if r > 9 { Pow2Grows(9, r); }
  }
}
