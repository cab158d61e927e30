/** The logical clock on which every schedule of the model is laid out.

    A coroutine that yields `new WaitForSeconds(d)` resumes once the scene
    time has advanced by `d`. The model reads that as an exact advance of a
    real-valued clock. A wait of zero or negative length resumes on the next
    frame, which on the logical clock is no advance at all. */
module LogicalClock {

  /** The time a `WaitForSeconds(d)` advances the clock by. */
  function Elapse(d: real): (r: real)
    ensures r >= 0.0
    ensures d >= 0.0 ==> r == d
    ensures d <= 0.0 ==> r == 0.0
  {
    if d < 0.0 then 0.0 else d
  }

  /** The clock advance of `k` consecutive waits of length `p` each. */
  function Times(k: nat, p: real): real {
    if k == 0 then 0.0 else Times(k - 1, p) + p
  }

  /** Waiting `a` periods and then `b` more is waiting `a + b` periods. */
  lemma {:induction false} Distribute(a: nat, b: nat, p: real)
    ensures Times(a + b, p) == Times(a, p) + Times(b, p)
    decreases b
  {
    if b > 0 {
      Distribute(a, b - 1, p);
    }
  }

  /** `Times` is multiplication of the count by the period. */
  lemma {:induction false} TimesIsProduct(k: nat, p: real)
    ensures Times(k, p) == k as real * p
  {
    if k > 0 {
      TimesIsProduct(k - 1, p);
    }
  }
}
