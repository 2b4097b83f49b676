/** The retry delay, in seconds, shared by the poll loops and the server task. */
module Backoff {

  const FIRST: nat := 1

  /** Double the delay, up to `max`. */
  function Next(backoff: nat, max: nat): nat {
    if 2 * backoff <= max then 2 * backoff else max
  }

  function Pow2(k: nat): nat {
    if k == 0 then 1 else 2 * Pow2(k - 1)
  }

  /** The delay after `k` doublings since the last success. */
  function After(k: nat, max: nat): nat {
    if k == 0 then FIRST else if Pow2(k) <= max then Pow2(k) else max
  }

  lemma OneMore(k: nat, max: nat)
    ensures Next(After(k, max), max) == After(k + 1, max)
  {
    assert Pow2(k + 1) == 2 * Pow2(k);
  }
}
