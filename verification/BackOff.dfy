/** The reconnection back-off of the BLE translator, in milliseconds. */
module BackOff {

  const INITIAL_SECS := 4
  const MAX_BACK_OFF_SECS := 300
  const MULTIPLIER := 2

  function Pow3(n: nat): nat {
    if n == 0 then 1 else 3 * Pow3(n - 1)
  }

  function Min(a: nat, b: nat): nat {
    if a < b then a else b
  }

  /** Retry k waits four seconds, tripled at every retry up to the fifth. */
  function BackOffMs(retry: nat): nat
    requires retry > 0
  {
    4000 * Pow3(Min(retry, 5) - 1)
  }

  lemma Pow3Small()
    ensures Pow3(0) == 1 && Pow3(1) == 3 && Pow3(2) == 9 && Pow3(3) == 27 && Pow3(4) == 81
  {
    assert Pow3(2) == 3 * Pow3(1);
    assert Pow3(4) == 3 * Pow3(3);
  }

  method BackOffTimeInMs(retryIndex: nat) returns (ms: nat)
    requires retryIndex > 0
    ensures ms == BackOffMs(retryIndex)
  {
    Pow3Small();
    var sleepTime := INITIAL_SECS;
    var retry := retryIndex;
    while retry > 1 && sleepTime < MAX_BACK_OFF_SECS
      invariant 1 <= retry <= retryIndex
      invariant retryIndex - retry <= 4
      invariant sleepTime == INITIAL_SECS * Pow3(retryIndex - retry)
    {
      sleepTime := sleepTime + sleepTime * MULTIPLIER;
      retry := retry - 1;
    }
    ms := sleepTime * 1000;
  }

  /** The wait never decreases, never exceeds 324 s, and passes the 300 s limit exactly from the fifth retry on. */
  lemma BackOffBounds(j: nat, k: nat)
    requires 0 < j <= k
    ensures 4000 <= BackOffMs(j) <= BackOffMs(k) <= 324000
    ensures BackOffMs(k) > MAX_BACK_OFF_SECS * 1000 <==> k >= 5
  {
    Pow3Small();
  }
}
