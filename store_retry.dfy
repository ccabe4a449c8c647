/**
 * The bounded retry of the ledger upsert after a successful payment, the
 * same in both versions: the query is issued until it succeeds or has failed
 * five times; a failure is caught and counted, a success ends the loop.
 */
module StoreRetry {

  const MaxFailures: nat := 5

  /**
   * The outcome of store call number `k` (from 0): `outcomes` lists the
   * outcomes the store gives, and a call beyond the list fails.
   */
  predicate CallSucceeds(outcomes: seq<bool>, k: nat) {
    k < |outcomes| && outcomes[k]
  }

  /**
   * The retry loop entered after `failures` caught failures: the number of
   * store calls made from there on, and whether one of them succeeded.
   */
  function RetryFrom(outcomes: seq<bool>, failures: nat): (nat, bool)
    requires failures <= MaxFailures
    decreases MaxFailures - failures
  {
    if failures == MaxFailures then (0, false)
    else if CallSucceeds(outcomes, failures) then (1, true)
    else var (calls, stored) := RetryFrom(outcomes, failures + 1); (calls + 1, stored)
  }

  /** The whole retry loop: how many store calls it makes and whether the upsert was stored. */
  function Retry(outcomes: seq<bool>): (nat, bool) {
    RetryFrom(outcomes, 0)
  }

  /**
   * The loop makes between one and five calls; it stores exactly when one of
   * the first five calls succeeds, and then the last call made is the first
   * successful one; otherwise all five calls were made and failed.
   */
  lemma {:induction false} RetryFromOutcome(outcomes: seq<bool>, failures: nat)
    requires failures <= MaxFailures
    ensures var (calls, stored) := RetryFrom(outcomes, failures);
      failures + calls <= MaxFailures
      && (failures < MaxFailures ==> calls >= 1)
      && (stored <==> exists k :: failures <= k < MaxFailures && CallSucceeds(outcomes, k))
      && (stored ==> CallSucceeds(outcomes, failures + calls - 1))
      && (forall k :: failures <= k < failures + calls - 1 ==> !CallSucceeds(outcomes, k))
      && (!stored ==> failures + calls == MaxFailures)
    decreases MaxFailures - failures
  {
    if failures < MaxFailures && !CallSucceeds(outcomes, failures) {
      RetryFromOutcome(outcomes, failures + 1);
    }
  }

  /** The retry loop as a whole: at most five calls, stopping at the first success. */
  lemma RetryOutcome(outcomes: seq<bool>)
    ensures var (calls, stored) := Retry(outcomes);
      1 <= calls <= MaxFailures
      && (stored <==> exists k :: 0 <= k < MaxFailures && CallSucceeds(outcomes, k))
      && (stored ==> CallSucceeds(outcomes, calls - 1))
      && (forall k :: 0 <= k < calls - 1 ==> !CallSucceeds(outcomes, k))
      && (!stored ==> calls == MaxFailures)
  {
    RetryFromOutcome(outcomes, 0);
  }
}
