/** The bounded retry loops around the registry. */
module Retries {
  import opened Basics

  const MAX_DOCKER_RETRIES: nat := 3

  /** The first success among `tries` attempts from `start` on, and the attempts it took. */
  function Retry<T>(outcome: nat -> Option<T>, start: nat, tries: nat): (Option<T>, nat)
    decreases tries
  {
    if tries == 0 then (None, 0)
    else if outcome(start).Some? then (outcome(start), 1)
    else
      var later := Retry(outcome, start + 1, tries - 1);
      (later.0, later.1 + 1)
  }

  /** Everything tried before the last attempt fails, the last attempt is the result, and
      giving up means that every try was used and failed. */
  lemma {:induction false} RetryMeaning<T>(outcome: nat -> Option<T>, start: nat, tries: nat)
    ensures var (result, used) := Retry(outcome, start, tries);
            && used <= tries
            && (forall i: nat :: start <= i < start + used - 1 ==> outcome(i).None?)
            && (tries > 0 ==> used > 0 && result == outcome(start + used - 1))
            && (result.None? ==> used == tries)
    ensures Retry(outcome, start, tries).0.Some? <==> exists i: nat :: start <= i < start + tries && outcome(i).Some?
    decreases tries
  {
    if tries == 0 {
    } else if outcome(start).None? {
      RetryMeaning(outcome, start + 1, tries - 1);
    }
  }
}
