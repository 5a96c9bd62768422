/**
 * The one concrete action behaviour: an "eat" action that is ready after a
 * fixed number of polls. Its messages to standard output are not modelled.
 */
module EatActions {
  import opened Lifecycle

  /** The counter value at which eating is finished. */
  const ReadyAt: nat := 10

  /** The status `update` reports once it has raised the counter to `counter`. */
  function EatStatus(counter: nat): ActionStatus
  {
    if counter < ReadyAt then NotReady else Done
  }

  /**
   * How many more `update` calls an eat action whose counter is at
   * `counter` takes to report `Done`: the first `Done` comes on call `n`,
   * and every call before it reports `NotReady`.
   */
  function CallsUntilDone(counter: nat): (n: nat)
    ensures n >= 1
    ensures EatStatus(counter + n) == Done
    ensures forall k :: counter < k < counter + n ==> EatStatus(k) == NotReady
    decreases ReadyAt - counter
  {
    if counter + 1 >= ReadyAt then 1 else 1 + CallsUntilDone(counter + 1)
  }

  /**
   * Below the threshold the action takes exactly the remaining steps; from
   * nine on, the very next call is `Done`.
   */
  lemma {:induction false} CallsUntilDoneClosedForm(counter: nat)
    ensures CallsUntilDone(counter) == if counter < ReadyAt - 1 then ReadyAt - counter else 1
    decreases ReadyAt - counter
  {
    if counter + 1 < ReadyAt {
      CallsUntilDoneClosedForm(counter + 1);
    }
  }

  /**
   * From the default counter 0, the first nine calls report `NotReady`, the
   * tenth reports `Done`, and every call after that reports `Done` again.
   */
  lemma FromDefault()
    ensures CallsUntilDone(0) == 10
    ensures forall k :: 1 <= k < 10 ==> EatStatus(k) == NotReady
    ensures forall k: nat :: k >= 10 ==> EatStatus(k) == Done
  {
  }

  /** EatAction: a poll counter that starts at 0. */
  class EatAction {
    var debugCounter: nat

    /** EatAction::default. */
    constructor Default()
      ensures debugCounter == 0
    {
      debugCounter := 0;
    }

    /** `start` does no work besides its log line: the counter is left alone. */
    method Start()
      modifies this
      ensures debugCounter == old(debugCounter)
    {
    }

    /**
     * `update` counts one more poll and reports `NotReady` until the count
     * reaches ten, `Done` from then on; it never reports `Cancelled`.
     */
    method Update() returns (status: ActionStatus)
      modifies this
      ensures debugCounter == old(debugCounter) + 1
      ensures status == EatStatus(debugCounter)
      ensures status == NotReady <==> debugCounter < ReadyAt
      ensures status != Cancelled
    {
      debugCounter := debugCounter + 1;
      if debugCounter < ReadyAt {
        status := NotReady;
      } else {
        status := Done;
      }
    }
  }
}
