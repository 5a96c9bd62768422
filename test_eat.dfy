/** The eat scenario: build the eat action, start it, and poll it until it stops being not ready. */
module EatTest {
  import opened Conditions
  import opened States
  import opened Lifecycle
  import opened EatActions
  import opened Planning

  /**
   * test_eat: the polling loop makes exactly ten `update` calls and leaves
   * the counter at ten.
   */
  method TestEat(murmur3: string -> U32) returns (updates: nat, counter: nat)
    ensures updates == CallsUntilDone(0)
    ensures updates == 10 && counter == 10
  {
    var eatPreConditions := Push(murmur3, NewState(), "has_food", true);
    var eatEffects := Push(murmur3, NewState(), "hungry", false);
    var behaviour := new EatAction.Default();
    var eat := new Action(eatPreConditions, eatEffects, 32, behaviour);

    eat.Start();

    var status := eat.Update();
    updates := 1;
    while status == NotReady
      invariant eat.implementation.debugCounter == updates <= ReadyAt
      invariant status == EatStatus(updates)
      decreases ReadyAt - updates
    {
      status := eat.Update();
      updates := updates + 1;
    }
    counter := eat.implementation.debugCounter;
    FromDefault();
  }
}
