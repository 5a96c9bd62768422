/** The status an action reports each time it is polled. */
module Lifecycle {

  /**
   * ActionStatus: `Done` and `Cancelled` end the action (success and abort);
   * `NotReady` asks the owner to poll again.
   */
  datatype ActionStatus = Done | NotReady | Cancelled
}
