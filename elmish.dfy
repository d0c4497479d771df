/**
 * The commands an update handler hands back to the host framework
 * (react-elmish), which is not part of this model. The host either re-enters
 * the update function with a message at once (`cmd.ofMsg`) or awaits a
 * promise built from `args` and re-enters with a message built from its
 * result (`cmd.ofPromise.perform`). Update handlers only describe commands;
 * they never run them.
 */
module Elmish {
  import opened Base

  datatype Cmd<M, A> =
    | NoCmd
    | OfMsg(msg: M)
    | Perform(args: A, continuation: Option<M>)
}
