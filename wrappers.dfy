/** Small result types shared by the model: an optional value and the outcome of a
    call into a collaborator the app cannot see (the remote store). */
module Wrappers {

  datatype Option<+T> = None | Some(value: T) {
    function GetOr(default: T): T {
      match this
      case Some(v) => v
      case None => default
    }
  }

  /** What a call into the remote transaction store came back with. `Unconfigured`
      is the case where no client exists (missing URL or key), so no call is made;
      `Failed` is a call that was made and returned an error or threw. */
  datatype Remote<+T> = Unconfigured | Failed | Succeeded(value: T)
}
