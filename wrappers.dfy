/** Small value types shared by the page models. */
module Wrappers {

  /** A value that may be absent (JavaScript `null` / `undefined`). */
  datatype Option<+T> = None | Some(value: T)

  /**
   * What a backend call handed back to a component, with the network left out:
   * the call resolved with `data.success` true and a payload, it resolved with
   * `data.success` false, or the awaited call threw.
   */
  datatype Response<+T> = Succeeded(data: T) | Unsuccessful | Threw
}
