/** Failure-carrying wrappers used in place of `null` and of the HTTP client's
    resolved/rejected promises. */
module Outcomes {

  datatype Option<+T> = None | Some(value: T)

  /** The result of one awaited HTTP call: the response body, or a rejection
      (network failure or non-2xx status), which the components only catch. */
  datatype Call<+T> = Ok(body: T) | Failed
}
