/** Small value wrappers shared by the rest of the model. */
module Wrappers {

  /** A value that may be missing (JavaScript's `T | null` / `T | undefined`). */
  datatype Option<+T> = None | Some(value: T)

  /** The outcome of reading an external data set: the data, or a failure
      whose cause is only logged by the dashboard and therefore carries nothing. */
  datatype Fetch<+T> = Fetched(data: T) | FetchFailed
}
