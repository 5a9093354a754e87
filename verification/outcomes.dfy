/** Values shared by every screen: an optional value (JavaScript's `null`/`undefined`
    versus a present value) and the reply of one backend call. */
module Outcomes {

  /** A value that may be absent: `None` stands for `null` or `undefined`. */
  datatype Option<+T> = None | Some(value: T)

  /** What one backend call (a query, an update, a delete, an auth request) gave back:
      its data, or the error object it reported. Where a handler treats a thrown error
      like a reported one (every `try`/`catch` here, and `signIn`/`signUp`, which rethrow),
      a call that throws is also an `Err`. */
  datatype Reply<+T> = Ok(data: T) | Err(message: string)
}
