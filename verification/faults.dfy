/** How a call to another process can end. */
module Faults {

  /** `ReplyLost`: the other side acted, but the caller sees an error. */
  datatype Fault = Answered | Refused | ReplyLost

  datatype Reply<+T> = Done(value: T) | NotFound | Failed
}
