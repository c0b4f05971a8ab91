/** Results of operations that may fail or be absent. */
module Wrappers {

  datatype Option<+T> = None | Some(value: T)

  datatype Result<+T> = Ok(value: T) | Raise(error: Error)

  /** The Python exceptions the modelled code can let escape. */
  datatype Error =
    | AttributeError      // `.get` or `.items` on something that is not a dict
    | TypeError           // iterating over a number, joining a non-string
    | ValidationError     // a pydantic model rejecting a field
    | JsonEncodeError     // orjson refusing an integer wider than 64 bits
}
