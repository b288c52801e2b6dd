/** Results, optional values and bytes shared by the models of Carbon Panel's backend. */
module Wrappers {

  datatype Option<+T> = None | Some(value: T)

  datatype Result<+T, +E> = Ok(value: T) | Err(error: E)

  type Byte = b: int | 0 <= b < 256

  type Bytes = seq<Byte>

  /** What a store write does when the database misbehaves. The caller sees an error
      in both failing cases; only in the second has the write taken effect. */
  datatype Fault = NoFault | Rejected | LostReply {
    predicate Reported() { this != NoFault }
    predicate Effective() { this != Rejected }
  }
}
