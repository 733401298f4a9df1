// Vocabulary shared by the models: optional values, results and what can
// happen to one statement sent to the database.
module Prelude {

  datatype Option<+T> = None | Some(value: T)

  datatype Result<+T, +E> = Ok(value: T) | Err(error: E)

  /** The fate of one statement or one committed transaction. A reply can be
      lost after the statement took effect, so a caller that sees an error does
      not know whether the rows changed. */
  datatype Fault = Done | Rejected | LostReply {
    predicate Landed() { !Rejected? }
    predicate Acked() { Done? }
  }
}
