/** Result codes of the C ABI and the two small containers the other modules share. */
module Results {

  /** The public result codes; every value other than `OK` reports that a call did not do its work. */
  datatype Code =
    | OK
    | INVALID_ARGUMENT
    | BUFFER_TOO_SMALL
    | NOT_SUPPORTED
    | INTERNAL
    | INVALID_STATE
    | IO
    | CODEC
    | END_OF_STREAM
    | WOULD_BLOCK
    | TIMEOUT
    | CANCELLED

  /** What a call into code this model does not see came back with. */
  datatype Answer = Answered(code: Code) | Threw

  datatype Option<+T> = None | Some(value: T)
}
