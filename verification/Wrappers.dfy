/** Result-carrying datatypes shared by every module of the model. */
module Wrappers {

  datatype Option<+T> = None | Some(value: T) {
    function GetOr(default: T): T {
      match this
      case Some(v) => v
      case None => default
    }
  }

  /** The crate's error values, without their message texts. */
  datatype Error =
    | ConnectionClosed
    | Native(code: int)
    | ProtocolError
    | Usage(reason: UsageReason)
    | ColumnNotFound(name: string)
    | ColumnIndexOutOfBounds(index: nat, count: nat)
    | Conversion
    | BulkInput
    | InvalidPreparedStatement

  /** What the bridge's own usage errors are about; any other carries its message. */
  datatype UsageReason =
    | Overflow | PredatesEpoch | OutOfRange | Negative | UnsupportedType
    | Message(text: string)

  datatype Result<+T> = Ok(value: T) | Err(error: Error) {
    predicate IsFailure() {
      Err?
    }

    function PropagateFailure<U>(): Result<U>
      requires Err?
    {
      Err(error)
    }

    function Extract(): T
      requires Ok?
    {
      value
    }
  }

  /** How an awaited future ends: the caller drops it at a suspension point, or it is ready. */
  datatype Await<+T> = Dropped | Ready(result: Result<T>)

  /** One poll of a stream. */
  datatype Poll<+T> = Pending | Item(item: T) | Exhausted
}
