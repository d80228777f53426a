/** Failure-compatible result types shared by every codec.

    The Ruby code reports failure by raising; each distinct kind of raise
    that the codecs can reach is one constructor of Error. */
module Results {

  datatype Error =
    | ShortRead          // the stream ended inside a fixed-size read
    | MagicMismatch      // wrong 4-byte magic and no legacy size matched
    | UnknownTypeTag     // a stored table index has no table entry
    | TypeMismatch       // pack was handed data of the wrong kind (TypeError)
    | InvalidSourceType  // Dsp Op constructor: 'Invalid source type'
    | NoMethod           // a method the receiver lacks, often nil (NoMethodError)
    | MissingConstant    // const_get of a constant that does not exist (NameError)
    | DivisionByZero     // ZeroDivisionError
    | FloatDomain        // to_i of NaN or Infinity (FloatDomainError)
    | NotModelled        // IEEE-754 conversion of a number, outside this model

  datatype Result<+T> = Ok(value: T) | Err(error: Error) {
    predicate IsFailure() { Err? }

    function PropagateFailure<U>(): Result<U>
      requires Err?
    {
      Err(error)
    }

    function Extract(): T
      requires Ok?
    {
      value
    }
  }

  datatype Option<+T> = None | Some(value: T)
}
