/** Outcomes shared by every decoder and encoder of the model.

    The factories signal three kinds of outcome: a value, `std::nullopt`
    (a rejected input, logged and skipped), and a thrown exception. Here a
    thrown exception is an `Err` carrying the reason, and `std::nullopt` is
    an `Ok(None)` wherever the source can return it. */
module Results {

  datatype Option<+T> = None | Some(value: T)

  /** Why a call threw. */
  datatype Error =
    | ReadPastEnd                          // the binary reader ran off the end of the segment
    | UnknownOpCode(opCode: nat)           // GeoLayout: opcode outside the enumeration
    | InvalidTextureFormat(textureType: nat) // BK64 model: texture type outside the switch
    | MissingVram                          // BK64 model: no current VRAM entry
    | InvalidNode                          // YAML: access to a node that does not exist
    | BadConversion                        // YAML: a node that does not convert to the requested type
    | WrongOptionCount                     // quiz/grunty import: not exactly three options
    | OutOfRange                           // std::vector::at past the end
    | BadSubscript                         // YAML: a subscript applied to a scalar

  datatype Result<+T> = Ok(value: T) | Err(error: Error) {
    predicate IsFailure() { Err? }

    function PropagateFailure<U>(): Result<U>
      requires Err?
    {
      Err(error)
    }

    function Extract(): T
      requires Ok?
    {
      value
    }
  }
}
