/** The driver's failure taxonomy and the result type its operations return. */
module Results {

  datatype Error =
    | TransferFailed        // a USB control or bulk transfer did not complete
    | UnsupportedWidth      // a number was to be encoded or decoded in a width other than 1, 2 or 4 bytes
    | UnsupportedOperation  // a write batch held a command with an unknown tag
    | PllNotLocked          // filter calibration could not lock the PLL at 56 MHz
    | UnsupportedTuner      // the tuner probe did not answer 0x69
    | NoLineBuffer          // a character was printed to a stream without a line buffer
    | NoShadowRegisters     // a tuner register was written before initRegisters created the shadow

  /** A value that may be absent: JavaScript's `null`. */
  datatype Option<T> = None | Some(value: T)

  /** Either the value an operation produced or the error it threw. */
  datatype Result<T> = Success(value: T) | Failure(error: Error) {
    predicate IsFailure() {
      Failure?
    }

    function PropagateFailure<U>(): Result<U>
      requires Failure?
    {
      Failure(error)
    }

    function Extract(): T
      requires Success?
    {
      value
    }
  }
}
