/** The errors of the token cipher and the `(string, error)` pair its Go functions return. */
module Errors {
  import opened Wrappers

  datatype Error =
    | NotNumericInput       // Encrypt was given a string that is not all numbers
    | InvalidCipherOutput   // the primitive produced a rune that is neither an ASCII digit nor a letter
    | NotLetterInput        // Decrypt was given a string that is not all letters
    | NonNumericDecryption  // the primitive's decryption is not all numbers
    | Library(message: string)  // an error of the FF3-1 library, passed on unchanged
  {
    /** The text `Error()` gives for each kind of error. */
    function Message(): string {
      match this
      case NotNumericInput => "invalid input sent to Encrypt (must be numeric)"
      case InvalidCipherOutput => "ff3 encryption produced invalid output"
      case NotLetterInput => "invalid input sent to Decrypt"
      case NonNumericDecryption => "Decrypt failed to produce numeric output"
      case Library(m) => m
    }
  }

  /** A Go `(string, error)` result: `err == None` is a nil error. */
  datatype Outcome = Outcome(value: string, err: Option<Error>)

  /** A failed call: the empty string together with `e`. */
  function Fail(e: Error): Outcome {
    Outcome("", Some(e))
  }
}
