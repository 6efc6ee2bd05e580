/** Error kinds raised by the file layer and the codecs, and the result types
    that carry them in place of C++ exceptions. */
module CoreErrors {

  /** The errors thrown as djv::Core::Error by FileIO and the image codecs. */
  datatype Error =
    | OpenError       // the file cannot be opened or created
    | MapError        // the file cannot be memory-mapped
    | ReadError       // a read past the end of the mapping, or a failed decode
    | WriteError      // a failed write or encoder step
    | SetPosError     // a reposition past the end while reading
    | Unsupported     // a header the codec does not accept
    | LibraryError    // an error reported by a codec library, such as libjpeg
    | ConvertError    // a failed pixel conversion on the graphics card

  /** A value, or the error that was thrown instead. */
  datatype Result<T> = Ok(value: T) | Err(error: Error)
  {
    predicate IsFailure() { Err? }

    function PropagateFailure<U>(): Result<U>
      requires Err?
    {
      Err(error)
    }

    function Extract(): T
      requires Ok?
    {
      value
    }
  }

  /** Success, or the error that was thrown. */
  datatype Outcome = Pass | Fail(error: Error)

  datatype Option<T> = None | Some(value: T)
}
