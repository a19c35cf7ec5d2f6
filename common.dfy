/** Small value types shared by the socket, worker and process models. */
module Common {

  /** One octet of a PHP string or of a socket payload. */
  newtype byte = x: int | 0 <= x < 256

  /** A value that may be absent (PHP `null`). */
  datatype Option<+T> = None | Some(value: T)

  /** A value or the error that replaced it (a thrown exception in the source). */
  datatype Result<+T, +E> = Ok(value: T) | Err(error: E)

  /** Appending to the tail of a log appends to the whole log. */
  lemma AppendAssoc<T>(a: seq<T>, b: seq<T>, c: seq<T>)
    ensures (a + b) + c == a + (b + c)
  {
  }
}
