/** Value-level stand-ins for JavaScript's `null` and thrown errors. */
module Results {

  /** A value that may be absent (`null` / `undefined` in the source). */
  datatype Option<+T> = None | Some(value: T)

  /** Either a value or the message of a thrown `Error`. */
  datatype Result<+T> = Ok(value: T) | Err(message: string)
}
