/** A value that may be absent: Kotlin's nullable types (`String?`, `List<Address>?`). */
module Optional {
  datatype Option<+T> = None | Some(value: T)
}
