/** An optional value: what Java's `Optional` and Kotlin's nullable types carry. */
module Optional {

  datatype Option<+T> = None | Some(value: T)
}
