/** The optional value used wherever the source has a nullable Kotlin type. */
module Options {

  datatype Option<+T> = None | Some(value: T)

}
