/** The `Option` type that the Rust source uses for "maybe absent" slots and results. */
module Optional {

  datatype Option<+T> = None | Some(value: T)
}
