/** An optional value: stands for the source's optional props and nullable references. */
module Optional {
  datatype Option<+T> = None | Some(value: T)
}
