/** An optional value: stands for a JavaScript field or state that may be
    `null` / `undefined`. */
module Optional {
  datatype Option<+T> = None | Some(value: T)
}
