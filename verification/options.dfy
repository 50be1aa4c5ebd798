/** The optional value used wherever the application reads something that may be absent
    (a stored setting, a stored key, a selected mood). */
module Options {
  datatype Option<+T> = None | Some(value: T)
}
