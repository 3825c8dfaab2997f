/** The Option type shared by the modules: `None` stands for JavaScript's `null`,
    `undefined` or `NaN`, and Python's `None`, depending on where it is used. */
module Optional {
  datatype Option<+T> = None | Some(value: T)
}
