/** The optional-value type shared by the modules of this project: `None` marks a
    step the model cannot take (a scan that runs out of fuel, a read past an end). */
module Optional {
  datatype Option<+T> = None | Some(value: T)
}
