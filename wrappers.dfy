/** The optional-value type used throughout the model: `None` stands for the
    `undefined` / `null` results of keyboard.js. */
module Wrappers {
  datatype Option<+T> = None | Some(value: T)
}
