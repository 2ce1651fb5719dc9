/** The Option and Result types used across the model.  `None` stands for Python's `None` and for a
    NaN entry of a numpy matrix; `Err` stands for a raised exception. */
module Wrappers {
  datatype Option<+T> = None | Some(value: T)

  datatype Result<+T, +E> = Ok(value: T) | Err(error: E)
}
