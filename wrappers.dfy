/** The optional value that stands for Python's `Optional[...]`: `None` is Python's `None`. */
module Wrappers {

  datatype Option<+T> = None | Some(value: T)
}
