/** Small failure-carrying datatypes shared by every module of the model. */
module Wrappers {

  /** Rust's `Option<T>` and Python's "value or None". */
  datatype Option<+T> = None | Some(value: T)

  /** The outcome of Rust code that may stop with `panic!` or `unimplemented!`:
      the panic is modelled as an ordinary failure value carrying its message. */
  datatype Fallible<+T> = Built(value: T) | Panic(message: string)
}
