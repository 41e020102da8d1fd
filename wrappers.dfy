/** Option and Result, the failure-carrying types the rest of the model uses
    for C++ lookups that can throw (`std::map::at`) and for error exits. */
module Wrappers {

  datatype Option<+T> = None | Some(value: T)

  datatype Result<+T, +E> = Ok(value: T) | Err(error: E)
}
