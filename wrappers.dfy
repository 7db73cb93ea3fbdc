/** Option, Result and Outcome: the shapes of Rust's `Option`, of a call that
    either yields a value or aborts the build, and of one that only passes or
    aborts. */
module Wrappers {

  datatype Option<T> = None | Some(value: T)

  datatype Result<T, E> = Ok(value: T) | Err(error: E)

  datatype Outcome<E> = Pass | Fail(error: E)
}
