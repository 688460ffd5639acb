/** Result types, and a fact about sequences, shared by the models of the repository's modules. */
module Prelude {
  datatype Option<+T> = None | Some(value: T)

  /** What a call returns or throws. */
  datatype Result<+T, +E> = Ok(value: T) | Err(error: E)

  lemma Associative<T>(a: seq<T>, b: seq<T>, c: seq<T>)
    ensures a + b + c == a + (b + c)
  {
  }
}
