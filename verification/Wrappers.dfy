/** What the other modules share: a value that may be missing, and orders. */
module Wrappers {

  datatype Option<+T> = None | Some(value: T)

  ghost predicate StrictTotal<T(!new)>(lt: (T, T) -> bool) {
    && (forall a :: !lt(a, a))
    && (forall a, b :: a != b ==> lt(a, b) || lt(b, a))
    && (forall a, b, c :: lt(a, b) && lt(b, c) ==> lt(a, c))
  }
}
