/**
 * C pointers, reduced to what the library does with them: compare them
 * with NULL, and pass them on.
 */
module Pointers {

  /** A function pointer, reduced to its identity. */
  datatype FnPtr = NullFn | Fn(id: nat)

  /** A `void *` element: NULL, or a reference to some `T`. */
  datatype Ptr<T> = Null | Ptr(target: T)
}
