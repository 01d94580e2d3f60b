/** The value types of the language, shared by the AST, the compiler and the error kinds. */
module Runtime {

  /** The two-member type system: a scalar, or a flat list of scalars. */
  datatype ValType = Number | List

  /** Argument counts reported by `WrongArgCount`. */
  type ArgCount = nat
}

/** The conventional optional value. */
module Wrappers {

  datatype Option<+T> = None | Some(value: T)

  /** Looks `k` up in `m`. */
  function Get<K, V>(m: map<K, V>, k: K): (r: Option<V>)
  {
    if k in m then Some(m[k]) else None
  }
}
