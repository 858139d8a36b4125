/** Optional values and success/failure results, as the compiler uses Rust's
    `Option` and `Result`. */
module Wrappers {

  datatype Option<+T> = None | Some(value: T)

  datatype Result<+T, +E> = Ok(value: T) | Err(error: E)
}

/** The pieces of the surface syntax that the analysis core consumes. */
module Syntax {
  import opened Wrappers

  /** An interned identifier, compared by its text. */
  type Ident = string

  /** A source position. The core only stores, copies and reports spans. */
  type Span = int

  /** An attribute such as `#[lang(go)]`: a name and an optional list of
      argument names. */
  datatype Attr = Attr(name: Ident, args: Option<seq<Ident>>)
}
