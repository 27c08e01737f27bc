/** The Option type used for a value that may be missing: a pandas `map`
    over a code that is not in its table yields a missing value, and
    `idxmax` over an empty column yields no row. */
module Wrappers {

  datatype Option<+T> = None | Some(value: T)

}
