/** The optional-value datatype the rest of the model uses for JavaScript's
    `undefined` / `null` results (a missing room, a missing player, no word). */
module Wrappers {

  datatype Option<+T> = None | Some(value: T)
}
