/** Option, the absent-or-present value the components pass around
    (an optional response, a selection that may not happen). */
module Wrappers {

  datatype Option<+T> = None | Some(value: T)
}
