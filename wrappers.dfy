/** The optional value used wherever the server either has something or has nothing
    (a missing `.env` file, a parsed line that defines no variable). */
module Wrappers {

  datatype Option<+T> = None | Some(value: T)

}
