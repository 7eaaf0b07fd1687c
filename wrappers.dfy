/** The optional value used for every field a record may lack and every
    "no result" the engine can report. */
module Wrappers {

  datatype Option<+T> = None | Some(value: T)
}
