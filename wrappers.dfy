/** The conventional optional value: `None` stands for JavaScript's NaN / Infinity results
    and for "no load outstanding". */
module Wrappers {

  datatype Option<+T> = None | Some(value: T)
}
