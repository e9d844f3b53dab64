/** Small things that several models count and choose with. */
module Basics {

  datatype Option<T> = None | Some(value: T)

  function One(b: bool): nat { if b then 1 else 0 }
}
