/** An optional value: `None` stands for "nothing produced" (a skipped draw). */
module Wrappers {

  datatype Option<+T> = None | Some(value: T)

}
