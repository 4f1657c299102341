/** Types that several parts of the model share. */
module Basics {

  type Byte = b: int | 0 <= b < 256

  datatype Option<T> = None | Some(value: T)
}
