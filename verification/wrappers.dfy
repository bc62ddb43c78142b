/** The Option datatype used wherever pandas would produce NaN (an undefined statistic,
    a missing cell or an age outside every bin). */
module Wrappers {

  datatype Option<+T> = None | Some(value: T)
}
