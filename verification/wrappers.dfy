/** Optional values. `None` stands for the JavaScript `null` results and for the
    `NaN` entries an indicator series carries before its warm-up window is full. */
module Wrappers {

  datatype Option<+T> = None | Some(value: T)
}
