/** Optional values: JavaScript's `null`/`undefined` results and inputs. */
module Wrappers {

  datatype Option<+T> = None | Some(value: T)
}
