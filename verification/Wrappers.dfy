/** Optional values, where the Python code returns a value or None, and lists of lists. */
module Wrappers {
  datatype Option<+T> = None | Some(value: T)

  function Concat<T>(xss: seq<seq<T>>): seq<T>
    decreases |xss|
  {
    if xss == [] then [] else Concat(xss[..|xss| - 1]) + xss[|xss| - 1]
  }
}
