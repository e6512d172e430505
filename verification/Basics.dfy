/** Small shared definitions. */
module Basics {

  datatype Option<+T> = None | Some(value: T)

  function Least(a: nat, b: nat): nat { if a < b then a else b }
}
