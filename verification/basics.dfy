// Optional values and small counts, shared by every other module.

module Basics {
  datatype Option<+T> = None | Some(value: T)

  function Once(b: bool): nat {
    if b then 1 else 0
  }

  function Least(a: nat, b: nat): nat {
    if a <= b then a else b
  }
}
