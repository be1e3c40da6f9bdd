/** Small numeric and vector notions shared by the other modules. */
module Basics {

  datatype Option<T> = None | Some(value: T)

  const TWO_PI := 6.2831853071796

  function Abs(x: real): real {
    if x < 0.0 then -x else x
  }

  /** Truncation toward zero: a cast to an integer type. */
  function Trunc(x: real): int {
    if x >= 0.0 then x.Floor else -(-x).Floor
  }

  datatype Vector = Vector(x: real, y: real, z: real)

  function Scale(k: real, v: Vector): Vector {
    Vector(k * v.x, k * v.y, k * v.z)
  }
}
