/** Minimum, maximum and magnitude of exact reals, shared by the geometry modules. */
module Reals {

  function Min(x: real, y: real): real { if x <= y then x else y }
  function Max(x: real, y: real): real { if x >= y then x else y }
  function Abs(x: real): real { if x < 0.0 then -x else x }
}
