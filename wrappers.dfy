/** An optional value: a form field that is blank (or does not parse) is None. */
module Wrappers {

  datatype Option<+T> = None | Some(value: T)

  function Abs(x: real): (r: real)
    ensures r >= 0.0 && (r == x || r == -x)
  {
    if x < 0.0 then -x else x
  }
}
