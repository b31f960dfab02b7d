/** Value types and real-number helpers shared by every model. */
module Common {
  datatype Option<+T> = None | Some(value: T)

  datatype Result<+T, +E> = Ok(value: T) | Err(error: E)

  function Min(a: real, b: real): real {
    if a <= b then a else b
  }

  function Max(a: real, b: real): real {
    if a >= b then a else b
  }

  function Abs(a: real): real {
    if a < 0.0 then -a else a
  }

  /** A product, named so that equal factors give equal products without nonlinear reasoning. */
  function Times(a: real, b: real): real {
    a * b
  }

  lemma TimesSigns(a: real, b: real)
    ensures a >= 0.0 && b >= 0.0 ==> Times(a, b) >= 0.0
    ensures a > 0.0 && b > 0.0 ==> Times(a, b) > 0.0
    ensures Times(0.0, b) == 0.0 && Times(a, 0.0) == 0.0
    ensures Times(a, b) == Times(b, a)
  {
  }

  /** Sum of a sequence, taken from the right so that it follows an appending loop. */
  function Sum(xs: seq<real>): real {
    if xs == [] then 0.0 else Sum(xs[..|xs| - 1]) + xs[|xs| - 1]
  }

  lemma SumAppend(xs: seq<real>, x: real)
    ensures Sum(xs + [x]) == Sum(xs) + x
  {
  }
}
