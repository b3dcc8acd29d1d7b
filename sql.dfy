/** SQL values that may be NULL, and the NUMERIC operators the pipeline's queries use. */
module Sql {

  /** A nullable column value: `None` is SQL NULL. */
  datatype Option<+T> = None | Some(value: T)

  /** `a - b`: NULL when either operand is NULL. */
  function Sub(a: Option<real>, b: Option<real>): Option<real> {
    if a.Some? && b.Some? then Some(a.value - b.value) else None
  }

  /** `a * b`: NULL when either operand is NULL. */
  function Mul(a: Option<real>, b: Option<real>): Option<real> {
    if a.Some? && b.Some? then Some(a.value * b.value) else None
  }

  /** `a / b`: NULL when either operand is NULL; a zero divisor is a
      "division by zero" error in Postgres, so callers must rule it out. */
  function Div(a: Option<real>, b: Option<real>): Option<real>
    requires b != Some(0.0)
  {
    if a.Some? && b.Some? then Some(a.value / b.value) else None
  }

  /** `NULLIF(a, v)`: NULL when `a` equals `v`, otherwise `a`. */
  function NullIf(a: Option<real>, v: real): (r: Option<real>)
    ensures r != Some(v)
  {
    if a == Some(v) then None else a
  }

  /** Three-valued `a AND b`: false wins over NULL, NULL wins over true. */
  function And(a: Option<bool>, b: Option<bool>): Option<bool> {
    if a == Some(false) || b == Some(false) then Some(false)
    else if a.Some? && b.Some? then Some(true)
    else None
  }

  /** `a = b` on integers: NULL when either operand is NULL. */
  function Eq(a: Option<int>, b: Option<int>): Option<bool> {
    if a.Some? && b.Some? then Some(a.value == b.value) else None
  }
}
