/** Types shared by every component: ordered identifiers, instants, failure results. */
module Prelude {

  /** UUIDs and tokens, as far as the system uses them: equality and the order of their text form. */
  type Id = int

  /** Instants and durations count microseconds. */
  type Instant = int

  const SECOND: int := 1_000_000
  const MINUTE: int := 60 * SECOND

  /** The slack allowed on figures that should be exact. */
  const TOLERANCE: real := 0.000000000001

  /** Opening and closing instants of the session an instant falls on, if the exchange has one. */
  type Calendar = Instant -> Option<(Instant, Instant)>

  datatype Option<+T> = None | Some(value: T)

  datatype Result<+T, +E> = Ok(value: T) | Err(error: E)

  function Max(x: int, y: int): int {
    if x < y then y else x
  }

  function MaxReal(x: real, y: real): real {
    if x < y then y else x
  }

  function MinReal(x: real, y: real): real {
    if y < x then y else x
  }

  function Abs(x: real): real {
    if x < 0.0 then -x else x
  }

  /** A product, named so that facts about it can be used without opening it. */
  function Times(x: real, y: real): real {
    x * y
  }

  function Sum(vs: seq<real>): real {
    if vs == [] then 0.0 else Sum(vs[..|vs| - 1]) + vs[|vs| - 1]
  }
}
