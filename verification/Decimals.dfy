/** The exact decimals of the interval tools. */
module Decimals {
  /** The sampling period, and the tolerance every stage compares with. */
  const PRIMARY_TS_S: real := 0.2
  const TOLERANCE_S: real := 0.000001

  function Abs(x: real): real { if x < 0.0 then -x else x }
}
