/** Rounding to the nearest integer with an unspecified tie rule.

    The C library's choice at an exact half is not fixed by the program, so it
    is a parameter: any function of the precision and of the integer below. */
module Rounding {

  /** `tie(decimals, n)`: does `n + 1/2` (in units of the last place) go up? */
  type TieRule = (nat, int) -> bool

  predicate Nearest(m: int, v: real) {
    m as real - 0.5 <= v <= m as real + 0.5
  }

  function Round(tie: TieRule, decimals: nat, v: real): (m: int)
    ensures Nearest(m, v)
    ensures v >= 0.0 ==> m >= 0
  {
    var n := v.Floor;
    if v - n as real < 0.5 then n
    else if v - n as real > 0.5 then n + 1
    else if tie(decimals, n) then n + 1 else n
  }

  lemma RoundMonotone(tie: TieRule, decimals: nat, v: real, w: real)
    requires v <= w
    ensures Round(tie, decimals, v) <= Round(tie, decimals, w)
  {
  }

  /** An integer that lies strictly within half a unit is the result. */
  lemma RoundUnique(tie: TieRule, decimals: nat, v: real, m: int)
    requires m as real - 0.5 < v < m as real + 0.5
    ensures Round(tie, decimals, v) == m
  {
  }
}
