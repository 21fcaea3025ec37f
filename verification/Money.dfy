/** Money in integer cents, with the code's own rounding where a float product is turned into cents. */
module Money {

  type Cents = int

  /** int64(value*100 + 0.5) for non-negative values, mirrored for negative ones; `v` is in cents already. */
  function RoundToCents(v: real): Cents {
    if v >= 0.0 then (v + 0.5).Floor else -((0.5 - v).Floor)
  }

  function Abs(c: Cents): Cents {
    if c < 0 then -c else c
  }

  lemma RoundExact(c: Cents)
    ensures RoundToCents(c as real) == c
  {
  }

  /** Rounding goes to the nearest cent, and halves away from zero. */
  lemma RoundNearest(v: real, c: Cents)
    ensures v >= 0.0 ==> (RoundToCents(v) == c <==> -0.5 < c as real - v <= 0.5)
    ensures v < 0.0 ==> (RoundToCents(v) == c <==> -0.5 <= c as real - v < 0.5)
  {
  }
}
