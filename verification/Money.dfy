/** Money in grosze: exact amounts are reals, amounts quantised to two decimal places are whole grosze. */
module Money {
  /** `quantize(Decimal("0.01"), ROUND_HALF_UP)`: to the nearest grosz, ties away from zero. */
  function RoundHalfUp(x: real): int {
    if x >= 0.0 then (x + 0.5).Floor else -((0.5 - x).Floor)
  }

  lemma RoundIsClose(x: real)
    ensures -0.5 <= RoundHalfUp(x) as real - x <= 0.5
    ensures x >= 0.0 ==> RoundHalfUp(x) >= 0
    ensures x == x.Floor as real ==> RoundHalfUp(x) == x.Floor
  {
    if x == x.Floor as real && x < 0.0 {
      assert 0.5 - x == (-x.Floor) as real + 0.5;
    }
  }

  lemma FloorIs(x: real, n: int)
    requires n as real <= x < n as real + 1.0
    ensures x.Floor == n
  {
  }

  function Abs(x: real): real {
    if x >= 0.0 then x else -x
  }
}
