/**
 * Checked balance arithmetic and the integer square root that turns
 * reserved tokens into vote weight.
 */
module Arith {
  import opened Types

  /** Largest value of the runtime's balance type (u128). */
  const BALANCE_MAX: nat := 0xFFFF_FFFF_FFFF_FFFF_FFFF_FFFF_FFFF_FFFF

  /** `checked_sub_between_balances`: unsigned subtraction that refuses to go below zero. */
  function CheckedSub(a: Balance, b: Balance): (r: Result<Balance>)
    ensures r.Ok? <==> b <= a
    ensures r.Ok? ==> r.value + b == a
    ensures r.Err? ==> r.error == SubstractionOverflow
  {
    if b <= a then Ok(a - b) else Err(SubstractionOverflow)
  }

  /** `checked_add_between_balances`: addition that refuses to leave the balance type. */
  function CheckedAdd(a: Balance, b: Balance): (r: Result<Balance>)
    ensures r.Ok? <==> a + b <= BALANCE_MAX
    ensures r.Ok? ==> r.value - b == a && r.value <= BALANCE_MAX
    ensures r.Err? ==> r.error == AdditionOverflow
  {
    if a + b <= BALANCE_MAX then Ok(a + b) else Err(AdditionOverflow)
  }

  /** `checked_div_between_balances`: unsigned division that refuses a zero divisor. */
  function CheckedDiv(a: Balance, b: Balance): (r: Result<Balance>)
    ensures r.Ok? <==> b != 0
    ensures r.Ok? ==> r.value * b <= a < (r.value + 1) * b
    ensures r.Err? ==> r.error == SlashFailed
  {
    if b == 0 then Err(SlashFailed)
    else
      var q := a / b;
      assert q * b + a % b == a;
      Ok(q)
  }

  /**
   * Floor of the square root, the quadratic dampening applied to tokens
   * before they count as Aye weight.
   */
  function Isqrt(n: nat): (r: nat)
    ensures r * r <= n < (r + 1) * (r + 1)
    ensures r <= n
    decreases n
  {
    if n < 4 then (if n == 0 then 0 else 1)
    else
      var q := Isqrt(n / 4);
      DoubledRoot(n, q);
      if (2 * q + 1) * (2 * q + 1) <= n then 2 * q + 1 else 2 * q
  }

  /** A root of n / 4, doubled, is within two of a root of n. */
  lemma DoubledRoot(n: nat, q: nat)
    requires q * q <= n / 4 < (q + 1) * (q + 1)
    ensures (2 * q) * (2 * q) <= n < (2 * q + 2) * (2 * q + 2)
  {
    var m := n / 4;
    assert 4 * m <= n < 4 * m + 4;
    assert (2 * q) * (2 * q) == 4 * (q * q);
    assert (2 * q + 2) * (2 * q + 2) == 4 * ((q + 1) * (q + 1));
    assert m + 1 <= (q + 1) * (q + 1);
  }

  lemma SquareMonotone(a: nat, b: nat)
    requires a <= b
    ensures a * a <= b * b
  {
    assert a * a <= a * b <= b * b;
  }

  /** The square-root bounds determine the root: any r between them is Isqrt(n). */
  lemma IsqrtUnique(n: nat, r: nat)
    requires r * r <= n < (r + 1) * (r + 1)
    ensures Isqrt(n) == r
  {
    var q := Isqrt(n);
    if q < r {
      SquareMonotone(q + 1, r);
    } else if r < q {
      SquareMonotone(r + 1, q);
    }
  }

  /** The square root never decreases as its argument grows. */
  lemma IsqrtMonotone(m: nat, n: nat)
    requires m <= n
    ensures Isqrt(m) <= Isqrt(n)
  {
    if Isqrt(n) < Isqrt(m) {
      SquareMonotone(Isqrt(n) + 1, Isqrt(m));
    }
  }
}
