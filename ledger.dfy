/**
 * Shared vocabulary of the ledger contracts: addresses, optional values,
 * results, integer widths, and the token balances that the token contracts
 * keep on behalf of every holder.
 */
module Ledger {

  /** An account or contract address; the contracts only compare addresses. */
  type Address = nat

  datatype Option<T> = None | Some(value: T)

  /** The outcome of an entry point: a value, or the reason the call aborted. */
  datatype Result<T, E> = Ok(value: T) | Err(error: E)

  const U32_MAX: int := 0xFFFF_FFFF
  const U64_MAX: int := 0xFFFF_FFFF_FFFF_FFFF
  const U128_MAX: int := 0xFFFF_FFFF_FFFF_FFFF_FFFF_FFFF_FFFF_FFFF
  const I128_MAX: int := 0x7FFF_FFFF_FFFF_FFFF_FFFF_FFFF_FFFF_FFFF
  const I128_MIN: int := -0x8000_0000_0000_0000_0000_0000_0000_0000

  /** Balances held in every token, keyed by (token contract, holder); a missing key is a zero balance. */
  type Balances = map<(Address, Address), int>

  function BalanceOf(b: Balances, token: Address, holder: Address): int
  {
    if (token, holder) in b then b[(token, holder)] else 0
  }

  /**
   * A transfer as the token contract performs it: it aborts on a negative
   * amount or when the sender holds less than the amount, and otherwise
   * moves exactly `amount` from `from` to `to` and touches no other balance.
   */
  function Transfer(b: Balances, token: Address, from: Address, to: Address, amount: int): (r: Option<Balances>)
    ensures r.Some? <==> 0 <= amount <= BalanceOf(b, token, from)
    ensures r.Some? ==> forall t: Address, h: Address :: BalanceOf(r.value, t, h) ==
                          BalanceOf(b, t, h)
                          - (if (t, h) == (token, from) then amount else 0)
                          + (if (t, h) == (token, to) then amount else 0)
  {
    if amount < 0 || BalanceOf(b, token, from) < amount then None
    else
      var debited := b[(token, from) := BalanceOf(b, token, from) - amount];
      Some(debited[(token, to) := BalanceOf(debited, token, to) + amount])
  }

  function Min(a: int, b: int): int { if a <= b then a else b }

  function Max(a: int, b: int): int { if a >= b then a else b }
}

/** Facts about integer division that the vesting and splitting arithmetic rely on. */
module Arith {

  lemma MulMonotone(a: int, b: int, c: int)
    requires a >= 0 && b <= c
    ensures a * b <= a * c
  {
    assert a * c - a * b == a * (c - b);
  }

  lemma DivMonotone(x: int, y: int, d: int)
    requires 0 <= x <= y && d > 0
    ensures x / d <= y / d
  {
    var qx, qy := x / d, y / d;
    assert x == d * qx + x % d;
    assert y == d * qy + y % d;
    if qx > qy {
      MulMonotone(d, qy + 1, qx);
    }
  }

  lemma MulAddRight(x: int, y: int, z: int)
    ensures (x + y) * z == x * z + y * z
  {
  }

  /** a * e / d stays within [0, a] when the fraction e / d is at most one. */
  lemma MulDivBounded(a: int, e: int, d: int)
    requires a >= 0 && 0 <= e <= d && d > 0
    ensures 0 <= a * e / d <= a
  {
    MulMonotone(a, e, d);
    assert 0 <= a * e;
    DivMonotone(a * e, a * d, d);
    assert a * d / d == a;
  }

  /** The floor of a quotient, multiplied back, never exceeds the dividend and misses it by less than the divisor. */
  lemma DivBounds(x: int, d: int)
    requires d > 0
    ensures (x / d) * d <= x < (x / d) * d + d
  {
    assert x == d * (x / d) + x % d;
  }
}
