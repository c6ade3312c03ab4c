/** Decimal scaling of token amounts: `formatUnits`, `10 ** decimals`, and the
  * protocol-fee multiplier `1 + fee / 10000` in exact arithmetic. */
module Units {
  function Pow10(n: nat): (r: nat)
    ensures r >= 1
  {
    if n == 0 then 1 else 10 * Pow10(n - 1)
  }

  /** An atomic amount in whole tokens. */
  function FormatUnits(atomic: real, decimals: nat): (r: real)
    ensures r * Pow10(decimals) as real == atomic
    ensures atomic >= 0.0 ==> r >= 0.0
  {
    atomic / Pow10(decimals) as real
  }

  /** With no decimals an amount is already in whole tokens. */
  lemma FormatUnitsNoDecimals(atomic: real)
    ensures FormatUnits(atomic, 0) == atomic
  {
    assert Pow10(0) == 1;
  }

  /** Whether `formatUnits` accepts the string BigNumber.js writes for `x`: the
    * string must be a plain integer, so `x` must be whole and below `10^21` in
    * magnitude, from where BigNumber.js switches to exponent notation. */
  predicate FormatUnitsAccepts(x: real)
  {
    x.Floor as real == x && -ExponentNotationFrom < x < ExponentNotationFrom
  }

  /** `10^21`: BigNumber.js's default `EXPONENTIAL_AT` writes larger magnitudes
    * in exponent notation. */
  const ExponentNotationFrom: real := 1000000000000000000000.0

  /** `1 + protocolFee / 10000`, the fee given in basis points. */
  function FeeMultiplier(protocolFee: nat): (r: real)
    ensures r >= 1.0
    ensures r * 10000.0 == (10000 + protocolFee) as real
  {
    (10000 + protocolFee) as real / 10000.0
  }
}
