/** `src/hooks/useAmountPlusFee.ts`: the amount a taker enters with the protocol
  * fee added on top, as a decimal string. */
module AmountPlusFee {
  import opened Wrappers
  import opened Entities
  import opened Units

  /** An amount with the fee added, in exact arithmetic. */
  function WithProtocolFee(amount: real, protocolFee: nat): (r: real)
    ensures r * 10000.0 == amount * (10000 + protocolFee) as real
    ensures amount >= 0.0 ==> r >= amount
    ensures protocolFee == 0 ==> r == amount
  {
    var m := FeeMultiplier(protocolFee);
    assert amount * m * 10000.0 == amount * (m * 10000.0);
    assert amount * m - amount == amount * (m - 1.0);
    amount * m
  }

  /** The memoised value of the hook. `parseAmount` is the BigNumber reading of
    * the input, `capDecimals` is `toMaxAllowedDecimalsNumberString`. */
  function AmountPlusFee(
    amount: Option<string>, tokenDecimals: Option<nat>, tokenKind: Option<TokenKind>, protocolFee: nat,
    parseAmount: string -> real, capDecimals: (real, nat) -> string): (r: string)
    ensures !Truthy(amount) ==> r == "0"
    ensures Truthy(amount) && tokenKind in {Some(ERC721), Some(ERC1155)} ==> r == amount.value
    ensures Truthy(amount) && tokenKind !in {Some(ERC721), Some(ERC1155)} && (tokenDecimals.None? || tokenDecimals == Some(0)) ==> r == "0"
  {
    if !Truthy(amount) then "0"
    else if tokenKind == Some(ERC721) || tokenKind == Some(ERC1155) then amount.value
    else if tokenDecimals.None? || tokenDecimals.value == 0 then "0"
    else capDecimals(WithProtocolFee(parseAmount(amount.value), protocolFee), tokenDecimals.value)
  }

  /** For a fungible token with decimals, the capped string is that of the
    * amount with the fee on top, which is never smaller than the amount. */
  lemma FungibleAmountCarriesFee(
    amount: string, tokenDecimals: nat, tokenKind: Option<TokenKind>, protocolFee: nat,
    parseAmount: string -> real, capDecimals: (real, nat) -> string)
    requires amount != "" && tokenDecimals != 0 && tokenKind !in {Some(ERC721), Some(ERC1155)}
    ensures exists v: real ::
      AmountPlusFee(Some(amount), Some(tokenDecimals), tokenKind, protocolFee, parseAmount, capDecimals) == capDecimals(v, tokenDecimals) &&
      v * 10000.0 == parseAmount(amount) * (10000 + protocolFee) as real &&
      (parseAmount(amount) >= 0.0 ==> v >= parseAmount(amount))
  {
    var v := WithProtocolFee(parseAmount(amount), protocolFee);
    assert AmountPlusFee(Some(amount), Some(tokenDecimals), tokenKind, protocolFee, parseAmount, capDecimals) == capDecimals(v, tokenDecimals);
  }
}
