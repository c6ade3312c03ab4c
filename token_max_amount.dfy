/** `src/helpers/getTokenMaxAmount.ts`: the most of a token the wallet can put
  * into a swap, before it is rounded to ten significant digits. */
module TokenMaxAmount {
  import opened Wrappers
  import opened Entities
  import opened Units
  import opened BalancesSlice

  /** A balance entry that is missing, `null` or zero: no maximum. */
  predicate HasBalance(values: BalanceValues, tokenId: string)
  {
    tokenId in values && values[tokenId].Some? && values[tokenId].value != 0
  }

  /** `totalAmount` after the protocol fee: `total - total * p` when the
    * percentage is given and non-zero. */
  function AfterProtocolFee(total: real, protocolFeePercentage: Option<real>): (r: real)
    ensures protocolFeePercentage.Some? && protocolFeePercentage.value != 0.0 ==>
      r == total * (1.0 - protocolFeePercentage.value)
    ensures !(protocolFeePercentage.Some? && protocolFeePercentage.value != 0.0) ==> r == total
    ensures total >= 0.0 && protocolFeePercentage.Some? && 0.0 <= protocolFeePercentage.value <= 1.0 ==> 0.0 <= r <= total
  {
    if protocolFeePercentage.Some? && protocolFeePercentage.value != 0.0 then
      assert total * protocolFeePercentage.value <= total * 1.0 || total < 0.0 || protocolFeePercentage.value > 1.0;
      total - total * protocolFeePercentage.value
    else total
  }

  /** The native token's amount after the swap's gas cost, never below zero. */
  function AfterTransactionCost(total: real, cost: real): (r: real)
    ensures r >= 0.0
    ensures total - cost > 0.0 ==> r == total - cost
    ensures total - cost <= 0.0 ==> r == 0.0
    ensures cost >= 0.0 && total >= 0.0 ==> r <= total
  {
    var usable := total - cost;
    if usable > 0.0 then usable else 0.0
  }

  /** `getTokenMaxAmount`. `tokenId` is `getTokenId`; the swap cost is a
    * decimal amount of the native token (its default "0" still subjects the
    * native token to the clamp). The ERC-20 branch reads the balance under the
    * token's address, as the source does, not under its id. */
  function TokenMaxAmount(
    balances: BalancesState, baseTokenInfo: TokenInfo, protocolFeePercentage: Option<real>,
    swapTransactionCost: real, tokenId: TokenInfo -> string): (r: Option<real>)
    ensures !HasBalance(balances.values, tokenId(baseTokenInfo)) ==> r.None?
    ensures HasBalance(balances.values, tokenId(baseTokenInfo)) && baseTokenInfo.IsCollection() ==>
      r == Some(balances.values[tokenId(baseTokenInfo)].value as real)
    ensures HasBalance(balances.values, tokenId(baseTokenInfo)) && !baseTokenInfo.IsCollection() ==> r.Some?
    ensures (HasBalance(balances.values, tokenId(baseTokenInfo)) && !baseTokenInfo.IsCollection() &&
             baseTokenInfo.address != AddressZero) ==>
      r == Some(AfterProtocolFee(FormatUnits(CurrentAmount(balances.values, baseTokenInfo.address) as real, baseTokenInfo.decimals),
                                 protocolFeePercentage))
    ensures (HasBalance(balances.values, tokenId(baseTokenInfo)) && !baseTokenInfo.IsCollection() &&
             baseTokenInfo.address == AddressZero) ==>
      r == Some(AfterTransactionCost(
        AfterProtocolFee(FormatUnits(CurrentAmount(balances.values, baseTokenInfo.address) as real, baseTokenInfo.decimals),
                         protocolFeePercentage),
        swapTransactionCost))
    ensures r.Some? && !baseTokenInfo.IsCollection() && baseTokenInfo.address == AddressZero ==> r.value >= 0.0
  {
    var id := tokenId(baseTokenInfo);
    if !HasBalance(balances.values, id) then None
    else if baseTokenInfo.IsCollection() then Some(balances.values[id].value as real)
    else
      var total := FormatUnits(CurrentAmount(balances.values, baseTokenInfo.address) as real, baseTokenInfo.decimals);
      var afterFee := AfterProtocolFee(total, protocolFeePercentage);
      if baseTokenInfo.address == AddressZero then Some(AfterTransactionCost(afterFee, swapTransactionCost))
      else Some(afterFee)
  }

  /** With a fee percentage between 0 and 1 and a non-negative swap cost, the
    * maximum of a fungible token never exceeds the balance held. */
  lemma MaxAmountWithinBalance(
    balances: BalancesState, baseTokenInfo: TokenInfo, protocolFeePercentage: Option<real>,
    swapTransactionCost: real, tokenId: TokenInfo -> string)
    requires !baseTokenInfo.IsCollection() && HasBalance(balances.values, tokenId(baseTokenInfo))
    requires protocolFeePercentage.Some? ==> 0.0 <= protocolFeePercentage.value <= 1.0
    requires swapTransactionCost >= 0.0
    ensures 0.0 <= TokenMaxAmount(balances, baseTokenInfo, protocolFeePercentage, swapTransactionCost, tokenId).value <=
      FormatUnits(CurrentAmount(balances.values, baseTokenInfo.address) as real, baseTokenInfo.decimals)
  {
    var total := FormatUnits(CurrentAmount(balances.values, baseTokenInfo.address) as real, baseTokenInfo.decimals);
    var afterFee := AfterProtocolFee(total, protocolFeePercentage);
    assert 0.0 <= afterFee <= total;
  }
}
