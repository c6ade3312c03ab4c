/** `src/components/ApprovalNotice/helpers.ts`: how much of a token the user's
  * open orders and rules already commit, and how much allowance a new order
  * therefore needs. */
module ApprovalNoticeHelpers {
  import opened Wrappers
  import opened Entities
  import opened StringHelpers
  import opened Seqs
  import opened Units
  import opened FullOrderHelpers
  import opened OrderERC20Helpers
  import opened DelegateRuleHelpers

  /** The on-chain nonce checks: one on the Swap contract for full orders, one on
    * the SwapERC20 contract for ERC-20 orders. */
  datatype NonceContract = FullOrderNonce | OrderERC20Nonce

  /** `getTotalNeededAllowance` (helpers.ts:19-34): the allowance already
    * committed plus the new order's amount, in whole tokens. The new amount counts
    * only with a token, a non-empty amount and non-zero decimals. `tokenDecimals`
    * is `getTokenDecimals`, `toAtomic` is `toRoundedAtomicString`. The sum goes
    * to `formatUnits` as BigNumber.js writes it, and `formatUnits` throws (`None`)
    * on a fractional sum or one written in exponent notation. */
  function TotalNeededAllowance(
    orderAmount: string, totalTokenAllowance: real, tokenInfo: Option<TokenInfo>,
    tokenDecimals: TokenInfo -> nat, toAtomic: (string, nat) -> nat): (r: Option<real>)
    ensures var decimals := if tokenInfo.Some? then tokenDecimals(tokenInfo.value) else 0;
      var added := if tokenInfo.Some? && orderAmount != "" && decimals != 0
        then toAtomic(orderAmount, decimals) else 0;
      && (r.Some? <==> FormatUnitsAccepts(totalTokenAllowance + added as real))
      && (r.Some? ==> r.value * Pow10(decimals) as real == totalTokenAllowance + added as real)
    ensures tokenInfo.None? ==>
      r == if FormatUnitsAccepts(totalTokenAllowance) then Some(totalTokenAllowance) else None
  {
    var decimals := if tokenInfo.Some? then tokenDecimals(tokenInfo.value) else 0;
    var tokenAmount :=
      if tokenInfo.Some? && orderAmount != "" && decimals != 0 then toAtomic(orderAmount, decimals) else 0;
    var totalNeededAllowance := totalTokenAllowance + tokenAmount as real;
    if !FormatUnitsAccepts(totalNeededAllowance) then None
    else if tokenInfo.None? then
      FormatUnitsNoDecimals(totalNeededAllowance);
      Some(FormatUnits(totalNeededAllowance, 0))
    else Some(FormatUnits(totalNeededAllowance, decimals))
  }

  /** An order amount of zero adds nothing: the result is the committed total in
    * whole tokens, when `formatUnits` accepts that total. */
  lemma TotalNeededAllowanceIdentity(
    totalTokenAllowance: real, tokenInfo: Option<TokenInfo>,
    tokenDecimals: TokenInfo -> nat, toAtomic: (string, nat) -> nat)
    requires forall d :: toAtomic("0", d) == 0
    ensures var decimals := if tokenInfo.Some? then tokenDecimals(tokenInfo.value) else 0;
      TotalNeededAllowance("0", totalTokenAllowance, tokenInfo, tokenDecimals, toAtomic) ==
        if FormatUnitsAccepts(totalTokenAllowance) then Some(FormatUnits(totalTokenAllowance, decimals)) else None
  {
    var decimals := if tokenInfo.Some? then tokenDecimals(tokenInfo.value) else 0;
    var r := TotalNeededAllowance("0", totalTokenAllowance, tokenInfo, tokenDecimals, toAtomic);
    if r.Some? {
      assert r.value * Pow10(decimals) as real == totalTokenAllowance;
    }
  }

  /** `filterTokenByType`: the order belongs to the contract family. */
  predicate FilterTokenByType(o: Order, allowanceType: AllowancesType)
  {
    (allowanceType == SwapAllowance && IsFullOrder(o)) ||
    (allowanceType == SwapERC20Allowance && IsFullOrderERC20(o)) ||
    (allowanceType == DelegateAllowance && IsDelegateRule(o))
  }

  /** `getOrderNonceUsed`: full and ERC-20 orders ask the chain, `None` being a
    * check that threw; a delegate rule is used up when its filled amount equals
    * its amount. */
  function OrderNonceUsed(o: Order, nonceUsed: (NonceContract, Order) -> Option<bool>): (r: Option<bool>)
    ensures IsFullOrder(o) ==> r == nonceUsed(FullOrderNonce, o)
    ensures !IsFullOrder(o) && IsFullOrderERC20(o) ==> r == nonceUsed(OrderERC20Nonce, o)
    ensures !IsFullOrder(o) && !IsFullOrderERC20(o) ==> r == Some(o.senderFilledAmount == o.senderAmount)
  {
    if IsFullOrder(o) then nonceUsed(FullOrderNonce, o)
    else if IsFullOrderERC20(o) then nonceUsed(OrderERC20Nonce, o)
    else Some(o.senderFilledAmount == o.senderAmount)
  }

  /** `getOrderMakerAmount`: what the maker gives; an ERC-721 side is one item. */
  function OrderMakerAmount(o: Order): (r: nat)
    ensures IsFullOrder(o) && o.signer.kind == ERC721 ==> r == 1
    ensures IsFullOrder(o) && o.signer.kind != ERC721 ==> r == o.signer.amount
    ensures !IsFullOrder(o) && IsFullOrderERC20(o) ==> r == o.signerAmount
    ensures !IsFullOrder(o) && !IsFullOrderERC20(o) ==> r == o.senderAmount
  {
    if IsFullOrder(o) then (if o.signer.kind == ERC721 then 1 else o.signer.amount)
    else if IsFullOrderERC20(o) then o.signerAmount
    else o.senderAmount
  }

  /** `getOrderMakerToken`: the signer token of an order, the sender token of a
    * rule. */
  function OrderMakerToken(o: Order): (r: string)
    ensures IsFullOrder(o) ==> r == o.signer.token
    ensures !IsFullOrder(o) && IsFullOrderERC20(o) ==> r == o.signerToken
    ensures !IsFullOrder(o) && !IsFullOrderERC20(o) ==> r == o.senderToken
  {
    if IsFullOrder(o) then o.signer.token
    else if IsFullOrderERC20(o) then o.signerToken
    else o.senderToken
  }

  /** The maker of a full order or an ERC-20 order is its signer, that of a rule
    * its sender; so the getters read fields the family test has seen. */
  lemma MakerSideByShape(o: Order)
    ensures IsFullOrderShape(o) ==>
      OrderMakerToken(o) == o.signer.token &&
      OrderMakerAmount(o) == (if o.signer.kind == ERC721 then 1 else o.signer.amount)
    ensures IsFullOrderERC20Shape(o) ==>
      OrderMakerToken(o) == o.signerToken && OrderMakerAmount(o) == o.signerAmount
    ensures IsDelegateRuleShape(o) ==>
      OrderMakerToken(o) == o.senderToken && OrderMakerAmount(o) == o.senderAmount
  {
  }

  /** `filterTokenOrder` (helpers.ts:98-152): whether an order still holds
    * allowance of the token. Checks, in order: chain, token id of an NFT order,
    * family, maker token, same-pair delegate rule, expiry (in whole seconds of
    * `nowMs`), and last the nonce, where a check that throws excludes. */
  predicate FilterTokenOrder(
    o: Order, tokenAddress: string, allowanceType: AllowancesType,
    nonceUsed: (NonceContract, Order) -> Option<bool>, chainId: nat,
    tokenId: Option<string>, takerTokenAddress: Option<string>, nowMs: nat)
    ensures FilterTokenOrder(o, tokenAddress, allowanceType, nonceUsed, chainId, tokenId, takerTokenAddress, nowMs) ==>
      && o.chainId == chainId
      && FilterTokenByType(o, allowanceType)
      && CompareAddresses(OrderMakerToken(o), tokenAddress)
      && o.expiry >= nowMs / 1000
      && OrderNonceUsed(o, nonceUsed) == Some(false)
  {
    var now := nowMs / 1000;
    if o.chainId != chainId then false
    else if IsFullOrder(o) && o.signer.kind != ERC20 && Some(o.signer.id) != tokenId then false
    else if !FilterTokenByType(o, allowanceType) then false
    else if !CompareAddresses(OrderMakerToken(o), tokenAddress) then false
    else if Truthy(takerTokenAddress) && IsDelegateRule(o) &&
      CompareAddresses(o.signerToken, takerTokenAddress.value) then false
    else if o.expiry < now then false
    else
      match OrderNonceUsed(o, nonceUsed)
      case Some(used) => !used
      case None => false
  }

  /** An order is counted exactly when every check passes. */
  lemma FilterTokenOrderIff(
    o: Order, tokenAddress: string, allowanceType: AllowancesType,
    nonceUsed: (NonceContract, Order) -> Option<bool>, chainId: nat,
    tokenId: Option<string>, takerTokenAddress: Option<string>, nowMs: nat)
    ensures FilterTokenOrder(o, tokenAddress, allowanceType, nonceUsed, chainId, tokenId, takerTokenAddress, nowMs) <==>
      o.chainId == chainId &&
      (IsFullOrder(o) && o.signer.kind != ERC20 ==> tokenId == Some(o.signer.id)) &&
      FilterTokenByType(o, allowanceType) &&
      ToLower(OrderMakerToken(o)) == ToLower(tokenAddress) &&
      !(Truthy(takerTokenAddress) && IsDelegateRule(o) && CompareAddresses(o.signerToken, takerTokenAddress.value)) &&
      o.expiry >= nowMs / 1000 &&
      OrderNonceUsed(o, nonceUsed) == Some(false)
  {
  }

  /** What one counted order commits: its maker amount, times the fee multiplier
    * for an ERC-20 order (not rounded). */
  function Commitment(o: Order, protocolFee: nat): (r: real)
    ensures r >= OrderMakerAmount(o) as real
    ensures IsFullOrderERC20(o) ==> r * 10000.0 == OrderMakerAmount(o) as real * (10000 + protocolFee) as real
    ensures !IsFullOrderERC20(o) ==> r == OrderMakerAmount(o) as real
  {
    if IsFullOrderERC20(o) then OrderMakerAmount(o) as real * FeeMultiplier(protocolFee)
    else OrderMakerAmount(o) as real
  }

  /** `getTotalTokenAllowanceFromOrders` (helpers.ts:154-198): the commitments of
    * the counted orders added up from zero; nothing for an empty token address. */
  function TotalTokenAllowanceFromOrders(
    orders: seq<Order>, tokenAddress: string, allowanceType: AllowancesType,
    nonceUsed: (NonceContract, Order) -> Option<bool>, chainId: nat, protocolFee: nat,
    tokenId: Option<string>, takerTokenAddress: Option<string>, nowMs: nat): (r: real)
    ensures tokenAddress == "" ==> r == 0.0
  {
    if tokenAddress == "" then 0.0
    else
      var tokenOrders := Filter(orders,
        o => FilterTokenOrder(o, tokenAddress, allowanceType, nonceUsed, chainId, tokenId, takerTokenAddress, nowMs));
      SumOf(tokenOrders, o => Commitment(o, protocolFee))
  }

  /** The total is the sum over all orders with the excluded ones counted as
    * zero; so it is never negative. */
  lemma TotalIsSumOfCountedCommitments(
    orders: seq<Order>, tokenAddress: string, allowanceType: AllowancesType,
    nonceUsed: (NonceContract, Order) -> Option<bool>, chainId: nat, protocolFee: nat,
    tokenId: Option<string>, takerTokenAddress: Option<string>, nowMs: nat)
    requires tokenAddress != ""
    ensures TotalTokenAllowanceFromOrders(orders, tokenAddress, allowanceType, nonceUsed, chainId,
      protocolFee, tokenId, takerTokenAddress, nowMs) ==
      SumOf(orders, o => if FilterTokenOrder(o, tokenAddress, allowanceType, nonceUsed, chainId, tokenId,
        takerTokenAddress, nowMs) then Commitment(o, protocolFee) else 0.0)
    ensures TotalTokenAllowanceFromOrders(orders, tokenAddress, allowanceType, nonceUsed, chainId,
      protocolFee, tokenId, takerTokenAddress, nowMs) >= 0.0
  {
    var p := o => FilterTokenOrder(o, tokenAddress, allowanceType, nonceUsed, chainId, tokenId, takerTokenAddress, nowMs);
    var f := o => Commitment(o, protocolFee);
    var masked := o => if FilterTokenOrder(o, tokenAddress, allowanceType, nonceUsed, chainId, tokenId,
        takerTokenAddress, nowMs) then Commitment(o, protocolFee) else 0.0;
    SumOfFilter(orders, p, f, masked);
    SumOfNonNegative(Filter(orders, p), f);
  }

  /** Splitting the order list splits the total; so an order that fails its
    * checks (a throwing nonce check, say) removes exactly its own share. */
  lemma TotalIsAdditive(
    a: seq<Order>, b: seq<Order>, tokenAddress: string, allowanceType: AllowancesType,
    nonceUsed: (NonceContract, Order) -> Option<bool>, chainId: nat, protocolFee: nat,
    tokenId: Option<string>, takerTokenAddress: Option<string>, nowMs: nat)
    ensures TotalTokenAllowanceFromOrders(a + b, tokenAddress, allowanceType, nonceUsed, chainId,
      protocolFee, tokenId, takerTokenAddress, nowMs) ==
      TotalTokenAllowanceFromOrders(a, tokenAddress, allowanceType, nonceUsed, chainId,
        protocolFee, tokenId, takerTokenAddress, nowMs) +
      TotalTokenAllowanceFromOrders(b, tokenAddress, allowanceType, nonceUsed, chainId,
        protocolFee, tokenId, takerTokenAddress, nowMs)
  {
    if tokenAddress != "" {
      var p := o => FilterTokenOrder(o, tokenAddress, allowanceType, nonceUsed, chainId, tokenId, takerTokenAddress, nowMs);
      var f := o => Commitment(o, protocolFee);
      FilterAppend(a, b, p);
      SumOfAppend(Filter(a, p), Filter(b, p), f);
    }
  }

  /** The nonce checks run concurrently and their order does not matter: any
    * reordering of the orders gives the same total. */
  lemma TotalIgnoresOrderOfOrders(
    a: seq<Order>, b: seq<Order>, tokenAddress: string, allowanceType: AllowancesType,
    nonceUsed: (NonceContract, Order) -> Option<bool>, chainId: nat, protocolFee: nat,
    tokenId: Option<string>, takerTokenAddress: Option<string>, nowMs: nat)
    requires multiset(a) == multiset(b)
    ensures TotalTokenAllowanceFromOrders(a, tokenAddress, allowanceType, nonceUsed, chainId,
      protocolFee, tokenId, takerTokenAddress, nowMs) ==
      TotalTokenAllowanceFromOrders(b, tokenAddress, allowanceType, nonceUsed, chainId,
        protocolFee, tokenId, takerTokenAddress, nowMs)
  {
    if tokenAddress != "" {
      TotalIsSumOfCountedCommitments(a, tokenAddress, allowanceType, nonceUsed, chainId, protocolFee, tokenId, takerTokenAddress, nowMs);
      TotalIsSumOfCountedCommitments(b, tokenAddress, allowanceType, nonceUsed, chainId, protocolFee, tokenId, takerTokenAddress, nowMs);
      SumOfPermutation(a, b, o => if FilterTokenOrder(o, tokenAddress, allowanceType, nonceUsed, chainId, tokenId,
        takerTokenAddress, nowMs) then Commitment(o, protocolFee) else 0.0);
    }
  }

  /** A single order adds its commitment when it passes the checks and nothing
    * otherwise; in particular an order whose nonce check throws adds nothing. */
  lemma TotalOfOneOrder(
    o: Order, tokenAddress: string, allowanceType: AllowancesType,
    nonceUsed: (NonceContract, Order) -> Option<bool>, chainId: nat, protocolFee: nat,
    tokenId: Option<string>, takerTokenAddress: Option<string>, nowMs: nat)
    requires tokenAddress != ""
    ensures TotalTokenAllowanceFromOrders([o], tokenAddress, allowanceType, nonceUsed, chainId,
      protocolFee, tokenId, takerTokenAddress, nowMs) ==
      if FilterTokenOrder(o, tokenAddress, allowanceType, nonceUsed, chainId, tokenId, takerTokenAddress, nowMs)
      then Commitment(o, protocolFee) else 0.0
    ensures OrderNonceUsed(o, nonceUsed).None? ==>
      TotalTokenAllowanceFromOrders([o], tokenAddress, allowanceType, nonceUsed, chainId,
        protocolFee, tokenId, takerTokenAddress, nowMs) == 0.0
  {
    TotalIsSumOfCountedCommitments([o], tokenAddress, allowanceType, nonceUsed, chainId, protocolFee, tokenId, takerTokenAddress, nowMs);
  }

  /** A 1e18 ERC-20 order at a 30 basis-point fee commits 1.003e18 atomic units. */
  lemma Erc20CommitmentExample(o: Order)
    requires IsFullOrderERC20(o) && !IsFullOrder(o) && o.signerAmount == 1000000000000000000
    ensures Commitment(o, 30) == 1003000000000000000.0
  {
  }

  /** The commitment is not rounded, so it can be fractional: 1000001 at 7 basis
    * points commits 1000701.0007, and a needed allowance over that total makes
    * `formatUnits` throw. */
  lemma FractionalCommitmentThrows(
    o: Order, tokenInfo: Option<TokenInfo>, tokenDecimals: TokenInfo -> nat, toAtomic: (string, nat) -> nat)
    requires IsFullOrderERC20(o) && !IsFullOrder(o) && o.signerAmount == 1000001
    ensures Commitment(o, 7) == 1000701.0007
    ensures TotalNeededAllowance("", Commitment(o, 7), tokenInfo, tokenDecimals, toAtomic) == None
  {
    var c := Commitment(o, 7);
    assert c == 1000701.0007;
    assert c.Floor == 1000701;
  }
}
