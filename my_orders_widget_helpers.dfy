/** `src/components/@widgets/MyOrdersWidget/helpers/index.ts`: per-token totals
  * of the user's open orders and the allowance warning each row shows. */
module MyOrdersWidgetHelpers {
  import opened Wrappers
  import opened Entities
  import opened Units
  import opened Seqs
  import opened BalancesSlice
  import opened MyOrderTransformers

  /** `getTokenAmountWithDecimals`: an atomic amount in whole tokens, with 18
    * decimals when none are given. */
  function TokenAmountWithDecimals(amount: real, decimals: Option<nat>): (r: real)
    ensures r * Pow10(decimals.GetOr(18)) as real == amount
  {
    FormatUnits(amount, decimals.GetOr(18))
  }

  /** `getOrderMakerToken`: a delegate rule's maker gives the sender token, any
    * other order's maker the signer token. */
  function MyOrderMakerToken(order: MyOrder): (r: Option<TokenInfo>)
    ensures order.orderType == DelegateType ==> r == order.senderToken
    ensures order.orderType != DelegateType ==> r == order.signerToken
  {
    if order.orderType == DelegateType then order.senderToken else order.signerToken
  }

  /** The amount on the maker's side, read from the same side as the token. */
  function MyOrderMakerAmount(order: MyOrder): nat
  {
    if order.orderType == DelegateType then order.senderAmount else order.signerAmount
  }

  /** The orders a total counts: with a maker token and still open. */
  predicate CountsTowardsApproval(order: MyOrder)
  {
    MyOrderMakerToken(order).Some? && order.status == Open
  }

  /** What one counted order commits: the maker amount, with the protocol fee
    * on top for ERC-20 orders when a non-zero fee is given. */
  function OrderApprovalAmount(order: MyOrder, protocolFee: Option<nat>): (r: real)
    ensures r >= MyOrderMakerAmount(order) as real
    ensures protocolFee.Some? && protocolFee.value != 0 && order.orderType == FullERC20Type ==>
      r * 10000.0 == MyOrderMakerAmount(order) as real * (10000 + protocolFee.value) as real
    ensures !(protocolFee.Some? && protocolFee.value != 0 && order.orderType == FullERC20Type) ==>
      r == MyOrderMakerAmount(order) as real
  {
    var amount := MyOrderMakerAmount(order) as real;
    if protocolFee.Some? && protocolFee.value != 0 && order.orderType == FullERC20Type then
      var m := FeeMultiplier(protocolFee.value);
      assert amount * m - amount == amount * (m - 1.0);
      assert amount * m * 10000.0 == amount * (m * 10000.0);
      amount * m
    else amount
  }

  /** The key a counted order's total goes under. */
  function MakerTokenId(order: MyOrder, tokenId: TokenInfo -> string): string
    requires MyOrderMakerToken(order).Some?
  {
    tokenId(MyOrderMakerToken(order).value)
  }

  /** The dictionary the reduce builds, one order at a time. */
  function ApprovalTotals(orders: seq<MyOrder>, protocolFee: Option<nat>, tokenId: TokenInfo -> string): map<string, real>
  {
    if orders == [] then map[]
    else
      var acc := ApprovalTotals(orders[..|orders| - 1], protocolFee, tokenId);
      var order := orders[|orders| - 1];
      if !CountsTowardsApproval(order) then acc
      else
        var key := MakerTokenId(order, tokenId);
        var currentAmount := if key in acc then acc[key] else 0.0;
        acc[key := currentAmount + OrderApprovalAmount(order, protocolFee)]
  }

  /** The reference total for one token: what the counted orders on that token
    * commit, added up. */
  function TokenTotal(orders: seq<MyOrder>, protocolFee: Option<nat>, tokenId: TokenInfo -> string, key: string): real
  {
    SumOf(orders, (order: MyOrder) =>
      if CountsTowardsApproval(order) && MakerTokenId(order, tokenId) == key
      then OrderApprovalAmount(order, protocolFee) else 0.0)
  }

  /** `getOrdersTotalApprovalAmount`: fills the accumulator dictionary in one
    * pass over the orders. */
  method OrdersTotalApprovalAmount(orders: seq<MyOrder>, protocolFee: Option<nat>, tokenId: TokenInfo -> string)
    returns (acc: map<string, real>)
    ensures acc == ApprovalTotals(orders, protocolFee, tokenId)
  {
    acc := map[];
    var i := 0;
    while i < |orders|
      invariant 0 <= i <= |orders|
      invariant acc == ApprovalTotals(orders[..i], protocolFee, tokenId)
    {
      assert orders[..i + 1][..i] == orders[..i];
      var order := orders[i];
      var makerToken := MyOrderMakerToken(order);
      if makerToken.Some? && order.status == Open {
        var key := tokenId(makerToken.value);
        var currentAmount := if key in acc then acc[key] else 0.0;
        acc := acc[key := currentAmount + OrderApprovalAmount(order, protocolFee)];
      }
      i := i + 1;
    }
    assert orders[..|orders|] == orders;
  }

  /** The dictionary has an entry exactly for the tokens some counted order is
    * on. */
  lemma {:induction false} ApprovalTotalsKeys(
    orders: seq<MyOrder>, protocolFee: Option<nat>, tokenId: TokenInfo -> string, key: string)
    ensures key in ApprovalTotals(orders, protocolFee, tokenId) <==>
      exists i :: 0 <= i < |orders| && CountsTowardsApproval(orders[i]) && MakerTokenId(orders[i], tokenId) == key
  {
    if orders != [] {
      var n := |orders|;
      var init := orders[..n - 1];
      ApprovalTotalsKeys(init, protocolFee, tokenId, key);
      assert forall i :: 0 <= i < n - 1 ==> init[i] == orders[i];
      var last := orders[n - 1];
      if !(CountsTowardsApproval(last) && MakerTokenId(last, tokenId) == key) {
        assert (exists i :: 0 <= i < n && CountsTowardsApproval(orders[i]) && MakerTokenId(orders[i], tokenId) == key) ==>
          (exists i :: 0 <= i < n - 1 && CountsTowardsApproval(init[i]) && MakerTokenId(init[i], tokenId) == key);
      }
    }
  }

  /** Each entry of the dictionary is its token's total: two open orders on one
    * token add into one entry, and a token with no entry has nothing to
    * approve. */
  lemma {:induction false} ApprovalTotalsArePerTokenSums(
    orders: seq<MyOrder>, protocolFee: Option<nat>, tokenId: TokenInfo -> string, key: string)
    ensures key in ApprovalTotals(orders, protocolFee, tokenId) <==>
      exists i :: 0 <= i < |orders| && CountsTowardsApproval(orders[i]) && MakerTokenId(orders[i], tokenId) == key
    ensures key in ApprovalTotals(orders, protocolFee, tokenId) ==>
      ApprovalTotals(orders, protocolFee, tokenId)[key] == TokenTotal(orders, protocolFee, tokenId, key)
    ensures key !in ApprovalTotals(orders, protocolFee, tokenId) ==> TokenTotal(orders, protocolFee, tokenId, key) == 0.0
  {
    ApprovalTotalsKeys(orders, protocolFee, tokenId, key);
    var f := (order: MyOrder) =>
      if CountsTowardsApproval(order) && MakerTokenId(order, tokenId) == key
      then OrderApprovalAmount(order, protocolFee) else 0.0;
    if orders != [] {
      var n := |orders|;
      var init := orders[..n - 1];
      var last := orders[n - 1];
      ApprovalTotalsArePerTokenSums(init, protocolFee, tokenId, key);
      assert orders == init + [last];
      SumOfAppend(init, [last], f);
      assert SumOf([last], f) == f(last) + SumOf([last][1..], f);
    }
  }

  /** The row after the warning pass. */
  function WithApprovalWarning(
    order: MyOrder, tokenApprovals: map<string, real>, allowances: BalanceValues, tokenId: TokenInfo -> string): (r: MyOrder)
    ensures r.(hasAllowanceWarning := order.hasAllowanceWarning) == order
    ensures MyOrderMakerToken(order).None? ==> r == order
    ensures MyOrderMakerToken(order).Some? ==>
      var key := tokenId(MyOrderMakerToken(order).value);
      (r.hasAllowanceWarning <==> order.status == Open && key in tokenApprovals &&
                                   (CurrentAmount(allowances, key) as real) < tokenApprovals[key])
  {
    var makerToken := MyOrderMakerToken(order);
    if makerToken.None? then order
    else
      var key := tokenId(makerToken.value);
      var approvedAmount := CurrentAmount(allowances, key) as real;
      var tokensAmount := if key in tokenApprovals then tokenApprovals[key] else 0.0;
      order.(hasAllowanceWarning := order.status == Open && approvedAmount < tokensAmount)
  }

  /** `getOrdersWithApprovalWarnings`: the same rows in the same order, each
    * changed at most in its warning flag. */
  function OrdersWithApprovalWarnings(
    orders: seq<MyOrder>, allowances: BalanceValues, protocolFee: Option<nat>, tokenId: TokenInfo -> string): (r: seq<MyOrder>)
    ensures |r| == |orders|
    ensures forall i :: 0 <= i < |r| ==> r[i] == orders[i].(hasAllowanceWarning := r[i].hasAllowanceWarning)
    ensures forall i :: 0 <= i < |r| && MyOrderMakerToken(orders[i]).None? ==> r[i] == orders[i]
  {
    var tokenApprovals := ApprovalTotals(orders, protocolFee, tokenId);
    seq(|orders|, i requires 0 <= i < |orders| => WithApprovalWarning(orders[i], tokenApprovals, allowances, tokenId))
  }

  /** A row with a maker token is flagged exactly when it is open and the
    * approved allowance (a missing entry being zero) is below what all the
    * user's open orders on that token commit. */
  lemma WarningIffAllowanceShort(
    orders: seq<MyOrder>, allowances: BalanceValues, protocolFee: Option<nat>, tokenId: TokenInfo -> string, i: nat)
    requires i < |orders| && MyOrderMakerToken(orders[i]).Some?
    ensures var key := MakerTokenId(orders[i], tokenId);
      OrdersWithApprovalWarnings(orders, allowances, protocolFee, tokenId)[i].hasAllowanceWarning <==>
        orders[i].status == Open &&
        (CurrentAmount(allowances, key) as real) < TokenTotal(orders, protocolFee, tokenId, key)
  {
    ApprovalTotalsArePerTokenSums(orders, protocolFee, tokenId, MakerTokenId(orders[i], tokenId));
  }
}
