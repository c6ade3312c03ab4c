/** `src/components/@widgets/MyOtcOrdersWidget/subcomponents/MyOtcOrdersList/helpers/index.ts`:
  * turning a stored OTC order into a row of the user's order list. */
module MyOtcOrdersListHelpers {
  import opened Wrappers
  import opened Entities
  import opened StringHelpers
  import opened FullOrderHelpers
  import opened MyOrderTransformers
  import OrderERC20Helpers

  /** How the nonce lookup `getNonceUsed` ends: with a value, by throwing before
    * it returns a promise, or with a promise that rejects. */
  datatype NonceLookup = Resolves(used: bool) | ThrowsSynchronously | Rejects

  /** `findTokenInfo`, local part first. `findTokenByAddressAndId` searches the
    * active tokens; `fetchTokenInfo` is `getTokenInfo` on chain, `None` when it
    * throws. */
  function FindTokenInfo(
    token: string, activeTokens: seq<TokenInfo>, tokenId: Option<string>,
    findTokenByAddressAndId: (seq<TokenInfo>, string, Option<string>) -> Option<TokenInfo>,
    fetchTokenInfo: string -> Option<TokenInfo>): (r: Option<TokenInfo>)
    ensures findTokenByAddressAndId(activeTokens, token, tokenId).Some? ==>
      r == findTokenByAddressAndId(activeTokens, token, tokenId)
    ensures findTokenByAddressAndId(activeTokens, token, tokenId).None? ==>
      (r.Some? <==> fetchTokenInfo(token).Some?) &&
      (r.Some? ==> r.value == fetchTokenInfo(token).value.(address := ToLower(fetchTokenInfo(token).value.address)))
  {
    var activeToken := findTokenByAddressAndId(activeTokens, token, tokenId);
    if activeToken.Some? then activeToken
    else
      var fetched := fetchTokenInfo(token);
      if fetched.None? then None
      else Some(fetched.value.(address := ToLower(fetched.value.address)))
  }

  /** A fetched token's address is stored lower-cased. */
  lemma FetchedTokenAddressIsLowerCase(
    token: string, activeTokens: seq<TokenInfo>, tokenId: Option<string>,
    findTokenByAddressAndId: (seq<TokenInfo>, string, Option<string>) -> Option<TokenInfo>,
    fetchTokenInfo: string -> Option<TokenInfo>)
    requires findTokenByAddressAndId(activeTokens, token, tokenId).None?
    requires fetchTokenInfo(token).Some?
    ensures var r := FindTokenInfo(token, activeTokens, tokenId, findTokenByAddressAndId, fetchTokenInfo);
      r.Some? && ToLower(r.value.address) == r.value.address &&
      CompareAddresses(r.value.address, fetchTokenInfo(token).value.address)
  {
    ToLowerIdempotent(fetchTokenInfo(token).value.address);
  }

  /** `callGetNonceUsed`: a synchronous throw reads as "not used"; a rejected
    * promise is returned as it is, without `await`, so it escapes the `catch`
    * (`None`). */
  function CallGetNonceUsed(lookup: NonceLookup): (r: Option<bool>)
    ensures lookup.Resolves? ==> r == Some(lookup.used)
    ensures lookup.ThrowsSynchronously? ==> r == Some(false)
    ensures r.None? <==> lookup.Rejects?
  {
    match lookup
    case Resolves(used) => Some(used)
    case ThrowsSynchronously => Some(false)
    case Rejects => None
  }

  /** `transformToOrderStatus`. */
  function TransformToOrderStatus(isTaken: bool, isExpired: bool, isCanceled: bool): (r: OrderStatus)
    ensures r != Filled
    ensures r == Open <==> !isTaken && !isExpired && !isCanceled
  {
    if isCanceled then Canceled
    else if isTaken then Taken
    else if isExpired then Expired
    else Open
  }

  /** Canceled wins over taken, taken over expired, and an order is open
    * exactly when no flag is set; the status is never "filled". */
  lemma OrderStatusPrecedence(isTaken: bool, isExpired: bool, isCanceled: bool)
    ensures TransformToOrderStatus(isTaken, isExpired, isCanceled) == Canceled <==> isCanceled
    ensures TransformToOrderStatus(isTaken, isExpired, isCanceled) == Taken <==> !isCanceled && isTaken
    ensures TransformToOrderStatus(isTaken, isExpired, isCanceled) == Expired <==> !isCanceled && !isTaken && isExpired
    ensures TransformToOrderStatus(isTaken, isExpired, isCanceled) == Open <==> !isCanceled && !isTaken && !isExpired
    ensures TransformToOrderStatus(isTaken, isExpired, isCanceled) != Filled
  {
  }

  /** The helpers `getFullOrderDataAndTransformToOrder` calls that are not part
    * of this model. */
  datatype OrderRowHelpers = OrderRowHelpers(
    findTokenByAddressAndId: (seq<TokenInfo>, string, Option<string>) -> Option<TokenInfo>,
    fetchTokenInfo: string -> Option<TokenInfo>,
    nonceLookup: Order -> NonceLookup,
    compressFullOrder: Order -> string,
    compressFullOrderERC20: Order -> string)

  /** `getFullOrderDataAndTransformToOrder`, with `now` in milliseconds; `None`
    * when the nonce lookup's promise rejects. */
  function FullOrderDataAndTransformToOrder(
    order: Order, activeTokens: seq<TokenInfo>, nowMs: int, h: OrderRowHelpers): (r: Option<MyOrder>)
    ensures r.None? <==> h.nonceLookup(order).Rejects?
    ensures r.Some? ==> r.value.id == order.nonce && r.value.chainId == order.chainId && !r.value.hasAllowanceWarning
  {
    var full := IsFullOrder(order);
    var signerToken := FindTokenInfo(if full then order.signer.token else order.signerToken,
                                     activeTokens, OrderERC20Helpers.OrderSignerTokenId(order),
                                     h.findTokenByAddressAndId, h.fetchTokenInfo);
    var senderToken := FindTokenInfo(if full then order.sender.token else order.senderToken,
                                     activeTokens, None, h.findTokenByAddressAndId, h.fetchTokenInfo);
    var isTaken := CallGetNonceUsed(h.nonceLookup(order));
    if isTaken.None? then None
    else
      var isExpired := nowMs > order.expiry * 1000;
      var status := TransformToOrderStatus(isTaken.value, isExpired, false);
      Some(TransformFullOrderToMyOrder(order, status, signerToken, senderToken,
                                       h.compressFullOrder, h.compressFullOrderERC20))
  }

  /** A row built from a stored order is never canceled; it is taken exactly
    * when the nonce reads as used, expired exactly when not taken and `now` is
    * strictly past the expiry in milliseconds, and open otherwise. */
  lemma FullOrderRowStatus(order: Order, activeTokens: seq<TokenInfo>, nowMs: int, h: OrderRowHelpers)
    ensures var r := FullOrderDataAndTransformToOrder(order, activeTokens, nowMs, h);
      && (r.None? <==> h.nonceLookup(order).Rejects?)
      && (r.Some? ==>
            var used := h.nonceLookup(order).Resolves? && h.nonceLookup(order).used;
            && r.value.status != Canceled
            && (r.value.status == Taken <==> used)
            && (r.value.status == Expired <==> !used && nowMs > order.expiry * 1000)
            && (r.value.status == Open <==> !used && nowMs <= order.expiry * 1000)
            && r.value.id == order.nonce)
  {
    var isTaken := CallGetNonceUsed(h.nonceLookup(order));
    if isTaken.Some? {
      OrderStatusPrecedence(isTaken.value, nowMs > order.expiry * 1000, false);
    }
  }
}
