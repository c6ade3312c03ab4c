/** `src/components/@widgets/MyOrdersWidget/entities/MyOrderTransformers.ts` and
  * the `MyOrder` row it builds: one line of the user's order list. */
module MyOrderTransformers {
  import opened Wrappers
  import opened Entities
  import opened FullOrderHelpers
  import opened Routes

  datatype MyOrderType = FullType | FullERC20Type | DelegateType

  /** `MyOrder`. Amounts are atomic; `expiryMs` is the `Date` in milliseconds;
    * `forWallet` is the `for` field. */
  datatype MyOrder = MyOrder(
    id: string, orderType: MyOrderType, hasAllowanceWarning: bool,
    chainId: nat, forWallet: string,
    senderToken: Option<TokenInfo>, senderAmount: nat,
    signerToken: Option<TokenInfo>, signerAmount: nat,
    status: OrderStatus, expiryMs: int, link: string)

  /** `getFullOrderAmount`: an ERC-721 side moves exactly one token. */
  function FullOrderAmount(party: Party): (r: nat)
    ensures party.kind == ERC721 ==> r == 1
    ensures party.kind != ERC721 ==> r == party.amount
  {
    if party.kind == ERC721 then 1 else party.amount
  }

  /** `transformFullOrderToMyOrder`. `compressFullOrder` and
    * `compressFullOrderERC20` are not part of this model. */
  function TransformFullOrderToMyOrder(
    order: Order, status: OrderStatus, signerToken: Option<TokenInfo>, senderToken: Option<TokenInfo>,
    compressFullOrder: Order -> string, compressFullOrderERC20: Order -> string): (r: MyOrder)
    ensures r.id == order.nonce && r.chainId == order.chainId && r.status == status
    ensures !r.hasAllowanceWarning && r.orderType != DelegateType
    ensures r.signerToken == signerToken && r.senderToken == senderToken
  {
    var full := IsFullOrder(order);
    var compressedOrder := if full then compressFullOrder(order) else compressFullOrderERC20(order);
    MyOrder(
      order.nonce,
      if full then FullType else FullERC20Type,
      false,
      order.chainId,
      if full then order.sender.wallet else order.senderWallet,
      senderToken,
      if full then FullOrderAmount(order.sender) else order.senderAmount,
      signerToken,
      if full then FullOrderAmount(order.signer) else order.signerAmount,
      status,
      order.expiry * 1000,
      OtcOrderRoute(compressedOrder))
  }

  /** What the row carries: the nonce as id, "full" exactly for full orders, no
    * warning yet, the given status and chain, the counterparty, the expiry in
    * milliseconds, and a link whose parameter is the compressed order. */
  lemma TransformFullOrderToMyOrderFields(
    order: Order, status: OrderStatus, signerToken: Option<TokenInfo>, senderToken: Option<TokenInfo>,
    compressFullOrder: Order -> string, compressFullOrderERC20: Order -> string)
    ensures var r := TransformFullOrderToMyOrder(order, status, signerToken, senderToken, compressFullOrder, compressFullOrderERC20);
      && r.id == order.nonce
      && (r.orderType == FullType <==> IsFullOrder(order))
      && r.orderType != DelegateType
      && !r.hasAllowanceWarning
      && r.status == status && r.chainId == order.chainId
      && r.signerToken == signerToken && r.senderToken == senderToken
      && r.expiryMs == order.expiry * 1000
      && OtcOrderParameter(r.link) == (if IsFullOrder(order) then compressFullOrder(order) else compressFullOrderERC20(order))
  {
    OtcOrderRouteRoundTrip(if IsFullOrder(order) then compressFullOrder(order) else compressFullOrderERC20(order));
  }

  /** The amounts and counterparty: nested sides for full orders, with an
    * ERC-721 side counting one; the flat fields for ERC-20 orders. */
  lemma TransformFullOrderToMyOrderAmounts(
    order: Order, status: OrderStatus, signerToken: Option<TokenInfo>, senderToken: Option<TokenInfo>,
    compressFullOrder: Order -> string, compressFullOrderERC20: Order -> string)
    ensures var r := TransformFullOrderToMyOrder(order, status, signerToken, senderToken, compressFullOrder, compressFullOrderERC20);
      if IsFullOrder(order) then
        && r.forWallet == order.sender.wallet
        && r.signerAmount == (if order.signer.kind == ERC721 then 1 else order.signer.amount)
        && r.senderAmount == (if order.sender.kind == ERC721 then 1 else order.sender.amount)
      else
        r.forWallet == order.senderWallet && r.signerAmount == order.signerAmount && r.senderAmount == order.senderAmount
  {
  }
}
