/** `src/entities/OrderERC20/OrderERC20Helpers.ts`: recognising ERC-20 orders and
  * reading an order's sides whichever shape it has. */
module OrderERC20Helpers {
  import opened Wrappers
  import opened Entities
  import opened FullOrderHelpers

  /** The property test of `isOrderERC20` on an object. */
  predicate IsOrderERC20(o: Order)
  {
    {Nonce, Expiry, SignerWallet, SignerToken, SignerAmount, SenderToken, SenderAmount, V, R, S} <= o.fields
  }

  predicate IsOrderERC20Value(v: JsValue)
  {
    v.Obj? && IsOrderERC20(v.obj)
  }

  /** The property test of `isFullOrderERC20` on an object. */
  predicate IsFullOrderERC20(o: Order)
  {
    {SignerWallet, SenderWallet, SignerToken, SenderToken, SignerAmount, SenderAmount, ProtocolFee, V, R, S} <= o.fields
  }

  predicate IsFullOrderERC20Value(v: JsValue)
  {
    v.Obj? && IsFullOrderERC20(v.obj)
  }

  /** Neither test accepts `null` or a primitive; an ERC-20 order needs no
    * sender wallet, a full ERC-20 order needs neither nonce nor expiry, and
    * without a signer wallet a record is no full ERC-20 order. */
  lemma Erc20PredicatesFields(v: JsValue, o: Order)
    ensures !v.Obj? ==> !IsOrderERC20Value(v) && !IsFullOrderERC20Value(v)
    ensures IsOrderERC20(o) ==> IsOrderERC20(o.(fields := o.fields - {SenderWallet}))
    ensures IsFullOrderERC20(o) ==> IsFullOrderERC20(o.(fields := o.fields - {Nonce, Expiry}))
    ensures SignerWallet !in o.fields ==> !IsFullOrderERC20(o) && !IsOrderERC20(o)
  {
  }

  /** `getOrderExpiryWithBufferInSeconds`: the expiry moved earlier by the
    * request-for-quote buffer, which is configured in milliseconds. */
  function ExpiryWithBufferInSeconds(expiry: int, bufferMs: int): (r: real)
    ensures r + bufferMs as real / 1000.0 == expiry as real
    ensures bufferMs >= 0 ==> r <= expiry as real
  {
    expiry as real - bufferMs as real / 1000.0
  }

  function OrderSignerWallet(o: Order): string
  {
    if IsFullOrder(o) then o.signer.wallet else o.signerWallet
  }

  function OrderSignerAmount(o: Order): nat
  {
    if IsFullOrder(o) then o.signer.amount else o.signerAmount
  }

  function OrderSenderAmount(o: Order): nat
  {
    if IsFullOrder(o) then o.sender.amount else o.senderAmount
  }

  function OrderSenderToken(o: Order): string
  {
    if IsFullOrder(o) then o.sender.token else o.senderToken
  }

  function OrderSignerToken(o: Order): string
  {
    if IsFullOrder(o) then o.signer.token else o.signerToken
  }

  /** The id of a non-fungible sender token; `None` for ERC-20 orders and sides. */
  function OrderSenderTokenId(o: Order): (r: Option<string>)
    ensures r.Some? <==> IsFullOrder(o) && o.sender.kind != ERC20
    ensures r.Some? ==> r.value == o.sender.id
  {
    if IsFullOrder(o) && o.sender.kind != ERC20 then Some(o.sender.id) else None
  }

  function OrderSignerTokenId(o: Order): (r: Option<string>)
    ensures r.Some? <==> IsFullOrder(o) && o.signer.kind != ERC20
    ensures r.Some? ==> r.value == o.signer.id
  {
    if IsFullOrder(o) && o.signer.kind != ERC20 then Some(o.signer.id) else None
  }

  /** The getters read the nested sides of a full order and the flat fields of
    * every other record. */
  lemma GettersReadTheRightShape(o: Order)
    ensures IsFullOrder(o) ==>
      OrderSignerWallet(o) == o.signer.wallet && OrderSignerAmount(o) == o.signer.amount &&
      OrderSignerToken(o) == o.signer.token && OrderSenderAmount(o) == o.sender.amount &&
      OrderSenderToken(o) == o.sender.token
    ensures !IsFullOrder(o) ==>
      OrderSignerWallet(o) == o.signerWallet && OrderSignerAmount(o) == o.signerAmount &&
      OrderSignerToken(o) == o.signerToken && OrderSenderAmount(o) == o.senderAmount &&
      OrderSenderToken(o) == o.senderToken && OrderSenderTokenId(o) == None && OrderSignerTokenId(o) == None
  {
  }
}
