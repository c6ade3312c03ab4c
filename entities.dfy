/** The values the application passes around: tokens, orders and delegate rules
  * (one duck-typed record), submitted transactions and contract events. */
module Entities {
  import opened Wrappers

  /** `ADDRESS_ZERO`, which also stands for the chain's native token. */
  const AddressZero: string := "0x0000000000000000000000000000000000000000"

  datatype TokenKind = ERC20 | ERC721 | ERC1155

  /** Token metadata: a fungible token, or an NFT collection token picked by id. */
  datatype TokenInfo =
    | Erc20Token(chainId: nat, address: string, decimals: nat, symbol: string)
    | CollectionToken(chainId: nat, kind: TokenKind, address: string, id: string,
                      image: string, name: string, uri: string)
  {
    /** `isCollectionTokenInfo`. */
    predicate IsCollection()
    {
      CollectionToken?
    }
  }

  /** One side of a full (NFT-capable) order. Amounts are atomic units. */
  datatype Party = Party(wallet: string, token: string, kind: TokenKind, id: string, amount: nat)

  /** The property names the duck-typing predicates test with `"name" in value`.
    * `chainId` and `expiry` are read but never tested. */
  datatype Field =
    | Signer | Sender | AffiliateWallet | AffiliateAmount
    | SignerWallet | SignerToken | SignerAmount
    | SenderWallet | SenderToken | SenderAmount | SenderFilledAmount
    | ProtocolFee | Nonce | Expiry | V | R | S | SwapContract

  /** A full order, an ERC-20 order or a delegate rule, as the untyped object it
    * is at runtime: `fields` is what `in` sees, the remaining components are what
    * reads return. */
  datatype Order = Order(
    fields: set<Field>,
    signer: Party, sender: Party,
    affiliateWallet: string, affiliateAmount: nat,
    signerWallet: string, signerToken: string, signerAmount: nat,
    senderWallet: string, senderToken: string, senderAmount: nat, senderFilledAmount: nat,
    protocolFee: nat, nonce: string, expiry: int,
    v: string, r: string, s: string,
    chainId: nat, swapContract: string)

  /** What `typeof` and `!== null` distinguish. */
  datatype JsValue = Null | Primitive | Obj(obj: Order)

  /** The fields each of the three shapes declares. */
  const FullOrderFieldSet: set<Field> :=
    {Signer, Sender, AffiliateWallet, AffiliateAmount, ProtocolFee, Nonce, Expiry, V, R, S, SwapContract}
  const FullOrderERC20FieldSet: set<Field> :=
    {SignerWallet, SignerToken, SignerAmount, SenderWallet, SenderToken, SenderAmount,
     ProtocolFee, Nonce, Expiry, V, R, S}
  const DelegateRuleFieldSet: set<Field> :=
    {SenderWallet, SenderToken, SenderAmount, SenderFilledAmount, SignerToken, SignerAmount, Expiry}

  /** `AllowancesType` of `useAllowance`: the contract an approval is for. */
  datatype AllowancesType = SwapAllowance | SwapERC20Allowance | DelegateAllowance

  /** `SpenderAddressType` of the balances API. */
  datatype SpenderAddressType = WrapperSpender | SwapSpender | SwapERC20Spender | DelegateSpender

  datatype OrderStatus = Open | Taken | Expired | Canceled | Filled

  /** The `swap` event data kept with an ERC-20 order transaction. */
  datatype SwapERC20 = SwapERC20(senderWallet: string, senderAmount: nat)

  datatype TransactionStatus = Processing | Succeeded | Declined | Reverted | TransactionExpired

  /** A submitted transaction; the constructor is its `type` tag. Timestamps are
    * milliseconds. */
  datatype SubmittedTransaction =
    | ApprovalTx(hash: Option<string>, status: TransactionStatus, timestamp: nat)
    | CancelTx(hash: Option<string>, status: TransactionStatus, timestamp: nat)
    | DepositTx(hash: Option<string>, status: TransactionStatus, timestamp: nat, order: Order)
    | WithdrawTx(hash: Option<string>, status: TransactionStatus, timestamp: nat, order: Order)
    | OrderTx(hash: Option<string>, status: TransactionStatus, timestamp: nat, order: Order,
              swap: Option<SwapERC20>, isLastLook: bool,
              signerTokenInfo: TokenInfo, senderTokenInfo: TokenInfo)
    | SetRuleTx(hash: Option<string>, status: TransactionStatus, timestamp: nat, rule: Order)
    | UnsetRuleTx(hash: Option<string>, status: TransactionStatus, timestamp: nat,
                  unsetSenderWallet: string, unsetSenderToken: TokenInfo,
                  unsetSignerToken: TokenInfo, unsetChainId: nat)
    | DelegatedSwapTx(hash: Option<string>, status: TransactionStatus, timestamp: nat,
                      order: Order, delegateRule: Order)

  /** A decoded contract event: `name` is absent on events without one. */
  datatype TransactionEvent = TransactionEvent(
    name: Option<string>,
    senderWallet: string, senderToken: string, senderAmount: nat,
    signerWallet: string, signerToken: string, signerAmount: nat,
    expiry: int, nonce: string, chainId: nat)

  /** A string is truthy when it is present and not empty. */
  predicate Truthy(s: Option<string>)
  {
    s.Some? && s.value != ""
  }
}
