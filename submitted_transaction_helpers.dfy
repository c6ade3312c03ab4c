/** `src/entities/SubmittedTransaction/SubmittedTransactionHelpers.ts`: type tests
  * on submitted transactions, their identity (key and matching) and the
  * fee-adjusted amounts shown for an order. */
module SubmittedTransactionHelpers {
  import opened Wrappers
  import opened Entities
  import opened StringHelpers
  import opened FullOrderHelpers
  import opened OrderERC20Helpers

  predicate IsApprovalTransaction(t: SubmittedTransaction) { t.ApprovalTx? }
  predicate IsCancelTransaction(t: SubmittedTransaction) { t.CancelTx? }
  predicate IsDepositTransaction(t: SubmittedTransaction) { t.DepositTx? }
  predicate IsWithdrawTransaction(t: SubmittedTransaction) { t.WithdrawTx? }
  predicate IsSubmittedOrder(t: SubmittedTransaction) { t.OrderTx? }
  predicate IsSetRuleTransaction(t: SubmittedTransaction) { t.SetRuleTx? }
  predicate IsUnsetRuleTransaction(t: SubmittedTransaction) { t.UnsetRuleTx? }
  predicate IsDelegatedSwapTransaction(t: SubmittedTransaction) { t.DelegatedSwapTx? }

  /** A transaction has one type, so exactly one of the eight type tests
    * passes. */
  lemma TypeTestsPartition(t: SubmittedTransaction)
    ensures (if IsApprovalTransaction(t) then 1 else 0) + (if IsCancelTransaction(t) then 1 else 0) +
            (if IsDepositTransaction(t) then 1 else 0) + (if IsWithdrawTransaction(t) then 1 else 0) +
            (if IsSubmittedOrder(t) then 1 else 0) + (if IsSetRuleTransaction(t) then 1 else 0) +
            (if IsUnsetRuleTransaction(t) then 1 else 0) + (if IsDelegatedSwapTransaction(t) then 1 else 0) == 1
  {
  }

  /** An order the counterparty has not answered yet: no hash. */
  predicate IsSubmittedOrderUnderConsideration(t: SubmittedTransaction)
  {
    t.OrderTx? && !Truthy(t.hash)
  }

  predicate IsLastLookOrderTransaction(t: SubmittedTransaction)
  {
    IsSubmittedOrder(t) && Truthy(t.hash) && t.isLastLook
  }

  /** An order transaction is either under consideration or has a hash; a
    * last-look order is never under consideration. */
  lemma OrderTransactionStates(t: SubmittedTransaction)
    ensures IsSubmittedOrderUnderConsideration(t) ==> IsSubmittedOrder(t)
    ensures IsLastLookOrderTransaction(t) ==> !IsSubmittedOrderUnderConsideration(t)
    ensures IsSubmittedOrder(t) ==> (Truthy(t.hash) <==> !IsSubmittedOrderUnderConsideration(t))
  {
  }

  /** `sortSubmittedTransactionsByExpiry`, a comparator: negative puts `a` first. */
  function CompareByTimestamp(a: SubmittedTransaction, b: SubmittedTransaction): int
  {
    b.timestamp - a.timestamp
  }

  /** The comparator orders newest first, is antisymmetric, and its "not after"
    * relation is total and transitive, so sorting with it is well defined. */
  lemma CompareByTimestampIsNewestFirst(a: SubmittedTransaction, b: SubmittedTransaction, c: SubmittedTransaction)
    ensures CompareByTimestamp(a, b) < 0 <==> a.timestamp > b.timestamp
    ensures CompareByTimestamp(a, b) == 0 <==> a.timestamp == b.timestamp
    ensures CompareByTimestamp(a, b) == -CompareByTimestamp(b, a)
    ensures CompareByTimestamp(a, b) <= 0 || CompareByTimestamp(b, a) <= 0
    ensures CompareByTimestamp(a, b) <= 0 && CompareByTimestamp(b, c) <= 0 ==> CompareByTimestamp(a, c) <= 0
  {
    var x: int, y: int, z: int := a.timestamp, b.timestamp, c.timestamp;
    assert CompareByTimestamp(a, b) == y - x && CompareByTimestamp(b, a) == x - y;
    assert CompareByTimestamp(b, c) == z - y && CompareByTimestamp(a, c) == z - x;
  }

  /** `getSubmittedTransactionKey`: an order under consideration is keyed by its
    * signer, nonce and timestamp; every other transaction by its hash, which may
    * be absent. */
  function SubmittedTransactionKey(t: SubmittedTransaction): (r: Option<string>)
    ensures !IsSubmittedOrderUnderConsideration(t) ==> r == t.hash
    ensures IsSubmittedOrderUnderConsideration(t) ==>
      r.Some? && r.value == OrderSignerWallet(t.order) + "-" + t.order.nonce + "-" + NatToString(t.timestamp)
  {
    if IsSubmittedOrderUnderConsideration(t) then
      Some(OrderSignerWallet(t.order) + "-" + t.order.nonce + "-" + NatToString(t.timestamp))
    else t.hash
  }

  /** A key under consideration ends in the rendered timestamp, so two such
    * transactions with the same signer and nonce but different timestamps get
    * different keys. */
  lemma KeyDistinguishesTimestamps(t: SubmittedTransaction, u: SubmittedTransaction)
    requires IsSubmittedOrderUnderConsideration(t) && IsSubmittedOrderUnderConsideration(u)
    requires OrderSignerWallet(t.order) == OrderSignerWallet(u.order) && t.order.nonce == u.order.nonce
    requires t.timestamp != u.timestamp
    ensures SubmittedTransactionKey(t) != SubmittedTransactionKey(u)
  {
    var p := OrderSignerWallet(t.order) + "-" + t.order.nonce + "-";
    var kt := p + NatToString(t.timestamp);
    var ku := p + NatToString(u.timestamp);
    if kt == ku {
      assert kt[|p|..] == NatToString(t.timestamp);
      assert ku[|p|..] == NatToString(u.timestamp);
      NatToStringInjective(t.timestamp, u.timestamp);
    }
  }

  /** `doTransactionsMatch`: two orders under consideration match by nonce;
    * otherwise the first transaction's hash must equal the other's or the given
    * one, where two absent hashes are equal. */
  predicate DoTransactionsMatch(t: SubmittedTransaction, m: SubmittedTransaction, hash: Option<string>)
  {
    if IsSubmittedOrderUnderConsideration(t) && IsSubmittedOrderUnderConsideration(m) then
      t.order.nonce == m.order.nonce
    else
      t.hash == m.hash || t.hash == hash
  }

  /** Every transaction matches itself, and matching two orders under
    * consideration is symmetric. */
  lemma DoTransactionsMatchReflexive(t: SubmittedTransaction, m: SubmittedTransaction, hash: Option<string>)
    ensures DoTransactionsMatch(t, t, hash)
    ensures IsSubmittedOrderUnderConsideration(t) && IsSubmittedOrderUnderConsideration(m) ==>
      (DoTransactionsMatch(t, m, hash) <==> DoTransactionsMatch(m, t, hash))
  {
  }

  /** `isSenderWalletAccount`: a wrap-and-swap ERC-20 order (sender token zero)
    * always counts as the account's; another order does when the account is not
    * its signer; nothing else does. */
  predicate IsSenderWalletAccount(t: SubmittedTransaction, account: string)
  {
    if IsSubmittedOrder(t) && !IsFullOrder(t.order) && t.order.senderToken == AddressZero then true
    else if IsSubmittedOrder(t) then !CompareAddresses(OrderSignerWallet(t.order), account)
    else false
  }

  lemma IsSenderWalletAccountCases(t: SubmittedTransaction, account: string)
    ensures !IsSubmittedOrder(t) ==> !IsSenderWalletAccount(t, account)
    ensures IsSubmittedOrder(t) && CompareAddresses(OrderSignerWallet(t.order), account) ==>
      (IsSenderWalletAccount(t, account) <==> !IsFullOrder(t.order) && t.order.senderToken == AddressZero)
    ensures IsSubmittedOrder(t) && !CompareAddresses(OrderSignerWallet(t.order), account) ==>
      IsSenderWalletAccount(t, account)
  {
  }

  /** `getAmountPlusProtocolFee`: the amount times `1 + fee / 10000`, rounded
    * down. */
  function AmountPlusProtocolFee(amount: nat, protocolFee: nat): (r: nat)
    ensures r * 10000 <= amount * (10000 + protocolFee) < (r + 1) * 10000
    ensures amount <= r
    ensures protocolFee == 0 ==> r == amount
  {
    amount * (10000 + protocolFee) / 10000
  }

  /** `getAdjustedSignerAmount`: a full order's signer pays no fee (an ERC-721
    * side counts as one item); an ERC-20 order signed by the account shows the
    * fee-inclusive amount. */
  function AdjustedSignerAmount(o: Order, protocolFee: nat, account: string): (r: nat)
    ensures IsFullOrder(o) ==> r == (if o.signer.kind == ERC721 then 1 else o.signer.amount)
    ensures !IsFullOrder(o) && CompareAddresses(o.signerWallet, account) ==>
      r == AmountPlusProtocolFee(o.signerAmount, protocolFee)
    ensures !IsFullOrder(o) && !CompareAddresses(o.signerWallet, account) ==> r == o.signerAmount
    ensures !IsFullOrder(o) ==> r >= o.signerAmount
  {
    if IsFullOrder(o) then
      (if o.signer.kind == ERC721 then 1 else o.signer.amount)
    else if CompareAddresses(o.signerWallet, account) then
      AmountPlusProtocolFee(o.signerAmount, protocolFee)
    else o.signerAmount
  }

  /** `getAdjustedSenderAmount`: a full order's sender pays the fee when the
    * account is the sender; an ERC-20 order shows the swap event's amount when
    * there is one. */
  function AdjustedSenderAmount(o: Order, swap: Option<SwapERC20>, protocolFee: nat, account: string): (r: nat)
    ensures IsFullOrder(o) && CompareAddresses(o.sender.wallet, account) ==>
      r == AmountPlusProtocolFee(o.sender.amount, protocolFee) && r >= o.sender.amount
    ensures IsFullOrder(o) && !CompareAddresses(o.sender.wallet, account) ==> r == o.sender.amount
    ensures !IsFullOrder(o) ==> r == (if swap.Some? then swap.value.senderAmount else o.senderAmount)
  {
    if IsFullOrder(o) && CompareAddresses(o.sender.wallet, account) then
      AmountPlusProtocolFee(o.sender.amount, protocolFee)
    else if IsFullOrder(o) then o.sender.amount
    else if swap.Some? then swap.value.senderAmount
    else o.senderAmount
  }
}
