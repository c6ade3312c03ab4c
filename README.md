# Allowance and order-state reconciliation of the AirSwap web app

This project models the part of the AirSwap web client (a React/Redux front end
for trading ERC-20, ERC-721 and ERC-1155 tokens) that reconciles on-chain
balances and allowances with the orders a wallet has signed. The model covers:

- the store slices that hold balances, the four allowance slices (Swap,
  SwapERC20, Wrapper, Delegate) and token metadata;
- the batch calls that refresh those slices;
- the helpers that classify an order record (full order, ERC-20 order, full
  ERC-20 order, delegate rule) and read its maker side;
- the sum of a token's outstanding order commitments, and the notices that
  compare it with an allowance ("approval needed", "this rule will be
  overwritten");
- the "my orders" lists with their allowance warnings, and the OTC orders kept
  in local storage;
- the history of swaps rebuilt from Swap contract logs;
- small pure helpers: routes, address comparison, input sanitising, maximum
  spendable amount, pricing-error priority, amount plus protocol fee.

Orders are JavaScript records, and the code tells their shapes apart by
testing which properties are present. The model therefore gives each
`Entities.Order` a set of field names next to its values. A `JsValue`
(`Null`, `Primitive` or `Obj`) models the null and non-object guards.

Atomic token amounts are natural numbers. Decimal amounts (after dividing by
`10^decimals`) are exact reals. The protocol fee is in basis points, so an
amount plus fee is `amount * (10000 + fee) / 10000`.

Helpers whose source is not part of this model become parameters of the
functions that call them. These include `getTokenId`,
`findTokenByAddressAndId`, the contract reads, the batch call, the order
compression and the rounding to a decimal string. In the module where they
first appear they are:

- function-typed arguments;
- small records of functions (`AllowanceHelpers`, `NoticeHelpers`,
  `OrderRowHelpers`, `TokenListHelpers`, `EntityHelpers`, `OrderCodec`).

`Object.keys`/`Object.values` enumeration order is an explicit key sequence.

Hooks and slices whose source mutates state are classes with `modifies`
clauses:

- `BalancesSlice.BalancesSlice`;
- `UseAllowance.AllowanceHook`;
- `HistoricalTransactions.HistoricalTransactionsHook`;
- `MyOtcOrdersHelpers.LocalStore`.

The metadata slice's reducers are modelled as functions from state to state,
since each returns a new record.

Where the code and its written description disagree, the model follows the
code:

- The commitment total of `getTotalTokenAllowanceFromOrders` adds the
  protocol fee to full ERC-20 orders without flooring it.
  `ApprovalNoticeHelpers.Commitment` does the same.
- The four order classifiers are not exclusive. A full ERC-20 order also
  passes `isDelegateRule`, so callers must test `isFullOrderERC20` first.
  `DelegateRuleHelpers.ShapeClassification` states this.

A fractional commitment total, or one of `10^21` or more, reaches ethers'
`formatUnits` in `getTotalNeededAllowance` as a string that is not a plain
integer: BigNumber.js writes the fraction, or switches to exponent notation.
`formatUnits` then throws. `ApprovalNoticeHelpers.TotalNeededAllowance` returns
`None` in that case. `ApprovalNoticeHook.ShouldShowApprovalNotice` returns
`None` for the hook that throws while rendering.

## Model

| member | source | states |
|---|---|---|
| StringHelpers.ToLowerIdempotent | src/helpers/string.ts:1-6 | lower-casing an address twice gives the same string as once |
| StringHelpers.ToLowerHasNoUpperCase | src/helpers/string.ts:1-6 | a lower-cased address has no character between 'A' and 'Z' |
| StringHelpers.ToLower | src/helpers/string.ts:5 | `toLowerCase` on ASCII, keeping the length; `ToLowerIdempotent` and `ToLowerHasNoUpperCase` state its properties |
| StringHelpers.CompareAddresses | src/helpers/string.ts:1-6 | equality after lower-casing both sides; `CompareAddressesIsEquivalence` and `CompareAddressesCharwise` state its properties |
| StringHelpers.CompareAddressesIsEquivalence | src/helpers/string.ts:1-6 | `compareAddresses` is reflexive, symmetric and transitive, and any address equals its lower-cased form |
| StringHelpers.CompareAddressesCharwise | src/helpers/string.ts:1-6 | two addresses compare equal iff they have equal length and agree at every position after lower-casing that character |
| StringHelpers.SanitizeInputSpec | src/helpers/string.ts:8-19 | input is accepted iff it matches the float pattern; the accepted result still matches it, is no longer than the input, ends in no comma and does not start with two zeros |
| StringHelpers.SanitizeInput | src/helpers/string.ts:8-19 | `undefined` unless the input is empty or matches the float pattern, else the comma-fixed, zero-collapsed string; `SanitizeInputSpec` and `SanitizeInputValue` fix the result |
| StringHelpers.CommaFixed | src/helpers/string.ts:12-13 | replacing a trailing comma by a dot keeps the length |
| StringHelpers.SanitizeInputValue | src/helpers/string.ts:10-16 | the result is empty iff the input is; it agrees with the comma-fixed input past the leading zeros and starts with a zero iff that does, which with the shape of `SanitizeInputSpec` fixes it |
| StringHelpers.SanitizeInputExamples | src/helpers/string.ts:10-19 | "" stays "", "12," becomes "12.", "1,5" stays "1,5", "000" becomes "0", "007" becomes "07", and "1a" is rejected |
| StringHelpers.SanitizeInputIdempotent | src/helpers/string.ts:8-19 | sanitising an accepted result again changes nothing |
| StringHelpers.TrailingCommaToDot | src/helpers/string.ts:12-13 | replacing a trailing decimal comma with a dot keeps the input inside the float pattern |
| StringHelpers.CollapsedShape | src/helpers/string.ts:14 | collapsing leading zeros keeps a matching input matching, no longer, with its last character, and with at most one leading zero |
| StringHelpers.CollapseLeadingZerosMatches | src/helpers/string.ts:14 | collapsing leading zeros to one keeps the input inside the float pattern |
| FullOrderHelpers.IsFullOrderValueGuards | src/entities/FullOrder/FullOrderHelpers.ts:11-20 | `null` and primitives are never full orders; an object is one iff it has signer, sender, affiliate wallet and amount, v, r and s |
| FullOrderHelpers.IsFullOrder | src/entities/FullOrder/FullOrderHelpers.ts:11-20 | the field-presence test of `isFullOrder`; its guards are stated by `IsFullOrderValueGuards` |
| OrderERC20Helpers.Erc20PredicatesFields | src/entities/OrderERC20/OrderERC20Helpers.ts:11-42 | neither ERC-20 test accepts a non-object; an ERC-20 order needs no sender wallet; a full ERC-20 order needs neither nonce nor expiry; without a signer wallet neither test passes |
| OrderERC20Helpers.IsOrderERC20 | src/entities/OrderERC20/OrderERC20Helpers.ts:11-23 | the field-presence test of `isOrderERC20`; its properties are stated by `Erc20PredicatesFields` |
| OrderERC20Helpers.IsFullOrderERC20 | src/entities/OrderERC20/OrderERC20Helpers.ts:30-42 | the field-presence test of `isFullOrderERC20`; its properties are stated by `Erc20PredicatesFields` |
| OrderERC20Helpers.ExpiryWithBufferInSeconds | src/entities/OrderERC20/OrderERC20Helpers.ts:25-29 | the buffered expiry plus the buffer in seconds is the expiry; a non-negative buffer never moves expiry later |
| OrderERC20Helpers.OrderSenderTokenId | src/entities/OrderERC20/OrderERC20Helpers.ts:74-80 | a sender token id exists exactly for a full order whose sender side is non-fungible, and is that side's id |
| OrderERC20Helpers.OrderSignerTokenId | src/entities/OrderERC20/OrderERC20Helpers.ts:82-88 | a signer token id exists exactly for a full order whose signer side is non-fungible, and is that side's id |
| OrderERC20Helpers.GettersReadTheRightShape | src/entities/OrderERC20/OrderERC20Helpers.ts:44-72 | the getters read the nested signer/sender of a full order and the flat fields of every other record, which has no token ids |
| OrderERC20Helpers.OrderSignerWallet | src/entities/OrderERC20/OrderERC20Helpers.ts:44-48 | the nested signer wallet of a full order, the flat one otherwise, as `GettersReadTheRightShape` states |
| OrderERC20Helpers.OrderSignerAmount | src/entities/OrderERC20/OrderERC20Helpers.ts:50-54 | the nested signer amount of a full order, the flat one otherwise, as `GettersReadTheRightShape` states |
| OrderERC20Helpers.OrderSenderAmount | src/entities/OrderERC20/OrderERC20Helpers.ts:56-60 | the nested sender amount of a full order, the flat one otherwise, as `GettersReadTheRightShape` states |
| OrderERC20Helpers.OrderSenderToken | src/entities/OrderERC20/OrderERC20Helpers.ts:62-66 | the nested sender token of a full order, the flat one otherwise, as `GettersReadTheRightShape` states |
| OrderERC20Helpers.OrderSignerToken | src/entities/OrderERC20/OrderERC20Helpers.ts:68-72 | the nested signer token of a full order, the flat one otherwise, as `GettersReadTheRightShape` states |
| DelegateRuleHelpers.IsDelegateRuleValue | src/entities/DelegateRule/DelegateRuleHelpers.ts:22-26 | the test fails (no answer) exactly on `null`, and holds exactly for objects with the delegate-rule fields |
| DelegateRuleHelpers.IsDelegateRule | src/entities/DelegateRule/DelegateRuleHelpers.ts:22-26 | the three-field presence test on an object; `IsDelegateRuleValue` adds the guards and `ShapeClassification` the overlap with ERC-20 orders |
| DelegateRuleHelpers.ShapeClassification | src/entities/DelegateRule/DelegateRuleHelpers.ts:22-26 | a full order passes only the full-order test; a full ERC-20 order passes both ERC-20 tests and the delegate-rule test; a delegate rule passes only its own test |
| DelegateRuleHelpers.EventPredicatesExclusive | src/entities/DelegateRule/DelegateRuleHelpers.ts:28-43 | no event is both a SetRule, an UnsetRule and a DelegatedSwap; an unnamed event is none of them |
| DelegateRuleHelpers.IsDelegateSetRuleEvent | src/entities/DelegateRule/DelegateRuleHelpers.ts:28-31 | the event is named "SetRule"; `EventPredicatesExclusive` states the three tests exclude each other |
| DelegateRuleHelpers.IsUnsetRuleEvent | src/entities/DelegateRule/DelegateRuleHelpers.ts:33-36 | the event is named "UnsetRule"; `EventPredicatesExclusive` states the three tests exclude each other |
| DelegateRuleHelpers.IsDelegatedSwapEvent | src/entities/DelegateRule/DelegateRuleHelpers.ts:38-43 | the event is named "DelegatedSwapFor"; `EventPredicatesExclusive` states the three tests exclude each other |
| DelegateRuleHelpers.MatchersIgnoreAddressCase | src/entities/DelegateRule/DelegateRuleHelpers.ts:45-85 | matching a submitted SetRule, UnsetRule or DelegatedSwap transaction to an event does not depend on the case of the event's addresses |
| DelegateRuleHelpers.MatchesSetRuleTransaction | src/entities/DelegateRule/DelegateRuleHelpers.ts:45-58 | wallet and tokens equal ignoring case, amounts, expiry and chain exactly; `MatchersIgnoreAddressCase` states the case invariance |
| DelegateRuleHelpers.MatchesUnsetRuleTransaction | src/entities/DelegateRule/DelegateRuleHelpers.ts:60-70 | wallet and token addresses equal ignoring case, chain exactly; `MatchersIgnoreAddressCase` states the case invariance |
| DelegateRuleHelpers.MatchesDelegatedSwapTransaction | src/entities/DelegateRule/DelegateRuleHelpers.ts:72-85 | the rule's sender wallet and the order's signer wallet equal ignoring case, nonce and chain exactly; `MatchersIgnoreAddressCase` states the case invariance |
| DelegateRuleHelpers.FirstOfReverseIsLast | src/entities/DelegateRule/DelegateRuleHelpers.ts:93-108 | scanning the rules from the end meets, for each key, the last rule with that key first |
| DelegateRuleHelpers.UniqueDelegateRulesProperties | src/entities/DelegateRule/DelegateRuleHelpers.ts:93-108 | the unique rules are a subsequence of the reversed rules, one per sender-wallet/sender-token/signer-token key, covering every key, each being the last rule with its key |
| DelegateRuleHelpers.GetUniqueDelegateRules | src/entities/DelegateRule/DelegateRuleHelpers.ts:93-108 | the loop over the rules from the end computes exactly the unique rules specified above |
| SubmittedTransactionHelpers.OrderTransactionStates | src/entities/SubmittedTransaction/SubmittedTransactionHelpers.ts:37-92 | an order under consideration is a submitted order; a last-look order is not under consideration; a submitted order has a hash iff it is no longer under consideration |
| SubmittedTransactionHelpers.TypeTestsPartition | src/entities/SubmittedTransaction/SubmittedTransactionHelpers.ts:37-92 | every transaction passes exactly one of the eight type tests |
| SubmittedTransactionHelpers.IsApprovalTransaction | src/entities/SubmittedTransaction/SubmittedTransactionHelpers.ts:37-40 | the approval type test; `TypeTestsPartition` states the type tests partition the transactions |
| SubmittedTransactionHelpers.IsCancelTransaction | src/entities/SubmittedTransaction/SubmittedTransactionHelpers.ts:42-45 | the cancel type test; partitioned by `TypeTestsPartition` |
| SubmittedTransactionHelpers.IsDepositTransaction | src/entities/SubmittedTransaction/SubmittedTransactionHelpers.ts:47-50 | the deposit type test; partitioned by `TypeTestsPartition` |
| SubmittedTransactionHelpers.IsWithdrawTransaction | src/entities/SubmittedTransaction/SubmittedTransactionHelpers.ts:52-55 | the withdraw type test; partitioned by `TypeTestsPartition` |
| SubmittedTransactionHelpers.IsSubmittedOrder | src/entities/SubmittedTransaction/SubmittedTransactionHelpers.ts:57-61 | the order type test; partitioned by `TypeTestsPartition` |
| SubmittedTransactionHelpers.IsSetRuleTransaction | src/entities/SubmittedTransaction/SubmittedTransactionHelpers.ts:79-82 | the set-rule type test; partitioned by `TypeTestsPartition` |
| SubmittedTransactionHelpers.IsUnsetRuleTransaction | src/entities/SubmittedTransaction/SubmittedTransactionHelpers.ts:84-87 | the unset-rule type test; partitioned by `TypeTestsPartition` |
| SubmittedTransactionHelpers.IsDelegatedSwapTransaction | src/entities/SubmittedTransaction/SubmittedTransactionHelpers.ts:89-92 | the delegated-swap type test; partitioned by `TypeTestsPartition` |
| SubmittedTransactionHelpers.IsSubmittedOrderUnderConsideration | src/entities/SubmittedTransaction/SubmittedTransactionHelpers.ts:63-67 | an order without a hash; `OrderTransactionStates` relates it to the other order states |
| SubmittedTransactionHelpers.IsLastLookOrderTransaction | src/entities/SubmittedTransaction/SubmittedTransactionHelpers.ts:69-77 | an order with a hash and the last-look flag; `OrderTransactionStates` states it is never under consideration |
| SubmittedTransactionHelpers.CompareByTimestampIsNewestFirst | src/entities/SubmittedTransaction/SubmittedTransactionHelpers.ts:94-99 | the comparator puts newer transactions first, is antisymmetric and gives a total, transitive order |
| SubmittedTransactionHelpers.CompareByTimestamp | src/entities/SubmittedTransaction/SubmittedTransactionHelpers.ts:94-99 | `b.timestamp - a.timestamp`; `CompareByTimestampIsNewestFirst` states it sorts newest first as a total preorder |
| SubmittedTransactionHelpers.SubmittedTransactionKey | src/entities/SubmittedTransaction/SubmittedTransactionHelpers.ts:101-113 | a transaction with a hash is keyed by it; an order under consideration is keyed by signer wallet, nonce and timestamp |
| SubmittedTransactionHelpers.KeyDistinguishesTimestamps | src/entities/SubmittedTransaction/SubmittedTransactionHelpers.ts:101-113 | two pending orders with the same signer and nonce but different timestamps get different keys |
| SubmittedTransactionHelpers.DoTransactionsMatchReflexive | src/entities/SubmittedTransaction/SubmittedTransactionHelpers.ts:115-128 | every transaction matches itself, and matching between two pending orders is symmetric |
| SubmittedTransactionHelpers.DoTransactionsMatch | src/entities/SubmittedTransaction/SubmittedTransactionHelpers.ts:115-128 | two orders under consideration match by nonce, everything else by hash or by the given hash; its properties are stated by `DoTransactionsMatchReflexive` |
| SubmittedTransactionHelpers.IsSenderWalletAccountCases | src/entities/SubmittedTransaction/SubmittedTransactionHelpers.ts:155-178 | only submitted orders count; if the account signed, the account is the sender only for an ERC-20 order paid in the native token; otherwise the account is the sender |
| SubmittedTransactionHelpers.IsSenderWalletAccount | src/entities/SubmittedTransaction/SubmittedTransactionHelpers.ts:155-178 | the sender test; its cases are stated by `IsSenderWalletAccountCases` |
| SubmittedTransactionHelpers.AmountPlusProtocolFee | src/entities/SubmittedTransaction/SubmittedTransactionHelpers.ts:180-185 | the result is the floor of amount times (10000 + fee) / 10000, never below the amount, equal to it when the fee is zero |
| SubmittedTransactionHelpers.AdjustedSignerAmount | src/entities/SubmittedTransaction/SubmittedTransactionHelpers.ts:187-203 | full orders show the signer amount (1 for ERC-721); ERC-20 orders add the fee exactly when the account signed, so the shown amount is never below the signed one |
| SubmittedTransactionHelpers.AdjustedSenderAmount | src/entities/SubmittedTransaction/SubmittedTransactionHelpers.ts:205-219 | full orders add the fee when the account is the sender; ERC-20 orders show the amount of the matching swap event when there is one, else the order's |
| ApprovalNoticeHelpers.TotalNeededAllowance | src/components/ApprovalNotice/helpers.ts:19-34 | the result exists iff `formatUnits` accepts the sum of the outstanding total and the order amount in atomic units (whole and below 10^21, where BigNumber.js switches to exponent notation); then it times `10^decimals` is that sum; the order amount counts only with a token, an amount and non-zero decimals |
| ApprovalNoticeHelpers.TotalNeededAllowanceIdentity | src/components/ApprovalNotice/helpers.ts:19-34 | for a zero order amount the needed allowance is the formatted outstanding total, or a throw when that total is fractional or too large |
| ApprovalNoticeHelpers.OrderNonceUsed | src/components/ApprovalNotice/helpers.ts:55-68 | full orders ask the Swap nonce, full ERC-20 orders ask the SwapERC20 nonce, delegate rules count as used once fully filled |
| ApprovalNoticeHelpers.FilterTokenByType | src/components/ApprovalNotice/helpers.ts:36-53 | swap counts full orders, swapERC20 full ERC-20 orders, delegate delegate rules, nothing else; used in `FilterTokenOrderIff` |
| ApprovalNoticeHelpers.MakerSideByShape | src/components/ApprovalNotice/helpers.ts:70-96 | the maker is the signer of a full or ERC-20 order and the sender of a delegate rule; an ERC-721 maker commits amount 1 |
| ApprovalNoticeHelpers.OrderMakerAmount | src/components/ApprovalNotice/helpers.ts:70-82 | a full order gives its signer amount, or 1 for an ERC-721 signer; a full ERC-20 order its signer amount; a delegate rule its sender amount |
| ApprovalNoticeHelpers.OrderMakerToken | src/components/ApprovalNotice/helpers.ts:84-96 | a full order gives its signer token, a full ERC-20 order its signer token, a delegate rule its sender token |
| ApprovalNoticeHelpers.FilterTokenOrderIff | src/components/ApprovalNotice/helpers.ts:98-152 | an order counts iff it is on the chain, matches the token id when non-fungible, suits the allowance type, has the token as maker (ignoring case), is not a delegate rule for the same taker token, has not expired and its nonce is known unused |
| ApprovalNoticeHelpers.FilterTokenOrder | src/components/ApprovalNotice/helpers.ts:98-152 | a counted order is on the chain, in the allowance family, has the token as its maker token, is not expired and has an unused nonce |
| ApprovalNoticeHelpers.Commitment | src/components/ApprovalNotice/helpers.ts:187-197 | an order commits at least its maker amount, exactly that unless it is a full ERC-20 order, and for a full ERC-20 order exactly the maker amount times (10000 + fee) / 10000, not rounded |
| ApprovalNoticeHelpers.TotalTokenAllowanceFromOrders | src/components/ApprovalNotice/helpers.ts:154-165 | with no token address the total is zero |
| ApprovalNoticeHelpers.TotalIsSumOfCountedCommitments | src/components/ApprovalNotice/helpers.ts:154-198 | the total is the sum of the commitments of the orders that pass the filter, and is non-negative |
| ApprovalNoticeHelpers.TotalIsAdditive | src/components/ApprovalNotice/helpers.ts:154-198 | the total over two lists of orders is the sum of their totals |
| ApprovalNoticeHelpers.TotalIgnoresOrderOfOrders | src/components/ApprovalNotice/helpers.ts:154-198 | reordering the orders does not change the total |
| ApprovalNoticeHelpers.TotalOfOneOrder | src/components/ApprovalNotice/helpers.ts:154-198 | one order contributes its commitment iff it passes the filter; an order whose nonce lookup failed contributes nothing |
| ApprovalNoticeHelpers.Erc20CommitmentExample | src/components/ApprovalNotice/helpers.ts:187-197 | a full ERC-20 order for 10^18 at a 30 basis-point fee commits 1.003 * 10^18 |
| ApprovalNoticeHelpers.FractionalCommitmentThrows | src/components/ApprovalNotice/helpers.ts:19-34 | a full ERC-20 order of 1000001 at 7 basis points commits 1000701.0007, and `getTotalNeededAllowance` over that total throws |
| UseAllowance.SpenderAddressTypeOrDefault | src/hooks/useAllowance.ts:43 | the spender defaults to the Swap contract |
| UseAllowance.WrapNativeToken | src/hooks/useAllowance.ts:44 | `wrapNativeToken` is always true, whatever the caller passes |
| UseAllowance.MissingInputResets | src/hooks/useAllowance.ts:53-64 | with no token, no amount or no chain the hook reports the reset state |
| UseAllowance.DecideReadsJustifiedToken | src/hooks/useAllowance.ts:76-89 | with all inputs present, the decision is made for the wrapped-native or given token, under the default spender |
| UseAllowance.JustifiedToken | src/hooks/useAllowance.ts:76-83 | the token looked up for the allowance: WETH for the native token, the token itself otherwise, with the id of a collection token; `DecideReadsJustifiedToken` ties it to `Decide` |
| UseAllowance.Decide | src/hooks/useAllowance.ts:59-122 | the whole effect as a value; `MissingInputResets`, `DecideReadsJustifiedToken` and `DecideForTokenOutcomes` state its outcomes |
| UseAllowance.DecideForToken | src/hooks/useAllowance.ts:85-121 | reset without a token, fail-open without an allowance, else sufficiency by comparing allowance / 10^decimals with the amount; stated by `DecideForTokenOutcomes` and `InsufficientMeansResetOrShort` |
| UseAllowance.DecideForTokenOutcomes | src/hooks/useAllowance.ts:76-121 | no token resets; a missing allowance fails open; otherwise the allowance is the stored one, its readable form is it divided by `10^decimals`, and sufficiency holds iff the readable allowance covers the parsed amount |
| UseAllowance.InsufficientMeansResetOrShort | src/hooks/useAllowance.ts:96-121 | an insufficient result is either the reset state or an allowance below the amount |
| UseAllowance.AllowanceHook.constructor | src/hooks/useAllowance.ts:31-52 | the hook starts in the reset state |
| UseAllowance.AllowanceHook.RunEffect | src/hooks/useAllowance.ts:59-122 | running the effect leaves exactly the decision for its inputs |
| ApprovalNoticeHook.NeededAllowanceQuery | src/components/ApprovalNotice/hooks/useShouldShowApprovalNotice.ts:31-41 | there is an allowance query iff the needed amount could be formatted; it asks about the given token under the given spender for the rendered needed amount |
| ApprovalNoticeHook.NeededAllowance | src/components/ApprovalNotice/hooks/useShouldShowApprovalNotice.ts:31-35 | `getTotalNeededAllowance` with `"0"` for a missing amount or total; its value and throw are stated by `ApprovalNoticeHelpers.TotalNeededAllowance`, and its use by `NeededAllowanceQuery` and `ShouldShowIff` |
| ApprovalNoticeHook.ShouldShowApprovalNotice | src/components/ApprovalNotice/hooks/useShouldShowApprovalNotice.ts:15-54 | the hook throws exactly when the needed amount cannot be formatted, and a shown notice has a token, a loaded total and a total other than "0" |
| ApprovalNoticeHook.ShouldShowIff | src/components/ApprovalNotice/hooks/useShouldShowApprovalNotice.ts:15-54 | the hook throws iff the needed amount cannot be formatted; otherwise the notice shows iff a token is given, the total is loaded, non-empty and non-zero, and the allowance is insufficient for the needed amount |
| ApprovalNoticeHook.ShownNoticeMeansShortfall | src/components/ApprovalNotice/hooks/useShouldShowApprovalNotice.ts:43-53 | a shown notice means an allowance query was made and its decision reset or fell short of the needed amount |
| OverwriteNoticeHook.ShouldShowOverwriteLimitOrderNotice | src/components/OverwriteLimitOrderNotice/hooks/useShouldShowOverwriteLimitOrderNotice.ts:11-32 | without chain or either token the notice is hidden; otherwise it shows iff some rule is live, on the chain, unfilled and has the maker token as sender and the taker token as signer (ignoring case) |
| OverwriteNoticeHook.RuleWouldBeOverwritten | src/components/OverwriteLimitOrderNotice/hooks/useShouldShowOverwriteLimitOrderNotice.ts:23-28 | the per-rule test: live in whole seconds, on the chain, not fully filled, same tokens ignoring case; `ExpiredOrFilledRuleNeverCounts` and `ShouldShowOverwriteLimitOrderNotice` state its use |
| OverwriteNoticeHook.ExpiredOrFilledRuleNeverCounts | src/components/OverwriteLimitOrderNotice/hooks/useShouldShowOverwriteLimitOrderNotice.ts:22-29 | an expired or fully filled rule never triggers the notice |
| AmountPlusFee.WithProtocolFee | src/hooks/useAmountPlusFee.ts:31-33 | the amount with fee is `amount * (10000 + fee) / 10000`, not below a non-negative amount, equal to it at fee zero |
| AmountPlusFee.AmountPlusFee | src/hooks/useAmountPlusFee.ts:18-36 | no amount gives "0"; NFT amounts are returned unchanged; a fungible token without decimals gives "0" |
| AmountPlusFee.FungibleAmountCarriesFee | src/hooks/useAmountPlusFee.ts:31-35 | a fungible amount is returned as the amount with fee, capped to the token's decimals |
| BalancesSlice.DecrementedAmount | src/features/balances/balancesSlice.ts:64-75 | a decrement never goes below zero and subtracts exactly when there is enough |
| BalancesSlice.ApplyBalancesLookup | src/features/balances/balancesSlice.ts:93-112 | writing a fetch result keeps old entries, adds the named addresses and leaves each with the amount of its last entry |
| BalancesSlice.ApplyBalances | src/features/balances/balancesSlice.ts:93-99 | no entry is lost, and the last entry of the result is stored under its address |
| BalancesSlice.CurrentAmount | src/features/balances/balancesSlice.ts:57-59 | a missing or null entry reads as zero, and any other as its amount |
| BalancesSlice.ZeroedValues | src/features/balances/balancesSlice.ts:119-129 | after a wallet change every known token is kept with amount zero |
| BalancesSlice.BalancesSlice.constructor | src/features/balances/balancesSlice.ts:28-33 | the slice starts idle, never fetched, with nothing in flight and no values |
| BalancesSlice.BalancesSlice.IncrementBy | src/features/balances/balancesSlice.ts:53-63 | the lower-cased address's amount (missing reads as zero) grows by the amount; nothing else changes |
| BalancesSlice.BalancesSlice.DecrementBy | src/features/balances/balancesSlice.ts:64-75 | the lower-cased address's amount shrinks by the amount, clamped at zero; nothing else changes |
| BalancesSlice.BalancesSlice.Set | src/features/balances/balancesSlice.ts:76-82 | the lower-cased address's amount becomes the amount; nothing else changes |
| BalancesSlice.BalancesSlice.Pending | src/features/balances/balancesSlice.ts:87-89 | a pending fetch only sets the status to fetching |
| BalancesSlice.BalancesSlice.SetInFlightRequestTokens | src/features/balances/balancesSlice.ts:90-92 | only the in-flight token list changes |
| BalancesSlice.BalancesSlice.Fulfilled | src/features/balances/balancesSlice.ts:93-112 | the fetch time is stamped and the result written; the slice goes idle and clears the in-flight list iff the result matches the in-flight request position by position |
| BalancesSlice.BalancesSlice.Rejected | src/features/balances/balancesSlice.ts:113-115 | a failed fetch only sets the status to failed |
| BalancesSlice.BalancesSlice.WalletDisconnected | src/features/balances/balancesSlice.ts:116-118 | disconnecting restores the initial state |
| BalancesSlice.BalancesSlice.WalletChanged | src/features/balances/balancesSlice.ts:119-129 | changing wallet zeroes every value and keeps the rest of the state |
| BalancesApi.GetMethodInjective | src/features/balances/balancesApi.ts:58-76 | each fetch type and token kind has its own contract method |
| BalancesApi.GetMethod | src/features/balances/balancesApi.ts:58-76 | the method name is "wallet", then "Balances" or "Allowances", then the kind suffix ("" for ERC-20, "ERC721", "ERC1155") |
| BalancesApi.FetchArgs | src/features/balances/balancesApi.ts:97-117 | balances pass wallet, tokens and ids; allowances pass wallet, the spender (zero address when none), tokens, and ids except for ERC-1155 |
| BalancesApi.FetchBalancesOrAllowances | src/features/balances/balancesApi.ts:126-153 | no tokens asks nothing and returns nothing; otherwise one batch call with the method and arguments above |
| BalancesApi.ProcessActiveTokens | src/features/balances/balancesApi.ts:166-200 | the ERC-20 list is exactly the valid addresses among the active tokens, the wrapped native token and the zero address; the ERC-721 and ERC-1155 lists are exactly the active tokens that are known collection tokens of that kind |
| BalancesApi.Erc20Candidates | src/features/balances/balancesApi.ts:181-186 | the active tokens, then the wrapped native token when the chain has one, then the zero address; `ProcessActiveTokens` states that the ERC-20 list is exactly its addresses |
| BalancesApi.Erc20Amount | src/features/balances/balancesApi.ts:303-306 | a numeric ERC-20 result is kept as it is, and a missing one stays undefined |
| BalancesApi.Erc721Amount | src/features/balances/balancesApi.ts:303-323 | an ERC-721 entry is 1 iff the call answered true or 1, and 0 otherwise |
| BalancesApi.Erc1155Amount | src/features/balances/balancesApi.ts:303-323 | an ERC-1155 approval flag becomes 99999 or 0, a number is kept, a missing answer stays missing |
| BalancesApi.ZipAmounts | src/features/balances/balancesApi.ts:303-323 | one entry per address, pairing each address with the normalised answer at its position |
| BalancesApi.AssembledResultsMatchInFlight | src/features/balances/balancesApi.ts:325 | the concatenated result has one entry per in-flight token, in order, so the slice's fulfilled test accepts it |
| BalancesApi.AssembleResults | src/features/balances/balancesApi.ts:303-325 | one entry per listed token: the ERC-20 entries, then the ERC-721 entries, then the ERC-1155 entries, each holding its own address and its kind's normalised answer at its index within its list |
| BalancesApi.Condition | src/features/balances/balancesApi.ts:333-348 | a slice that is not fetching lets the fetch run; while fetching, the fetch runs only for a larger token list; with no in-flight list the condition gives no answer |
| BalancesApi.FetchProceedsIff | src/features/balances/balancesApi.ts:333-348 | the fetch proceeds iff the slice is not fetching, has no in-flight list, or the new list is longer |
| BalancesApi.FetchProceeds | src/features/balances/balancesApi.ts:333-348 | a thunk is cancelled only by a `false` condition, so `undefined` proceeds; `FetchProceedsIff` states when the fetch goes ahead |
| MetadataSlice.LowerAll | src/features/metadata/metadataSlice.ts:48-57 | every token address is lower-cased position by position |
| MetadataSlice.SetActiveTokens | src/features/metadata/metadataSlice.ts:48-57 | the slice becomes initialised and holds exactly the lower-cased payload; nothing else changes |
| MetadataSlice.SetActiveTokensSorted | src/features/metadata/metadataSlice.ts:48-57 | the stored active tokens are a sorted permutation of the payload, lower-cased, and contain no upper-case address |
| MetadataSlice.SetUnknownTokens | src/features/metadata/metadataSlice.ts:58-63 | only the unknown tokens change, to the payload |
| MetadataSlice.Merge | src/features/metadata/metadataSlice.ts:74-99 | the merged map has both maps' keys; the payload wins on shared keys |
| MetadataSlice.MergeIdempotent | src/features/metadata/metadataSlice.ts:74-99 | merging the same payload twice equals merging it once |
| MetadataSlice.FetchAllTokensPending | src/features/metadata/metadataSlice.ts:67-73 | the slice is fetching and not yet successful; nothing else changes |
| MetadataSlice.FetchAllTokensFulfilled | src/features/metadata/metadataSlice.ts:74-84 | fetching ends successfully and the known tokens absorb the payload |
| MetadataSlice.FetchAllTokensRejected | src/features/metadata/metadataSlice.ts:85-90 | fetching ends; nothing else changes |
| MetadataSlice.FetchUnknownTokensFulfilled | src/features/metadata/metadataSlice.ts:91-99 | the unknown tokens absorb the payload; nothing else changes |
| MetadataSlice.FetchProtocolFeeFulfilled | src/features/metadata/metadataSlice.ts:100-105 | only the protocol fee changes |
| MetadataSlice.WalletChanged | src/features/metadata/metadataSlice.ts:106-111 | a wallet change clears the active tokens only |
| MetadataSlice.ChainIdChanged | src/features/metadata/metadataSlice.ts:112-119 | a chain change clears known, unknown and active tokens and keeps the protocol fee |
| MetadataSlice.WalletDisconnected | src/features/metadata/metadataSlice.ts:120-122 | disconnecting restores the initial state |
| MetadataSlice.ValuesInOrder | src/features/metadata/metadataSlice.ts:145-149 | a token is listed iff it is stored under one of the enumerated keys |
| MetadataSlice.ValuesInOrderMembers | src/features/metadata/metadataSlice.ts:145-149 | when the keys enumerate the map, the listed tokens are exactly the map's values |
| MetadataSlice.SelectAllTokenInfo | src/features/metadata/metadataSlice.ts:150-155 | every token is on the current chain, and exactly the known and unknown tokens on that chain are listed |
| MetadataSlice.SelectAllTokens | src/features/metadata/metadataSlice.ts:145-149 | the result is a permutation of the known tokens followed by the unknown tokens |
| MetadataSlice.AllTokenInfoMembers | src/features/metadata/metadataSlice.ts:145-155 | a token is listed iff it is a known or unknown token on the current chain |
| MetadataSlice.SelectActiveTokens | src/features/metadata/metadataSlice.ts:162-171 | a token is active iff it is listed and its id is among the active tokens |
| MetadataSlice.SelectorsSorted | src/features/metadata/metadataSlice.ts:126-171 | both selectors return tokens sorted by id |
| MetadataSlice.FilterKeepsSorted | src/features/metadata/metadataSlice.ts:150-171 | filtering a sorted token list keeps it sorted |
| MetadataSlice.ChainChangeEmptiesSelectors | src/features/metadata/metadataSlice.ts:112-119 | after a chain change both selectors return nothing |
| MetadataSlice.WalletChangeEmptiesActiveTokens | src/features/metadata/metadataSlice.ts:106-111 | after a wallet change no token is active, and the full token list is unchanged |
| ApprovalEntityTransformers.ContractOfBijective | src/entities/ApprovalEntity/ApprovalEntityTransformers.ts:17-22 | each allowance slice belongs to its own contract, and every contract has a slice |
| ApprovalEntityTransformers.AllowanceEntities | src/entities/ApprovalEntity/ApprovalEntityTransformers.ts:24-44 | the entities are exactly those built for the slice's tokens with a non-zero allowance entry |
| ApprovalEntityTransformers.EntityFields | src/entities/ApprovalEntity/ApprovalEntityTransformers.ts:36-42 | an entity carries the slice's contract, the token's allowance and balance (missing reads as zero) and its token info |
| ApprovalEntityTransformers.EntityFor | src/entities/ApprovalEntity/ApprovalEntityTransformers.ts:32-43 | the entity built for one key; its fields are stated by `EntityFields` |
| ApprovalEntityTransformers.EntitiesForKeys | src/entities/ApprovalEntity/ApprovalEntityTransformers.ts:46-68 | the flattened entities are exactly the union of each slice's entities |
| ApprovalEntityTransformers.AllowancesEntities | src/entities/ApprovalEntity/ApprovalEntityTransformers.ts:68-69 | every returned entity has a non-zero balance |
| ApprovalEntityTransformers.AllowancesEntitiesIff | src/entities/ApprovalEntity/ApprovalEntityTransformers.ts:46-70 | a slice's entity for a token is returned iff the slice lists a non-zero allowance and the wallet holds a non-zero balance |
| TokenMaxAmount.AfterProtocolFee | src/helpers/getTokenMaxAmount.ts:37-41 | a non-zero fee percentage scales the total by one minus it, else the total stays; a fee between 0 and 1 keeps the total within its bounds |
| TokenMaxAmount.AfterTransactionCost | src/helpers/getTokenMaxAmount.ts:43-46 | the total less the transaction cost when that is positive, else zero; never above the total for a non-negative cost |
| Units.FormatUnits | src/components/ApprovalNotice/helpers.ts:33 | the atomic amount divided by 10^decimals: the result times 10^decimals is the input, and it is non-negative for a non-negative input |
| Units.FormatUnitsNoDecimals | src/components/ApprovalNotice/helpers.ts:24-33 | with no decimals `formatUnits` returns its input |
| TokenMaxAmount.TokenMaxAmount | src/helpers/getTokenMaxAmount.ts:13-49 | no balance gives nothing; an NFT gives its balance; an ERC-20 token gives its formatted balance after the fee; the native token gives its formatted balance after the fee, less the swap cost and clamped at zero |
| TokenMaxAmount.MaxAmountWithinBalance | src/helpers/getTokenMaxAmount.ts:13-49 | for fungible tokens the maximum is between zero and the formatted balance |
| PricingError.ErrorPriority | src/features/quotes/helpers/getPricingErrorWithHighestPriority.ts:3-12 | each error has a priority from 0 to 7 |
| PricingError.ErrorPriorityInjective | src/features/quotes/helpers/getPricingErrorWithHighestPriority.ts:3-12 | no two errors share a priority |
| PricingError.Rank | src/features/quotes/helpers/getPricingErrorWithHighestPriority.ts:19-27 | no error ranks below every error |
| PricingError.PricingErrorWithHighestPriority | src/features/quotes/helpers/getPricingErrorWithHighestPriority.ts:19-27 | the result is one of the two inputs, missing only when both are, ranks at least as high as each, and is the first only when it ranks strictly higher |
| PricingError.HighestPrioritySymmetric | src/features/quotes/helpers/getPricingErrorWithHighestPriority.ts:19-27 | the argument order does not matter, and an error against itself is itself |
| MyOrderTransformers.FullOrderAmount | src/components/@widgets/MyOrdersWidget/entities/MyOrderTransformers.ts:15-23 | an ERC-721 side shows amount 1, any other its amount |
| MyOrderTransformers.TransformFullOrderToMyOrderFields | src/components/@widgets/MyOrdersWidget/entities/MyOrderTransformers.ts:25-53 | the list entry has the nonce as id, the full type iff the order is full, no warning, the given status, chain and tokens, the expiry in milliseconds, and a link holding the compressed order |
| MyOrderTransformers.TransformFullOrderToMyOrder | src/components/@widgets/MyOrdersWidget/entities/MyOrderTransformers.ts:25-53 | the row takes id, chain and status from its inputs, is a full or full ERC-20 row without a warning, and carries the given tokens |
| MyOrderTransformers.TransformFullOrderToMyOrderAmounts | src/components/@widgets/MyOrdersWidget/entities/MyOrderTransformers.ts:42-50 | full orders show the NFT-adjusted side amounts and the sender wallet; ERC-20 orders their flat fields |
| MyOrdersWidgetHelpers.TokenAmountWithDecimals | src/components/@widgets/MyOrdersWidget/helpers/index.ts:15-20 | the readable amount times `10^decimals` (18 by default) is the atomic amount |
| MyOrdersWidgetHelpers.MyOrderMakerToken | src/components/@widgets/MyOrdersWidget/helpers/index.ts:70-76 | the maker of a delegate rule is its sender token, of any other order its signer token |
| MyOrdersWidgetHelpers.MyOrderMakerAmount | src/components/@widgets/MyOrdersWidget/helpers/index.ts:53-54 | a delegate row's sender amount, otherwise the signer amount, the same side as `MyOrderMakerToken`; used by `ApprovalTotalsArePerTokenSums` |
| MyOrdersWidgetHelpers.OrderApprovalAmount | src/components/@widgets/MyOrdersWidget/helpers/index.ts:53-66 | an order needs its maker amount, plus the protocol fee exactly for full ERC-20 orders when a fee is set |
| MyOrdersWidgetHelpers.OrdersTotalApprovalAmount | src/components/@widgets/MyOrdersWidget/helpers/index.ts:42-68 | the loop computes the per-token totals specified by the totals function |
| MyOrdersWidgetHelpers.ApprovalTotals | src/components/@widgets/MyOrdersWidget/helpers/index.ts:46-67 | the reduce as a recursion on the orders; `ApprovalTotalsKeys` and `ApprovalTotalsArePerTokenSums` state its keys and values |
| MyOrdersWidgetHelpers.ApprovalTotalsKeys | src/components/@widgets/MyOrdersWidget/helpers/index.ts:42-68 | the totals have an entry for a token iff some open order with that maker token counts |
| MyOrdersWidgetHelpers.ApprovalTotalsArePerTokenSums | src/components/@widgets/MyOrdersWidget/helpers/index.ts:42-68 | a token has a total iff some open order with that maker token counts, and the total is the sum of those orders' amounts |
| MyOrdersWidgetHelpers.OrdersWithApprovalWarnings | src/components/@widgets/MyOrdersWidget/helpers/index.ts:78-104 | the list keeps its length and every order, changing at most the warning flag, and not at all for orders with no maker token |
| MyOrdersWidgetHelpers.WarningIffAllowanceShort | src/components/@widgets/MyOrdersWidget/helpers/index.ts:85-103 | an order is flagged iff it is open and the allowance for its maker token is below that token's total |
| MyOrdersWidgetHelpers.WithApprovalWarning | src/components/@widgets/MyOrdersWidget/helpers/index.ts:85-103 | only the warning flag changes; an order without a maker token is returned as it is; otherwise the flag is set iff the order is open and its approved amount (missing as zero) is below its token's total |
| MyOtcOrdersListHelpers.FindTokenInfo | src/components/@widgets/MyOtcOrdersWidget/subcomponents/MyOtcOrdersList/helpers/index.ts:23-47 | a token found in the active list is returned; otherwise the fetched token is returned with a lower-cased address, or nothing |
| MyOtcOrdersListHelpers.FetchedTokenAddressIsLowerCase | src/components/@widgets/MyOtcOrdersWidget/subcomponents/MyOtcOrdersList/helpers/index.ts:38-46 | a fetched token's address is lower case and compares equal to the fetched one |
| MyOtcOrdersListHelpers.CallGetNonceUsed | src/components/@widgets/MyOtcOrdersWidget/subcomponents/MyOtcOrdersList/helpers/index.ts:49-60 | a resolved lookup gives its answer, a synchronous throw counts as unused, and only a rejected lookup gives no answer |
| MyOtcOrdersListHelpers.OrderStatusPrecedence | src/components/@widgets/MyOtcOrdersWidget/subcomponents/MyOtcOrdersList/helpers/index.ts:62-80 | canceled beats taken beats expired beats open, and the status is never filled |
| MyOtcOrdersListHelpers.TransformToOrderStatus | src/components/@widgets/MyOtcOrdersWidget/subcomponents/MyOtcOrdersList/helpers/index.ts:62-80 | the status is never filled, and is open iff no flag is set |
| MyOtcOrdersListHelpers.FullOrderRowStatus | src/components/@widgets/MyOtcOrdersWidget/subcomponents/MyOtcOrdersList/helpers/index.ts:82-106 | a row is missing iff the nonce lookup rejects; otherwise it is taken iff the nonce is used, expired or open by the expiry, never canceled, with the nonce as id |
| MyOtcOrdersListHelpers.FullOrderDataAndTransformToOrder | src/components/@widgets/MyOtcOrdersWidget/subcomponents/MyOtcOrdersList/helpers/index.ts:82-106 | no row iff the nonce lookup rejects; a row keeps the order's nonce and chain and starts without a warning |
| MyOtcOrdersHelpers.StorageKey | src/features/myOtcOrders/myOtcOrdersHelpers.ts:13-20 | every key starts with the user-orders prefix and ends with the closing brace |
| MyOtcOrdersHelpers.StorageKeyIgnoresCase | src/features/myOtcOrders/myOtcOrdersHelpers.ts:13-20 | addresses that compare equal get the same key |
| MyOtcOrdersHelpers.FullAndErc20KeysDiffer | src/features/myOtcOrders/myOtcOrdersHelpers.ts:13-20 | full orders and ERC-20 orders are never stored under the same key |
| MyOtcOrdersHelpers.WrittenItems | src/features/myOtcOrders/myOtcOrdersHelpers.ts:22-52 | writing sets exactly the account's two keys for the chain, the full key to the compressed full orders and the ERC-20 key to the compressed ERC-20 orders, and leaves every other item |
| MyOtcOrdersHelpers.ReadOrders | src/features/myOtcOrders/myOtcOrdersHelpers.ts:54-81 | reading returns one order per stored entry under the account's two keys |
| MyOtcOrdersHelpers.EmptyStorageReadsNothing | src/features/myOtcOrders/myOtcOrdersHelpers.ts:54-81 | empty storage holds no orders |
| MyOtcOrdersHelpers.WriteThenRead | src/features/myOtcOrders/myOtcOrdersHelpers.ts:22-81 | with a codec that round-trips, reading back what was written for an account (in any case) gives its full orders then its ERC-20 orders |
| MyOtcOrdersHelpers.LocalStore.constructor | src/features/myOtcOrders/myOtcOrdersHelpers.ts:22-81 | the store starts with the given items |
| MyOtcOrdersHelpers.LocalStore.WriteOtcUserOrders | src/features/myOtcOrders/myOtcOrdersHelpers.ts:22-52 | the store afterwards holds exactly the written items |
| MyOtcOrdersHelpers.LocalStore.GetUserOrders | src/features/myOtcOrders/myOtcOrdersHelpers.ts:54-81 | the orders read are those stored for the account and chain |
| SwapLogs.LogTimestamp | src/features/transactions/helpers/getOrdersFromSwapLogs.ts:97-99 | the timestamp is the block time in milliseconds, zero when missing |
| SwapLogs.OrdersFromSwapLogs | src/features/transactions/helpers/getOrdersFromSwapLogs.ts:21-104 | without a fee receiver nothing is decoded; there are never more orders than logs; what the orders are is stated by `OrdersFromSwapLogsOrigin` and `OrdersFromSwapLogsComplete` |
| SwapLogs.DecodeDropsIncompleteLogs | src/features/transactions/helpers/getOrdersFromSwapLogs.ts:38-65 | a log decodes iff all its arguments are present |
| SwapLogs.DecodeSwapLog | src/features/transactions/helpers/getOrdersFromSwapLogs.ts:38-100 | a log decodes iff all eleven arguments are present, into an entry with the log's hash, the given chain and the block time in milliseconds |
| SwapLogs.DecodedOrderShape | src/features/transactions/helpers/getOrdersFromSwapLogs.ts:67-100 | a decoded log is a full order of an ERC-721 signer and an ERC-20 sender, with zero expiry, fee and signature, on the chain, carrying the log's amounts, nonce, ids, hash and timestamp |
| SwapLogs.OrdersFromSwapLogsAppend | src/features/transactions/helpers/getOrdersFromSwapLogs.ts:94-104 | decoding two batches of logs is decoding each in turn |
| SwapLogs.OrdersFromSwapLogsOrigin | src/features/transactions/helpers/getOrdersFromSwapLogs.ts:94-104 | every decoded order comes from some log and carries that log's hash |
| SwapLogs.OrdersFromSwapLogsComplete | src/features/transactions/helpers/getOrdersFromSwapLogs.ts:94-104 | with a fee receiver, every log that decodes has its order among the results |
| SwapLogs.OrdersFromSwapLogsSingleton | src/features/transactions/helpers/getOrdersFromSwapLogs.ts:21-104 | one log yields its decoded order, or nothing when there is no fee receiver or it does not decode |
| HistoricalTransactions.LogsAreCurrent | src/features/transactions/hooks/useHistoricalTransactions.ts:57-66 | the staleness guard: a chain other than 0, loaded logs (status neither loading nor not executed) tagged with that chain and the current account; `BeginRefresh` starts iff it holds |
| HistoricalTransactions.MergedRecords | src/features/transactions/hooks/useHistoricalTransactions.ts:92-97 | the decoded full-order logs, then the ERC-20, wrapped and delegated records, in that order; `HistoryProperties` and `HistoryIsComplete` state what of them reaches the history |
| HistoricalTransactions.InvolvesAccount | src/features/transactions/hooks/useHistoricalTransactions.ts:98-106 | the filter: the account, ignoring case, is the signer, the sender of a full order, or the sender of the swap event; `AccountTransactionsAreEntries` states that exactly the involved records are kept |
| HistoricalTransactions.ToTransaction | src/features/transactions/hooks/useHistoricalTransactions.ts:107-134 | a transaction exists iff both token lookups succeed; it is a succeeded, not last-look order transaction carrying the log's hash, timestamp, order and swap event and the two token infos found |
| HistoricalTransactions.AccountTransactions | src/features/transactions/hooks/useHistoricalTransactions.ts:98-138 | the filter, the map and the removal of `undefined`; its soundness and completeness are stated by `AccountTransactionsAreEntries` |
| HistoricalTransactions.AccountTransactionsAreEntries | src/features/transactions/hooks/useHistoricalTransactions.ts:98-138 | every kept transaction is built from a record the account takes part in, with both tokens found, carrying that record's hash, timestamp, order and swap event and the token infos found; and every such record gives a kept transaction |
| HistoricalTransactions.HistoryProperties | src/features/transactions/hooks/useHistoricalTransactions.ts:92-153 | the history is for the chain and account; each entry is built from a merged record the account takes part in and whose two tokens are found, and carries that record's hash and timestamp; hashes are distinct; entries run newest first |
| HistoricalTransactions.HistoryIsComplete | src/features/transactions/hooks/useHistoricalTransactions.ts:98-146 | every merged record the account takes part in whose two tokens are found has its hash in the history: only an unknown token or a repeated hash drops a record |
| HistoricalTransactions.TransactionsFromLogs | src/features/transactions/hooks/useHistoricalTransactions.ts:71-153 | the collection is for the chain and account and is a reordering of one transaction per hash among the account's transactions, the first one under the modelled keep-first de-duplication (stand-in for `getUniqueArrayChildren`, whose source is not part of this model); what its entries are is stated by `HistoryProperties` and `HistoryIsComplete` |
| HistoricalTransactions.DedupeAndSortKeepOnePerHash | src/features/transactions/hooks/useHistoricalTransactions.ts:136-146 | de-duplicating and sorting keeps exactly one transaction per hash and loses no hash; the one kept is the first under the modelled keep-first de-duplication (stand-in for `getUniqueArrayChildren`, whose source is not part of this model) |
| HistoricalTransactions.HistoricalTransactionsHook.constructor | src/features/transactions/hooks/useHistoricalTransactions.ts:56-69 | the hook starts not loading and with no transactions |
| HistoricalTransactions.HistoricalTransactionsHook.BeginRefresh | src/features/transactions/hooks/useHistoricalTransactions.ts:56-69 | a refresh starts iff the logs are current for the chain and account, and then clears the transactions and sets loading; otherwise nothing changes |
| HistoricalTransactions.HistoricalTransactionsHook.CompleteRefresh | src/features/transactions/hooks/useHistoricalTransactions.ts:92-153 | completing stores the history built from the logs and stops loading |
| Routes.StandAloneRoutesAre | src/routes.ts:13-17 | the routes without a navigation bar are exactly approvals, OTC order and limit order |
| Routes.SimpleRoute | src/routes.ts:29-46 | the builders of lines 30-34 and 46: a route without parameters is a slash and its segment, a path of one segment |
| Routes.OtcOrderRouteRoundTrip | src/routes.ts:35-36 | the compressed order can be read back from an OTC order path |
| Routes.CancelIsUnderOtcOrder | src/routes.ts:44-45 | the cancel path is the OTC order path followed by /cancel |
| Routes.SegmentsDistinct | src/routes.ts:1-10 | no two routes share a path segment |
| Routes.LimitOrderRouteEndsWithChain | src/routes.ts:37-43 | a limit-order path ends with a slash and the decimal chain id |
| Routes.OtcOrderRoute | src/routes.ts:35-36 | the path is "/otc-order/" followed by the compressed order |
| Routes.CancelOtcOrderRoute | src/routes.ts:44-45 | the path is the order path followed by "/cancel" |
| Routes.LimitOrderRoute | src/routes.ts:37-43 | the path is "/limit-order/" followed by the sender wallet, sender token, signer token and decimal chain id, separated by slashes |
| AppTokenInfoTransformers.TransformNftToCollectionTokenInfo | src/entities/AppTokenInfo/AppTokenInfoTransformers.ts:5-19 | the token info is a collection token on the chain, ERC-721 iff the contract says so, with the NFT's address, id, image, name and URI (empty when missing) |
| AppTokenInfoTransformers.NonErc721IsErc1155 | src/entities/AppTokenInfo/AppTokenInfoTransformers.ts:5-19 | any contract that is not ERC-721 yields an ERC-1155 token, and a missing URI yields the empty string |
| AppTokenService.TokenIdsWithBalanceLookup | src/entities/AppTokenInfo/AppTokenService.ts:36-43 | a token id has a balance iff some owned NFT has it, and the balance is that of its last occurrence |
| AppTokenService.TokenIdsWithBalance | src/entities/AppTokenInfo/AppTokenService.ts:36-43 | the reduce's result written as a recursion over the NFTs; its keys and values are stated by `TokenIdsWithBalanceLookup` |
| AppTokenService.EmptyHasNoBalances | src/entities/AppTokenInfo/AppTokenService.ts:36-43 | no owned NFTs give no balances |
| AppTokenService.TransformOwnedNftsToTokenIdsWithBalance | src/entities/AppTokenInfo/AppTokenService.ts:36-43 | the loop over the owned NFTs builds exactly the balance map specified above |

## Left out

- React rendering, hook scheduling and memoisation are left out. Each hook is
  modelled as the value it returns for given inputs, or as a class whose
  effect method runs when its inputs change. The one-render lag between an
  effect and its result is not modelled.
- Network calls are left out: the Alchemy NFT API, contract reads, the batch
  call, `getAllowanceSpenderAddress` and the token scraper. Their results are
  function parameters.
- The bodies of the fetch thunks are left out, beyond their arguments, their
  condition and how they assemble results. Retry and failure order are not
  modelled.
- The clock is a parameter (`nowMs`).
- Floating-point and `BigNumber` rounding are left out. Decimal amounts are
  exact reals. `toMaxAllowedDecimalsNumberString`,
  `stringToSignificantDecimals` and `toRoundedAtomicString` are parameters.
- Labels and amount formatting for display are left out.
- JSON encoding in local storage is left out. Items are kept as a map from key
  to a list of compressed orders. Order compression is an `OrderCodec`
  parameter with a round-trip hypothesis.
- Reads of absent fields (`undefined` or `NaN` in arithmetic) are left out. A
  record's values are always defined.
- The string amounts of orders are canonical decimal numbers, modelled as
  their values.
- `getUniqueArrayChildren` is not part of this model. The history keeps the
  first transaction for each hash (`Seqs.KeepFirst`).
- `transformToSubmittedTransactionWithOrder` is not part of this model. Its
  result is a successful order transaction carrying the decoded order and the
  found tokens.
- The pricing error enum's file is not part of this model. Its members are
  taken to be non-empty strings, so every error, "unknown" included, is
  truthy.
- `ApprovalEntityTransformers.AllowancesEntities`: does not model the guard
  that returns an empty list when one allowance slice is falsy, because the
  store always holds all four slices.
- `BalancesApi.Erc20Amount`: an ERC-20 answer of `true`/`false` cannot come
  from a `balanceOf` or `allowance` call, and maps to no amount.
- `UseAllowance.WrapNativeToken`: the native-token branch of `useAllowance`
  (lines 68-74) is dead, because `wrapNativeToken || true` always holds. The
  model keeps the code's behaviour.
- `TokenMaxAmount.TokenMaxAmount`: returns the number before
  `stringToSignificantDecimals` formats it. The swap-cost default `"0"` is
  truthy, so the native token is always clamped at zero, as in the code.
- Enumeration order of `Object.keys` and `Object.values` is an explicit key
  sequence. Lemmas assume it lists each key of the map.
- The comparator passed to `Array.prototype.sort` is modelled by a total
  preorder, and the sort by an insertion sort. The model proves its output
  sorted and a permutation of its input. It does not state the order of
  elements the comparator ties, so the engine's stability is not modelled.
