/** `src/components/OverwriteLimitOrderNotice/hooks/useShouldShowOverwriteLimitOrderNotice.ts`:
  * whether a new limit order would replace a live delegate rule for the same pair. */
module OverwriteNoticeHook {
  import opened Wrappers
  import opened Entities
  import opened StringHelpers
  import opened Seqs

  /** The test each rule gets, with `now` in milliseconds: still live in whole
    * seconds, on the chain, not fully filled, and for the same maker and taker
    * tokens ignoring case. */
  predicate RuleWouldBeOverwritten(rule: Order, chainId: nat, makerToken: TokenInfo, takerToken: TokenInfo, nowMs: nat)
  {
    rule.expiry > nowMs / 1000 &&
    rule.chainId == chainId &&
    rule.senderFilledAmount != rule.senderAmount &&
    CompareAddresses(rule.senderToken, makerToken.address) &&
    CompareAddresses(rule.signerToken, takerToken.address)
  }

  /** The hook's answer: no chain or a missing token gives false, otherwise some
    * stored rule passes the test. */
  function ShouldShowOverwriteLimitOrderNotice(
    chainId: Option<nat>, makerToken: Option<TokenInfo>, takerToken: Option<TokenInfo>,
    delegateRules: seq<Order>, nowMs: nat): (r: bool)
    ensures (chainId.None? || chainId == Some(0) || makerToken.None? || takerToken.None?) ==> !r
    ensures chainId.Some? && chainId.value != 0 && makerToken.Some? && takerToken.Some? ==>
      (r <==> exists i :: 0 <= i < |delegateRules| &&
                RuleWouldBeOverwritten(delegateRules[i], chainId.value, makerToken.value, takerToken.value, nowMs))
    ensures delegateRules == [] ==> !r
  {
    if chainId.None? || chainId.value == 0 || makerToken.None? || takerToken.None? then false
    else
      Any(delegateRules, (rule: Order) =>
        RuleWouldBeOverwritten(rule, chainId.value, makerToken.value, takerToken.value, nowMs))
  }

  /** A rule that expires within the current second, or has been filled, never
    * brings up the notice on its own. */
  lemma ExpiredOrFilledRuleNeverCounts(rule: Order, chainId: nat, makerToken: TokenInfo, takerToken: TokenInfo, nowMs: nat)
    requires rule.expiry * 1000 <= nowMs || rule.senderFilledAmount == rule.senderAmount
    ensures !ShouldShowOverwriteLimitOrderNotice(Some(chainId), Some(makerToken), Some(takerToken), [rule], nowMs)
  {
    if rule.expiry * 1000 <= nowMs {
      assert rule.expiry <= nowMs / 1000;
    }
  }
}
