/** `src/components/ApprovalNotice/hooks/useShouldShowApprovalNotice.ts`: whether
  * to warn that the allowance does not cover the user's open orders plus the new
  * one. */
module ApprovalNoticeHook {
  import opened Wrappers
  import opened Entities
  import opened ApprovalNoticeHelpers
  import opened UseAllowance

  /** Conversions the hook relies on and that are not part of this model: the
    * committed total read as a number, `getTokenDecimals`, `toRoundedAtomicString`,
    * and the decimal string `formatUnits` returns. */
  datatype NoticeHelpers = NoticeHelpers(
    parseTotal: string -> real,
    tokenDecimals: TokenInfo -> nat,
    toAtomic: (string, nat) -> nat,
    renderAmount: real -> string)

  /** The amount the notice asks `useAllowance` about:
    * `getTotalNeededAllowance(orderAmount || "0", totalTokenAllowance || "0", tokenInfo)`;
    * `None` when `formatUnits` throws. */
  function NeededAllowance(
    orderAmount: Option<string>, tokenInfo: Option<TokenInfo>, totalTokenAllowance: Option<string>,
    n: NoticeHelpers): Option<real>
  {
    var amount := if Truthy(orderAmount) then orderAmount.value else "0";
    var total := if Truthy(totalTokenAllowance) then totalTokenAllowance.value else "0";
    TotalNeededAllowance(amount, n.parseTotal(total), tokenInfo, n.tokenDecimals, n.toAtomic)
  }

  /** The `useAllowance` call: same token, the needed amount, and the same
    * spender kind the committed total was computed for. There is no call when
    * computing the needed amount threw. */
  function NeededAllowanceQuery(
    orderAmount: Option<string>, spender: AllowancesType, tokenInfo: Option<TokenInfo>,
    totalTokenAllowance: Option<string>, n: NoticeHelpers): (q: Option<AllowanceQuery>)
    ensures q.Some? <==> NeededAllowance(orderAmount, tokenInfo, totalTokenAllowance, n).Some?
    ensures q.Some? ==> q.value.token == tokenInfo && q.value.spenderAddressType == Some(spender)
    ensures q.Some? ==>
      q.value.amount == Some(n.renderAmount(NeededAllowance(orderAmount, tokenInfo, totalTokenAllowance, n).value))
  {
    match NeededAllowance(orderAmount, tokenInfo, totalTokenAllowance, n)
    case Some(needed) => Some(AllowanceQuery(tokenInfo, Some(n.renderAmount(needed)), Some(spender), None))
    case None => None
  }

  /** The hook's answer, with the committed total and its loading flag as they
    * come from `useTotalTokenAllowanceFromOrders`; `None` when the hook throws
    * while rendering. */
  function ShouldShowApprovalNotice(
    orderAmount: Option<string>, spender: AllowancesType, tokenInfo: Option<TokenInfo>,
    totalTokenAllowance: Option<string>, isLoadingTotalTokenAllowance: bool,
    env: AllowanceEnv, h: AllowanceHelpers, n: NoticeHelpers): (r: Option<bool>)
    ensures r.None? <==> NeededAllowance(orderAmount, tokenInfo, totalTokenAllowance, n).None?
    ensures r == Some(true) ==> tokenInfo.Some? && !isLoadingTotalTokenAllowance && totalTokenAllowance != Some("0")
  {
    var userHasNoOrders := totalTokenAllowance == Some("0");
    match NeededAllowanceQuery(orderAmount, spender, tokenInfo, totalTokenAllowance, n)
    case None => None
    case Some(query) =>
      var hasSufficientAllowance := Decide(query, env, h).hasSufficientAllowance;
      Some(!(userHasNoOrders || hasSufficientAllowance || isLoadingTotalTokenAllowance ||
             !Truthy(totalTokenAllowance) || tokenInfo.None?))
  }

  /** The hook throws exactly when the needed amount cannot be formatted. When it
    * does not: no notice without a token, while the total loads, when the total
    * is missing, empty or exactly "0", or when the allowance covers the needed
    * amount; otherwise a notice. */
  lemma ShouldShowIff(
    orderAmount: Option<string>, spender: AllowancesType, tokenInfo: Option<TokenInfo>,
    totalTokenAllowance: Option<string>, isLoadingTotalTokenAllowance: bool,
    env: AllowanceEnv, h: AllowanceHelpers, n: NoticeHelpers)
    ensures ShouldShowApprovalNotice(orderAmount, spender, tokenInfo, totalTokenAllowance,
                                     isLoadingTotalTokenAllowance, env, h, n).None? <==>
      NeededAllowance(orderAmount, tokenInfo, totalTokenAllowance, n).None?
    ensures ShouldShowApprovalNotice(orderAmount, spender, tokenInfo, totalTokenAllowance,
                                     isLoadingTotalTokenAllowance, env, h, n) == Some(true) <==>
      && NeededAllowance(orderAmount, tokenInfo, totalTokenAllowance, n).Some?
      && tokenInfo.Some?
      && !isLoadingTotalTokenAllowance
      && Truthy(totalTokenAllowance) && totalTokenAllowance.value != "0"
      && !Decide(NeededAllowanceQuery(orderAmount, spender, tokenInfo, totalTokenAllowance, n).value,
                 env, h).hasSufficientAllowance
  {
  }

  /** A notice shown means the allowance in the spender's slice was read and is
    * short of the needed amount, or the allowance check had nothing to read. */
  lemma ShownNoticeMeansShortfall(
    orderAmount: Option<string>, spender: AllowancesType, tokenInfo: Option<TokenInfo>,
    totalTokenAllowance: Option<string>, isLoadingTotalTokenAllowance: bool,
    env: AllowanceEnv, h: AllowanceHelpers, n: NoticeHelpers)
    requires ShouldShowApprovalNotice(orderAmount, spender, tokenInfo, totalTokenAllowance,
                                      isLoadingTotalTokenAllowance, env, h, n) == Some(true)
    ensures var q := NeededAllowanceQuery(orderAmount, spender, tokenInfo, totalTokenAllowance, n);
      && q.Some?
      && var wanted := h.parseAmount(q.value.amount.value);
      Decide(q.value, env, h) == Reset || (wanted.Some? ==> Decide(q.value, env, h).readableAllowance < wanted.value)
  {
    var q := NeededAllowanceQuery(orderAmount, spender, tokenInfo, totalTokenAllowance, n);
    InsufficientMeansResetOrShort(q.value, env, h);
  }
}
