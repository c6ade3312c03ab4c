/** `src/hooks/useAllowance.ts`: whether the user's allowance for a token covers an
  * amount. The hook keeps three state cells that an effect rewrites whenever its
  * inputs change; `AllowanceHook` holds them and `RunEffect` is the effect. */
module UseAllowance {
  import opened Wrappers
  import opened Entities
  import opened Units
  import opened BalancesSlice

  /** The hook's arguments: `token`, `amount` and `options`. */
  datatype AllowanceQuery = AllowanceQuery(
    token: Option<TokenInfo>, amount: Option<string>,
    spenderAddressType: Option<AllowancesType>, wrapNativeToken: Option<bool>)

  /** What the hook selects from the store: the chain, all known tokens and the
    * allowance slices. */
  datatype AllowanceEnv = AllowanceEnv(chainId: Option<nat>, allTokens: seq<TokenInfo>, allowances: Allowances)

  /** The helpers the hook calls and that are not part of this model:
    * `getWethAddress`, `findEthOrTokenByAddress`, `getTokenId`, and the decimal
    * parse `BigNumber.gte` applies to `amount` (`None` for a non-number). */
  datatype AllowanceHelpers = AllowanceHelpers(
    wethAddress: nat -> string,
    findEthOrTokenByAddress: (string, seq<TokenInfo>, nat, Option<string>) -> Option<TokenInfo>,
    tokenId: TokenInfo -> string,
    parseAmount: string -> Option<real>)

  /** The three values the hook returns. `allowance` is the atomic amount,
    * `readableAllowance` the amount in whole tokens. */
  datatype AllowanceResult = AllowanceResult(hasSufficientAllowance: bool, allowance: nat, readableAllowance: real)

  /** `reset()`: insufficient, nothing allowed. */
  const Reset := AllowanceResult(false, 0, 0.0)

  /** The answer that lets the user go ahead without reading an allowance. */
  const FailOpen := AllowanceResult(true, 0, 0.0)

  /** `options?.spenderAddressType || "swap"`. */
  function SpenderAddressTypeOrDefault(t: Option<AllowancesType>): (r: AllowancesType)
    ensures t.None? ==> r == SwapAllowance
    ensures t.Some? ==> r == t.value
  {
    if t.Some? then t.value else SwapAllowance
  }

  /** `options?.wrapNativeToken || true`, which is true whatever the option. */
  function WrapNativeToken(option: Option<bool>): (r: bool)
    ensures r
  {
    option.GetOr(false) || true
  }

  /** `allowances[spenderAddressType]`. */
  function AllowanceSlice(allowances: Allowances, t: AllowancesType): BalancesState
  {
    match t
    case SwapAllowance => allowances.swap
    case SwapERC20Allowance => allowances.swapERC20
    case DelegateAllowance => allowances.delegate
  }

  /** The effect's decision once the token to read has been resolved
    * (useAllowance.ts:85-121). */
  function DecideForToken(
    justifiedToken: Option<TokenInfo>, amount: string, spender: AllowancesType,
    allowances: Allowances, h: AllowanceHelpers): AllowanceResult
  {
    if justifiedToken.None? then Reset
    else
      var values := AllowanceSlice(allowances, spender).values;
      var key := h.tokenId(justifiedToken.value);
      if key !in values || values[key].None? then FailOpen
      else
        var tokenAllowance := values[key].value;
        var decimals := if justifiedToken.value.IsCollection() then 0 else justifiedToken.value.decimals;
        var readable := FormatUnits(tokenAllowance as real, decimals);
        var wanted := h.parseAmount(amount);
        AllowanceResult(wanted.Some? && readable >= wanted.value, tokenAllowance, readable)
  }

  /** The effect of useAllowance.ts:59-122 as a value. */
  function Decide(q: AllowanceQuery, env: AllowanceEnv, h: AllowanceHelpers): AllowanceResult
  {
    var wrap := WrapNativeToken(q.wrapNativeToken);
    if q.token.None? || !Truthy(q.amount) || env.chainId.None? || env.chainId.value == 0 then Reset
    else
      var token := q.token.value;
      var chainId := env.chainId.value;
      if token.address == AddressZero && !wrap then FailOpen
      else
        var justifiedAddress := if token.address == AddressZero then h.wethAddress(chainId) else token.address;
        var justifiedToken := h.findEthOrTokenByAddress(
          justifiedAddress, env.allTokens, chainId, if token.IsCollection() then Some(token.id) else None);
        DecideForToken(justifiedToken, q.amount.value, SpenderAddressTypeOrDefault(q.spenderAddressType), env.allowances, h)
  }

  /** The token the effect reads the allowance of: the native token is always
    * looked up as WETH, since the option that would skip that is always true. */
  function JustifiedToken(q: AllowanceQuery, env: AllowanceEnv, h: AllowanceHelpers): Option<TokenInfo>
    requires q.token.Some? && env.chainId.Some?
  {
    var token := q.token.value;
    var justifiedAddress := if token.address == AddressZero then h.wethAddress(env.chainId.value) else token.address;
    h.findEthOrTokenByAddress(justifiedAddress, env.allTokens, env.chainId.value,
                              if token.IsCollection() then Some(token.id) else None)
  }

  /** A missing token, an empty amount or no chain resets the answer. */
  lemma MissingInputResets(q: AllowanceQuery, env: AllowanceEnv, h: AllowanceHelpers)
    requires q.token.None? || !Truthy(q.amount) || env.chainId.None? || env.chainId == Some(0)
    ensures Decide(q, env, h) == Reset
  {
  }

  /** Once the inputs are there, the answer is read off the resolved token in
    * the requested slice (swap by default); the native-token shortcut never
    * applies. */
  lemma DecideReadsJustifiedToken(q: AllowanceQuery, env: AllowanceEnv, h: AllowanceHelpers)
    requires q.token.Some? && Truthy(q.amount) && env.chainId.Some? && env.chainId.value != 0
    ensures Decide(q, env, h) ==
      DecideForToken(JustifiedToken(q, env, h), q.amount.value,
                     SpenderAddressTypeOrDefault(q.spenderAddressType), env.allowances, h)
  {
    assert WrapNativeToken(q.wrapNativeToken);
  }

  /** What each outcome means: an unresolvable token resets; a missing or
    * `null` allowance entry fails open; otherwise the allowance returned is the
    * stored atomic amount, the readable one is it in whole tokens (decimals 0
    * for a collection), and it suffices exactly when the readable allowance is at
    * least the amount. */
  lemma DecideForTokenOutcomes(
    justifiedToken: Option<TokenInfo>, amount: string, spender: AllowancesType,
    allowances: Allowances, h: AllowanceHelpers)
    ensures justifiedToken.None? ==> DecideForToken(justifiedToken, amount, spender, allowances, h) == Reset
    ensures justifiedToken.Some? ==>
      var values := AllowanceSlice(allowances, spender).values;
      var key := h.tokenId(justifiedToken.value);
      var r := DecideForToken(justifiedToken, amount, spender, allowances, h);
      if key !in values || values[key].None? then r == FailOpen
      else
        var decimals := if justifiedToken.value.IsCollection() then 0 else justifiedToken.value.decimals;
        && r.allowance == values[key].value
        && r.readableAllowance * Pow10(decimals) as real == values[key].value as real
        && (r.hasSufficientAllowance <==>
              h.parseAmount(amount).Some? && r.readableAllowance >= h.parseAmount(amount).value)
  {
  }

  /** An insufficient answer is either the reset or a readable allowance short of
    * a numeric amount. */
  lemma InsufficientMeansResetOrShort(q: AllowanceQuery, env: AllowanceEnv, h: AllowanceHelpers)
    requires !Decide(q, env, h).hasSufficientAllowance
    ensures Decide(q, env, h) == Reset ||
      (q.amount.Some? &&
       (h.parseAmount(q.amount.value).Some? ==> Decide(q, env, h).readableAllowance < h.parseAmount(q.amount.value).value))
  {
  }

  /** The hook's three state cells. */
  class AllowanceHook {
    var hasSufficientAllowance: bool
    var allowance: nat
    var readableAllowance: real

    function Result(): AllowanceResult
      reads this
    {
      AllowanceResult(hasSufficientAllowance, allowance, readableAllowance)
    }

    /** The initial `useState` values. */
    constructor ()
      ensures Result() == Reset
    {
      hasSufficientAllowance := false;
      allowance := 0;
      readableAllowance := 0.0;
    }

    /** One run of the effect: the three setters along the effect's early-return
      * branches. */
    method RunEffect(q: AllowanceQuery, env: AllowanceEnv, h: AllowanceHelpers)
      modifies this
      ensures Result() == Decide(q, env, h)
    {
      var wrapNativeToken := q.wrapNativeToken.GetOr(false) || true;
      var sufficient: bool, atomic: int, readable: real;
      if q.token.None? || q.amount.None? || q.amount.value == "" || env.chainId.None? || env.chainId.value == 0 {
        sufficient, atomic, readable := false, 0, 0.0;
      } else if q.token.value.address == AddressZero && !wrapNativeToken {
        sufficient, atomic, readable := true, 0, 0.0;
      } else {
        var token := q.token.value;
        var chainId := env.chainId.value;
        var justifiedAddress := if token.address == AddressZero then h.wethAddress(chainId) else token.address;
        var justifiedToken := h.findEthOrTokenByAddress(
          justifiedAddress, env.allTokens, chainId, if token.IsCollection() then Some(token.id) else None);
        if justifiedToken.None? {
          sufficient, atomic, readable := false, 0, 0.0;
        } else {
          var spender := if q.spenderAddressType.Some? then q.spenderAddressType.value else SwapAllowance;
          var values := AllowanceSlice(env.allowances, spender).values;
          var tokenAddress := h.tokenId(justifiedToken.value);
          if tokenAddress !in values || values[tokenAddress].None? {
            sufficient, atomic, readable := true, 0, 0.0;
          } else {
            var tokenAllowance := values[tokenAddress].value;
            var decimals := if justifiedToken.value.IsCollection() then 0 else justifiedToken.value.decimals;
            readable := tokenAllowance as real / Pow10(decimals) as real;
            var wanted := h.parseAmount(q.amount.value);
            sufficient := wanted.Some? && readable >= wanted.value;
            atomic := tokenAllowance;
          }
        }
      }
      hasSufficientAllowance, allowance, readableAllowance := sufficient, atomic, readable;
    }
  }
}
