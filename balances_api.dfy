/** `src/features/balances/balancesApi.ts`: the pure parts of fetching balances
  * and allowances through the BatchCall contract, and the guard against
  * overlapping fetches. */
module BalancesApi {
  import opened Wrappers
  import opened Entities
  import opened BalancesSlice
  import Seqs

  datatype FetchMethodType = FetchBalances | FetchAllowances

  /** `getMethod`: the BatchCall method for each request and token kind. */
  function GetMethod(fetchType: FetchMethodType, tokenKind: TokenKind): (r: string)
    ensures r == "wallet" + (if fetchType == FetchBalances then "Balances" else "Allowances") +
      (match tokenKind case ERC20 => "" case ERC721 => "ERC721" case ERC1155 => "ERC1155")
  {
    match (fetchType, tokenKind)
    case (FetchBalances, ERC721) => "walletBalancesERC721"
    case (FetchBalances, ERC1155) => "walletBalancesERC1155"
    case (FetchBalances, ERC20) => "walletBalances"
    case (FetchAllowances, ERC721) => "walletAllowancesERC721"
    case (FetchAllowances, ERC1155) => "walletAllowancesERC1155"
    case (FetchAllowances, ERC20) => "walletAllowances"
  }

  /** Each request and kind has its own method. */
  lemma GetMethodInjective(m1: FetchMethodType, k1: TokenKind, m2: FetchMethodType, k2: TokenKind)
    ensures GetMethod(m1, k1) == GetMethod(m2, k2) <==> m1 == m2 && k1 == k2
  {
  }

  /** `FetchParams`, without the provider. */
  datatype FetchParams = FetchParams(
    chainId: nat, tokenKind: TokenKind, tokenAddresses: seq<string>,
    tokenIds: Option<seq<string>>, walletAddress: string)

  /** One argument of a contract call: an address or a list. */
  datatype CallArg = AddressArg(address: string) | ListArg(items: seq<string>)

  /** `getFetchBalancesOrAllowancesArgs`. `spenderAddress` is
    * `getAllowanceSpenderAddress`, which only reads the contract libraries'
    * address tables. */
  function FetchArgs(
    fetchType: FetchMethodType, params: FetchParams, spenderAddressType: Option<SpenderAddressType>,
    spenderAddress: (SpenderAddressType, nat) -> string): (r: seq<CallArg>)
    ensures fetchType == FetchBalances ==>
      r == [AddressArg(params.walletAddress), ListArg(params.tokenAddresses), ListArg(params.tokenIds.GetOr([]))]
    ensures fetchType == FetchAllowances ==>
      |r| >= 3 && r[0] == AddressArg(params.walletAddress) && r[2] == ListArg(params.tokenAddresses) &&
      r[1] == AddressArg(if spenderAddressType.Some? then spenderAddress(spenderAddressType.value, params.chainId) else AddressZero) &&
      (|r| == 3 <==> params.tokenKind == ERC1155) &&
      (|r| == 4 ==> r[3] == ListArg(params.tokenIds.GetOr([])))
  {
    var tokenIds := params.tokenIds.GetOr([]);
    if fetchType == FetchBalances then
      [AddressArg(params.walletAddress), ListArg(params.tokenAddresses), ListArg(tokenIds)]
    else
      var allowanceSpenderAddress :=
        if spenderAddressType.Some? then spenderAddress(spenderAddressType.value, params.chainId) else AddressZero;
      if params.tokenKind == ERC1155 then
        [AddressArg(params.walletAddress), AddressArg(allowanceSpenderAddress), ListArg(params.tokenAddresses)]
      else
        [AddressArg(params.walletAddress), AddressArg(allowanceSpenderAddress), ListArg(params.tokenAddresses), ListArg(tokenIds)]
  }

  /** A value a BatchCall method returns: a number, or a flag for the NFT
    * approval methods. */
  datatype RawAmount = Number(n: nat) | Flag(b: bool)

  /** `fetchBalancesOrAllowances`: no call at all for an empty token list.
    * `batchCall` is the contract call. */
  function FetchBalancesOrAllowances(
    fetchType: FetchMethodType, params: FetchParams, spenderType: Option<SpenderAddressType>,
    spenderAddress: (SpenderAddressType, nat) -> string,
    batchCall: (string, seq<CallArg>) -> seq<RawAmount>): (r: seq<RawAmount>)
    ensures params.tokenAddresses == [] ==> r == []
    ensures params.tokenAddresses != [] ==>
      r == batchCall(GetMethod(fetchType, params.tokenKind), FetchArgs(fetchType, params, spenderType, spenderAddress))
  {
    if params.tokenAddresses == [] then []
    else batchCall(GetMethod(fetchType, params.tokenKind), FetchArgs(fetchType, params, spenderType, spenderAddress))
  }

  /** The three address lists `processActiveTokens` returns. */
  datatype ActiveTokenLists = ActiveTokenLists(erc20: seq<string>, erc721: seq<string>, erc1155: seq<string>)

  /** The helpers `processActiveTokens` calls that are not part of this model. */
  datatype TokenListHelpers = TokenListHelpers(
    wethAddress: nat -> Option<string>,
    isAddress: string -> bool,
    tokenIdentifier: (string, string) -> string)

  /** A known collection token of the kind carries the identifier. */
  predicate IsKnownCollectionToken(token: string, allTokens: seq<TokenInfo>, kind: TokenKind, h: TokenListHelpers)
  {
    exists i :: 0 <= i < |allTokens| && allTokens[i].CollectionToken? && allTokens[i].kind == kind &&
      h.tokenIdentifier(allTokens[i].address, allTokens[i].id) == token
  }

  /** The ERC-20 list before the address filter: the active tokens, then the
    * wrapped native token when the chain has one, then the native token. */
  function Erc20Candidates(activeTokens: seq<string>, chainId: nat, h: TokenListHelpers): seq<string>
  {
    var wrapped := if chainId != 0 then h.wethAddress(chainId) else None;
    activeTokens + (if Truthy(wrapped) then [wrapped.value] else []) + [AddressZero]
  }

  /** `processActiveTokens`. */
  function ProcessActiveTokens(activeTokens: seq<string>, allTokens: seq<TokenInfo>, chainId: nat, h: TokenListHelpers): (r: ActiveTokenLists)
    ensures forall j :: 0 <= j < |r.erc20| ==> r.erc20[j] in Erc20Candidates(activeTokens, chainId, h) && h.isAddress(r.erc20[j])
    ensures forall i :: 0 <= i < |Erc20Candidates(activeTokens, chainId, h)| && h.isAddress(Erc20Candidates(activeTokens, chainId, h)[i]) ==>
      Erc20Candidates(activeTokens, chainId, h)[i] in r.erc20
    ensures forall j :: 0 <= j < |r.erc721| ==> r.erc721[j] in activeTokens && IsKnownCollectionToken(r.erc721[j], allTokens, ERC721, h)
    ensures forall i :: 0 <= i < |activeTokens| && IsKnownCollectionToken(activeTokens[i], allTokens, ERC721, h) ==> activeTokens[i] in r.erc721
    ensures forall j :: 0 <= j < |r.erc1155| ==> r.erc1155[j] in activeTokens && IsKnownCollectionToken(r.erc1155[j], allTokens, ERC1155, h)
    ensures forall i :: 0 <= i < |activeTokens| && IsKnownCollectionToken(activeTokens[i], allTokens, ERC1155, h) ==> activeTokens[i] in r.erc1155
    ensures |r.erc721| <= |activeTokens| && |r.erc1155| <= |activeTokens|
  {
    ActiveTokenLists(
      Seqs.Filter(Erc20Candidates(activeTokens, chainId, h), h.isAddress),
      Seqs.Filter(activeTokens, (token: string) => IsKnownCollectionToken(token, allTokens, ERC721, h)),
      Seqs.Filter(activeTokens, (token: string) => IsKnownCollectionToken(token, allTokens, ERC1155, h)))
  }

  /** `amounts[i]`, `None` past the end. */
  function AmountAt(amounts: seq<RawAmount>, i: nat): Option<RawAmount>
  {
    if i < |amounts| then Some(amounts[i]) else None
  }

  /** An ERC-20 amount as returned; a missing answer stays `undefined`. */
  function Erc20Amount(raw: Option<RawAmount>): (r: Option<nat>)
    ensures raw.Some? && raw.value.Number? ==> r == Some(raw.value.n)
    ensures raw.None? ==> r.None?
    ensures !(raw.Some? && raw.value.Number?) ==> r.None?
  {
    if raw.Some? && raw.value.Number? then Some(raw.value.n) else None
  }

  /** An ERC-721 amount: "true" or "1" is one token, anything else none. */
  function Erc721Amount(raw: Option<RawAmount>): (r: Option<nat>)
    ensures r == Some(1) <==> raw == Some(Flag(true)) || raw == Some(Number(1))
    ensures r == Some(0) <==> !(raw == Some(Flag(true)) || raw == Some(Number(1)))
  {
    if raw == Some(Flag(true)) || raw == Some(Number(1)) then Some(1) else Some(0)
  }

  /** An ERC-1155 amount: "true" (approved for all) reads as 99999, "false" as
    * zero, and a number is kept. */
  function Erc1155Amount(raw: Option<RawAmount>): (r: Option<nat>)
    ensures raw == Some(Flag(true)) ==> r == Some(99999)
    ensures raw == Some(Flag(false)) ==> r == Some(0)
    ensures raw.Some? && raw.value.Number? ==> r == Some(raw.value.n)
    ensures raw.None? ==> r.None?
  {
    match raw
    case None => None
    case Some(Flag(b)) => if b then Some(99999) else Some(0)
    case Some(Number(n)) => Some(n)
  }

  /** `list.map((address, i) => ({ address, amount: normalise(amounts[i]) }))`. */
  function ZipAmounts(addresses: seq<string>, amounts: seq<RawAmount>, normalise: Option<RawAmount> -> Option<nat>): (r: seq<TokenBalance>)
    ensures |r| == |addresses|
    ensures forall i :: 0 <= i < |r| ==> r[i] == TokenBalance(addresses[i], normalise(AmountAt(amounts, i)))
  {
    seq(|addresses|, i requires 0 <= i < |addresses| => TokenBalance(addresses[i], normalise(AmountAt(amounts, i))))
  }

  /** The thunk's result: ERC-20, then ERC-721, then ERC-1155 entries. */
  function AssembleResults(
    lists: ActiveTokenLists, erc20Amounts: seq<RawAmount>, erc721Amounts: seq<RawAmount>, erc1155Amounts: seq<RawAmount>): (r: seq<TokenBalance>)
    ensures |r| == |lists.erc20| + |lists.erc721| + |lists.erc1155|
    ensures forall i :: 0 <= i < |lists.erc20| ==> r[i] == TokenBalance(lists.erc20[i], Erc20Amount(AmountAt(erc20Amounts, i)))
    ensures forall i :: 0 <= i < |lists.erc721| ==>
      r[|lists.erc20| + i] == TokenBalance(lists.erc721[i], Erc721Amount(AmountAt(erc721Amounts, i)))
    ensures forall i :: 0 <= i < |lists.erc1155| ==>
      r[|lists.erc20| + |lists.erc721| + i] == TokenBalance(lists.erc1155[i], Erc1155Amount(AmountAt(erc1155Amounts, i)))
  {
    ZipAmounts(lists.erc20, erc20Amounts, Erc20Amount) +
    ZipAmounts(lists.erc721, erc721Amounts, Erc721Amount) +
    ZipAmounts(lists.erc1155, erc1155Amounts, Erc1155Amount)
  }

  /** The list the thunk records as in flight before it calls the contract. */
  function InFlightTokens(lists: ActiveTokenLists): seq<string>
  {
    lists.erc20 + lists.erc721 + lists.erc1155
  }

  /** A result always lines up, address by address, with the in-flight list
    * recorded for it, however many amounts each call returned: so when no
    * larger fetch started meanwhile, its `fulfilled` case clears the in-flight
    * list and goes idle. */
  lemma AssembledResultsMatchInFlight(
    lists: ActiveTokenLists, erc20Amounts: seq<RawAmount>, erc721Amounts: seq<RawAmount>, erc1155Amounts: seq<RawAmount>)
    ensures |AssembleResults(lists, erc20Amounts, erc721Amounts, erc1155Amounts)| == |InFlightTokens(lists)|
    ensures ResultsMatchInFlight(InFlightTokens(lists), AssembleResults(lists, erc20Amounts, erc721Amounts, erc1155Amounts))
  {
    var r := AssembleResults(lists, erc20Amounts, erc721Amounts, erc1155Amounts);
    var inFlight := InFlightTokens(lists);
    var n20, n721 := |lists.erc20|, |lists.erc721|;
    forall i | 0 <= i < |r| ensures inFlight[i] == r[i].address {
      if i < n20 {
        assert inFlight[i] == lists.erc20[i];
      } else if i < n20 + n721 {
        assert r[n20 + (i - n20)] == TokenBalance(lists.erc721[i - n20], Erc721Amount(AmountAt(erc721Amounts, i - n20)));
        assert inFlight[i] == lists.erc721[i - n20];
      } else {
        assert r[n20 + n721 + (i - n20 - n721)] ==
          TokenBalance(lists.erc1155[i - n20 - n721], Erc1155Amount(AmountAt(erc1155Amounts, i - n20 - n721)));
        assert inFlight[i] == lists.erc1155[i - n20 - n721];
      }
    }
  }

  /** The thunk's `condition`: `None` is its `undefined` when a fetch is running
    * without an in-flight list. */
  function Condition(slice: BalancesState, activeTokens: seq<string>): (r: Option<bool>)
    ensures slice.status != Fetching ==> r == Some(true)
    ensures slice.status == Fetching && slice.inFlightFetchTokens.Some? ==>
      r == Some(|activeTokens| > |slice.inFlightFetchTokens.value|)
    ensures slice.status == Fetching && slice.inFlightFetchTokens.None? ==> r.None?
  {
    if slice.status != Fetching then Some(true)
    else if slice.inFlightFetchTokens.Some? then Some(|activeTokens| > |slice.inFlightFetchTokens.value|)
    else None
  }

  /** Redux Toolkit cancels a thunk only when `condition` returns `false`. */
  predicate FetchProceeds(condition: Option<bool>)
  {
    condition != Some(false)
  }

  /** A fetch goes ahead unless one is running for as many or more tokens than
    * are now active; a running fetch without an in-flight list does not stop
    * it. */
  lemma FetchProceedsIff(slice: BalancesState, activeTokens: seq<string>)
    ensures FetchProceeds(Condition(slice, activeTokens)) <==>
      slice.status != Fetching || slice.inFlightFetchTokens.None? ||
      |activeTokens| > |slice.inFlightFetchTokens.value|
  {
  }
}
