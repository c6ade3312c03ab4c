/** `src/entities/ApprovalEntity/ApprovalEntityTransformers.ts`: the approvals
  * list, one entity per token a spender contract may move, built from the four
  * allowance slices and the balances slice. */
module ApprovalEntityTransformers {
  import opened Wrappers
  import opened Entities
  import opened BalancesSlice
  import Seqs

  /** `ApprovalEntity`; amounts are atomic units, `tokenId` is the slice key. */
  datatype ApprovalEntity = ApprovalEntity(
    tokenInfo: Option<TokenInfo>, tokenId: string, balance: nat, allowance: nat, contract: SpenderAddressType)

  /** The keys of `Allowances`, in declaration order. */
  datatype AllowanceKey = SwapKey | SwapERC20Key | WrapperKey | DelegateKey

  const AllowanceKeys: seq<AllowanceKey> := [SwapKey, SwapERC20Key, WrapperKey, DelegateKey]

  /** `allowanceMap`: the spender contract of each slice. */
  function ContractOf(key: AllowanceKey): SpenderAddressType
  {
    match key
    case SwapKey => SwapSpender
    case SwapERC20Key => SwapERC20Spender
    case WrapperKey => WrapperSpender
    case DelegateKey => DelegateSpender
  }

  /** Every slice names a different contract, and every contract has a slice. */
  lemma ContractOfBijective(a: AllowanceKey, b: AllowanceKey, c: SpenderAddressType)
    ensures ContractOf(a) == ContractOf(b) <==> a == b
    ensures exists k :: k in AllowanceKeys && ContractOf(k) == c
  {
    match c
    case SwapSpender => assert ContractOf(AllowanceKeys[0]) == c;
    case SwapERC20Spender => assert ContractOf(AllowanceKeys[1]) == c;
    case WrapperSpender => assert ContractOf(AllowanceKeys[2]) == c;
    case DelegateSpender => assert ContractOf(AllowanceKeys[3]) == c;
  }

  function SliceOf(allowances: Allowances, key: AllowanceKey): BalancesState
  {
    match key
    case SwapKey => allowances.swap
    case SwapERC20Key => allowances.swapERC20
    case WrapperKey => allowances.wrapper
    case DelegateKey => allowances.delegate
  }

  /** The lookups the transformer calls that are not part of this model:
    * `findTokenByAddressAndId(tokens, ...splitTokenIdentifier(tokenId))`, and
    * `Object.keys` of a values map. */
  datatype EntityHelpers = EntityHelpers(
    findToken: (seq<TokenInfo>, string) -> Option<TokenInfo>,
    keysOf: BalanceValues -> seq<string>)

  /** A slice lists a token when its allowance is anything but an explicit zero;
    * a `null` allowance passes. */
  predicate ListsToken(values: BalanceValues, tokenId: string)
  {
    tokenId in values && values[tokenId] != Some(0)
  }

  function EntityFor(tokenId: string, allowance: BalancesState, balances: BalancesState, contract: SpenderAddressType,
                     tokens: seq<TokenInfo>, h: EntityHelpers): ApprovalEntity
  {
    ApprovalEntity(h.findToken(tokens, tokenId), tokenId, CurrentAmount(balances.values, tokenId),
                   CurrentAmount(allowance.values, tokenId), contract)
  }

  /** `transformAllowanceToApprovalEntities` over the keys `keys`. */
  function AllowanceEntities(
    keys: seq<string>, allowance: BalancesState, balances: BalancesState, contract: SpenderAddressType,
    tokens: seq<TokenInfo>, h: EntityHelpers): (r: seq<ApprovalEntity>)
    ensures |r| <= |keys|
    ensures forall e :: e in r <==>
      exists k :: k in keys && ListsToken(allowance.values, k) && e == EntityFor(k, allowance, balances, contract, tokens, h)
  {
    if keys == [] then []
    else
      var rest := AllowanceEntities(keys[1..], allowance, balances, contract, tokens, h);
      assert forall k :: k in keys <==> k == keys[0] || k in keys[1..];
      (if ListsToken(allowance.values, keys[0]) then [EntityFor(keys[0], allowance, balances, contract, tokens, h)] else []) + rest
  }

  /** Each entity takes its amounts from the two slices, a missing or `null`
    * amount reading as zero, and its contract from the slice. */
  lemma EntityFields(
    keys: seq<string>, allowance: BalancesState, balances: BalancesState, contract: SpenderAddressType,
    tokens: seq<TokenInfo>, h: EntityHelpers, e: ApprovalEntity)
    requires e in AllowanceEntities(keys, allowance, balances, contract, tokens, h)
    ensures e.contract == contract && e.tokenId in keys && ListsToken(allowance.values, e.tokenId)
    ensures e.allowance == (if allowance.values[e.tokenId].Some? then allowance.values[e.tokenId].value else 0)
    ensures e.balance == CurrentAmount(balances.values, e.tokenId)
    ensures e.tokenInfo == h.findToken(tokens, e.tokenId)
  {
  }

  /** The entities of the slices `keys`, one slice after the other. */
  function EntitiesForKeys(keys: seq<AllowanceKey>, allowances: Allowances, balances: BalancesState,
                           tokens: seq<TokenInfo>, h: EntityHelpers): (r: seq<ApprovalEntity>)
    ensures forall e :: e in r <==> exists key :: (key in keys &&
      e in AllowanceEntities(h.keysOf(SliceOf(allowances, key).values), SliceOf(allowances, key), balances, ContractOf(key), tokens, h))
  {
    if keys == [] then []
    else
      var slice := SliceOf(allowances, keys[0]);
      assert forall key :: key in keys <==> key == keys[0] || key in keys[1..];
      AllowanceEntities(h.keysOf(slice.values), slice, balances, ContractOf(keys[0]), tokens, h) +
      EntitiesForKeys(keys[1..], allowances, balances, tokens, h)
  }

  /** `transformAllowancesToApprovalEntities`: every slice's entities, in key
    * order, without those whose balance is zero. */
  function AllowancesEntities(allowances: Allowances, balances: BalancesState, tokens: seq<TokenInfo>, h: EntityHelpers): (r: seq<ApprovalEntity>)
    ensures forall j :: 0 <= j < |r| ==> r[j].balance != 0
  {
    Seqs.Filter(EntitiesForKeys(AllowanceKeys, allowances, balances, tokens, h), (e: ApprovalEntity) => e.balance != 0)
  }

  /** When `keysOf` enumerates each map's keys, the list holds an entity for a
    * token and a contract exactly when that contract's slice has a non-zero (or
    * `null`) allowance for it and the wallet holds some of it. */
  lemma AllowancesEntitiesIff(
    allowances: Allowances, balances: BalancesState, tokens: seq<TokenInfo>, h: EntityHelpers,
    key: AllowanceKey, tokenId: string)
    requires forall k :: k in h.keysOf(SliceOf(allowances, key).values) <==> k in SliceOf(allowances, key).values
    ensures EntityFor(tokenId, SliceOf(allowances, key), balances, ContractOf(key), tokens, h) in AllowancesEntities(allowances, balances, tokens, h) <==>
      ListsToken(SliceOf(allowances, key).values, tokenId) && CurrentAmount(balances.values, tokenId) != 0
  {
    var e := EntityFor(tokenId, SliceOf(allowances, key), balances, ContractOf(key), tokens, h);
    var all := EntitiesForKeys(AllowanceKeys, allowances, balances, tokens, h);
    if ListsToken(SliceOf(allowances, key).values, tokenId) {
      assert key in AllowanceKeys;
      assert e in AllowanceEntities(h.keysOf(SliceOf(allowances, key).values), SliceOf(allowances, key), balances, ContractOf(key), tokens, h);
    }
    if e in all {
      var key' :| key' in AllowanceKeys &&
        e in AllowanceEntities(h.keysOf(SliceOf(allowances, key').values), SliceOf(allowances, key'), balances, ContractOf(key'), tokens, h);
      EntityFields(h.keysOf(SliceOf(allowances, key').values), SliceOf(allowances, key'), balances, ContractOf(key'), tokens, h, e);
      ContractOfBijective(key, key', ContractOf(key));
    }
  }
}
