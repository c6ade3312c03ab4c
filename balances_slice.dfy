/** `src/features/balances/balancesSlice.ts`: one balances-or-allowances slice of
  * the store. The five slices (balances and the allowances of Swap, SwapERC20,
  * Wrapper and Delegate) share this reducer; each is one `BalancesSlice`. */
module BalancesSlice {
  import opened Wrappers
  import opened StringHelpers

  datatype FetchStatus = Idle | Fetching | Failed

  /** Amounts by token id; `None` is the `null` kept while fetching (and a
    * missing amount in a fetch result). */
  type BalanceValues = map<string, Option<nat>>

  /** A snapshot of a slice, as selectors see it. */
  datatype BalancesState = BalancesState(
    status: FetchStatus, lastFetch: Option<nat>,
    inFlightFetchTokens: Option<seq<string>>, values: BalanceValues)

  /** The four allowance slices under `state.allowances`. */
  datatype Allowances = Allowances(
    swap: BalancesState, swapERC20: BalancesState, wrapper: BalancesState, delegate: BalancesState)

  /** One entry of a fetch result. */
  datatype TokenBalance = TokenBalance(address: string, amount: Option<nat>)

  /** `state.values[key] || 0`: a missing or `null` amount reads as zero. */
  function CurrentAmount(values: BalanceValues, key: string): (r: nat)
    ensures key !in values || values[key].None? ==> r == 0
    ensures key in values && values[key].Some? ==> r == values[key].value
  {
    if key in values && values[key].Some? then values[key].value else 0
  }

  /** The amount after `decrementBy`: reduced by `amount`, but never below zero. */
  function DecrementedAmount(current: nat, amount: nat): (r: nat)
    ensures r <= current
    ensures current >= amount ==> r + amount == current
    ensures current < amount ==> r == 0
  {
    if current >= amount then current - amount else 0
  }

  /** The values after a fetch result is written entry by entry, in order. */
  function ApplyBalances(values: BalanceValues, tokenBalances: seq<TokenBalance>): (r: BalanceValues)
    ensures values.Keys <= r.Keys
    ensures |tokenBalances| > 0 ==> var last := tokenBalances[|tokenBalances| - 1];
      last.address in r && r[last.address] == last.amount
  {
    if tokenBalances == [] then values
    else
      var last := tokenBalances[|tokenBalances| - 1];
      ApplyBalances(values, tokenBalances[..|tokenBalances| - 1])[last.address := last.amount]
  }

  /** Writing a fetch result leaves every address it names with the amount of
    * the last entry for that address, keeps every other entry, and adds nothing
    * else. */
  lemma {:induction false} ApplyBalancesLookup(values: BalanceValues, tokenBalances: seq<TokenBalance>, key: string)
    ensures key in ApplyBalances(values, tokenBalances) <==>
      key in values || exists i :: 0 <= i < |tokenBalances| && tokenBalances[i].address == key
    ensures (forall i :: 0 <= i < |tokenBalances| ==> tokenBalances[i].address != key) && key in values ==>
      ApplyBalances(values, tokenBalances)[key] == values[key]
    ensures forall i :: (0 <= i < |tokenBalances| && tokenBalances[i].address == key &&
                         (forall j :: i < j < |tokenBalances| ==> tokenBalances[j].address != key)) ==>
      ApplyBalances(values, tokenBalances)[key] == tokenBalances[i].amount
  {
    if tokenBalances != [] {
      var n := |tokenBalances|;
      var init := tokenBalances[..n - 1];
      ApplyBalancesLookup(values, init, key);
      assert forall i :: 0 <= i < n - 1 ==> init[i] == tokenBalances[i];
      if tokenBalances[n - 1].address != key {
        assert (exists i :: 0 <= i < |tokenBalances| && tokenBalances[i].address == key) <==>
          (exists i :: 0 <= i < |init| && init[i].address == key);
      }
    }
  }

  /** The test of the fulfilled case: every result entry names, at its own
    * position, the address the largest in-flight request listed there (an
    * entry past the end of that list reads `undefined` and fails). */
  predicate ResultsMatchInFlight(inFlight: seq<string>, tokenBalances: seq<TokenBalance>)
  {
    |tokenBalances| <= |inFlight| &&
    forall i :: 0 <= i < |tokenBalances| ==> inFlight[i] == tokenBalances[i].address
  }

  /** The values after `walletChanged`: every known token at zero. */
  function ZeroedValues(values: BalanceValues): (r: BalanceValues)
    ensures r.Keys == values.Keys
    ensures forall k :: k in r ==> r[k] == Some(0)
  {
    map k | k in values :: Some(0)
  }

  class BalancesSlice {
    var status: FetchStatus
    var lastFetch: Option<nat>
    var inFlightFetchTokens: Option<seq<string>>
    var values: BalanceValues

    function State(): BalancesState
      reads this
    {
      BalancesState(status, lastFetch, inFlightFetchTokens, values)
    }

    /** `initialState`. */
    constructor ()
      ensures State() == BalancesState(Idle, None, None, map[])
    {
      status := Idle;
      lastFetch := None;
      inFlightFetchTokens := None;
      values := map[];
    }

    /** `incrementBy`: adds to the lower-cased address's amount. */
    method IncrementBy(tokenAddress: string, amount: nat)
      modifies this
      ensures values == old(values)[ToLower(tokenAddress) := Some(CurrentAmount(old(values), ToLower(tokenAddress)) + amount)]
      ensures status == old(status) && lastFetch == old(lastFetch) && inFlightFetchTokens == old(inFlightFetchTokens)
    {
      var key := ToLower(tokenAddress);
      var current := CurrentAmount(values, key);
      values := values[key := Some(current + amount)];
    }

    /** `decrementBy`: subtracts from the lower-cased address's amount, clamped at
      * zero. */
    method DecrementBy(tokenAddress: string, amount: nat)
      modifies this
      ensures values == old(values)[ToLower(tokenAddress) := Some(DecrementedAmount(CurrentAmount(old(values), ToLower(tokenAddress)), amount))]
      ensures status == old(status) && lastFetch == old(lastFetch) && inFlightFetchTokens == old(inFlightFetchTokens)
    {
      var key := ToLower(tokenAddress);
      var current := CurrentAmount(values, key);
      var newAmount: int := current - amount;
      if newAmount < 0 {
        newAmount := 0;
      }
      values := values[key := Some(newAmount)];
    }

    /** `set`: stores the amount under the lower-cased address. */
    method Set(tokenAddress: string, amount: nat)
      modifies this
      ensures values == old(values)[ToLower(tokenAddress) := Some(amount)]
      ensures status == old(status) && lastFetch == old(lastFetch) && inFlightFetchTokens == old(inFlightFetchTokens)
    {
      values := values[ToLower(tokenAddress) := Some(amount)];
    }

    /** The fetch thunk's `pending` case. */
    method Pending()
      modifies this
      ensures State() == old(State()).(status := Fetching)
    {
      status := Fetching;
    }

    /** The set-in-flight action: records the addresses of the largest request. */
    method SetInFlightRequestTokens(tokens: seq<string>)
      modifies this
      ensures State() == old(State()).(inFlightFetchTokens := Some(tokens))
    {
      inFlightFetchTokens := Some(tokens);
    }

    /** The fetch thunk's `fulfilled` case (balancesSlice.ts:93-112): stamps the
      * time, writes each result entry under its address as given (not
      * lower-cased), and goes back to idle only when this result is the largest
      * in-flight request. */
    method Fulfilled(tokenBalances: seq<TokenBalance>, now: nat)
      modifies this
      ensures lastFetch == Some(now)
      ensures values == ApplyBalances(old(values), tokenBalances)
      ensures old(inFlightFetchTokens).Some? && ResultsMatchInFlight(old(inFlightFetchTokens).value, tokenBalances) ==>
        inFlightFetchTokens == None && status == Idle
      ensures !(old(inFlightFetchTokens).Some? && ResultsMatchInFlight(old(inFlightFetchTokens).value, tokenBalances)) ==>
        inFlightFetchTokens == old(inFlightFetchTokens) && status == old(status)
    {
      lastFetch := Some(now);
      var i := 0;
      while i < |tokenBalances|
        invariant 0 <= i <= |tokenBalances|
        invariant values == ApplyBalances(old(values), tokenBalances[..i])
        invariant lastFetch == Some(now)
        invariant inFlightFetchTokens == old(inFlightFetchTokens) && status == old(status)
      {
        assert tokenBalances[..i + 1][..i] == tokenBalances[..i];
        values := values[tokenBalances[i].address := tokenBalances[i].amount];
        i := i + 1;
      }
      assert tokenBalances[..|tokenBalances|] == tokenBalances;
      if inFlightFetchTokens.Some? {
        var inFlight := inFlightFetchTokens.value;
        var every := true;
        var j := 0;
        while j < |tokenBalances|
          invariant 0 <= j <= |tokenBalances|
          invariant every <==> j <= |inFlight| && forall k :: 0 <= k < j ==> inFlight[k] == tokenBalances[k].address
        {
          if !(j < |inFlight| && inFlight[j] == tokenBalances[j].address) {
            every := false;
          }
          j := j + 1;
        }
        if every {
          inFlightFetchTokens := None;
          status := Idle;
        }
      }
    }

    /** The fetch thunk's `rejected` case. */
    method Rejected()
      modifies this
      ensures State() == old(State()).(status := Failed)
    {
      status := Failed;
    }

    /** `walletDisconnected`: back to the initial state. */
    method WalletDisconnected()
      modifies this
      ensures State() == BalancesState(Idle, None, None, map[])
    {
      status := Idle;
      lastFetch := None;
      inFlightFetchTokens := None;
      values := map[];
    }

    /** `walletChanged`: every token is kept at zero until the next fetch, the
      * rest of the state is kept. */
    method WalletChanged()
      modifies this
      ensures State() == old(State()).(values := ZeroedValues(old(values)))
    {
      var keys := values.Keys;
      var zeroed: BalanceValues := map[];
      while keys != {}
        invariant keys <= values.Keys
        invariant zeroed.Keys == values.Keys - keys
        invariant forall k :: k in zeroed ==> zeroed[k] == Some(0)
        decreases |keys|
      {
        var key :| key in keys;
        zeroed := zeroed[key := Some(0)];
        keys := keys - {key};
      }
      values := zeroed;
    }
  }
}
