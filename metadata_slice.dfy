/** `src/features/metadata/metadataSlice.ts`: the token metadata store. Every
  * reducer returns a fresh copy of the state, so each is a function from the
  * old state (and the action's payload) to the new one. */
module MetadataSlice {
  import opened Wrappers
  import opened Entities
  import opened StringHelpers
  import Seqs
  import Sorting

  /** Token metadata by token id. */
  type TokenInfoMap = map<string, TokenInfo>

  /** `MetadataState`, with the `isInitialized` flag `setActiveTokens` adds to it
    * (absent, so false, until then). */
  datatype MetadataState = MetadataState(
    isFetchingAllTokens: bool, isFetchingAllTokensSuccess: bool,
    knownTokens: TokenInfoMap, unknownTokens: TokenInfoMap,
    protocolFee: nat, activeTokens: seq<string>, isInitialized: bool)

  const InitialState := MetadataState(false, false, map[], map[], 0, [], false)

  /** `token.toLowerCase()` on every element. */
  function LowerAll(tokens: seq<string>): (r: seq<string>)
    ensures |r| == |tokens|
    ensures forall i :: 0 <= i < |r| ==> r[i] == ToLower(tokens[i])
  {
    seq(|tokens|, i requires 0 <= i < |tokens| => ToLower(tokens[i]))
  }

  /** `setActiveTokens`: the payload's tokens, sorted by `sortTokensById` (here
    * the preorder `le`) on a copy, then lower-cased. */
  function SetActiveTokens(state: MetadataState, payload: seq<string>, le: (string, string) -> bool): (r: MetadataState)
    ensures r.isInitialized
    ensures r == state.(isInitialized := true, activeTokens := r.activeTokens)
    ensures |r.activeTokens| == |payload|
    ensures forall t :: t in r.activeTokens <==> exists i :: 0 <= i < |payload| && ToLower(payload[i]) == t
  {
    var sorted := Sorting.InsertionSort(payload, le);
    var active := LowerAll(sorted);
    assert forall t :: t in active <==> exists i :: 0 <= i < |payload| && ToLower(payload[i]) == t by {
      forall t ensures t in active <==> exists i :: 0 <= i < |payload| && ToLower(payload[i]) == t {
        if t in active {
          var j :| 0 <= j < |active| && active[j] == t;
          assert sorted[j] in multiset(payload);
          var i :| 0 <= i < |payload| && payload[i] == sorted[j];
          assert ToLower(payload[i]) == t;
        }
        if exists i :: 0 <= i < |payload| && ToLower(payload[i]) == t {
          var i :| 0 <= i < |payload| && ToLower(payload[i]) == t;
          assert payload[i] in multiset(sorted);
          var j :| 0 <= j < |sorted| && sorted[j] == payload[i];
          assert active[j] == t;
        }
      }
    }
    state.(isInitialized := true, activeTokens := active)
  }

  /** The stored list is the payload put in `le` order, then lower-cased, and
    * holds no upper-case letter. */
  lemma SetActiveTokensSorted(state: MetadataState, payload: seq<string>, le: (string, string) -> bool)
    requires Sorting.TotalPreorder(le)
    ensures exists sorted :: (multiset(sorted) == multiset(payload) && Sorting.SortedBy(sorted, le) &&
                              SetActiveTokens(state, payload, le).activeTokens == LowerAll(sorted))
    ensures forall t :: t in SetActiveTokens(state, payload, le).activeTokens ==> ToLower(t) == t
  {
    var sorted := Sorting.InsertionSort(payload, le);
    Sorting.InsertionSortSorted(payload, le);
    assert SetActiveTokens(state, payload, le).activeTokens == LowerAll(sorted);
    forall t | t in SetActiveTokens(state, payload, le).activeTokens ensures ToLower(t) == t {
      var i :| 0 <= i < |payload| && ToLower(payload[i]) == t;
      ToLowerIdempotent(payload[i]);
    }
  }

  /** `setUnknownTokens`: replaces the unknown tokens. */
  function SetUnknownTokens(state: MetadataState, payload: TokenInfoMap): (r: MetadataState)
    ensures r.unknownTokens == payload
    ensures r == state.(unknownTokens := r.unknownTokens)
  {
    state.(unknownTokens := payload)
  }

  /** `{ ...old, ...payload }`: every payload entry, and the old entries the
    * payload does not name. */
  function Merge(base: TokenInfoMap, payload: TokenInfoMap): (r: TokenInfoMap)
    ensures r.Keys == base.Keys + payload.Keys
    ensures forall k :: k in payload ==> r[k] == payload[k]
    ensures forall k :: k in base && k !in payload ==> r[k] == base[k]
  {
    base + payload
  }

  /** Merging the same payload twice is merging it once. */
  lemma MergeIdempotent(base: TokenInfoMap, payload: TokenInfoMap)
    ensures Merge(Merge(base, payload), payload) == Merge(base, payload)
  {
  }

  /** `fetchAllTokens.pending`. */
  function FetchAllTokensPending(state: MetadataState): (r: MetadataState)
    ensures r.isFetchingAllTokens && !r.isFetchingAllTokensSuccess
    ensures r == state.(isFetchingAllTokens := true, isFetchingAllTokensSuccess := false)
  {
    state.(isFetchingAllTokens := true, isFetchingAllTokensSuccess := false)
  }

  /** `fetchAllTokens.fulfilled`: the known tokens take the payload over them. */
  function FetchAllTokensFulfilled(state: MetadataState, payload: TokenInfoMap): (r: MetadataState)
    ensures !r.isFetchingAllTokens && r.isFetchingAllTokensSuccess
    ensures r.knownTokens == Merge(state.knownTokens, payload)
    ensures r == state.(isFetchingAllTokens := false, isFetchingAllTokensSuccess := true, knownTokens := r.knownTokens)
  {
    state.(isFetchingAllTokens := false, isFetchingAllTokensSuccess := true,
           knownTokens := Merge(state.knownTokens, payload))
  }

  /** `fetchAllTokens.rejected`: only the fetching flag changes. */
  function FetchAllTokensRejected(state: MetadataState): (r: MetadataState)
    ensures !r.isFetchingAllTokens
    ensures r == state.(isFetchingAllTokens := false)
  {
    state.(isFetchingAllTokens := false)
  }

  /** `fetchUnkownTokens.fulfilled`: the unknown tokens take the payload over
    * them. */
  function FetchUnknownTokensFulfilled(state: MetadataState, payload: TokenInfoMap): (r: MetadataState)
    ensures r.unknownTokens == Merge(state.unknownTokens, payload)
    ensures r == state.(unknownTokens := r.unknownTokens)
  {
    state.(unknownTokens := Merge(state.unknownTokens, payload))
  }

  /** `fetchProtocolFee.fulfilled`. */
  function FetchProtocolFeeFulfilled(state: MetadataState, fee: nat): (r: MetadataState)
    ensures r.protocolFee == fee
    ensures r == state.(protocolFee := fee)
  {
    state.(protocolFee := fee)
  }

  /** `walletChanged`: only the active tokens are cleared. */
  function WalletChanged(state: MetadataState): (r: MetadataState)
    ensures r.activeTokens == []
    ensures r == state.(activeTokens := [])
  {
    state.(activeTokens := [])
  }

  /** `chainIdChanged`: all token lists are cleared, the protocol fee is kept. */
  function ChainIdChanged(state: MetadataState): (r: MetadataState)
    ensures r.knownTokens == map[] && r.unknownTokens == map[] && r.activeTokens == []
    ensures r.protocolFee == state.protocolFee
    ensures r == state.(knownTokens := map[], unknownTokens := map[], activeTokens := [])
  {
    state.(knownTokens := map[], unknownTokens := map[], activeTokens := [])
  }

  /** `walletDisconnected`: the initial state. */
  function WalletDisconnected(state: MetadataState): (r: MetadataState)
    ensures r == InitialState
  {
    InitialState
  }

  /** `Object.values(tokens)`, enumerated in the order `keyOrder` gives. */
  function ValuesInOrder(tokens: TokenInfoMap, keyOrder: seq<string>): (r: seq<TokenInfo>)
    ensures |r| <= |keyOrder|
    ensures forall t :: t in r <==> exists k :: k in keyOrder && k in tokens && tokens[k] == t
  {
    if keyOrder == [] then []
    else
      var rest := ValuesInOrder(tokens, keyOrder[1..]);
      assert forall k :: k in keyOrder <==> k == keyOrder[0] || k in keyOrder[1..];
      (if keyOrder[0] in tokens then [tokens[keyOrder[0]]] else []) + rest
  }

  /** `keyOrder` lists exactly the map's keys, as `Object.values` does. */
  ghost predicate EnumeratesKeys(tokens: TokenInfoMap, keyOrder: seq<string>)
  {
    forall k :: k in tokens <==> k in keyOrder
  }

  /** Given the keys in full, the enumerated values are the map's values. */
  lemma ValuesInOrderMembers(tokens: TokenInfoMap, keyOrder: seq<string>, t: TokenInfo)
    requires EnumeratesKeys(tokens, keyOrder)
    ensures t in ValuesInOrder(tokens, keyOrder) <==> t in tokens.Values
  {
  }

  /** `sortTokenInfosById`: `sortTokensById` on the token ids. */
  function TokenInfoOrder(le: (string, string) -> bool, tokenId: TokenInfo -> string): (TokenInfo, TokenInfo) -> bool
  {
    (a: TokenInfo, b: TokenInfo) => le(tokenId(a), tokenId(b))
  }

  /** `selectAllTokens`: the known, then the unknown tokens, sorted. */
  function SelectAllTokens(
    state: MetadataState, knownOrder: seq<string>, unknownOrder: seq<string>,
    le: (string, string) -> bool, tokenId: TokenInfo -> string): (r: seq<TokenInfo>)
    ensures multiset(r) == multiset(ValuesInOrder(state.knownTokens, knownOrder) + ValuesInOrder(state.unknownTokens, unknownOrder))
  {
    Sorting.InsertionSort(ValuesInOrder(state.knownTokens, knownOrder) + ValuesInOrder(state.unknownTokens, unknownOrder),
                          TokenInfoOrder(le, tokenId))
  }

  /** `selectAllTokenInfo`: the tokens of the current chain; none while the
    * chain is unknown. */
  function SelectAllTokenInfo(
    state: MetadataState, chainId: Option<nat>, knownOrder: seq<string>, unknownOrder: seq<string>,
    le: (string, string) -> bool, tokenId: TokenInfo -> string): (r: seq<TokenInfo>)
    ensures forall j :: 0 <= j < |r| ==> Some(r[j].chainId) == chainId
    ensures forall t :: t in r <==> t in SelectAllTokens(state, knownOrder, unknownOrder, le, tokenId) && Some(t.chainId) == chainId
  {
    Seqs.Filter(SelectAllTokens(state, knownOrder, unknownOrder, le, tokenId), (t: TokenInfo) => Some(t.chainId) == chainId)
  }

  /** Given the keys in full, every known or unknown token of the chain is
    * selected, and nothing else. */
  lemma AllTokenInfoMembers(
    state: MetadataState, chainId: Option<nat>, knownOrder: seq<string>, unknownOrder: seq<string>,
    le: (string, string) -> bool, tokenId: TokenInfo -> string, t: TokenInfo)
    requires EnumeratesKeys(state.knownTokens, knownOrder) && EnumeratesKeys(state.unknownTokens, unknownOrder)
    ensures t in SelectAllTokenInfo(state, chainId, knownOrder, unknownOrder, le, tokenId) <==>
      (t in state.knownTokens.Values || t in state.unknownTokens.Values) && Some(t.chainId) == chainId
  {
    var known := ValuesInOrder(state.knownTokens, knownOrder);
    var unknown := ValuesInOrder(state.unknownTokens, unknownOrder);
    var all := SelectAllTokens(state, knownOrder, unknownOrder, le, tokenId);
    assert multiset(all) == multiset(known + unknown);
    assert t in all <==> t in multiset(all);
    assert t in known + unknown <==> t in multiset(known + unknown);
    ValuesInOrderMembers(state.knownTokens, knownOrder, t);
    ValuesInOrderMembers(state.unknownTokens, unknownOrder, t);
  }

  /** `selectActiveTokens`: the tokens of the chain whose id is active, sorted. */
  function SelectActiveTokens(
    state: MetadataState, chainId: Option<nat>, knownOrder: seq<string>, unknownOrder: seq<string>,
    le: (string, string) -> bool, tokenId: TokenInfo -> string): (r: seq<TokenInfo>)
    ensures forall t :: t in r <==>
      t in SelectAllTokenInfo(state, chainId, knownOrder, unknownOrder, le, tokenId) && tokenId(t) in state.activeTokens
  {
    var chosen := Seqs.Filter(SelectAllTokenInfo(state, chainId, knownOrder, unknownOrder, le, tokenId),
                              (t: TokenInfo) => tokenId(t) in state.activeTokens);
    var r := Sorting.InsertionSort(chosen, TokenInfoOrder(le, tokenId));
    assert forall t :: t in r <==> t in chosen by {
      forall t ensures t in r <==> t in chosen {
        assert t in r <==> t in multiset(r);
        assert t in chosen <==> t in multiset(chosen);
      }
    }
    r
  }

  /** Both selectors come out in `sortTokenInfosById` order. */
  lemma SelectorsSorted(
    state: MetadataState, chainId: Option<nat>, knownOrder: seq<string>, unknownOrder: seq<string>,
    le: (string, string) -> bool, tokenId: TokenInfo -> string)
    requires Sorting.TotalPreorder(le)
    ensures Sorting.SortedBy(SelectAllTokenInfo(state, chainId, knownOrder, unknownOrder, le, tokenId), TokenInfoOrder(le, tokenId))
    ensures Sorting.SortedBy(SelectActiveTokens(state, chainId, knownOrder, unknownOrder, le, tokenId), TokenInfoOrder(le, tokenId))
  {
    var order := TokenInfoOrder(le, tokenId);
    assert Sorting.TotalPreorder(order) by {
      assert forall a, b :: order(a, b) == le(tokenId(a), tokenId(b));
    }
    var values := ValuesInOrder(state.knownTokens, knownOrder) + ValuesInOrder(state.unknownTokens, unknownOrder);
    Sorting.InsertionSortSorted(values, order);
    var all := SelectAllTokens(state, knownOrder, unknownOrder, le, tokenId);
    FilterKeepsSorted(all, (t: TokenInfo) => Some(t.chainId) == chainId, order);
    var chosen := Seqs.Filter(SelectAllTokenInfo(state, chainId, knownOrder, unknownOrder, le, tokenId),
                              (t: TokenInfo) => tokenId(t) in state.activeTokens);
    Sorting.InsertionSortSorted(chosen, order);
  }

  /** In a sorted sequence the head comes before every later element, and the
    * tail is sorted. */
  lemma SortedHeadAndTail<T>(s: seq<T>, le: (T, T) -> bool)
    requires s != [] && Sorting.SortedBy(s, le)
    ensures forall x :: x in s[1..] ==> le(s[0], x)
    ensures Sorting.SortedBy(s[1..], le)
  {
    forall x | x in s[1..] ensures le(s[0], x) {
      var k :| 0 <= k < |s[1..]| && s[1..][k] == x;
      assert s[k + 1] == x;
    }
    forall i, j | 0 <= i < j < |s[1..]| ensures le(s[1..][i], s[1..][j]) {
      assert s[1..][i] == s[i + 1] && s[1..][j] == s[j + 1];
    }
  }

  /** Filtering a sorted sequence keeps it sorted. */
  lemma {:induction false} FilterKeepsSorted<T(!new)>(s: seq<T>, p: T -> bool, le: (T, T) -> bool)
    requires Sorting.SortedBy(s, le)
    ensures Sorting.SortedBy(Seqs.Filter(s, p), le)
  {
    if s != [] {
      var tail := s[1..];
      SortedHeadAndTail(s, le);
      FilterKeepsSorted(tail, p, le);
      var rest := Seqs.Filter(tail, p);
      if p(s[0]) {
        var r := [s[0]] + rest;
        assert Seqs.Filter(s, p) == r;
        forall i, j | 0 <= i < j < |r| ensures le(r[i], r[j]) {
          assert r[j] == rest[j - 1] && rest[j - 1] in tail;
          if i > 0 {
            assert r[i] == rest[i - 1];
          }
        }
      } else {
        assert Seqs.Filter(s, p) == rest;
      }
    }
  }

  /** After a chain change nothing is selected, whatever the chain. */
  lemma ChainChangeEmptiesSelectors(
    state: MetadataState, chainId: Option<nat>, le: (string, string) -> bool, tokenId: TokenInfo -> string)
    ensures SelectAllTokenInfo(ChainIdChanged(state), chainId, [], [], le, tokenId) == []
    ensures SelectActiveTokens(ChainIdChanged(state), chainId, [], [], le, tokenId) == []
  {
    assert SelectAllTokens(ChainIdChanged(state), [], [], le, tokenId) == [];
  }

  /** After a wallet change no token is active, and the chain's tokens stay. */
  lemma WalletChangeEmptiesActiveTokens(
    state: MetadataState, chainId: Option<nat>, knownOrder: seq<string>, unknownOrder: seq<string>,
    le: (string, string) -> bool, tokenId: TokenInfo -> string)
    ensures SelectActiveTokens(WalletChanged(state), chainId, knownOrder, unknownOrder, le, tokenId) == []
    ensures SelectAllTokenInfo(WalletChanged(state), chainId, knownOrder, unknownOrder, le, tokenId) ==
      SelectAllTokenInfo(state, chainId, knownOrder, unknownOrder, le, tokenId)
  {
  }
}
