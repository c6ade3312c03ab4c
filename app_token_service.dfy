/** `src/entities/AppTokenInfo/AppTokenService.ts`: the balance of each owned NFT
  * of a collection, by token id. */
module AppTokenService {
  /** The fields of Alchemy's `OwnedNft` the transformer reads. */
  datatype OwnedNft = OwnedNft(tokenId: string, balance: string)

  /** The dictionary after each owned NFT is written in turn. */
  function TokenIdsWithBalance(ownedNfts: seq<OwnedNft>): map<string, string>
  {
    if ownedNfts == [] then map[]
    else
      var last := ownedNfts[|ownedNfts| - 1];
      TokenIdsWithBalance(ownedNfts[..|ownedNfts| - 1])[last.tokenId := last.balance]
  }

  /** The keys are exactly the token ids of the input, and each carries the
    * balance of the last NFT with that id, unchanged. */
  lemma {:induction false} TokenIdsWithBalanceLookup(ownedNfts: seq<OwnedNft>, tokenId: string)
    ensures tokenId in TokenIdsWithBalance(ownedNfts) <==> exists i :: 0 <= i < |ownedNfts| && ownedNfts[i].tokenId == tokenId
    ensures forall i :: (0 <= i < |ownedNfts| && ownedNfts[i].tokenId == tokenId &&
                         (forall j :: i < j < |ownedNfts| ==> ownedNfts[j].tokenId != tokenId)) ==>
      TokenIdsWithBalance(ownedNfts)[tokenId] == ownedNfts[i].balance
  {
    if ownedNfts != [] {
      var n := |ownedNfts|;
      var init := ownedNfts[..n - 1];
      TokenIdsWithBalanceLookup(init, tokenId);
      assert forall i :: 0 <= i < n - 1 ==> init[i] == ownedNfts[i];
      if ownedNfts[n - 1].tokenId != tokenId {
        assert (exists i :: 0 <= i < n && ownedNfts[i].tokenId == tokenId) <==>
          (exists i :: 0 <= i < |init| && init[i].tokenId == tokenId);
      }
    }
  }

  /** No NFTs, no entries. */
  lemma EmptyHasNoBalances()
    ensures TokenIdsWithBalance([]) == map[]
  {
  }

  /** `transformOwnedNftsToTokenIdsWithBalance`: the reduce that fills the
    * accumulator in place. */
  method TransformOwnedNftsToTokenIdsWithBalance(ownedNfts: seq<OwnedNft>) returns (acc: map<string, string>)
    ensures acc == TokenIdsWithBalance(ownedNfts)
  {
    acc := map[];
    var i := 0;
    while i < |ownedNfts|
      invariant 0 <= i <= |ownedNfts|
      invariant acc == TokenIdsWithBalance(ownedNfts[..i])
    {
      assert ownedNfts[..i + 1][..i] == ownedNfts[..i];
      acc := acc[ownedNfts[i].tokenId := ownedNfts[i].balance];
      i := i + 1;
    }
    assert ownedNfts[..|ownedNfts|] == ownedNfts;
  }
}
