/** `src/entities/AppTokenInfo/AppTokenInfoTransformers.ts`: collection token
  * metadata from an NFT as the Alchemy API describes it. */
module AppTokenInfoTransformers {
  import opened Wrappers
  import opened Entities

  /** The fields of Alchemy's `Nft` the transformer reads. */
  datatype NftContract = NftContract(address: string, tokenType: string)
  datatype Nft = Nft(contract: NftContract, tokenId: string, imageOriginalUrl: string, name: string, tokenUri: Option<string>)

  /** `transformNftToCollectionTokenInfo`. */
  function TransformNftToCollectionTokenInfo(nft: Nft, chainId: nat): (r: TokenInfo)
    ensures r.IsCollection() && r.chainId == chainId
    ensures r.kind == ERC721 <==> nft.contract.tokenType == "ERC721"
    ensures r.kind != ERC20
    ensures r.address == nft.contract.address && r.id == nft.tokenId
    ensures r.image == nft.imageOriginalUrl && r.name == nft.name
    ensures r.uri == nft.tokenUri.GetOr("")
  {
    CollectionToken(
      chainId,
      if nft.contract.tokenType == "ERC721" then ERC721 else ERC1155,
      nft.contract.address, nft.tokenId, nft.imageOriginalUrl, nft.name,
      match nft.tokenUri case Some(uri) => uri case None => "")
  }

  /** Any token type other than "ERC721" (including the unsupported ones) is
    * read as ERC-1155, and an NFT without a token URI gets the empty one. */
  lemma NonErc721IsErc1155(nft: Nft, chainId: nat)
    ensures nft.contract.tokenType != "ERC721" ==> TransformNftToCollectionTokenInfo(nft, chainId).kind == ERC1155
    ensures nft.tokenUri.None? ==> TransformNftToCollectionTokenInfo(nft, chainId).uri == ""
  {
  }
}
