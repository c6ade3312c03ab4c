/** `src/features/myOtcOrders/myOtcOrdersHelpers.ts`: the user's OTC orders kept
  * in the browser's local storage, full orders and ERC-20 orders under one key
  * each per account and chain. */
module MyOtcOrdersHelpers {
  import opened Entities
  import opened StringHelpers
  import Seqs
  import FullOrderHelpers
  import OrderERC20Helpers

  const KeyPrefix: string := "airswap/userOtcOrders/"

  /** `getUserOtcOrdersLocalStorageKey`, with the stray `}` the template
    * string leaves after the chain id. */
  function StorageKey(account: string, chainId: nat, isErc20: bool): (r: string)
    ensures |r| > |KeyPrefix| && r[..|KeyPrefix|] == KeyPrefix
    ensures r[|r| - 1] == '}'
  {
    KeyPrefix + (if isErc20 then "erc20" else "full") + "/" + ToLower(account) + "/" + NatToString(chainId) + "}"
  }

  /** The key does not depend on the case of the account. */
  lemma StorageKeyIgnoresCase(a: string, b: string, chainId: nat, isErc20: bool)
    requires CompareAddresses(a, b)
    ensures StorageKey(a, chainId, isErc20) == StorageKey(b, chainId, isErc20)
  {
  }

  /** The full-order and the ERC-20 keys never collide, whatever the accounts
    * and chains. */
  lemma FullAndErc20KeysDiffer(a: string, b: string, c1: nat, c2: nat)
    ensures StorageKey(a, c1, false) != StorageKey(b, c2, true)
  {
    var k1 := StorageKey(a, c1, false);
    var k2 := StorageKey(b, c2, true);
    assert k1[|KeyPrefix|] == 'f';
    assert k2[|KeyPrefix|] == 'e';
  }

  /** `compressFullOrder`, `compressFullOrderERC20` and their inverses, which are
    * not part of this model. */
  datatype OrderCodec = OrderCodec(
    compressFull: Order -> string, decompressFull: string -> Order,
    compressErc20: Order -> string, decompressErc20: string -> Order)

  /** The codec's decompression undoes its compression. */
  ghost predicate RoundTrips(codec: OrderCodec)
  {
    (forall o :: codec.decompressFull(codec.compressFull(o)) == o) &&
    (forall o :: codec.decompressErc20(codec.compressErc20(o)) == o)
  }

  function Mapped<A, B>(s: seq<A>, f: A -> B): (r: seq<B>)
    ensures |r| == |s| && forall i :: 0 <= i < |s| ==> r[i] == f(s[i])
  {
    seq(|s|, i requires 0 <= i < |s| => f(s[i]))
  }

  /** The orders `writeOtcUserOrdersToLocalStorage` stores under each key. */
  function FullOrdersOf(orders: seq<Order>): seq<Order>
  {
    Seqs.Filter(orders, FullOrderHelpers.IsFullOrder)
  }

  function Erc20OrdersOf(orders: seq<Order>): seq<Order>
  {
    Seqs.Filter(orders, OrderERC20Helpers.IsFullOrderERC20)
  }

  /** Local storage after the write: the compressed full orders under the full
    * key and the compressed ERC-20 orders under the ERC-20 key, each list
    * replacing what was there. */
  function WrittenItems(items: map<string, seq<string>>, orders: seq<Order>, address: string, chainId: nat, codec: OrderCodec): (r: map<string, seq<string>>)
    ensures r.Keys == items.Keys + {StorageKey(address, chainId, false), StorageKey(address, chainId, true)}
    ensures forall k :: k in items && k != StorageKey(address, chainId, false) && k != StorageKey(address, chainId, true) ==> r[k] == items[k]
    ensures r[StorageKey(address, chainId, false)] == Mapped(FullOrdersOf(orders), codec.compressFull)
    ensures r[StorageKey(address, chainId, true)] == Mapped(Erc20OrdersOf(orders), codec.compressErc20)
  {
    ToLowerIdempotent(address);
    items[StorageKey(ToLower(address), chainId, false) := Mapped(FullOrdersOf(orders), codec.compressFull)]
         [StorageKey(ToLower(address), chainId, true) := Mapped(Erc20OrdersOf(orders), codec.compressErc20)]
  }

  /** A missing entry reads as an empty list. */
  function Stored(items: map<string, seq<string>>, key: string): seq<string>
  {
    if key in items then items[key] else []
  }

  /** `getUserOrdersFromLocalStorage`: the full orders, then the ERC-20 orders. */
  function ReadOrders(items: map<string, seq<string>>, address: string, chainId: nat, codec: OrderCodec): (r: seq<Order>)
    ensures |r| == |Stored(items, StorageKey(address, chainId, false))| + |Stored(items, StorageKey(address, chainId, true))|
  {
    Mapped(Stored(items, StorageKey(address, chainId, false)), codec.decompressFull) +
    Mapped(Stored(items, StorageKey(address, chainId, true)), codec.decompressErc20)
  }

  /** Nothing stored for the account and chain reads as no orders. */
  lemma EmptyStorageReadsNothing(address: string, chainId: nat, codec: OrderCodec)
    ensures ReadOrders(map[], address, chainId, codec) == []
  {
  }

  /** Reading back what was written, for the same chain and the account in any
    * case, gives the full orders, then the ERC-20 orders, of the written list. */
  lemma WriteThenRead(items: map<string, seq<string>>, orders: seq<Order>, address: string, reader: string, chainId: nat, codec: OrderCodec)
    requires RoundTrips(codec)
    requires CompareAddresses(address, reader)
    ensures ReadOrders(WrittenItems(items, orders, address, chainId, codec), reader, chainId, codec) ==
      FullOrdersOf(orders) + Erc20OrdersOf(orders)
  {
    var written := WrittenItems(items, orders, address, chainId, codec);
    ToLowerIdempotent(address);
    StorageKeyIgnoresCase(address, reader, chainId, false);
    StorageKeyIgnoresCase(address, reader, chainId, true);
    FullAndErc20KeysDiffer(address, address, chainId, chainId);
    var full := Mapped(Mapped(FullOrdersOf(orders), codec.compressFull), codec.decompressFull);
    var erc20 := Mapped(Mapped(Erc20OrdersOf(orders), codec.compressErc20), codec.decompressErc20);
    assert full == FullOrdersOf(orders);
    assert erc20 == Erc20OrdersOf(orders);
  }

  /** The browser's local storage, holding at each key the list the source
    * writes as JSON. */
  class LocalStore {
    var items: map<string, seq<string>>

    constructor (initial: map<string, seq<string>>)
      ensures items == initial
    {
      items := initial;
    }

    /** `writeOtcUserOrdersToLocalStorage`. */
    method WriteOtcUserOrders(orders: seq<Order>, address: string, chainId: nat, codec: OrderCodec)
      modifies this
      ensures items == WrittenItems(old(items), orders, address, chainId, codec)
    {
      var fullOrdersKey := StorageKey(ToLower(address), chainId, false);
      var erc20OrdersKey := StorageKey(ToLower(address), chainId, true);
      items := items[fullOrdersKey := Mapped(FullOrdersOf(orders), codec.compressFull)];
      items := items[erc20OrdersKey := Mapped(Erc20OrdersOf(orders), codec.compressErc20)];
    }

    /** `getUserOrdersFromLocalStorage`. */
    method GetUserOrders(address: string, chainId: nat, codec: OrderCodec) returns (orders: seq<Order>)
      ensures orders == ReadOrders(items, address, chainId, codec)
    {
      var fullOrderStrings := Stored(items, StorageKey(address, chainId, false));
      var erc20OrderStrings := Stored(items, StorageKey(address, chainId, true));
      orders := Mapped(fullOrderStrings, codec.decompressFull) + Mapped(erc20OrderStrings, codec.decompressErc20);
    }
  }
}
