/** `src/features/transactions/helpers/getOrdersFromSwapLogs.ts`: full orders
  * rebuilt from the Swap contract's `Swap` events. */
module SwapLogs {
  import opened Wrappers
  import opened Entities
  import opened StringHelpers
  import opened Seqs
  import opened FullOrderHelpers

  /** A decoded event argument: a `BigNumber` or an address. */
  datatype LogArg = NumArg(n: nat) | AddrArg(a: string)

  /** A `Swap` event as the application reads it: its transaction hash, its
    * arguments (`swapLog.args`, possibly absent), and the timestamp of its block
    * in seconds when the block was found. */
  datatype SwapLog = SwapLog(transactionHash: string, args: Option<seq<LogArg>>, blockTimestamp: Option<nat>)

  /** `FullSwapLog`; the timestamp is in milliseconds. */
  datatype FullSwapLog = FullSwapLog(hash: string, order: Order, timestamp: nat)

  /** `args[i]` read as a number: `None` stands for `undefined`. A `BigNumber`
    * is an object, so it is truthy even when zero. */
  function NumAt(args: seq<LogArg>, i: nat): Option<nat>
  {
    if i < |args| && args[i].NumArg? then Some(args[i].n) else None
  }

  /** `args[i]` read as an address; the empty string is falsy. */
  function AddrAt(args: seq<LogArg>, i: nat): Option<string>
  {
    if i < |args| && args[i].AddrArg? && args[i].a != "" then Some(args[i].a) else None
  }

  /** The argument positions of the event: 0 nonce, 1 signerWallet,
    * 2 signerAmount, 3 signerId, 4 signerToken, 5 senderWallet, 6 senderAmount,
    * 7 senderId, 8 senderToken, 9 affiliateWallet, 10 affiliateAmount. */
  predicate AllArgsPresent(args: seq<LogArg>)
  {
    NumAt(args, 0).Some? && AddrAt(args, 1).Some? && NumAt(args, 2).Some? && NumAt(args, 3).Some? &&
    AddrAt(args, 4).Some? && AddrAt(args, 5).Some? && NumAt(args, 6).Some? && NumAt(args, 7).Some? &&
    AddrAt(args, 8).Some? && AddrAt(args, 9).Some? && NumAt(args, 10).Some?
  }

  /** `blocks[index]?.timestamp ? timestamp * 1000 : 0`. */
  function LogTimestamp(blockTimestamp: Option<nat>): (r: nat)
    ensures blockTimestamp.Some? ==> r == blockTimestamp.value * 1000
    ensures blockTimestamp.None? ==> r == 0
  {
    if blockTimestamp.Some? && blockTimestamp.value != 0 then blockTimestamp.value * 1000 else 0
  }

  /** The per-log step of the `map`: `None` when an argument is missing. */
  function DecodeSwapLog(log: SwapLog, chainId: nat): (r: Option<FullSwapLog>)
    ensures r.Some? <==> AllArgsPresent(if log.args.Some? then log.args.value else [])
    ensures r.Some? ==> r.value.hash == log.transactionHash && r.value.order.chainId == chainId
    ensures r.Some? ==> r.value.timestamp == LogTimestamp(log.blockTimestamp)
  {
    var args := if log.args.Some? then log.args.value else [];
    if !AllArgsPresent(args) then None
    else
      var signer := Party(AddrAt(args, 1).value, AddrAt(args, 4).value, ERC721,
                          NatToString(NumAt(args, 3).value), NumAt(args, 2).value);
      var sender := Party(AddrAt(args, 5).value, AddrAt(args, 8).value, ERC20,
                          NatToString(NumAt(args, 7).value), NumAt(args, 6).value);
      var order := Order(
        FullOrderFieldSet, signer, sender,
        AddrAt(args, 9).value, NumAt(args, 10).value,
        "", "", 0, "", "", 0, 0,
        0, NatToString(NumAt(args, 0).value), 0,
        "0", "0", "0",
        chainId, AddressZero);
      Some(FullSwapLog(log.transactionHash, order, LogTimestamp(log.blockTimestamp)))
  }

  /** `getOrdersFromSwapLogs`, the fee receiver of the chain given: nothing
    * without one, otherwise the decodable logs in their order. */
  function OrdersFromSwapLogs(chainId: nat, feeReceiver: Option<string>, logs: seq<SwapLog>): (r: seq<FullSwapLog>)
    ensures !Truthy(feeReceiver) ==> r == []
    ensures |r| <= |logs|
  {
    if !Truthy(feeReceiver) then []
    else FilterMap(logs, (log: SwapLog) => DecodeSwapLog(log, chainId))
  }

  /** A log is dropped exactly when one of its eleven arguments is missing. */
  lemma DecodeDropsIncompleteLogs(log: SwapLog, chainId: nat)
    ensures DecodeSwapLog(log, chainId).None? <==> !AllArgsPresent(if log.args.Some? then log.args.value else [])
    ensures log.args.None? ==> DecodeSwapLog(log, chainId).None?
  {
  }

  /** The order a decodable log becomes: a full order, ERC-721 for the signer
    * and ERC-20 for the sender, expiry, fee and signature all zero, the zero
    * swap contract and the given chain; the amounts are the event's numbers and
    * the nonce and ids read back as them; the log's hash and block time in
    * milliseconds go with it. */
  lemma DecodedOrderShape(log: SwapLog, chainId: nat)
    requires DecodeSwapLog(log, chainId).Some?
    ensures var r := DecodeSwapLog(log, chainId).value;
      var args := log.args.value;
      && IsFullOrder(r.order)
      && r.order.signer.kind == ERC721 && r.order.sender.kind == ERC20
      && r.order.expiry == 0 && r.order.protocolFee == 0
      && r.order.v == "0" && r.order.r == "0" && r.order.s == "0"
      && r.order.swapContract == AddressZero && r.order.chainId == chainId
      && r.order.signer.amount == args[2].n && r.order.sender.amount == args[6].n
      && r.order.affiliateAmount == args[10].n
      && DecimalValue(r.order.nonce) == args[0].n
      && DecimalValue(r.order.signer.id) == args[3].n
      && DecimalValue(r.order.sender.id) == args[7].n
      && r.hash == log.transactionHash
      && r.timestamp == LogTimestamp(log.blockTimestamp)
  {
    var args := log.args.value;
    NatToStringRoundTrip(args[0].n);
    NatToStringRoundTrip(args[3].n);
    NatToStringRoundTrip(args[7].n);
  }

  /** Decoding runs per log and keeps the logs' order: the result for a
    * concatenation is the concatenation of the results. */
  lemma OrdersFromSwapLogsAppend(chainId: nat, feeReceiver: Option<string>, a: seq<SwapLog>, b: seq<SwapLog>)
    ensures OrdersFromSwapLogs(chainId, feeReceiver, a + b) ==
      OrdersFromSwapLogs(chainId, feeReceiver, a) + OrdersFromSwapLogs(chainId, feeReceiver, b)
  {
    FilterMapAppend(a, b, (log: SwapLog) => DecodeSwapLog(log, chainId));
  }

  /** With a fee receiver, no decodable log is lost: its order is in the result. */
  lemma OrdersFromSwapLogsComplete(chainId: nat, feeReceiver: Option<string>, logs: seq<SwapLog>, i: nat)
    requires Truthy(feeReceiver) && i < |logs| && DecodeSwapLog(logs[i], chainId).Some?
    ensures DecodeSwapLog(logs[i], chainId).value in OrdersFromSwapLogs(chainId, feeReceiver, logs)
  {
    FilterMapComplete(logs, (log: SwapLog) => DecodeSwapLog(log, chainId), i);
  }

  /** One log yields its decoded order, or nothing when there is no fee
    * receiver or the log cannot be decoded. */
  lemma OrdersFromSwapLogsSingleton(chainId: nat, feeReceiver: Option<string>, log: SwapLog)
    ensures OrdersFromSwapLogs(chainId, feeReceiver, [log]) ==
      if Truthy(feeReceiver) && DecodeSwapLog(log, chainId).Some? then [DecodeSwapLog(log, chainId).value] else []
  {
  }

  /** Every record comes from a log of the input, with that log's hash. */
  lemma OrdersFromSwapLogsOrigin(chainId: nat, feeReceiver: Option<string>, logs: seq<SwapLog>)
    ensures forall j :: 0 <= j < |OrdersFromSwapLogs(chainId, feeReceiver, logs)| ==>
      exists i :: 0 <= i < |logs| && DecodeSwapLog(logs[i], chainId) == Some(OrdersFromSwapLogs(chainId, feeReceiver, logs)[j]) &&
        OrdersFromSwapLogs(chainId, feeReceiver, logs)[j].hash == logs[i].transactionHash
  {
    var r := OrdersFromSwapLogs(chainId, feeReceiver, logs);
    forall j | 0 <= j < |r|
      ensures exists i :: 0 <= i < |logs| && DecodeSwapLog(logs[i], chainId) == Some(r[j]) && r[j].hash == logs[i].transactionHash
    {
      var i :| 0 <= i < |logs| && DecodeSwapLog(logs[i], chainId) == Some(r[j]);
      assert r[j].hash == logs[i].transactionHash;
    }
  }
}
