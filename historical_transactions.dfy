/** `src/features/transactions/hooks/useHistoricalTransactions.ts`: the user's
  * transaction history rebuilt from contract event logs and merged into one
  * list, newest first. */
module HistoricalTransactions {
  import opened Wrappers
  import opened Entities
  import opened StringHelpers
  import opened Seqs
  import opened Sorting
  import opened FullOrderHelpers
  import opened OrderERC20Helpers
  import opened SubmittedTransactionHelpers
  import opened SwapLogs

  /** A decoded log of any of the four sources; `swap` is the SwapERC20 event
    * data the ERC-20, wrapped and delegated sources carry. */
  datatype LogRecord = LogRecord(hash: string, order: Order, timestamp: nat, swap: Option<SwapERC20>)

  /** `HistoricalTransactionsCollection`. */
  datatype HistoricalTransactionsCollection =
    HistoricalTransactionsCollection(chainId: nat, account: string, transactions: seq<SubmittedTransaction>)

  /** The status `useAsync` reports for the log fetch. */
  datatype AsyncStatus = NotExecuted | Loading | Success | Failure

  /** The fetched logs and the chain and account they were fetched for. The
    * ERC-20, wrapped and delegated sources appear already decoded: their
    * helpers are not part of this model. */
  datatype FetchedLogs = FetchedLogs(
    chainId: nat, account: string, swapLogs: seq<SwapLog>,
    swapErc20Logs: seq<LogRecord>, wrappedLogs: seq<LogRecord>, delegatedSwapLogs: seq<LogRecord>)

  /** The staleness guard of the memo: work only on loaded logs tagged with the
    * current chain and account. */
  predicate LogsAreCurrent(chainId: Option<nat>, account: Option<string>, logs: Option<FetchedLogs>, status: AsyncStatus)
  {
    chainId.Some? && chainId.value != 0 && logs.Some? && status != Loading && status != NotExecuted &&
    logs.value.chainId == chainId.value && account == Some(logs.value.account)
  }

  /** A decoded full-order log as a record; it has no SwapERC20 event. */
  function FromFullSwapLogs(logs: seq<FullSwapLog>): (r: seq<LogRecord>)
    ensures |r| == |logs|
    ensures forall i :: 0 <= i < |logs| ==>
      r[i] == LogRecord(logs[i].hash, logs[i].order, logs[i].timestamp, None)
  {
    if logs == [] then []
    else [LogRecord(logs[0].hash, logs[0].order, logs[0].timestamp, None)] + FromFullSwapLogs(logs[1..])
  }

  /** The filter: the account is the signer, the sender of a full order, or the
    * sender in the swap event, ignoring case. */
  predicate InvolvesAccount(order: Order, swap: Option<SwapERC20>, account: string)
  {
    CompareAddresses(OrderSignerWallet(order), account) ||
    (IsFullOrder(order) && CompareAddresses(order.sender.wallet, account)) ||
    (swap.Some? && CompareAddresses(swap.value.senderWallet, account))
  }

  /** The token info `findTokenByAddressAndId` finds for the record's signer
    * token. */
  function SignerLookup(
    log: LogRecord, allTokens: seq<TokenInfo>,
    findTokenByAddressAndId: (seq<TokenInfo>, string, Option<string>) -> Option<TokenInfo>): Option<TokenInfo>
  {
    findTokenByAddressAndId(allTokens, OrderSignerToken(log.order), OrderSignerTokenId(log.order))
  }

  /** The token info found for the record's sender token. */
  function SenderLookup(
    log: LogRecord, allTokens: seq<TokenInfo>,
    findTokenByAddressAndId: (seq<TokenInfo>, string, Option<string>) -> Option<TokenInfo>): Option<TokenInfo>
  {
    findTokenByAddressAndId(allTokens, OrderSenderToken(log.order), OrderSenderTokenId(log.order))
  }

  /** The `map` step: `None` when either token is unknown. The transaction is
    * the succeeded order transaction `transformToSubmittedTransactionWithOrder`
    * builds. */
  function ToTransaction(
    log: LogRecord, allTokens: seq<TokenInfo>,
    findTokenByAddressAndId: (seq<TokenInfo>, string, Option<string>) -> Option<TokenInfo>): (r: Option<SubmittedTransaction>)
    ensures r.Some? <==>
      SignerLookup(log, allTokens, findTokenByAddressAndId).Some? &&
      SenderLookup(log, allTokens, findTokenByAddressAndId).Some?
    ensures r.Some? ==>
      && r.value.OrderTx? && r.value.status == Succeeded && !r.value.isLastLook
      && r.value.hash == Some(log.hash) && r.value.timestamp == log.timestamp
      && r.value.order == log.order && r.value.swap == log.swap
      && r.value.signerTokenInfo == SignerLookup(log, allTokens, findTokenByAddressAndId).value
      && r.value.senderTokenInfo == SenderLookup(log, allTokens, findTokenByAddressAndId).value
  {
    var signerTokenInfo := SignerLookup(log, allTokens, findTokenByAddressAndId);
    var senderTokenInfo := SenderLookup(log, allTokens, findTokenByAddressAndId);
    if signerTokenInfo.None? || senderTokenInfo.None? then None
    else Some(OrderTx(Some(log.hash), Succeeded, log.timestamp, log.order, log.swap, false,
                      signerTokenInfo.value, senderTokenInfo.value))
  }

  /** The order `Array.prototype.sort` puts them in under
    * `sortSubmittedTransactionsByExpiry`: `a` may come before `b`. */
  function NotAfter(a: SubmittedTransaction, b: SubmittedTransaction): bool
  {
    CompareByTimestamp(a, b) <= 0
  }

  /** `getUniqueArrayChildren(transactions, "hash")`. */
  function HashOf(t: SubmittedTransaction): Option<string>
  {
    t.hash
  }

  /** The sources in their order: full, ERC-20, wrapped, delegated. */
  function MergedRecords(chainId: nat, feeReceiver: Option<string>, logs: FetchedLogs): seq<LogRecord>
  {
    FromFullSwapLogs(OrdersFromSwapLogs(chainId, feeReceiver, logs.swapLogs)) +
      logs.swapErc20Logs + logs.wrappedLogs + logs.delegatedSwapLogs
  }

  /** The records the account takes part in, turned into transactions. */
  function AccountTransactions(
    records: seq<LogRecord>, account: string, allTokens: seq<TokenInfo>,
    findTokenByAddressAndId: (seq<TokenInfo>, string, Option<string>) -> Option<TokenInfo>): seq<SubmittedTransaction>
  {
    var involved := Filter(records, (r: LogRecord) => InvolvesAccount(r.order, r.swap, account));
    FilterMap(involved, (r: LogRecord) => ToTransaction(r, allTokens, findTokenByAddressAndId))
  }

  /** `getTransactionsFromLogs`: merge, filter, map, de-duplicate by hash, sort. */
  function TransactionsFromLogs(
    chainId: nat, account: string, feeReceiver: Option<string>, logs: FetchedLogs, allTokens: seq<TokenInfo>,
    findTokenByAddressAndId: (seq<TokenInfo>, string, Option<string>) -> Option<TokenInfo>): (r: HistoricalTransactionsCollection)
    ensures r.chainId == chainId && r.account == account
    ensures multiset(r.transactions) ==
      multiset(KeepFirst(AccountTransactions(MergedRecords(chainId, feeReceiver, logs), account, allTokens, findTokenByAddressAndId), HashOf))
  {
    var transactions := AccountTransactions(MergedRecords(chainId, feeReceiver, logs), account, allTokens, findTokenByAddressAndId);
    var uniqueTransactions := KeepFirst(transactions, HashOf);
    HistoricalTransactionsCollection(chainId, account, InsertionSort(uniqueTransactions, NotAfter))
  }

  /** The records the history keeps: the account takes part in them and both
    * of their tokens are known. */
  ghost predicate Kept(
    r: LogRecord, account: string, allTokens: seq<TokenInfo>,
    findTokenByAddressAndId: (seq<TokenInfo>, string, Option<string>) -> Option<TokenInfo>)
  {
    && InvolvesAccount(r.order, r.swap, account)
    && SignerLookup(r, allTokens, findTokenByAddressAndId).Some?
    && SenderLookup(r, allTokens, findTokenByAddressAndId).Some?
  }

  /** `t` is the entry built from record `r`: the account takes part in `r`,
    * both of its tokens are known, and `t` is a succeeded order transaction
    * carrying `r`'s hash, timestamp, order, swap event and the two token infos
    * found. */
  ghost predicate ComesFrom(
    t: SubmittedTransaction, r: LogRecord, account: string, allTokens: seq<TokenInfo>,
    findTokenByAddressAndId: (seq<TokenInfo>, string, Option<string>) -> Option<TokenInfo>)
  {
    && Kept(r, account, allTokens, findTokenByAddressAndId)
    && t.OrderTx? && t.status == Succeeded
    && t.hash == Some(r.hash) && t.timestamp == r.timestamp
    && t.order == r.order && t.swap == r.swap
    && t.signerTokenInfo == SignerLookup(r, allTokens, findTokenByAddressAndId).value
    && t.senderTokenInfo == SenderLookup(r, allTokens, findTokenByAddressAndId).value
  }

  /** What an entry of the history is: the transaction built from one of the
    * records, for a record the account takes part in and whose two tokens are
    * known. */
  ghost predicate IsHistoryEntry(
    t: SubmittedTransaction, records: seq<LogRecord>, account: string, allTokens: seq<TokenInfo>,
    findTokenByAddressAndId: (seq<TokenInfo>, string, Option<string>) -> Option<TokenInfo>)
  {
    exists r :: r in records && ComesFrom(t, r, account, allTokens, findTokenByAddressAndId)
  }

  /** The record a transaction of the account was built from. */
  lemma SourceOfEntry(
    t: SubmittedTransaction, records: seq<LogRecord>, account: string, allTokens: seq<TokenInfo>,
    findTokenByAddressAndId: (seq<TokenInfo>, string, Option<string>) -> Option<TokenInfo>)
    returns (r: LogRecord)
    requires t in AccountTransactions(records, account, allTokens, findTokenByAddressAndId)
    ensures r in records && ComesFrom(t, r, account, allTokens, findTokenByAddressAndId)
  {
    var p := (r: LogRecord) => InvolvesAccount(r.order, r.swap, account);
    var f := (r: LogRecord) => ToTransaction(r, allTokens, findTokenByAddressAndId);
    var involved := Filter(records, p);
    var txs := FilterMap(involved, f);
    var j :| 0 <= j < |txs| && txs[j] == t;
    var i :| 0 <= i < |involved| && f(involved[i]) == Some(txs[j]);
    assert p(involved[i]);
    r := involved[i];
  }

  /** Every transaction of the account comes from a record (soundness), and
    * every record the account takes part in whose two tokens are known gives
    * one (completeness). */
  lemma AccountTransactionsAreEntries(
    records: seq<LogRecord>, account: string, allTokens: seq<TokenInfo>,
    findTokenByAddressAndId: (seq<TokenInfo>, string, Option<string>) -> Option<TokenInfo>)
    ensures forall t :: t in AccountTransactions(records, account, allTokens, findTokenByAddressAndId) ==>
      IsHistoryEntry(t, records, account, allTokens, findTokenByAddressAndId)
    ensures forall r :: r in records && Kept(r, account, allTokens, findTokenByAddressAndId) ==>
        ToTransaction(r, allTokens, findTokenByAddressAndId).Some? &&
        ToTransaction(r, allTokens, findTokenByAddressAndId).value in
          AccountTransactions(records, account, allTokens, findTokenByAddressAndId)
  {
    var p := (r: LogRecord) => InvolvesAccount(r.order, r.swap, account);
    var f := (r: LogRecord) => ToTransaction(r, allTokens, findTokenByAddressAndId);
    var involved := Filter(records, p);
    var txs := FilterMap(involved, f);
    forall t | t in txs ensures IsHistoryEntry(t, records, account, allTokens, findTokenByAddressAndId) {
      var r := SourceOfEntry(t, records, account, allTokens, findTokenByAddressAndId);
    }
    forall r | r in records && Kept(r, account, allTokens, findTokenByAddressAndId) ensures f(r).value in txs {
      var i :| 0 <= i < |records| && records[i] == r;
      assert r in involved;
      var k :| 0 <= k < |involved| && involved[k] == r;
      FilterMapComplete(involved, f, k);
    }
  }

  /** The history: every entry is the transaction built from one of the
    * merged records the account takes part in, with both tokens known; no two
    * entries share a hash; and the entries run from the newest to the oldest.
    * It is tagged with the chain and account it was computed for. */
  lemma {:induction false} HistoryProperties(
    chainId: nat, account: string, feeReceiver: Option<string>, logs: FetchedLogs, allTokens: seq<TokenInfo>,
    findTokenByAddressAndId: (seq<TokenInfo>, string, Option<string>) -> Option<TokenInfo>)
    ensures var c := TransactionsFromLogs(chainId, account, feeReceiver, logs, allTokens, findTokenByAddressAndId);
      && c.chainId == chainId && c.account == account
      && (forall i :: 0 <= i < |c.transactions| ==>
            IsHistoryEntry(c.transactions[i], MergedRecords(chainId, feeReceiver, logs), account, allTokens, findTokenByAddressAndId))
      && (forall i, j :: 0 <= i < j < |c.transactions| ==> c.transactions[i].hash != c.transactions[j].hash)
      && (forall i, j :: 0 <= i < j < |c.transactions| ==>
            c.transactions[i].timestamp >= c.transactions[j].timestamp)
  {
    var c := TransactionsFromLogs(chainId, account, feeReceiver, logs, allTokens, findTokenByAddressAndId);
    var records := MergedRecords(chainId, feeReceiver, logs);
    var transactions := AccountTransactions(records, account, allTokens, findTokenByAddressAndId);
    var unique := KeepFirst(transactions, HashOf);
    var sorted := InsertionSort(unique, NotAfter);
    assert c.transactions == sorted;
    HistoryOfMembers(transactions);
    forall i | 0 <= i < |c.transactions|
      ensures IsHistoryEntry(c.transactions[i], MergedRecords(chainId, feeReceiver, logs), account, allTokens, findTokenByAddressAndId)
    {
      assert c.transactions[i] in transactions;
      var r := SourceOfEntry(c.transactions[i], records, account, allTokens, findTokenByAddressAndId);
    }
    KeepFirstSpec(transactions, HashOf);
    InsertionSortDistinctKeys(unique, NotAfter, HashOf);
    assert TotalPreorder(NotAfter);
    InsertionSortSorted(unique, NotAfter);
  }

  /** De-duplicating and sorting introduces no transaction. */
  lemma HistoryOfMembers(transactions: seq<SubmittedTransaction>)
    ensures forall t :: t in InsertionSort(KeepFirst(transactions, HashOf), NotAfter) ==> t in transactions
  {
    var unique := KeepFirst(transactions, HashOf);
    KeepFirstMembers(transactions, HashOf);
    forall t | t in InsertionSort(unique, NotAfter) ensures t in transactions {
      assert t in multiset(unique);
    }
  }

  /** No record is lost but for its tokens: every merged record the account
    * takes part in whose two tokens are known has its hash in the history. */
  lemma HistoryIsComplete(
    chainId: nat, account: string, feeReceiver: Option<string>, logs: FetchedLogs, allTokens: seq<TokenInfo>,
    findTokenByAddressAndId: (seq<TokenInfo>, string, Option<string>) -> Option<TokenInfo>)
    ensures var c := TransactionsFromLogs(chainId, account, feeReceiver, logs, allTokens, findTokenByAddressAndId);
      forall r :: r in MergedRecords(chainId, feeReceiver, logs) && Kept(r, account, allTokens, findTokenByAddressAndId) ==>
        exists t :: t in c.transactions && t.hash == Some(r.hash)
  {
    var c := TransactionsFromLogs(chainId, account, feeReceiver, logs, allTokens, findTokenByAddressAndId);
    var records := MergedRecords(chainId, feeReceiver, logs);
    var transactions := AccountTransactions(records, account, allTokens, findTokenByAddressAndId);
    var history := InsertionSort(KeepFirst(transactions, HashOf), NotAfter);
    assert c.transactions == history;
    forall r | r in MergedRecords(chainId, feeReceiver, logs) && Kept(r, account, allTokens, findTokenByAddressAndId)
      ensures exists t :: t in c.transactions && t.hash == Some(r.hash)
    {
      var t0 := ToTransaction(r, allTokens, findTokenByAddressAndId).value;
      assert t0 in transactions by {
        AccountTransactionsAreEntries(records, account, allTokens, findTokenByAddressAndId);
      }
      var i :| 0 <= i < |transactions| && transactions[i] == t0;
      var t := HashKept(transactions, i);
      assert t in c.transactions;
    }
  }

  /** The transaction the history keeps for the hash of the `i`-th one. */
  lemma HashKept(transactions: seq<SubmittedTransaction>, i: nat) returns (t: SubmittedTransaction)
    requires i < |transactions|
    ensures t in InsertionSort(KeepFirst(transactions, HashOf), NotAfter) && t.hash == transactions[i].hash
  {
    DedupeAndSortKeepOnePerHash(transactions);
    t :| t in InsertionSort(KeepFirst(transactions, HashOf), NotAfter) && t.hash == transactions[i].hash;
  }

  /** The de-duplicate-then-sort step of the history keeps one transaction for
    * each distinct hash among the account's transactions: under the modelled
    * keep-first de-duplication, the first one found for that hash. */
  lemma DedupeAndSortKeepOnePerHash(transactions: seq<SubmittedTransaction>)
    ensures var history := InsertionSort(KeepFirst(transactions, HashOf), NotAfter);
      && |history| == |KeysOf(transactions, HashOf)|
      && (forall t :: t in history ==> t.hash in KeysOf(transactions, HashOf) && t == FirstWithKey(transactions, HashOf, t.hash))
      && (forall i :: 0 <= i < |transactions| ==> exists t :: t in history && t.hash == transactions[i].hash)
  {
    KeepFirstSpec(transactions, HashOf);
    KeepFirstLength(transactions, HashOf);
    var unique := KeepFirst(transactions, HashOf);
    var history := InsertionSort(unique, NotAfter);
    forall t | t in history ensures t in unique {
      assert t in multiset(unique);
    }
    forall i | 0 <= i < |transactions| ensures exists t :: t in history && t.hash == transactions[i].hash {
      assert HashOf(transactions[i]) in KeysOf(unique, HashOf);
      var k :| 0 <= k < |unique| && HashOf(unique[k]) == HashOf(transactions[i]);
      assert unique[k] in multiset(history);
    }
  }

  /** The hook's two state cells. */
  class HistoricalTransactionsHook {
    var isLoading: bool
    var transactions: Option<HistoricalTransactionsCollection>

    constructor ()
      ensures !isLoading && transactions == None
    {
      isLoading := false;
      transactions := None;
    }

    /** The memo body up to the `await`: with current logs it marks the history
      * as loading and clears it; otherwise nothing changes. */
    method BeginRefresh(chainId: Option<nat>, account: Option<string>, logs: Option<FetchedLogs>, status: AsyncStatus)
      returns (started: bool)
      modifies this
      ensures started <==> LogsAreCurrent(chainId, account, logs, status)
      ensures started ==> isLoading && transactions == None
      ensures !started ==> isLoading == old(isLoading) && transactions == old(transactions)
    {
      if chainId.None? || chainId.value == 0 || logs.None? || status == Loading || status == NotExecuted ||
         logs.value.chainId != chainId.value || account != Some(logs.value.account) {
        return false;
      }
      isLoading := true;
      transactions := None;
      return true;
    }

    /** The end of `getTransactionsFromLogs`: the history for the chain and
      * account, and loading done. */
    method CompleteRefresh(
      chainId: nat, account: string, feeReceiver: Option<string>, logs: FetchedLogs, allTokens: seq<TokenInfo>,
      findTokenByAddressAndId: (seq<TokenInfo>, string, Option<string>) -> Option<TokenInfo>)
      modifies this
      ensures !isLoading
      ensures transactions == Some(TransactionsFromLogs(chainId, account, feeReceiver, logs, allTokens, findTokenByAddressAndId))
    {
      isLoading := false;
      transactions := Some(TransactionsFromLogs(chainId, account, feeReceiver, logs, allTokens, findTokenByAddressAndId));
    }
  }
}
