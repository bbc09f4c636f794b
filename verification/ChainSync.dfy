/**
 One sync of a chain transaction over all stores: services/chain-transaction-sync.service.ts.

 `NodeView` is what the RPC node and the clock answer during the sync. `AfterSync` is the state after it;
 `WalletStores.SyncRow` gets there store by store. `ChainData` says what stays true of the chain data.
 */
module ChainSync {
  import opened Prelude
  import opened ChainStatus
  import Text = Decimals
  import Rows = ChainRows
  import Transfers = TransferLogs
  import Nonces = NonceReservations
  import Intents = SigningIntents

  type TxKey = (string, string)
  type EventKey = (TxKey, int)

  datatype LogEntry = LogEntry(index: Option<int>, contract: string, data: string, topics: seq<string>, removed: bool)

  datatype Receipt = Receipt(
    blockHash: Option<string>,
    blockNumber: Option<int>,
    succeeded: bool,
    gasUsed: Option<nat>,
    logs: seq<LogEntry>)

  /**
   A block read is none when the node does not know the block; a known block may have no hash yet. `walletOf` gives
   the wallets of the addresses that belong to one.
   */
  datatype NodeView = NodeView(
    receipt: Option<Receipt>,
    blockTime: Option<int>,
    blockAtHeight: Option<Option<string>>,
    blockByHash: Option<Option<string>>,
    knowsTransaction: bool,
    walletOf: map<string, string>,
    currentBlock: int,
    now: int)

  datatype IndexRow = IndexRow(status: Status, height: Option<int>, hash: Option<string>, gasUsed: Option<nat>,
                               confirmations: nat)

  datatype ChainLog = ChainLog(height: Option<int>, hash: Option<string>, entry: LogEntry)

  datatype TokenStandard = Erc20 | Erc721

  /** Amount and token id are decimal text. */
  datatype TokenTransfer = TokenTransfer(height: Option<int>, hash: Option<string>, confirmedAt: Option<int>,
                                         contract: string, standard: Option<TokenStandard>, amount: Option<string>,
                                         tokenId: Option<string>, from: string, to: string,
                                         fromWalletId: Option<string>, toWalletId: Option<string>)

  datatype Stores = Stores(
    rows: seq<Rows.ChainRow>,
    index: map<TxKey, IndexRow>,
    logs: map<EventKey, ChainLog>,
    tokens: map<EventKey, TokenTransfer>,
    transfers: seq<Transfers.TransferLog>,
    nonces: Nonces.NonceState,
    intents: seq<Intents.Intent>)

  // ---------- Pieces of one sync ----------

  function Key(r: Rows.ChainRow): TxKey { (r.networkId, r.txHash) }

  function Without<T>(m: map<EventKey, T>, key: TxKey): map<EventKey, T>
  {
    map k | k in m && k.0 != key :: m[k]
  }

  function LogOf(r: Receipt, e: LogEntry): ChainLog
  {
    ChainLog(r.blockNumber, r.blockHash, e)
  }

  /** The first n receipt logs upserted; a log without an index is skipped. */
  function PutLogs(m: map<EventKey, ChainLog>, key: TxKey, r: Receipt, n: nat): map<EventKey, ChainLog>
    requires n <= |r.logs|
  {
    if n == 0 then m
    else
      var rest := PutLogs(m, key, r, n - 1);
      var e := r.logs[n - 1];
      if e.index.None? then rest else rest[(key, e.index.value) := LogOf(r, e)]
  }

  const TRANSFER_TOPIC := "0xddf252ad1be2c89b69c2b068fc378daa952ba7f163c4a11628f55a4df523b3ef"

  predicate IsHexDigit(c: char) { '0' <= c <= '9' || 'a' <= c <= 'f' || 'A' <= c <= 'F' }

  function TopicAddress(topics: seq<string>, i: nat): Option<string>
  {
    if i >= |topics| || |topics[i]| < 42 then None
    else
      var tail := topics[i][|topics[i]| - 40..];
      if forall j :: 0 <= j < 40 ==> IsHexDigit(tail[j]) then Some("0x" + tail) else None
  }

  /** A log that counts as a token transfer. */
  predicate IsTokenTransfer(e: LogEntry)
  {
    && e.index.Some? && |e.topics| > 0 && e.topics[0] == TRANSFER_TOPIC
    && TopicAddress(e.topics, 1).Some? && TopicAddress(e.topics, 2).Some?
  }

  function HexDigit(c: char): nat
  {
    if '0' <= c <= '9' then (c - '0') as nat
    else if 'a' <= c <= 'f' then (c - 'a') as nat + 10
    else if 'A' <= c <= 'F' then (c - 'A') as nat + 10
    else 0
  }

  function HexValue(digits: string): nat
  {
    if digits == [] then 0 else 16 * HexValue(digits[..|digits| - 1]) + HexDigit(digits[|digits| - 1])
  }

  /** The number in a 0x word, as decimal text. */
  function WordText(word: string): string
  {
    Text.NatToText(if |word| < 2 then 0 else HexValue(word[2..]))
  }

  predicate HasData(e: LogEntry) { e.data != "" && e.data != "0x" }

  function TokenIdOf(e: LogEntry): Option<string>
  {
    if |e.topics| >= 4 && !HasData(e) then Some(WordText(e.topics[3])) else None
  }

  function AmountOf(e: LogEntry): (amount: Option<string>)
    ensures TokenIdOf(e).Some? ==> amount == Some("1")
    ensures amount.None? <==> !HasData(e) && |e.topics| < 4
  {
    if TokenIdOf(e).Some? then Some("1") else if HasData(e) then Some(WordText(e.data)) else None
  }

  function Lookup(wallets: map<string, string>, address: string): Option<string>
  {
    if address in wallets then Some(wallets[address]) else None
  }

  function TokenOf(r: Receipt, confirmedAt: Option<int>, wallets: map<string, string>, e: LogEntry): TokenTransfer
    requires IsTokenTransfer(e)
  {
    var from, to := TopicAddress(e.topics, 1).value, TopicAddress(e.topics, 2).value;
    var standard :=
      if TokenIdOf(e).Some? then Some(Erc721) else if AmountOf(e).Some? then Some(Erc20) else None;
    TokenTransfer(r.blockNumber, r.blockHash, confirmedAt, e.contract, standard, AmountOf(e), TokenIdOf(e), from, to,
                  Lookup(wallets, from), Lookup(wallets, to))
  }

  function PutTokens(m: map<EventKey, TokenTransfer>, key: TxKey, r: Receipt, confirmedAt: Option<int>,
                     wallets: map<string, string>, n: nat): map<EventKey, TokenTransfer>
    requires n <= |r.logs|
  {
    if n == 0 then m
    else
      var rest := PutTokens(m, key, r, confirmedAt, wallets, n - 1);
      var e := r.logs[n - 1];
      if IsTokenTransfer(e) then rest[(key, e.index.value) := TokenOf(r, confirmedAt, wallets, e)] else rest
  }

  function ReservationStatus(s: Status): Nonces.Status
  {
    match s
    case FinalConfirmed => Nonces.Confirmed
    case Failed | Dropped | Replaced => Nonces.Failed
    case _ => Nonces.Submitted
  }

  function IntentStatus(s: Status): Intents.IntentStatus
  {
    match s
    case FinalConfirmed => Intents.ConfirmedIntent
    case Failed | Dropped => Intents.FailedIntent
    case _ => Intents.SubmittedIntent
  }

  function IntentError(s: Status): Option<string>
  {
    match s
    case Failed => Some("CHAIN_EXECUTION_FAILED")
    case Dropped => Some("TX_DROPPED")
    case _ => None
  }

  function IntentsByHash(ns: seq<Intents.Intent>, hash: string, status: Status): seq<Intents.Intent>
  {
    if Text.Trim(hash) == "" then ns
    else Intents.SetIntentsByHash(ns, Text.Trim(hash), IntentStatus(status), IntentError(status))
  }

  /** Row, transfer log, nonce reservation and signing intent of one transaction take a new status. */
  function SetStatus(s: Stores, i: nat, status: Status, block: BlockFields, update: Transfers.TransferUpdate): Stores
    requires i < |s.rows|
  {
    var hash := s.rows[i].txHash;
    s.(rows := Rows.SetRow(s.rows, i, status, block),
       transfers := Transfers.UpdateByHashes(s.transfers, CleanHashes([hash]), update),
       nonces := Nonces.Apply(s.nonces, Nonces.MarkByHashes([hash], ReservationStatus(status))),
       intents := IntentsByHash(s.intents, hash, status))
  }

  /** Status and confirmation count a receipt gives. */
  function ReceiptStatus(r: Receipt, currentBlock: int): (Status, nat)
  {
    if r.succeeded then Finality(currentBlock, r.blockNumber) else (Failed, 0)
  }

  function ReceiptBlock(r: Receipt, v: NodeView): BlockFields
  {
    BlockFields(r.blockNumber, r.blockHash, r.gasUsed, if Truthy(r.blockHash) then v.blockTime else None,
                ReceiptStatus(r, v.currentBlock).1)
  }

  /** The receipt places an included transaction in another block. */
  predicate Moved(row: Rows.ChainRow, r: Receipt)
  {
    && HasCanonicalInclusion(row.status) && Truthy(row.block.hash) && Truthy(r.blockHash)
    && row.block.hash != r.blockHash
  }

  function OnReceipt(s: Stores, i: nat, r: Receipt, v: NodeView): Stores
    requires i < |s.rows|
  {
    var key := Key(s.rows[i]);
    var status := ReceiptStatus(r, v.currentBlock).0;
    var block := ReceiptBlock(r, v);
    var logs := if Moved(s.rows[i], r) then Without(s.logs, key) else s.logs;
    var tokens := if Moved(s.rows[i], r) then Without(s.tokens, key) else s.tokens;
    SetStatus(s, i, status, block, Transfers.StatusAndBlock(status, block))
      .(index := s.index[key := IndexRow(status, block.height, block.hash, block.gasUsed, block.confirmations)],
        logs := PutLogs(logs, key, r, |r.logs|),
        tokens := if status.FinalConfirmed? then PutTokens(tokens, key, r, block.confirmedAt, v.walletOf, |r.logs|) else tokens)
  }

  /** The block the row was included in, if the node still has it in place. */
  predicate StillCanonical(row: Rows.ChainRow, v: NodeView)
  {
    var found :=
      if row.block.height.Some? then v.blockAtHeight
      else if Truthy(row.block.hash) then v.blockByHash else None;
    found.Some? && (!Truthy(row.block.hash) || found.value == row.block.hash)
  }

  /** All chain data of the transaction is withdrawn. */
  function Withdraw(s: Stores, i: nat, status: Status): Stores
    requires i < |s.rows|
  {
    var key := Key(s.rows[i]);
    SetStatus(s, i, status, NO_BLOCK, Transfers.StatusAndBlock(status, NO_BLOCK))
      .(index := if key in s.index then s.index[key := IndexRow(status, None, None, None, 0)] else s.index,
        logs := Without(s.logs, key),
        tokens := Without(s.tokens, key))
  }

  /** Status and count go back to submitted; the block fields stay. */
  function BackToSubmitted(s: Stores, i: nat): Stores
    requires i < |s.rows|
  {
    SetStatus(s, i, Submitted, s.rows[i].block.(confirmations := 0),
              Transfers.NO_CHANGE.(status := Some(Chain(Submitted)), confirmations := Transfers.Set(0)))
  }

  predicate HasInclusion(row: Rows.ChainRow)
  {
    HasCanonicalInclusion(row.status) && (Truthy(row.block.hash) || row.block.height.Some?)
  }

  /** `syncRow`. */
  function AfterSync(s: Stores, i: nat, v: NodeView): Stores
    requires i < |s.rows|
  {
    var row := s.rows[i];
    if v.receipt.Some? then OnReceipt(s, i, v.receipt.value, v)
    else if HasInclusion(row) && StillCanonical(row, v) then s
    else
      var t := if HasInclusion(row) then Withdraw(s, i, Reorged) else s;
      var status := if HasInclusion(row) then Reorged else row.status;
      if v.knowsTransaction then
        if status.Submitted? || status.Reorged? then t else BackToSubmitted(t, i)
      else if v.now - row.createdAt >= DROP_AFTER_MS && !status.Dropped? then Withdraw(t, i, Dropped)
      else t
  }

  // ---------- No stale chain data ----------

  /** What the node promises of a receipt: its block has a hash. */
  predicate CarriesBlock(v: NodeView)
  {
    v.receipt.Some? ==> v.receipt.value.blockHash.Some? && CleanHash(v.receipt.value.blockHash.value)
  }

  /** Block fields and count a row holds in each status. */
  ghost predicate Shape(r: Rows.ChainRow)
  {
    && CountFits(r.status, r.block.confirmations)
    && (r.status.Submitted? || r.status.Reorged? || r.status.Dropped? ==> r.block == NO_BLOCK)
    && (HasCanonicalInclusion(r.status) || r.status.Failed? ==> r.block.hash.Some?)
    && (r.block.hash.Some? ==> CleanHash(r.block.hash.value))
  }

  ghost predicate Shapes(rows: seq<Rows.ChainRow>)
  {
    forall i :: 0 <= i < |rows| ==> Shape(rows[i])
  }

  /** Block data with this hash, stored for this transaction, is that of the block its row names. */
  ghost predicate Current(rows: seq<Rows.ChainRow>, key: TxKey, hash: Option<string>)
  {
    exists i :: 0 <= i < |rows| && Key(rows[i]) == key && rows[i].block.hash == hash && hash.Some?
  }

  ghost predicate FreshLogs(rows: seq<Rows.ChainRow>, logs: map<EventKey, ChainLog>)
  {
    forall k :: k in logs ==> Current(rows, k.0, logs[k].hash)
  }

  ghost predicate FreshTokens(rows: seq<Rows.ChainRow>, tokens: map<EventKey, TokenTransfer>)
  {
    forall k :: k in tokens ==> Current(rows, k.0, tokens[k].hash)
  }

  /** The index row repeats its transaction; a replacement alone does not reach the index status. */
  ghost predicate IndexedAs(rows: seq<Rows.ChainRow>, key: TxKey, x: IndexRow)
  {
    exists i :: 0 <= i < |rows| && Key(rows[i]) == key
      && x.height == rows[i].block.height && x.hash == rows[i].block.hash && x.gasUsed == rows[i].block.gasUsed
      && x.confirmations == rows[i].block.confirmations
      && (x.status == rows[i].status || rows[i].status.Replaced?)
  }

  ghost predicate IndexAgrees(rows: seq<Rows.ChainRow>, index: map<TxKey, IndexRow>)
  {
    forall k :: k in index ==> IndexedAs(rows, k, index[k])
  }

  ghost predicate ChainData(s: Stores)
  {
    && Rows.UniqueRows(s.rows)
    && Shapes(s.rows)
    && FreshLogs(s.rows, s.logs)
    && FreshTokens(s.rows, s.tokens)
    && IndexAgrees(s.rows, s.index)
  }

  lemma {:induction false} LogAt(m: map<EventKey, ChainLog>, key: TxKey, r: Receipt, n: nat, k: EventKey)
    requires n <= |r.logs|
    ensures var after := PutLogs(m, key, r, n);
            if k.0 == key && exists j :: 0 <= j < n && r.logs[j].index == Some(k.1)
            then k in after && after[k].hash == r.blockHash && after[k].height == r.blockNumber
            else (k in after <==> k in m) && (k in m ==> after[k] == m[k])
  {
    if n > 0 {
      LogAt(m, key, r, n - 1, k);
    }
  }

  lemma {:induction false} TokenAt(m: map<EventKey, TokenTransfer>, key: TxKey, r: Receipt, confirmedAt: Option<int>,
                                   wallets: map<string, string>, n: nat, k: EventKey)
    requires n <= |r.logs|
    ensures var after := PutTokens(m, key, r, confirmedAt, wallets, n);
            if k.0 == key && exists j :: 0 <= j < n && IsTokenTransfer(r.logs[j]) && r.logs[j].index == Some(k.1)
            then k in after && after[k].hash == r.blockHash
            else (k in after <==> k in m) && (k in m ==> after[k] == m[k])
  {
    hide TopicAddress, IsHexDigit, TRANSFER_TOPIC;
    if n > 0 {
      TokenAt(m, key, r, confirmedAt, wallets, n - 1, k);
    }
  }

  /** Data of other transactions stays current when row i changes its block. */
  lemma OthersStayCurrent(rows: seq<Rows.ChainRow>, i: nat, status: Status, block: BlockFields, key: TxKey,
                          hash: Option<string>)
    requires i < |rows| && Current(rows, key, hash) && (key != Key(rows[i]) || block.hash == hash)
    ensures Current(Rows.SetRow(rows, i, status, block), key, hash)
  {
    var after := Rows.SetRow(rows, i, status, block);
    var k :| 0 <= k < |rows| && Key(rows[k]) == key && rows[k].block.hash == hash;
    assert Key(after[k]) == key && after[k].block.hash == hash;
  }

  /** A row's own data is current for its own block hash only. */
  lemma OwnCurrent(rows: seq<Rows.ChainRow>, i: nat, hash: Option<string>)
    requires Rows.UniqueRows(rows) && i < |rows|
    ensures Current(rows, Key(rows[i]), hash) <==> hash.Some? && rows[i].block.hash == hash
  {
  }

  lemma OthersStayIndexed(rows: seq<Rows.ChainRow>, i: nat, status: Status, block: BlockFields, key: TxKey, x: IndexRow)
    requires i < |rows| && IndexedAs(rows, key, x) && key != Key(rows[i])
    ensures IndexedAs(Rows.SetRow(rows, i, status, block), key, x)
  {
    var after := Rows.SetRow(rows, i, status, block);
    var k :| 0 <= k < |rows| && Key(rows[k]) == key
      && x.height == rows[k].block.height && x.hash == rows[k].block.hash && x.gasUsed == rows[k].block.gasUsed
      && x.confirmations == rows[k].block.confirmations && (x.status == rows[k].status || rows[k].status.Replaced?);
    assert after[k] == rows[k];
  }

  /** The row's part of the invariant after its status and block are set. */
  lemma SetRowKeepsShapes(rows: seq<Rows.ChainRow>, i: nat, status: Status, block: BlockFields)
    requires Rows.UniqueRows(rows) && Shapes(rows) && i < |rows|
    requires Shape(rows[i].(status := status, block := block))
    ensures Rows.UniqueRows(Rows.SetRow(rows, i, status, block)) && Shapes(Rows.SetRow(rows, i, status, block))
  {
  }

  lemma SetIndexKeepsAgreement(rows: seq<Rows.ChainRow>, index: map<TxKey, IndexRow>, i: nat, status: Status,
                               block: BlockFields)
    requires i < |rows| && IndexAgrees(rows, index)
    ensures var x := IndexRow(status, block.height, block.hash, block.gasUsed, block.confirmations);
            var after := Rows.SetRow(rows, i, status, block);
            && IndexAgrees(after, index[Key(rows[i]) := x])
            && (Key(rows[i]) !in index ==> IndexAgrees(after, index))
  {
    var key := Key(rows[i]);
    var after := Rows.SetRow(rows, i, status, block);
    var x := IndexRow(status, block.height, block.hash, block.gasUsed, block.confirmations);
    assert IndexedAs(after, key, x) by {
      assert Key(after[i]) == key;
    }
    forall k | k in index && k != key ensures IndexedAs(after, k, index[k]) {
      OthersStayIndexed(rows, i, status, block, k, index[k]);
    }
  }

  lemma WithdrawKeepsChainData(s: Stores, i: nat, status: Status)
    requires ChainData(s) && i < |s.rows| && (status.Reorged? || status.Dropped?)
    ensures ChainData(Withdraw(s, i, status))
    ensures forall k :: k in Withdraw(s, i, status).logs || k in Withdraw(s, i, status).tokens ==> k.0 != Key(s.rows[i])
  {
    hide Nonces.Apply, Transfers.UpdateByHashes, IntentsByHash;
    var t := Withdraw(s, i, status);
    SetRowKeepsShapes(s.rows, i, status, NO_BLOCK);
    SetIndexKeepsAgreement(s.rows, s.index, i, status, NO_BLOCK);
    forall k | k in t.logs ensures Current(t.rows, k.0, t.logs[k].hash) {
      OthersStayCurrent(s.rows, i, status, NO_BLOCK, k.0, s.logs[k].hash);
    }
    forall k | k in t.tokens ensures Current(t.rows, k.0, t.tokens[k].hash) {
      OthersStayCurrent(s.rows, i, status, NO_BLOCK, k.0, s.tokens[k].hash);
    }
  }

  /** A stored log of row i that the receipt does not list again. */
  ghost predicate LeftBehind(s: Stores, i: nat, r: Receipt, k: EventKey)
    requires i < |s.rows|
  {
    k in s.logs && k.0 == Key(s.rows[i]) && !Relisted(r, k)
  }

  ghost predicate Relisted(r: Receipt, k: EventKey)
  {
    exists j :: 0 <= j < |r.logs| && r.logs[j].index == Some(k.1)
  }

  /** The receipt names no block, and an old log stays or a new one comes in without a block. */
  ghost predicate LeavesStale(s: Stores, i: nat, r: Receipt)
    requires i < |s.rows|
  {
    || (!Truthy(r.blockHash) && exists k :: LeftBehind(s, i, r, k))
    || (r.blockHash.None? && exists j :: 0 <= j < |r.logs| && r.logs[j].index.Some?)
  }

  lemma LogAfterReceipt(s: Stores, i: nat, r: Receipt, v: NodeView, k: EventKey)
    requires ChainData(s) && i < |s.rows| && IsSyncable(s.rows[i].status) && k in OnReceipt(s, i, r, v).logs
    requires !LeavesStale(s, i, r)
    ensures Current(OnReceipt(s, i, r, v).rows, k.0, OnReceipt(s, i, r, v).logs[k].hash)
  {
    hide Nonces.Apply, Transfers.UpdateByHashes, IntentsByHash, PutLogs, PutTokens;
    var key := Key(s.rows[i]);
    var status, block := ReceiptStatus(r, v.currentBlock).0, ReceiptBlock(r, v);
    var kept := if Moved(s.rows[i], r) then Without(s.logs, key) else s.logs;
    LogAt(kept, key, r, |r.logs|, k);
    if k.0 == key && Relisted(r, k) {
      OwnCurrentAfter(s.rows, i, status, block);
    } else {
      assert k in s.logs;
      OwnCurrent(s.rows, i, s.logs[k].hash);
      assert k.0 == key ==> LeftBehind(s, i, r, k);
      OthersStayCurrent(s.rows, i, status, block, k.0, s.logs[k].hash);
    }
  }

  lemma StaleAfterReceipt(s: Stores, i: nat, r: Receipt, v: NodeView) returns (k: EventKey)
    requires ChainData(s) && i < |s.rows| && IsSyncable(s.rows[i].status) && LeavesStale(s, i, r)
    ensures k in OnReceipt(s, i, r, v).logs
    ensures !Current(OnReceipt(s, i, r, v).rows, k.0, OnReceipt(s, i, r, v).logs[k].hash)
  {
    hide Nonces.Apply, Transfers.UpdateByHashes, IntentsByHash, PutLogs, PutTokens;
    var key := Key(s.rows[i]);
    var after := OnReceipt(s, i, r, v).rows;
    assert Rows.UniqueRows(after) && Key(after[i]) == key;
    if r.blockHash.None? && exists j :: 0 <= j < |r.logs| && r.logs[j].index.Some? {
      var j :| 0 <= j < |r.logs| && r.logs[j].index.Some?;
      k := (key, r.logs[j].index.value);
      assert Relisted(r, k);
    } else {
      k :| LeftBehind(s, i, r, k);
      OwnCurrent(s.rows, i, s.logs[k].hash);
    }
    LogAt(s.logs, key, r, |r.logs|, k);
    OwnCurrent(after, i, OnReceipt(s, i, r, v).logs[k].hash);
  }

  /**
   A receipt leaves no log of an abandoned block exactly when it names its block, or nothing is stored for the
   transaction that it does not list again and it brings nothing without a block.
   */
  lemma ReceiptKeepsLogsIff(s: Stores, i: nat, r: Receipt, v: NodeView)
    requires ChainData(s) && i < |s.rows| && IsSyncable(s.rows[i].status)
    ensures FreshLogs(OnReceipt(s, i, r, v).rows, OnReceipt(s, i, r, v).logs) <==> !LeavesStale(s, i, r)
  {
    hide OnReceipt, Current, LeavesStale, ChainData;
    if LeavesStale(s, i, r) {
      var k := StaleAfterReceipt(s, i, r, v);
    } else {
      forall k | k in OnReceipt(s, i, r, v).logs
        ensures Current(OnReceipt(s, i, r, v).rows, k.0, OnReceipt(s, i, r, v).logs[k].hash)
      {
        LogAfterReceipt(s, i, r, v, k);
      }
    }
  }

  /** The input: the first receipt of a transaction, with one log and no block. */
  lemma NamelessReceipt(row: Rows.ChainRow, entry: LogEntry, v: NodeView)
    requires row.status == Submitted && row.block == NO_BLOCK && entry.index.Some?
    ensures var s := Stores([row], map[], map[], map[], [], Nonces.NonceState(map[], []), []);
            var t := OnReceipt(s, 0, Receipt(None, None, true, None, [entry]), v);
            ChainData(s) && !FreshLogs(t.rows, t.logs)
  {
    hide OnReceipt, Current;
    var s := Stores([row], map[], map[], map[], [], Nonces.NonceState(map[], []), []);
    var r := Receipt(None, None, true, None, [entry]);
    assert Relisted(r, (Key(row), entry.index.value)) by { assert r.logs[0].index == entry.index; }
    ReceiptKeepsLogsIff(s, 0, r, v);
  }

  lemma OwnCurrentAfter(rows: seq<Rows.ChainRow>, i: nat, status: Status, block: BlockFields)
    requires i < |rows| && block.hash.Some?
    ensures Current(Rows.SetRow(rows, i, status, block), Key(rows[i]), block.hash)
  {
    var after := Rows.SetRow(rows, i, status, block);
    assert Key(after[i]) == Key(rows[i]) && after[i].block.hash == block.hash;
  }

  lemma ReceiptKeepsTokens(s: Stores, i: nat, r: Receipt, v: NodeView)
    requires ChainData(s) && i < |s.rows| && IsSyncable(s.rows[i].status)
    requires r.blockHash.Some? && CleanHash(r.blockHash.value)
    ensures FreshTokens(OnReceipt(s, i, r, v).rows, OnReceipt(s, i, r, v).tokens)
  {
    hide Nonces.Apply, Transfers.UpdateByHashes, IntentsByHash, PutLogs, PutTokens, IsTokenTransfer;
    var key := Key(s.rows[i]);
    var status, block := ReceiptStatus(r, v.currentBlock).0, ReceiptBlock(r, v);
    var t := OnReceipt(s, i, r, v);
    var kept := if Moved(s.rows[i], r) then Without(s.tokens, key) else s.tokens;
    OwnCurrentAfter(s.rows, i, status, block);
    forall k | k in t.tokens ensures Current(t.rows, k.0, t.tokens[k].hash) {
      TokenAt(kept, key, r, block.confirmedAt, v.walletOf, |r.logs|, k);
      if status.FinalConfirmed? && k.0 == key
         && (exists j :: 0 <= j < |r.logs| && IsTokenTransfer(r.logs[j]) && r.logs[j].index == Some(k.1)) {
      } else {
        assert k in s.tokens && t.tokens[k] == s.tokens[k];
        OwnCurrent(s.rows, i, s.tokens[k].hash);
        OthersStayCurrent(s.rows, i, status, block, k.0, s.tokens[k].hash);
      }
    }
  }

  /**
   One sync, whatever the node answers, leaves no data of an abandoned block: every stored log and token transfer
   names the block its row names, and block fields, counts and index fit the status.
   */
  lemma SyncKeepsChainData(s: Stores, i: nat, v: NodeView)
    requires ChainData(s) && i < |s.rows| && IsSyncable(s.rows[i].status) && CarriesBlock(v)
    ensures ChainData(AfterSync(s, i, v))
  {
    if v.receipt.Some? {
      var r := v.receipt.value;
      var status, block := ReceiptStatus(r, v.currentBlock).0, ReceiptBlock(r, v);
      ReceiptKeepsLogsIff(s, i, r, v);
      ReceiptKeepsTokens(s, i, r, v);
      SetRowKeepsShapes(s.rows, i, status, block);
      SetIndexKeepsAgreement(s.rows, s.index, i, status, block);
    } else {
      NeverBackToSubmitted(s.rows[i], v);
      WithdrawTwice(s, i);
    }
  }

  lemma WithdrawTwice(s: Stores, i: nat)
    requires ChainData(s) && i < |s.rows|
    ensures ChainData(Withdraw(s, i, Reorged)) && ChainData(Withdraw(s, i, Dropped))
    ensures ChainData(Withdraw(Withdraw(s, i, Reorged), i, Dropped))
  {
    hide ChainData;
    WithdrawKeepsChainData(s, i, Reorged);
    WithdrawKeepsChainData(s, i, Dropped);
    WithdrawKeepsChainData(Withdraw(s, i, Reorged), i, Dropped);
  }

  /** The branch that puts a row back to submitted is taken. */
  ghost predicate GoesBack(row: Rows.ChainRow, v: NodeView)
  {
    && v.receipt.None? && v.knowsTransaction && !HasInclusion(row)
    && !row.status.Submitted? && !row.status.Reorged?
  }

  /** Among syncable rows only one included without any block data goes back to submitted; no sync produces one. */
  lemma NeverBackToSubmitted(row: Rows.ChainRow, v: NodeView)
    requires IsSyncable(row.status)
    ensures GoesBack(row, v) <==>
              && v.receipt.None? && v.knowsTransaction
              && HasCanonicalInclusion(row.status) && !Truthy(row.block.hash) && row.block.height.None?
    ensures Shape(row) ==> !GoesBack(row, v)
  {
  }

  /** A row that is not mined has no stored log, token transfer or indexed block. */
  lemma NotMinedHoldsNothing(s: Stores, i: nat)
    requires ChainData(s) && i < |s.rows|
    requires s.rows[i].status.Submitted? || s.rows[i].status.Reorged? || s.rows[i].status.Dropped?
    ensures forall n: int :: (Key(s.rows[i]), n) !in s.logs && (Key(s.rows[i]), n) !in s.tokens
    ensures Key(s.rows[i]) in s.index ==> s.index[Key(s.rows[i])].hash.None? && s.index[Key(s.rows[i])].height.None?
  {
  }

  // ---------- What a sync decides ----------

  /** The node still has the block that includes the row. */
  ghost predicate InPlace(row: Rows.ChainRow, v: NodeView)
  {
    && row.status in {Included, SoftConfirmed, FinalConfirmed}
    && (if row.block.height.Some? then v.blockAtHeight == Some(row.block.hash) else v.blockByHash == Some(row.block.hash))
  }

  /** Blocks on top of the receipt's block, itself included. */
  ghost function Depth(r: Receipt, currentBlock: int): int
  {
    if r.blockNumber.Some? && r.blockNumber.value >= 0 then Max(1, currentBlock - r.blockNumber.value + 1) else 1
  }

  /**
   The new status by what the node answers: a receipt counts by its depth; without one a row keeps its status while
   its block is in place, is reorged when it lost its block, and is dropped once the node forgot it for long enough.
   */
  lemma SyncDecides(s: Stores, i: nat, v: NodeView)
    requires i < |s.rows| && Shape(s.rows[i])
    requires s.rows[i].status in {Submitted, Included, SoftConfirmed, FinalConfirmed, Reorged}
    ensures var row := s.rows[i];
            var t := AfterSync(s, i, v);
            var lost := row.status in {Included, SoftConfirmed, FinalConfirmed} && !InPlace(row, v);
            var gone := v.receipt.None? && !InPlace(row, v) && !v.knowsTransaction
                        && v.now - row.createdAt >= 600_000;
            && |t.rows| == |s.rows|
            && (t.rows[i].status.Failed? <==> v.receipt.Some? && !v.receipt.value.succeeded)
            && (t.rows[i].status.Dropped? <==> gone)
            && (t.rows[i].status.Reorged? <==> v.receipt.None? && !gone && (lost || row.status.Reorged?))
            && (v.receipt.None? && !gone && !lost ==> t == s)
            && (v.receipt.Some? && v.receipt.value.succeeded ==>
                  var depth := Depth(v.receipt.value, v.currentBlock);
                  && t.rows[i].block.confirmations == depth
                  && (t.rows[i].status.Included? <==> depth == 1)
                  && (t.rows[i].status.SoftConfirmed? <==> 2 <= depth <= 11)
                  && (t.rows[i].status.FinalConfirmed? <==> depth >= 12))
  {
    hide OnReceipt, Withdraw, BackToSubmitted;
    if v.receipt.Some? {
      RowAfterReceipt(s, i, v);
    } else {
      RowAfterWithdraw(s, i, Reorged);
      RowAfterWithdraw(s, i, Dropped);
      RowAfterWithdraw(Withdraw(s, i, Reorged), i, Dropped);
    }
    NeverBackToSubmitted(s.rows[i], v);
  }

  /** What the reservation of a transaction in this status says. */
  ghost predicate ReservationTells(status: Status, x: Nonces.Status)
  {
    match status
    case FinalConfirmed => x == Nonces.Confirmed
    case Failed | Dropped | Replaced => x == Nonces.Failed
    case Submitted | Included | SoftConfirmed | Reorged => x == Nonces.Submitted
  }

  /**
   What its intent says: confirmed with a final row, failed with a failed or dropped one and why, else submitted. A
   replacement leaves the intent as it was: submitted or confirmed.
   */
  ghost predicate IntentTells(status: Status, n: Intents.IntentStatus, error: Option<string>)
  {
    match status
    case FinalConfirmed => n == Intents.ConfirmedIntent && error == None
    case Failed => n == Intents.FailedIntent && error == Some("CHAIN_EXECUTION_FAILED")
    case Dropped => n == Intents.FailedIntent && error == Some("TX_DROPPED")
    case Submitted | Included | SoftConfirmed | Reorged => n == Intents.SubmittedIntent && error == None
    case Replaced => (n == Intents.SubmittedIntent || n == Intents.ConfirmedIntent) && error == None
  }

  /** Reservations, intents and logs of the transaction tell this status and block; the others are as they were. */
  ghost predicate Told(s: Stores, t: Stores, hash: string, status: Status, block: BlockFields)
  {
    && t.nonces.next == s.nonces.next && |t.nonces.reservations| == |s.nonces.reservations|
    && |t.intents| == |s.intents| && |t.transfers| == |s.transfers|
    && (forall j :: 0 <= j < |s.nonces.reservations| ==>
          var x, y := s.nonces.reservations[j], t.nonces.reservations[j];
          y == x.(status := y.status) && if x.txHash == Some(hash) then ReservationTells(status, y.status) else y == x)
    && (forall j :: 0 <= j < |s.intents| ==>
          var m, n := s.intents[j], t.intents[j];
          && n == m.(status := n.status, errorCode := n.errorCode)
          && if m.txHash == Some(hash) then IntentTells(status, n.status, n.errorCode) else n == m)
    && (forall j :: 0 <= j < |s.transfers| ==>
          var l, m := s.transfers[j], t.transfers[j];
          m == if l.txHash == Some(hash) then l.(status := Chain(status), block := block) else l)
  }

  lemma SetStatusTells(s: Stores, i: nat, status: Status, block: BlockFields)
    requires i < |s.rows| && CleanHash(s.rows[i].txHash) && !status.Replaced?
    requires block.hash.Some? ==> CleanHash(block.hash.value)
    ensures Told(s, SetStatus(s, i, status, block, Transfers.StatusAndBlock(status, block)), s.rows[i].txHash, status, block)
  {
    CleanHashesUnchanged([s.rows[i].txHash]);
  }

  lemma ToldTwice(s: Stores, u: Stores, t: Stores, hash: string, before: Status, earlier: BlockFields, status: Status,
                  block: BlockFields)
    requires Told(s, u, hash, before, earlier) && Told(u, t, hash, status, block)
    ensures Told(s, t, hash, status, block)
  {
  }

  lemma WithdrawTells(s: Stores, i: nat, status: Status)
    requires i < |s.rows| && CleanHash(s.rows[i].txHash) && !status.Replaced?
    ensures Told(s, Withdraw(s, i, status), s.rows[i].txHash, status, NO_BLOCK)
    ensures Withdraw(s, i, status).rows == Rows.SetRow(s.rows, i, status, NO_BLOCK)
  {
    hide SetStatus, Told;
    SetStatusTells(s, i, status, NO_BLOCK);
    SetStatusRow(s, i, status);
    ToldIgnoresIndex(s, SetStatus(s, i, status, NO_BLOCK, Transfers.StatusAndBlock(status, NO_BLOCK)),
                     Withdraw(s, i, status), s.rows[i].txHash, status, NO_BLOCK);
  }

  lemma SetStatusRow(s: Stores, i: nat, status: Status)
    requires i < |s.rows|
    ensures SetStatus(s, i, status, NO_BLOCK, Transfers.StatusAndBlock(status, NO_BLOCK)).rows ==
              Rows.SetRow(s.rows, i, status, NO_BLOCK)
  {
  }

  lemma ToldIgnoresIndex(s: Stores, t: Stores, u: Stores, hash: string, status: Status, block: BlockFields)
    requires Told(s, t, hash, status, block)
    requires u == t.(index := u.index, logs := u.logs, tokens := u.tokens)
    ensures Told(s, u, hash, status, block)
  {
  }

  /**
   When a sync changes anything, reservations, intents and logs of the transaction tell the row's new status, the logs
   its new block, and everything else about other transactions is as it was.
   */
  lemma SyncTells(s: Stores, i: nat, v: NodeView)
    requires i < |s.rows| && IsSyncable(s.rows[i].status) && Shape(s.rows[i]) && CleanHash(s.rows[i].txHash)
    requires CarriesBlock(v)
    ensures var t := AfterSync(s, i, v);
            && |t.rows| == |s.rows|
            && (t == s || Told(s, t, s.rows[i].txHash, t.rows[i].status, t.rows[i].block))
            && forall j :: 0 <= j < |s.rows| && j != i ==> t.rows[j] == s.rows[j]
  {
    hide Told, OnReceipt, Withdraw, BackToSubmitted, SetStatus;
    NeverBackToSubmitted(s.rows[i], v);
    if v.receipt.Some? {
      ReceiptTells(s, i, v);
    } else {
      WithdrawTells(s, i, Reorged);
      WithdrawTells(s, i, Dropped);
      var u := Withdraw(s, i, Reorged);
      WithdrawTells(u, i, Dropped);
      ToldTwice(s, u, Withdraw(u, i, Dropped), s.rows[i].txHash, Reorged, NO_BLOCK, Dropped, NO_BLOCK);
    }
  }

  lemma ReceiptTells(s: Stores, i: nat, v: NodeView)
    requires i < |s.rows| && CleanHash(s.rows[i].txHash) && CarriesBlock(v) && v.receipt.Some?
    ensures var t := OnReceipt(s, i, v.receipt.value, v);
            && |t.rows| == |s.rows|
            && Told(s, t, s.rows[i].txHash, t.rows[i].status, t.rows[i].block)
            && forall j :: 0 <= j < |s.rows| && j != i ==> t.rows[j] == s.rows[j]
  {
    hide Told;
    var r := v.receipt.value;
    var status, block := ReceiptStatus(r, v.currentBlock).0, ReceiptBlock(r, v);
    SetStatusTells(s, i, status, block);
    ToldIgnoresIndex(s, SetStatus(s, i, status, block, Transfers.StatusAndBlock(status, block)), OnReceipt(s, i, r, v),
                     s.rows[i].txHash, status, block);
  }

  /** The block fields a receipt brings, to row and index alike: its own height, hash and gas, and the block's time. */
  lemma ReceiptWrites(s: Stores, i: nat, r: Receipt, v: NodeView)
    requires i < |s.rows|
    ensures var t := OnReceipt(s, i, r, v);
            && |t.rows| == |s.rows| && t.rows[i].block.height == r.blockNumber && t.rows[i].block.hash == r.blockHash
            && t.rows[i].block.gasUsed == r.gasUsed
            && t.rows[i].block.confirmedAt == (if r.blockHash.Some? && r.blockHash.value != "" then v.blockTime else None)
            && (!r.succeeded ==> t.rows[i].block.confirmations == 0)
            && Key(s.rows[i]) in t.index
            && t.index[Key(s.rows[i])] == IndexRow(t.rows[i].status, r.blockNumber, r.blockHash, r.gasUsed,
                                                   t.rows[i].block.confirmations)
  {
  }

  lemma RowAfterWithdraw(s: Stores, i: nat, status: Status)
    requires i < |s.rows|
    ensures |Withdraw(s, i, status).rows| == |s.rows| && Withdraw(s, i, status).rows[i].status == status
  {
  }

  lemma RowAfterReceipt(s: Stores, i: nat, v: NodeView)
    requires i < |s.rows| && v.receipt.Some?
    ensures var r := v.receipt.value;
            && |OnReceipt(s, i, r, v).rows| == |s.rows|
            && OnReceipt(s, i, r, v).rows[i].status == ReceiptStatus(r, v.currentBlock).0
            && OnReceipt(s, i, r, v).rows[i].block == ReceiptBlock(r, v)
  {
  }

  ghost predicate DistinctIndexes(r: Receipt)
  {
    forall a, b :: 0 <= a < b < |r.logs| && r.logs[a].index.Some? ==> r.logs[a].index != r.logs[b].index
  }

  lemma {:induction false} ListedLog(m: map<EventKey, ChainLog>, key: TxKey, r: Receipt, n: nat, j: nat)
    requires DistinctIndexes(r) && j < n <= |r.logs| && r.logs[j].index.Some?
    ensures var k := (key, r.logs[j].index.value);
            k in PutLogs(m, key, r, n) && PutLogs(m, key, r, n)[k] == LogOf(r, r.logs[j])
  {
    if j < n - 1 {
      ListedLog(m, key, r, n - 1, j);
    }
  }

  lemma {:induction false} ListedToken(m: map<EventKey, TokenTransfer>, key: TxKey, r: Receipt, confirmedAt: Option<int>,
                                       wallets: map<string, string>, n: nat, j: nat)
    requires DistinctIndexes(r) && j < n <= |r.logs| && IsTokenTransfer(r.logs[j])
    ensures var k := (key, r.logs[j].index.value);
            k in PutTokens(m, key, r, confirmedAt, wallets, n)
            && PutTokens(m, key, r, confirmedAt, wallets, n)[k] == TokenOf(r, confirmedAt, wallets, r.logs[j])
  {
    hide TopicAddress, IsHexDigit, TRANSFER_TOPIC;
    if j < n - 1 {
      ListedToken(m, key, r, confirmedAt, wallets, n - 1, j);
    }
  }

  lemma EventsAfterReceipt(s: Stores, i: nat, r: Receipt, v: NodeView)
    requires i < |s.rows|
    ensures var key, t := Key(s.rows[i]), OnReceipt(s, i, r, v);
            var logs := if Moved(s.rows[i], r) then Without(s.logs, key) else s.logs;
            var tokens := if Moved(s.rows[i], r) then Without(s.tokens, key) else s.tokens;
            && |t.rows| == |s.rows| && t.rows[i].block == ReceiptBlock(r, v)
            && t.logs == PutLogs(logs, key, r, |r.logs|)
            && t.tokens == if t.rows[i].status.FinalConfirmed?
                           then PutTokens(tokens, key, r, ReceiptBlock(r, v).confirmedAt, v.walletOf, |r.logs|) else tokens
  {
  }

  /** The topic ends in the forty hexadecimal digits of an address. */
  ghost predicate EndsInAddress(topic: string)
  {
    |topic| >= 42 && forall k :: |topic| - 40 <= k < |topic| ==> topic[k] in "0123456789abcdefABCDEF"
  }

  ghost predicate IsTransfer(e: LogEntry)
  {
    && |e.topics| >= 3 && e.topics[0] == "0xddf252ad1be2c89b69c2b068fc378daa952ba7f163c4a11628f55a4df523b3ef"
    && EndsInAddress(e.topics[1]) && EndsInAddress(e.topics[2])
  }

  /** Sender and receiver from the second and third topic, a token's id from the fourth, an amount from the data. */
  ghost predicate TransferTells(e: LogEntry, wallets: map<string, string>, x: TokenTransfer)
    requires IsTransfer(e)
  {
    var first, second := e.topics[1], e.topics[2];
    && x.contract == e.contract
    && x.from == "0x" + first[|first| - 40..] && x.to == "0x" + second[|second| - 40..]
    && x.fromWalletId == (if x.from in wallets then Some(wallets[x.from]) else None)
    && x.toWalletId == (if x.to in wallets then Some(wallets[x.to]) else None)
    && if e.data != "" && e.data != "0x" then
         x.standard == Some(Erc20) && x.amount == Some(WordText(e.data)) && x.tokenId == None
       else if |e.topics| >= 4 then
         x.standard == Some(Erc721) && x.amount == Some("1") && x.tokenId == Some(WordText(e.topics[3]))
       else x.standard == None && x.amount == None && x.tokenId == None
  }

  lemma HexDigits(c: char)
    ensures IsHexDigit(c) <==> c in "0123456789abcdefABCDEF"
  {
    assert forall k :: 0 <= k < 10 ==> "0123456789abcdefABCDEF"[k] == '0' + k as char;
    assert forall k :: 10 <= k < 16 ==> "0123456789abcdefABCDEF"[k] == 'a' + (k - 10) as char;
    assert forall k :: 16 <= k < 22 ==> "0123456789abcdefABCDEF"[k] == 'A' + (k - 16) as char;
    if '0' <= c <= '9' { assert "0123456789abcdefABCDEF"[(c - '0') as nat] == c; }
    if 'a' <= c <= 'f' { assert "0123456789abcdefABCDEF"[(c - 'a') as nat + 10] == c; }
    if 'A' <= c <= 'F' { assert "0123456789abcdefABCDEF"[(c - 'A') as nat + 16] == c; }
  }

  lemma TopicGivesAddress(topics: seq<string>, k: nat)
    ensures TopicAddress(topics, k) ==
              if k < |topics| && EndsInAddress(topics[k]) then Some("0x" + topics[k][|topics[k]| - 40..]) else None
  {
    hide IsHexDigit;
    forall c: char ensures IsHexDigit(c) <==> c in "0123456789abcdefABCDEF" { HexDigits(c); }
    if k < |topics| && |topics[k]| >= 42 {
      var topic := topics[k];
      var tail := topic[|topic| - 40..];
      if EndsInAddress(topic) {
        forall j | 0 <= j < 40 ensures IsHexDigit(tail[j]) { assert tail[j] == topic[|topic| - 40 + j]; }
      } else {
        var j :| |topic| - 40 <= j < |topic| && topic[j] !in "0123456789abcdefABCDEF";
        assert tail[j - (|topic| - 40)] == topic[j];
      }
    }
  }

  lemma TransferIsTold(r: Receipt, confirmedAt: Option<int>, wallets: map<string, string>, e: LogEntry)
    requires e.index.Some?
    ensures IsTokenTransfer(e) <==> IsTransfer(e)
    ensures IsTransfer(e) ==>
              var x := TokenOf(r, confirmedAt, wallets, e);
              TransferTells(e, wallets, x) && (x.height, x.hash, x.confirmedAt) == (r.blockNumber, r.blockHash, confirmedAt)
  {
    hide EndsInAddress, TopicAddress, WordText;
    TopicGivesAddress(e.topics, 1);
    TopicGivesAddress(e.topics, 2);
  }

  function Power16(n: nat): nat { if n == 0 then 1 else 16 * Power16(n - 1) }

  lemma OneDigit(k: nat)
    requires k < 16
    ensures HexValue(["0123456789abcdef"[k]]) == HexValue(["0123456789ABCDEF"[k]]) == k
  {
    var low, high := "0123456789abcdef"[k], "0123456789ABCDEF"[k];
    assert low == (if k < 10 then '0' + k as char else 'a' + (k - 10) as char);
    assert high == (if k < 10 then '0' + k as char else 'A' + (k - 10) as char);
    assert HexValue([low][..0]) == 0 && HexValue([high][..0]) == 0;
  }

  lemma TimesSixteen(x: nat, p: nat)
    ensures 16 * (x * p) == x * (16 * p)
  {
  }

  /** A word is read digit by digit, the first one weighing most. */
  lemma {:induction false} HexValueOfJoined(a: string, b: string)
    ensures HexValue(a + b) == HexValue(a) * Power16(|b|) + HexValue(b)
  {
    hide HexDigit;
    if b == [] {
      assert a + b == a;
    } else {
      var n := |b| - 1;
      HexValueOfJoined(a, b[..n]);
      assert (a + b)[..|a + b| - 1] == a + b[..n];
      TimesSixteen(HexValue(a), Power16(n));
    }
  }

  /**
   A receipt's logs are stored in full, its token transfers too at finality; and after a move to another block, or on
   a first inclusion, nothing but the receipt's logs is stored for the transaction.
   */
  lemma ReceiptIsIndexed(s: Stores, i: nat, r: Receipt, v: NodeView, j: nat, n: int)
    requires ChainData(s) && i < |s.rows| && IsSyncable(s.rows[i].status)
    requires DistinctIndexes(r) && j < |r.logs| && r.logs[j].index.Some?
    ensures var t := OnReceipt(s, i, r, v);
            var k := (Key(s.rows[i]), r.logs[j].index.value);
            && |t.rows| == |s.rows|
            && k in t.logs && t.logs[k] == ChainLog(r.blockNumber, r.blockHash, r.logs[j])
            && (t.rows[i].status.FinalConfirmed? && IsTransfer(r.logs[j]) ==>
                  && k in t.tokens && TransferTells(r.logs[j], v.walletOf, t.tokens[k])
                  && (t.tokens[k].height, t.tokens[k].hash, t.tokens[k].confirmedAt) ==
                       (r.blockNumber, r.blockHash, t.rows[i].block.confirmedAt))
            && (!t.rows[i].status.FinalConfirmed? || !IsTransfer(r.logs[j]) ==>
                  (k in t.tokens <==> k in s.tokens && !Moved(s.rows[i], r)))
    ensures Moved(s.rows[i], r) || !HasCanonicalInclusion(s.rows[i].status) ==>
              ((Key(s.rows[i]), n) in OnReceipt(s, i, r, v).logs <==> Relisted(r, (Key(s.rows[i]), n)))
  {
    hide PutLogs, PutTokens, IsTokenTransfer, OnReceipt, ReceiptBlock, ReceiptStatus, TokenOf, Rows.UniqueRows;
    hide IndexAgrees, FreshTokens, IsTransfer, TransferTells;
    EventsAfterReceipt(s, i, r, v);
    TransferIsTold(r, ReceiptBlock(r, v).confirmedAt, v.walletOf, r.logs[j]);
    var key := Key(s.rows[i]);
    var logs := if Moved(s.rows[i], r) then Without(s.logs, key) else s.logs;
    var tokens := if Moved(s.rows[i], r) then Without(s.tokens, key) else s.tokens;
    ListedLog(logs, key, r, |r.logs|, j);
    if IsTokenTransfer(r.logs[j]) {
      ListedToken(tokens, key, r, ReceiptBlock(r, v).confirmedAt, v.walletOf, |r.logs|, j);
    }
    LogAt(logs, key, r, |r.logs|, (key, n));
    TokenAt(tokens, key, r, ReceiptBlock(r, v).confirmedAt, v.walletOf, |r.logs|, (key, r.logs[j].index.value));
    if !HasCanonicalInclusion(s.rows[i].status) {
      NotMinedHoldsNothing(s, i);
    }
  }

  // ---------- The stores, changed in place ----------

  class WalletStores {
    const rows: Rows.ChainRowStore
    const transfers: Transfers.TransferLogStore
    const nonces: Nonces.MemoryNonces
    const intents: Intents.IntentStore
    var index: map<TxKey, IndexRow>
    var logs: map<EventKey, ChainLog>
    var tokens: map<EventKey, TokenTransfer>

    function Snapshot(): Stores
      reads this, rows, transfers, nonces, intents
    {
      Stores(rows.rows, index, logs, tokens, transfers.logs, nonces.State(), intents.intents)
    }

    constructor ()
      ensures fresh(rows) && fresh(transfers) && fresh(nonces) && fresh(intents)
      ensures Snapshot() == Stores([], map[], map[], map[], [], Nonces.NonceState(map[], []), [])
    {
      rows := new Rows.ChainRowStore();
      transfers := new Transfers.TransferLogStore();
      nonces := new Nonces.MemoryNonces();
      intents := new Intents.IntentStore();
      index, logs, tokens := map[], map[], map[];
    }

    method ClearIndexedEventData(key: TxKey)
      modifies this
      ensures Snapshot() == old(Snapshot()).(logs := logs, tokens := tokens)
      ensures logs == Without(old(logs), key) && tokens == Without(old(tokens), key)
      ensures forall k: EventKey :: k.0 == key ==> k !in logs && k !in tokens
      ensures forall k: EventKey :: k.0 != key && k in old(logs) ==> k in logs && logs[k] == old(logs)[k]
      ensures forall k: EventKey :: k.0 != key && k in old(tokens) ==> k in tokens && tokens[k] == old(tokens)[k]
    {
      tokens := Without(tokens, key);
      logs := Without(logs, key);
    }

    method ClearIndexedReceiptData(key: TxKey, status: Status)
      modifies this
      ensures Snapshot() == old(Snapshot()).(
                index := if key in old(index) then old(index)[key := IndexRow(status, None, None, None, 0)] else old(index),
                logs := Without(old(logs), key),
                tokens := Without(old(tokens), key))
      ensures forall k: EventKey :: k.0 == key ==> k !in logs && k !in tokens
      ensures forall k: EventKey :: k.0 != key && k in old(logs) ==> k in logs && logs[k] == old(logs)[k]
      ensures forall k: EventKey :: k.0 != key && k in old(tokens) ==> k in tokens && tokens[k] == old(tokens)[k]
      ensures key in index ==> index[key].hash.None? && index[key].height.None? && index[key].status == status
      ensures index.Keys == old(index).Keys
    {
      tokens := Without(tokens, key);
      logs := Without(logs, key);
      if key in index {
        index := index[key := IndexRow(status, None, None, None, 0)];
      }
    }

    /** Upserts the index row, then every receipt log that has an index. */
    method PersistChainIndexData(key: TxKey, status: Status, block: BlockFields, r: Receipt)
      modifies this
      ensures Snapshot() == old(Snapshot()).(
                index := old(index)[key := IndexRow(status, block.height, block.hash, block.gasUsed, block.confirmations)],
                logs := PutLogs(old(logs), key, r, |r.logs|))
    {
      index := index[key := IndexRow(status, block.height, block.hash, block.gasUsed, block.confirmations)];
      for n := 0 to |r.logs|
        invariant logs == PutLogs(old(logs), key, r, n)
        invariant index == old(index)[key := IndexRow(status, block.height, block.hash, block.gasUsed, block.confirmations)]
        invariant tokens == old(tokens)
      {
        var e := r.logs[n];
        if e.index.Some? {
          logs := logs[(key, e.index.value) := LogOf(r, e)];
        }
      }
    }

    method PersistTokenTransfers(key: TxKey, r: Receipt, confirmedAt: Option<int>, wallets: map<string, string>)
      modifies this
      ensures Snapshot() == old(Snapshot()).(tokens := PutTokens(old(tokens), key, r, confirmedAt, wallets, |r.logs|))
    {
      for n := 0 to |r.logs|
        invariant tokens == PutTokens(old(tokens), key, r, confirmedAt, wallets, n)
        invariant index == old(index) && logs == old(logs)
      {
        var e := r.logs[n];
        if IsTokenTransfer(e) {
          tokens := tokens[(key, e.index.value) := TokenOf(r, confirmedAt, wallets, e)];
        }
      }
    }

    /** The four status updates every branch of a sync makes, in their order. */
    method WriteStatus(i: nat, status: Status, block: BlockFields, update: Transfers.TransferUpdate)
      requires i < |rows.rows|
      modifies rows, transfers, nonces, intents
      ensures Snapshot() == SetStatus(old(Snapshot()), i, status, block, update)
    {
      var hash := rows.rows[i].txHash;
      rows.UpdateRow(i, status, block);
      transfers.UpdateAttempts([hash], update);
      var reservations := nonces.UpdateByTxHashes([hash], ReservationStatus(status));
      var reopened := intents.UpdateIntentsByHash(hash, IntentStatus(status), IntentError(status));
    }

    method ApplyReceipt(i: nat, r: Receipt, v: NodeView)
      requires i < |rows.rows|
      modifies this, rows, transfers, nonces, intents
      ensures Snapshot() == OnReceipt(old(Snapshot()), i, r, v)
    {
      var row := rows.rows[i];
      var key := Key(row);
      var status, block := ReceiptStatus(r, v.currentBlock).0, ReceiptBlock(r, v);
      if Moved(row, r) {
        ClearIndexedEventData(key);
      }
      PersistChainIndexData(key, status, block, r);
      WriteStatus(i, status, block, Transfers.StatusAndBlock(status, block));
      if status.FinalConfirmed? {
        PersistTokenTransfers(key, r, block.confirmedAt, v.walletOf);
      }
    }

    method WithdrawRow(i: nat, status: Status)
      requires i < |rows.rows|
      modifies this, rows, transfers, nonces, intents
      ensures Snapshot() == Withdraw(old(Snapshot()), i, status)
    {
      ClearIndexedReceiptData(Key(rows.rows[i]), status);
      WriteStatus(i, status, NO_BLOCK, Transfers.StatusAndBlock(status, NO_BLOCK));
    }

    /** `syncRow`. */
    method SyncRow(i: nat, v: NodeView)
      requires i < |rows.rows|
      modifies this, rows, transfers, nonces, intents
      ensures Snapshot() == AfterSync(old(Snapshot()), i, v)
    {
      var row := rows.rows[i];
      var normalizedStatus := row.status;
      if v.receipt.Some? {
        ApplyReceipt(i, v.receipt.value, v);
        return;
      }
      if HasInclusion(row) {
        if StillCanonical(row, v) { return; }
        WithdrawRow(i, Reorged);
        normalizedStatus := Reorged;
      }
      if v.knowsTransaction {
        if normalizedStatus != Submitted && normalizedStatus != Reorged {
          WriteStatus(i, Submitted, rows.rows[i].block.(confirmations := 0),
                      Transfers.NO_CHANGE.(status := Some(Chain(Submitted)), confirmations := Transfers.Set(0)));
        }
        return;
      }
      if v.now - row.createdAt >= DROP_AFTER_MS && normalizedStatus != Dropped {
        WithdrawRow(i, Dropped);
      }
    }
  }
}
