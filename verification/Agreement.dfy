/**
 Agreement of the stores on every recorded transaction, and who owns what before it is sent.

 A chain row and the transfer log and signing intent that carry its hash tell the same story. Several intents may name
 one nonce reservation; when the reservation agrees too is the subject of SharedReservations.
 */
module Agreement {
  import opened Prelude
  import opened ChainStatus
  import opened ChainSync
  import Rows = ChainRows
  import Transfers = TransferLogs
  import Nonces = NonceReservations
  import Intents = SigningIntents

  // ---------- What agrees ----------

  ghost predicate LogAgrees(t: Transfers.TransferLog, r: Rows.ChainRow)
  {
    t.txHash == Some(r.txHash) ==>
      && t.status == Chain(r.status) && t.block == r.block
      && t.replacesTxHash == r.replacesTxHash && t.replacedByTxHash == r.replacedByTxHash
  }

  ghost predicate IntentAgrees(n: Intents.Intent, r: Rows.ChainRow)
  {
    n.txHash == Some(r.txHash) ==> IntentTells(r.status, n.status, n.errorCode)
  }

  ghost predicate LogsAgree(rows: seq<Rows.ChainRow>, ts: seq<Transfers.TransferLog>)
  {
    forall j, i :: 0 <= j < |ts| && 0 <= i < |rows| ==> LogAgrees(ts[j], rows[i])
  }

  ghost predicate IntentsAgree(rows: seq<Rows.ChainRow>, ns: seq<Intents.Intent>)
  {
    forall j, i :: 0 <= j < |ns| && 0 <= i < |rows| ==> IntentAgrees(ns[j], rows[i])
  }

  ghost predicate HasLog(ts: seq<Transfers.TransferLog>, hash: string)
  {
    exists j :: 0 <= j < |ts| && ts[j].txHash == Some(hash)
  }

  ghost predicate HasReservation(xs: seq<Nonces.Reservation>, hash: string)
  {
    exists j :: 0 <= j < |xs| && xs[j].txHash == Some(hash)
  }

  ghost predicate HasIntent(ns: seq<Intents.Intent>, hash: string)
  {
    exists j :: 0 <= j < |ns| && ns[j].txHash == Some(hash)
  }

  /** Every recorded transaction has its transfer log and its signing intent. */
  ghost predicate Tracked(s: Stores)
  {
    forall i :: 0 <= i < |s.rows| ==> HasLog(s.transfers, s.rows[i].txHash) && HasIntent(s.intents, s.rows[i].txHash)
  }

  ghost predicate CleanRows(rows: seq<Rows.ChainRow>)
  {
    && (forall i :: 0 <= i < |rows| ==> CleanHash(rows[i].txHash))
    && (forall i, j :: 0 <= i < j < |rows| ==> rows[i].txHash != rows[j].txHash)
  }

  ghost predicate Agree(s: Stores)
  {
    && CleanRows(s.rows)
    && LogsAgree(s.rows, s.transfers)
    && IntentsAgree(s.rows, s.intents)
    && Tracked(s)
  }

  // ---------- Before sending ----------

  ghost predicate Blank(t: Transfers.TransferLog)
  {
    t.block == NO_BLOCK && t.replacesTxHash.None? && t.replacedByTxHash.None?
  }

  ghost predicate UnsentLog(ts: seq<Transfers.TransferLog>, id: string)
  {
    exists j :: 0 <= j < |ts| && ts[j].id == id && ts[j].txHash.None?
  }

  ghost predicate HasId(xs: seq<Nonces.Reservation>, id: string)
  {
    exists j :: 0 <= j < |xs| && xs[j].id == id
  }

  predicate Pending(n: Intents.Intent) { n.status.Queued? || n.status.Approved? }

  /** An intent names a reservation; while it is pending, nothing of it is sent. */
  ghost predicate Ready(s: Stores, n: Intents.Intent)
  {
    && HasId(s.nonces.reservations, n.reservationId)
    && (Pending(n) ==> n.txHash.None? && UnsentLog(s.transfers, n.transferLogId))
  }

  ghost predicate LogsOwned(ts: seq<Transfers.TransferLog>)
  {
    && (forall i, j :: 0 <= i < j < |ts| ==> ts[i].id != ts[j].id)
    && (forall j :: 0 <= j < |ts| && ts[j].txHash.None? ==> Blank(ts[j]))
  }

  ghost predicate IntentsOwn(ns: seq<Intents.Intent>)
  {
    forall i, j :: 0 <= i < j < |ns| ==> ns[i].transferLogId != ns[j].transferLogId
  }

  /** No two reservations carry one hash. */
  ghost predicate OneHolder(xs: seq<Nonces.Reservation>)
  {
    forall i, j :: 0 <= i < j < |xs| && xs[i].txHash.Some? ==> xs[i].txHash != xs[j].txHash
  }

  ghost predicate Owned(s: Stores)
  {
    && LogsOwned(s.transfers)
    && IntentsOwn(s.intents)
    && OneHolder(s.nonces.reservations)
    && (forall k :: 0 <= k < |s.intents| ==> Ready(s, s.intents[k]))
  }

  // ---------- One transaction takes a new status ----------

  lemma OwnHash(hash: string)
    requires CleanHash(hash)
    ensures CleanHashes([hash]) == [hash]
  {
  }

  lemma SetStatusKeepsLogs(rows: seq<Rows.ChainRow>, ts: seq<Transfers.TransferLog>, i: nat, status: Status,
                           block: BlockFields)
    requires CleanRows(rows) && LogsAgree(rows, ts) && i < |rows|
    requires block.hash.Some? ==> CleanHash(block.hash.value)
    ensures LogsAgree(Rows.SetRow(rows, i, status, block),
                      Transfers.UpdateByHashes(ts, [rows[i].txHash], Transfers.StatusAndBlock(status, block)))
  {
  }

  lemma SetStatusKeepsIntents(rows: seq<Rows.ChainRow>, ns: seq<Intents.Intent>, i: nat, status: Status,
                              block: BlockFields)
    requires CleanRows(rows) && IntentsAgree(rows, ns) && i < |rows| && !status.Replaced?
    ensures IntentsAgree(Rows.SetRow(rows, i, status, block), IntentsByHash(ns, rows[i].txHash, status))
  {
  }

  /** The hashes and ids the stores know stay what they are. */
  ghost predicate SameHolders(s: Stores, t: Stores)
  {
    && |t.transfers| == |s.transfers|
    && (forall j :: 0 <= j < |s.transfers| ==>
          t.transfers[j].id == s.transfers[j].id && t.transfers[j].txHash == s.transfers[j].txHash
          && (s.transfers[j].txHash.None? ==> t.transfers[j] == s.transfers[j]))
    && |t.nonces.reservations| == |s.nonces.reservations|
    && (forall j :: 0 <= j < |s.nonces.reservations| ==>
          var x, y := s.nonces.reservations[j], t.nonces.reservations[j];
          y.id == x.id && y.txHash == x.txHash)
    && |t.intents| == |s.intents|
    && (forall j :: 0 <= j < |s.intents| ==>
          t.intents[j] == s.intents[j].(status := t.intents[j].status, errorCode := t.intents[j].errorCode)
          && (s.intents[j].txHash.None? ==> t.intents[j] == s.intents[j]))
  }

  lemma SameHoldersKeepTracked(s: Stores, t: Stores)
    requires SameHolders(s, t) && Tracked(s)
    requires |t.rows| == |s.rows| && forall i :: 0 <= i < |s.rows| ==> t.rows[i].txHash == s.rows[i].txHash
    ensures Tracked(t)
  {
  }

  lemma SameHoldersTrack(s: Stores, t: Stores, hash: string)
    requires SameHolders(s, t)
    ensures HasLog(s.transfers, hash) ==> HasLog(t.transfers, hash)
    ensures HasReservation(s.nonces.reservations, hash) <==> HasReservation(t.nonces.reservations, hash)
    ensures HasIntent(s.intents, hash) ==> HasIntent(t.intents, hash)
  {
  }

  /** Statuses of sent transactions may change; nothing that is unsent does. Settled intents do not become pending. */
  lemma SameHoldersKeepOwned(s: Stores, t: Stores)
    requires SameHolders(s, t) && Owned(s)
    requires forall j :: 0 <= j < |s.intents| && !Pending(s.intents[j]) ==> !Pending(t.intents[j])
    ensures Owned(t)
  {
  }

  lemma SetStatusHolders(s: Stores, i: nat, status: Status, block: BlockFields)
    requires i < |s.rows| && CleanHash(s.rows[i].txHash)
    requires block.hash.Some? ==> CleanHash(block.hash.value)
    ensures SameHolders(s, SetStatus(s, i, status, block, Transfers.StatusAndBlock(status, block)))
  {
  }

  /** A status written by a sync reaches row, log and intent alike. */
  lemma SetStatusKeepsAgreement(s: Stores, i: nat, status: Status, block: BlockFields)
    requires Agree(s) && Owned(s) && i < |s.rows| && !status.Replaced?
    requires block.hash.Some? ==> CleanHash(block.hash.value)
    ensures var t := SetStatus(s, i, status, block, Transfers.StatusAndBlock(status, block));
            Agree(t) && Owned(t)
  {
    hide CleanHashes, Transfers.StatusAndBlock, Transfers.UpdateByHashes;
    hide LogsAgree, IntentsAgree, SameHolders, Tracked, Owned, Nonces.SetByHashes;
    var t := SetStatus(s, i, status, block, Transfers.StatusAndBlock(status, block));
    OwnHash(s.rows[i].txHash);
    SetStatusKeepsLogs(s.rows, s.transfers, i, status, block);
    SetStatusKeepsIntents(s.rows, s.intents, i, status, block);
    SetStatusHolders(s, i, status, block);
    SameHoldersKeepTracked(s, t);
    SettledStaySettled(s, i, status);
    SameHoldersKeepOwned(s, t);
    assert CleanRows(t.rows);
  }

  lemma SettledStaySettled(s: Stores, i: nat, status: Status)
    requires i < |s.rows|
    ensures var ms := IntentsByHash(s.intents, s.rows[i].txHash, status);
            |ms| == |s.intents| && forall j :: 0 <= j < |ms| && !Pending(s.intents[j]) ==> !Pending(ms[j])
  {
  }

  /** Agreement and ownership say nothing about the index tables. */
  lemma IndexIsApart(s: Stores, t: Stores)
    requires t == s.(index := t.index, logs := t.logs, tokens := t.tokens)
    ensures (Agree(s) <==> Agree(t)) && (Owned(s) <==> Owned(t))
  {
  }

  lemma WithdrawKeepsAgreement(s: Stores, i: nat, status: Status)
    requires Agree(s) && Owned(s) && i < |s.rows| && !status.Replaced?
    ensures Agree(Withdraw(s, i, status)) && Owned(Withdraw(s, i, status))
    ensures |Withdraw(s, i, status).rows| == |s.rows|
  {
    hide Agree, Owned, SetStatus;
    SetStatusKeepsAgreement(s, i, status, NO_BLOCK);
    IndexIsApart(SetStatus(s, i, status, NO_BLOCK, Transfers.StatusAndBlock(status, NO_BLOCK)), Withdraw(s, i, status));
    SameCount(s, i, status, NO_BLOCK, Transfers.StatusAndBlock(status, NO_BLOCK));
  }

  lemma SameCount(s: Stores, i: nat, status: Status, block: BlockFields, u: Transfers.TransferUpdate)
    requires i < |s.rows|
    ensures |SetStatus(s, i, status, block, u).rows| == |s.rows|
  {
  }

  /** One sync, whatever the node answers, keeps rows, logs and intents in agreement. */
  lemma SyncKeepsAgreement(s: Stores, i: nat, v: NodeView)
    requires Agree(s) && Owned(s) && ChainData(s) && i < |s.rows| && IsSyncable(s.rows[i].status) && CarriesBlock(v)
    ensures Agree(AfterSync(s, i, v)) && Owned(AfterSync(s, i, v))
  {
    hide Agree, Owned, SetStatus, ReceiptBlock, Withdraw;
    if v.receipt.Some? {
      var r := v.receipt.value;
      var status, block := ReceiptStatus(r, v.currentBlock).0, ReceiptBlock(r, v);
      ReceiptBlockHash(r, v);
      SetStatusKeepsAgreement(s, i, status, block);
      IndexIsApart(SetStatus(s, i, status, block, Transfers.StatusAndBlock(status, block)), OnReceipt(s, i, r, v));
    } else {
      NeverBackToSubmitted(s.rows[i], v);
      WithdrawKeepsAgreement(s, i, Reorged);
      WithdrawKeepsAgreement(s, i, Dropped);
      WithdrawKeepsAgreement(Withdraw(s, i, Reorged), i, Dropped);
    }
  }

  lemma ReceiptBlockHash(r: Receipt, v: NodeView)
    ensures ReceiptBlock(r, v).hash == r.blockHash && !ReceiptStatus(r, v.currentBlock).0.Replaced?
  {
  }
}
