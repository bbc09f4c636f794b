/**
 Chain transaction rows, replacement and today's spend: services/wallet.service.ts.

 Rows are kept in creation order. Network and hash identify a row.
 */
module ChainRows {
  import opened Prelude
  import opened ChainStatus
  import Text = Decimals

  datatype ChainRow = ChainRow(
    networkId: string,
    txHash: string,
    walletId: string,
    nonce: Option<string>,
    value: int,
    createdAt: int,
    status: Status,
    block: BlockFields,
    replacesTxHash: Option<string>,
    replacedByTxHash: Option<string>)

  /** A transaction to record, with the status the caller gives it; hash and nonce as the caller passed them. */
  datatype NewTransaction = NewTransaction(
    networkId: string,
    txHash: string,
    walletId: string,
    nonce: Option<string>,
    value: int,
    createdAt: int,
    status: Status)

  datatype RecordError = DuplicateTransaction

  function Normalized(t: NewTransaction): NewTransaction
  {
    t.(txHash := Text.Trim(t.txHash), nonce := NormalizeNullable(t.nonce))
  }

  predicate SameKey(a: ChainRow, networkId: string, txHash: string)
  {
    a.networkId == networkId && a.txHash == txHash
  }

  /** The row spends the nonce the transaction spends. */
  predicate SharesSlot(r: ChainRow, t: NewTransaction)
  {
    t.nonce.Some? && r.walletId == t.walletId && r.networkId == t.networkId && r.nonce == t.nonce
  }

  predicate SameSlot(a: ChainRow, b: ChainRow)
  {
    a.nonce.Some? && a.walletId == b.walletId && a.networkId == b.networkId && a.nonce == b.nonce
  }

  /** The rows the transaction replaces. */
  predicate IsReplaced(r: ChainRow, t: NewTransaction)
  {
    SharesSlot(r, t) && r.txHash != t.txHash && IsActiveSpend(r.status)
  }

  /** First row of the transaction with this hash, or the length. */
  function Position(rows: seq<ChainRow>, networkId: string, txHash: string): (k: nat)
    ensures k <= |rows|
    ensures k < |rows| ==> SameKey(rows[k], networkId, txHash)
    ensures forall i :: 0 <= i < k ==> !SameKey(rows[i], networkId, txHash)
  {
    if rows == [] || SameKey(rows[0], networkId, txHash) then 0
    else 1 + Position(rows[1..], networkId, txHash)
  }

  predicate Recorded(rows: seq<ChainRow>, networkId: string, txHash: string)
  {
    exists i :: 0 <= i < |rows| && SameKey(rows[i], networkId, txHash)
  }

  /** A listing of the hashes to replace; the database promises no order. */
  ghost predicate Lists(listing: seq<string>, rows: seq<ChainRow>, t: NewTransaction)
  {
    && (forall i :: 0 <= i < |rows| && IsReplaced(rows[i], t) ==> rows[i].txHash in listing)
    && (forall h :: h in listing ==> exists i :: 0 <= i < |rows| && IsReplaced(rows[i], t) && rows[i].txHash == h)
  }

  /** The listing in row order. */
  function StoreOrder(rows: seq<ChainRow>, t: NewTransaction): seq<string>
  {
    if rows == [] then []
    else
      var r := rows[|rows| - 1];
      StoreOrder(rows[..|rows| - 1], t) + if IsReplaced(r, t) then [r.txHash] else []
  }

  lemma {:induction false} StoreOrderLists(rows: seq<ChainRow>, t: NewTransaction)
    ensures Lists(StoreOrder(rows, t), rows, t)
  {
    if rows != [] {
      var n := |rows| - 1;
      StoreOrderLists(rows[..n], t);
      assert forall i :: 0 <= i < n ==> rows[..n][i] == rows[i];
    }
  }

  function Replace(r: ChainRow, t: NewTransaction, listing: seq<string>): ChainRow
  {
    if SharesSlot(r, t) && r.txHash in listing then r.(status := Replaced, replacedByTxHash := Some(t.txHash)) else r
  }

  function NewRow(t: NewTransaction, listing: seq<string>): ChainRow
  {
    ChainRow(t.networkId, t.txHash, t.walletId, t.nonce, t.value, t.createdAt, t.status, NO_BLOCK,
             if listing == [] then None else Some(listing[0]), None)
  }

  /** `recordChainTransaction` on a normalised transaction: one database transaction, rolled back on a duplicate key. */
  function Record(rows: seq<ChainRow>, t: NewTransaction, listing: seq<string>): Result<seq<ChainRow>, RecordError>
  {
    if Recorded(rows, t.networkId, t.txHash) then Err(DuplicateTransaction)
    else
      Ok(seq(|rows|, i requires 0 <= i < |rows| => Replace(rows[i], t, listing)) + [NewRow(t, listing)])
  }

  /** A sync writes status and block fields of one row. */
  function SetRow(rows: seq<ChainRow>, i: nat, status: Status, block: BlockFields): seq<ChainRow>
    requires i < |rows|
  {
    rows[i := rows[i].(status := status, block := block)]
  }

  // ---------- Replacement links ----------

  ghost predicate UniqueRows(rows: seq<ChainRow>)
  {
    forall i, j :: 0 <= i < j < |rows| ==> !(rows[i].networkId == rows[j].networkId && rows[i].txHash == rows[j].txHash)
  }

  /** Row j replaced row i, and both links say so. */
  ghost predicate Links(rows: seq<ChainRow>, i: nat, j: nat)
  {
    && i < j < |rows|
    && SameSlot(rows[i], rows[j])
    && rows[i].replacedByTxHash == Some(rows[j].txHash)
  }

  ghost predicate ForwardLink(rows: seq<ChainRow>, i: nat)
    requires i < |rows|
  {
    && (rows[i].status == Replaced <==> rows[i].replacedByTxHash.Some?)
    && (rows[i].replacedByTxHash.Some? ==> exists j: nat :: Links(rows, i, j))
  }

  ghost predicate BackLink(rows: seq<ChainRow>, j: nat)
    requires j < |rows|
  {
    rows[j].replacesTxHash.Some? ==> exists i: nat :: Links(rows, i, j) && rows[j].replacesTxHash == Some(rows[i].txHash)
  }

  ghost predicate ReplacementInv(rows: seq<ChainRow>)
  {
    && UniqueRows(rows)
    && (forall i :: 0 <= i < |rows| ==> ForwardLink(rows, i))
    && (forall j :: 0 <= j < |rows| ==> BackLink(rows, j))
  }

  /** What a row keeps for ever; a link, once set, never changes. */
  ghost predicate SameRow(a: ChainRow, b: ChainRow)
  {
    && b == a.(status := b.status, block := b.block, replacedByTxHash := b.replacedByTxHash)
    && (a.replacedByTxHash.Some? ==> b.replacedByTxHash == a.replacedByTxHash)
  }

  ghost predicate RowsGrow(rows: seq<ChainRow>, later: seq<ChainRow>)
  {
    |rows| <= |later| && forall i :: 0 <= i < |rows| ==> SameRow(rows[i], later[i])
  }

  lemma RecordRows(rows: seq<ChainRow>, t: NewTransaction, listing: seq<string>)
    requires UniqueRows(rows) && Lists(listing, rows, t) && Record(rows, t, listing).Ok?
    ensures var after := Record(rows, t, listing).value;
            && |after| == |rows| + 1
            && after[|rows|] == NewRow(t, listing)
            && (forall i :: 0 <= i < |rows| ==>
                  after[i] == if IsReplaced(rows[i], t)
                              then rows[i].(status := Replaced, replacedByTxHash := Some(t.txHash)) else rows[i])
  {
  }

  /**
   What recording writes. A hash the network has is refused. Rows that still count, of the same wallet, network and
   nonce and under another hash, become replaced by the new one; every other row stays as it is, and the new row comes
   last with what the caller gave, its hash and nonce trimmed.
   */
  lemma RecordTells(rows: seq<ChainRow>, input: NewTransaction, listing: seq<string>, i: nat)
    requires UniqueRows(rows) && Lists(listing, rows, Normalized(input)) && i < |rows|
    ensures Record(rows, Normalized(input), listing).Err? <==>
              exists j :: 0 <= j < |rows| && rows[j].networkId == input.networkId
                          && rows[j].txHash == Text.Trim(input.txHash)
    ensures var t := Normalized(input);
            Record(rows, t, listing).Ok? ==>
              var after, hash := Record(rows, t, listing).value, Text.Trim(input.txHash);
              var nonce := if input.nonce.None? || Text.Trim(input.nonce.value) == "" then None
                           else Some(Text.Trim(input.nonce.value));
              var r, last := rows[i], after[|rows|];
              && |after| == |rows| + 1
              && (last.networkId, last.txHash, last.walletId, last.nonce) == (input.networkId, hash, input.walletId, nonce)
              && (last.value, last.createdAt, last.status, last.block) ==
                   (input.value, input.createdAt, input.status, NO_BLOCK)
              && last.replacedByTxHash == None && (last.replacesTxHash.Some? <==> listing != [])
              && after[i] == if nonce.Some? && r.nonce == nonce && r.walletId == input.walletId
                                && r.networkId == input.networkId && r.txHash != hash
                                && r.status in {Submitted, Included, SoftConfirmed, FinalConfirmed}
                             then r.(status := Replaced, replacedByTxHash := Some(hash)) else r
  {
    hide Text.Trim;
    if Record(rows, Normalized(input), listing).Ok? {
      RecordRows(rows, Normalized(input), listing);
    }
  }

  lemma LinksSurvive(rows: seq<ChainRow>, later: seq<ChainRow>, i: nat, j: nat)
    requires RowsGrow(rows, later) && Links(rows, i, j)
    ensures Links(later, i, j)
  {
  }

  /**
   Recording keeps every replacement link in order, unless the caller calls the new row replaced, never resets one, and
   a duplicate is refused with nothing changed. No older row of the slot is active afterwards.
   */
  lemma RecordKeepsLinks(rows: seq<ChainRow>, t: NewTransaction, listing: seq<string>)
    requires ReplacementInv(rows) && Lists(listing, rows, t)
    ensures Record(rows, t, listing).Err? <==> Recorded(rows, t.networkId, t.txHash)
    ensures Record(rows, t, listing).Ok? ==>
              var after := Record(rows, t, listing).value;
              RowsGrow(rows, after) && (ReplacementInv(after) <==> t.status != Replaced)
    ensures Record(rows, t, listing).Ok? ==>
              var after := Record(rows, t, listing).value;
              forall i :: 0 <= i < |rows| && SharesSlot(after[i], t) ==> !IsActiveSpend(after[i].status)
  {
    if Record(rows, t, listing).Ok? {
      var after, n := Record(rows, t, listing).value, |rows|;
      RecordRows(rows, t, listing);
      assert RowsGrow(rows, after) by {
        forall i | 0 <= i < n ensures SameRow(rows[i], after[i]) {
          assert ForwardLink(rows, i);
        }
      }
      forall i | 0 <= i < n ensures ForwardLink(after, i) {
        assert ForwardLink(rows, i);
        if IsReplaced(rows[i], t) {
          assert Links(after, i, n);
        } else if rows[i].replacedByTxHash.Some? {
          var j: nat :| Links(rows, i, j);
          LinksSurvive(rows, after, i, j);
        }
      }
      forall j | 0 <= j < |after| ensures BackLink(after, j) {
        if j == n {
          NewRowLinksBack(rows, t, listing, after);
        } else if after[j].replacesTxHash.Some? {
          assert BackLink(rows, j);
          var i: nat :| Links(rows, i, j) && rows[j].replacesTxHash == Some(rows[i].txHash);
          LinksSurvive(rows, after, i, j);
        }
      }
      assert UniqueRows(after) by {
        assert forall i :: 0 <= i < n ==> !SameKey(rows[i], t.networkId, t.txHash);
      }
      assert ForwardLink(after, n) <==> t.status != Replaced;
      forall i | 0 <= i < n && SharesSlot(after[i], t) ensures !IsActiveSpend(after[i].status) {
        assert !SameKey(rows[i], t.networkId, t.txHash);
      }
    }
  }

  lemma NewRowLinksBack(rows: seq<ChainRow>, t: NewTransaction, listing: seq<string>, after: seq<ChainRow>)
    requires UniqueRows(rows) && Lists(listing, rows, t) && Record(rows, t, listing) == Ok(after)
    ensures |after| == |rows| + 1 && BackLink(after, |rows|)
  {
    RecordRows(rows, t, listing);
    if listing != [] {
      assert listing[0] in listing;
      var i :| 0 <= i < |rows| && IsReplaced(rows[i], t) && rows[i].txHash == listing[0];
      assert Links(after, i, |rows|);
    }
  }

  /** A sync never turns a row into a replaced one and leaves every link alone. */
  lemma SetRowKeepsLinks(rows: seq<ChainRow>, k: nat, status: Status, block: BlockFields)
    requires ReplacementInv(rows) && k < |rows| && rows[k].status != Replaced && status != Replaced
    ensures ReplacementInv(SetRow(rows, k, status, block)) && RowsGrow(rows, SetRow(rows, k, status, block))
  {
    var after := SetRow(rows, k, status, block);
    assert RowsGrow(rows, after);
    forall i | 0 <= i < |rows| ensures ForwardLink(after, i) && BackLink(after, i) {
      assert ForwardLink(rows, i) && BackLink(rows, i);
      if rows[i].replacedByTxHash.Some? {
        var j: nat :| Links(rows, i, j);
        LinksSurvive(rows, after, i, j);
      }
      if rows[i].replacesTxHash.Some? {
        var j: nat :| Links(rows, j, i) && rows[i].replacesTxHash == Some(rows[j].txHash);
        LinksSurvive(rows, after, j, i);
      }
    }
  }

  /** Following the links from any row ends, at a row nobody replaced, with the same wallet, network and nonce. */
  function Follow(rows: seq<ChainRow>, i: nat): (k: nat)
    requires ReplacementInv(rows) && i < |rows|
    ensures i <= k < |rows| && rows[k].status != Replaced
    ensures k == i || SameSlot(rows[i], rows[k])
    decreases |rows| - i
  {
    assert ForwardLink(rows, i);
    match rows[i].replacedByTxHash
    case None => i
    case Some(hash) =>
      ghost var j: nat :| Links(rows, i, j);
      assert SameKey(rows[j], rows[i].networkId, hash);
      Follow(rows, Position(rows, rows[i].networkId, hash))
  }

  // ---------- One live row per nonce ----------

  /** At most one row of a wallet, network and nonce is still looked at by the sync. */
  ghost predicate SingleLive(rows: seq<ChainRow>)
  {
    forall i, j :: 0 <= i < j < |rows| && SameSlot(rows[i], rows[j]) ==>
      !(IsSyncable(rows[i].status) && IsSyncable(rows[j].status))
  }

  /**
   Recording a live row leaves one per nonce exactly when no reorged row spends that nonce: a reorged row is not
   replaced, and may be included again beside its replacement.
   */
  lemma SingleLiveIff(rows: seq<ChainRow>, t: NewTransaction, listing: seq<string>)
    requires UniqueRows(rows) && SingleLive(rows) && Lists(listing, rows, t) && Record(rows, t, listing).Ok?
    ensures SingleLive(Record(rows, t, listing).value) <==>
              (IsSyncable(t.status) ==>
                 forall i :: 0 <= i < |rows| && SharesSlot(rows[i], t) ==> rows[i].status != Reorged)
  {
    var after, n := Record(rows, t, listing).value, |rows|;
    RecordRows(rows, t, listing);
    assert forall i :: 0 <= i < n ==> !SameKey(rows[i], t.networkId, t.txHash);
    if i :| 0 <= i < n && SharesSlot(rows[i], t) && rows[i].status == Reorged && IsSyncable(t.status) {
      assert after[i] == rows[i] && SameSlot(after[i], after[n]);
      assert IsSyncable(after[i].status) && IsSyncable(after[n].status);
      assert !SingleLive(after);
    } else {
      forall i, j | 0 <= i < j < |after| && SameSlot(after[i], after[j])
        ensures !(IsSyncable(after[i].status) && IsSyncable(after[j].status))
      {
        if j < n {
          assert SameSlot(rows[i], rows[j]);
        } else {
          assert SharesSlot(rows[i], t);
        }
      }
    }
  }

  // ---------- Today's spend ----------

  /** The row counts towards the wallet's spend on the network since the start of the day. */
  predicate CountsFor(r: ChainRow, walletId: string, networkId: string, since: int)
  {
    r.walletId == walletId && r.networkId == networkId && r.createdAt >= since
  }

  function RowSpend(r: ChainRow, walletId: string, networkId: string, since: int): int
  {
    if CountsFor(r, walletId, networkId, since) && IsActiveSpend(r.status) then r.value else 0
  }

  /** `getSpentTodayWei` over chain transactions. */
  function Spent(rows: seq<ChainRow>, walletId: string, networkId: string, since: int): int
  {
    if rows == [] then 0
    else Spent(rows[..|rows| - 1], walletId, networkId, since) + RowSpend(rows[|rows| - 1], walletId, networkId, since)
  }

  /**
   A row counts exactly when it is the wallet's on that network, of today, and submitted, included or confirmed; not when
   it is reorged, failed, replaced or dropped.
   */
  lemma {:induction false} SpentCounts(rows: seq<ChainRow>, walletId: string, networkId: string, since: int, i: nat)
    requires i < |rows|
    ensures var r := rows[i];
            var counts := r.walletId == walletId && r.networkId == networkId && r.createdAt >= since
                          && r.status in {Submitted, Included, SoftConfirmed, FinalConfirmed};
            Spent(rows, walletId, networkId, since) ==
              Spent(rows[..i] + rows[i + 1..], walletId, networkId, since) + if counts then r.value else 0
  {
    var n := |rows| - 1;
    if i < n {
      SpentCounts(rows[..n], walletId, networkId, since, i);
      assert (rows[..i] + rows[i + 1..])[..n - 1] == rows[..n][..i] + rows[..n][i + 1..];
      assert rows[..n][i] == rows[i];
    } else {
      assert rows[..i] + rows[i + 1..] == rows[..n];
    }
  }

  /** What the rows replaced by the transaction had contributed. */
  function ReplacedSpend(rows: seq<ChainRow>, t: NewTransaction, since: int): int
  {
    if rows == [] then 0
    else
      var r := rows[|rows| - 1];
      ReplacedSpend(rows[..|rows| - 1], t, since) + if IsReplaced(r, t) && r.createdAt >= since then r.value else 0
  }

  lemma {:induction false} SpentAfterReplacing(
    rows: seq<ChainRow>, after: seq<ChainRow>, t: NewTransaction, walletId: string, networkId: string, since: int)
    requires |after| == |rows|
    requires forall i :: 0 <= i < |rows| ==>
               after[i] == if IsReplaced(rows[i], t)
                           then rows[i].(status := Replaced, replacedByTxHash := Some(t.txHash)) else rows[i]
    ensures Spent(after, walletId, networkId, since) == Spent(rows, walletId, networkId, since)
              - if t.walletId == walletId && t.networkId == networkId then ReplacedSpend(rows, t, since) else 0
  {
    if rows != [] {
      var n := |rows| - 1;
      SpentAfterReplacing(rows[..n], after[..n], t, walletId, networkId, since);
    }
  }

  /**
   Recording adds the transaction's value to its own wallet's spend, takes away what its same-day replaced rows
   counted, and leaves every other wallet and network alone.
   */
  lemma SpendAfterRecord(rows: seq<ChainRow>, t: NewTransaction, listing: seq<string>, walletId: string,
                         networkId: string, since: int)
    requires UniqueRows(rows) && Lists(listing, rows, t) && Record(rows, t, listing).Ok?
    ensures Spent(Record(rows, t, listing).value, walletId, networkId, since) ==
              Spent(rows, walletId, networkId, since)
                + if t.walletId == walletId && t.networkId == networkId
                  then (if t.createdAt >= since && IsActiveSpend(t.status) then t.value else 0)
                       - ReplacedSpend(rows, t, since)
                  else 0
  {
    var after, n := Record(rows, t, listing).value, |rows|;
    RecordRows(rows, t, listing);
    SpentAfterReplacing(rows, after[..n], t, walletId, networkId, since);
  }

  /** A status change moves the sum by that row's own value, and only when it enters or leaves the active set. */
  lemma {:induction false} SpendAfterSetRow(rows: seq<ChainRow>, k: nat, status: Status, block: BlockFields,
                                            walletId: string, networkId: string, since: int)
    requires k < |rows|
    ensures Spent(SetRow(rows, k, status, block), walletId, networkId, since) ==
              Spent(rows, walletId, networkId, since)
                + if !CountsFor(rows[k], walletId, networkId, since) then 0
                  else if IsActiveSpend(status) && !IsActiveSpend(rows[k].status) then rows[k].value
                  else if !IsActiveSpend(status) && IsActiveSpend(rows[k].status) then -rows[k].value
                  else 0
  {
    var n := |rows| - 1;
    var after := SetRow(rows, k, status, block);
    if k < n {
      SpendAfterSetRow(rows[..n], k, status, block, walletId, networkId, since);
      assert after[..n] == SetRow(rows[..n], k, status, block);
    } else {
      assert after[..n] == rows[..n];
    }
  }

  // ---------- Recording, changed in place ----------

  class ChainRowStore {
    var rows: seq<ChainRow>

    constructor ()
      ensures rows == []
    {
      rows := [];
    }

    /** The rows to replace, in the order this store keeps them. */
    method ListReplaced(t: NewTransaction) returns (listing: seq<string>)
      ensures listing == StoreOrder(rows, t)
    {
      listing := [];
      for i := 0 to |rows|
        invariant listing == StoreOrder(rows[..i], t)
      {
        assert rows[..i + 1][..i] == rows[..i];
        if IsReplaced(rows[i], t) {
          listing := listing + [rows[i].txHash];
        }
      }
      assert rows[..|rows|] == rows;
    }

    /** `recordChainTransaction`. */
    method RecordChainTransaction(input: NewTransaction) returns (r: Result<seq<string>, RecordError>)
      modifies this
      ensures r.Err? <==> Recorded(old(rows), input.networkId, Text.Trim(input.txHash))
      ensures r.Err? ==> rows == old(rows)
      ensures r.Ok? ==> r.value == StoreOrder(old(rows), Normalized(input))
      ensures r.Ok? ==> Record(old(rows), Normalized(input), r.value) == Ok(rows)
    {
      var t := Normalized(input);
      var listing := ListReplaced(t);
      ghost var before := rows;
      var saved := rows;
      for i := 0 to |rows|
        invariant |rows| == |before|
        invariant forall k :: 0 <= k < i ==> rows[k] == Replace(before[k], t, listing)
        invariant forall k :: i <= k < |before| ==> rows[k] == before[k]
      {
        if SharesSlot(rows[i], t) && rows[i].txHash in listing {
          rows := rows[i := rows[i].(status := Replaced, replacedByTxHash := Some(t.txHash))];
        }
      }
      assert rows == seq(|before|, i requires 0 <= i < |before| => Replace(before[i], t, listing));
      if Position(saved, t.networkId, t.txHash) < |saved| {
        rows := saved;
        return Err(DuplicateTransaction);
      }
      assert !Recorded(before, t.networkId, t.txHash);
      rows := rows + [NewRow(t, listing)];
      return Ok(listing);
    }

    method UpdateRow(i: nat, status: Status, block: BlockFields)
      requires i < |rows|
      modifies this
      ensures rows == SetRow(old(rows), i, status, block)
    {
      rows := SetRow(rows, i, status, block);
    }
  }
}
