/**
 The signing worker: services/signing-intent.worker.ts.

 Provider, signer and broadcast are oracles: `Outcome` says how far one intent gets and which hashes they return.
 `Process` is the state after one claimed intent; `Worker` gets there through the stores.
 */
module SigningWorker {
  import opened Prelude
  import opened ChainStatus
  import opened ChainSync
  import Text = Decimals
  import Rows = ChainRows
  import Transfers = TransferLogs
  import Nonces = NonceReservations
  import Intents = SigningIntents

  datatype Outcome =
    | NoProvider(error: string)
    | SignFailed(error: string)
    | BroadcastFailed(derived: Option<string>, error: string)
      /** `recordFails`: the chain row could not be written, which the worker only logs. */
    | Broadcast(returned: string, derived: Option<string>, at: int, recordFails: bool)

  const NO_HASH_ERROR := "Unable to determine submitted transaction hash"
  const INVALID_HASH_ERROR := "INVALID_TX_HASH"

  /** The broadcast hash, else the derived one. */
  function SubmittedHash(o: Outcome): Option<string>
    requires o.Broadcast?
  {
    if o.returned != "" then Some(o.returned) else if Truthy(o.derived) then o.derived else None
  }

  /** The transaction went out and has a hash that can be stored. */
  predicate Succeeds(o: Outcome)
  {
    o.Broadcast? && SubmittedHash(o).Some? && Text.Trim(SubmittedHash(o).value) != ""
  }

  /** The returned hash decides if there is one, else the derived one. */
  lemma SucceedsIff(o: Outcome)
    ensures Succeeds(o) <==>
              && o.Broadcast?
              && (if o.returned != "" then Text.Trim(o.returned) != ""
                  else o.derived.Some? && Text.Trim(o.derived.value) != "")
  {
  }

  function ErrorOf(o: Outcome): string
  {
    match o
    case NoProvider(e) => e
    case SignFailed(e) => e
    case BroadcastFailed(_, e) => e
    case Broadcast(_, _, _, _) => if SubmittedHash(o).None? then NO_HASH_ERROR else INVALID_HASH_ERROR
  }

  function SetIntent(s: Stores, k: nat, status: Intents.IntentStatus, txHash: Option<Option<string>>,
                     error: Option<string>): Stores
    requires k < |s.intents|
  {
    s.(intents := Intents.SetIntentAt(s.intents, k, status, txHash, error))
  }

  function SubmittedUpdate(n: Intents.Intent, hash: string, earlier: Option<string>): Transfers.TransferUpdate
  {
    Transfers.NO_CHANGE.(
      status := Some(Chain(Submitted)),
      txHash := Transfers.Set(Some(hash)),
      nonce := Transfers.Set(n.nonce),
      replacesTxHash := if earlier.Some? then Transfers.Set(earlier) else Transfers.Keep)
  }

  function FailedUpdate(n: Intents.Intent, hash: Option<string>): Transfers.TransferUpdate
  {
    Transfers.NO_CHANGE.(
      status := Some(Chain(Failed)),
      txHash := if hash.Some? then Transfers.Set(hash) else Transfers.Keep,
      nonce := Transfers.Set(n.nonce))
  }

  function UpdateLog(s: Stores, id: string, u: Transfers.TransferUpdate): Stores
  {
    s.(transfers := Transfers.UpdateById(s.transfers, id, u))
  }

  function TransactionOf(n: Intents.Intent, hash: string, at: int): Rows.NewTransaction
  {
    Rows.NewTransaction(n.networkId, hash, n.walletId, n.nonce, n.amount, at, Submitted)
  }

  /** `markReplacedTransferAttempts`: logs and reservations, not the intents. */
  function MarkReplaced(s: Stores, hashes: seq<string>, replacedBy: string): Stores
  {
    s.(transfers := Transfers.UpdateByHashes(s.transfers, CleanHashes(hashes), Transfers.ReplacedUpdate(replacedBy)),
       nonces := Nonces.Apply(s.nonces, Nonces.MarkByHashes(hashes, Nonces.Failed)))
  }

  /** Reservation, intent and transfer log of a transaction that went out. */
  function Submit(s: Stores, k: nat, hash: string): Stores
    requires k < |s.intents|
  {
    var n := s.intents[k];
    UpdateLog(
      SetIntent(s.(nonces := Nonces.Apply(s.nonces, Nonces.MarkSubmitted(n.reservationId, hash))),
                k, Intents.SubmittedIntent, Some(Some(hash)), None),
      n.transferLogId, SubmittedUpdate(n, hash, None))
  }

  /** The chain row, and what it replaces. */
  function RecordSent(s: Stores, k: nat, hash: string, at: int, listing: seq<string>): Stores
    requires k < |s.intents|
  {
    var n := s.intents[k];
    match Rows.Record(s.rows, Rows.Normalized(TransactionOf(n, hash, at)), listing)
    case Err(_) => s
    case Ok(rows) =>
      var t := s.(rows := rows);
      var u := if listing == [] then t
               else UpdateLog(t, n.transferLogId, SubmittedUpdate(n, hash, Some(listing[0])));
      MarkReplaced(u, listing, hash)
  }

  /** Intent and transfer log after a failure; the intent's hash becomes the one it had when it was claimed. */
  function FailIntent(s: Stores, k: nat, claimedHash: Option<string>, error: string): Stores
    requires k < |s.intents|
  {
    UpdateLog(SetIntent(s, k, Intents.FailedIntent, Some(claimedHash), NormalizeNullable(Some(error))),
              s.intents[k].transferLogId, FailedUpdate(s.intents[k], claimedHash))
  }

  /** State after one claimed intent. */
  function Process(s: Stores, k: nat, o: Outcome, listing: seq<string>): Stores
    requires k < |s.intents|
  {
    var n := s.intents[k];
    match o
    case NoProvider(e) => FailIntent(s, k, n.txHash, e)
    case SignFailed(e) =>
      FailIntent(s.(nonces := Nonces.Apply(s.nonces, Nonces.Release(n.reservationId))), k, n.txHash, e)
    case BroadcastFailed(derived, e) =>
      FailIntent(s.(nonces := Nonces.Apply(s.nonces, Nonces.MarkFailed(n.reservationId))), k, n.txHash, e)
    case Broadcast(_, _, at, recordFails) =>
      if !Succeeds(o) then
        FailIntent(s.(nonces := Nonces.Apply(s.nonces, Nonces.MarkFailed(n.reservationId))), k, n.txHash, ErrorOf(o))
      else
        var hash := SubmittedHash(o).value;
        var t := Submit(s, k, hash);
        if recordFails then t else RecordSent(t, k, hash, at, listing)
  }

  /** What a failed attempt leaves before the pass marks the intent failed. */
  function Thrown(s: Stores, k: nat, o: Outcome): Stores
    requires k < |s.intents| && !o.NoProvider? && !Succeeds(o)
  {
    var id := s.intents[k].reservationId;
    if o.SignFailed? then s.(nonces := Nonces.Apply(s.nonces, Nonces.Release(id)))
    else SetIntent(s, k, Intents.Signed, Some(o.derived), None).(nonces := Nonces.Apply(s.nonces, Nonces.MarkFailed(id)))
  }

  /** Marking the intent submitted, or failed, leaves nothing of the signed mark. */
  lemma SignedIsOverwritten(s: Stores, k: nat, derived: Option<string>, hash: string, at: int)
    requires k < |s.intents|
    ensures Submit(SetIntent(s, k, Intents.Signed, Some(derived), None), k, hash) == Submit(s, k, hash)
    ensures TransactionOf(SetIntent(s, k, Intents.Signed, Some(derived), None).intents[k], hash, at) ==
              TransactionOf(s.intents[k], hash, at)
  {
  }

  lemma ThrownThenFailed(s: Stores, k: nat, o: Outcome, listing: seq<string>)
    requires k < |s.intents| && !o.NoProvider? && !Succeeds(o)
    ensures FailIntent(Thrown(s, k, o), k, s.intents[k].txHash, ErrorOf(o)) == Process(s, k, o, listing)
    ensures Thrown(s, k, o).intents[k].transferLogId == s.intents[k].transferLogId
    ensures Thrown(s, k, o).intents[k].nonce == s.intents[k].nonce
  {
  }

  /** The listing the row store gives for this outcome. */
  function StoreListing(s: Stores, k: nat, o: Outcome): seq<string>
    requires k < |s.intents|
  {
    if o.Broadcast? && SubmittedHash(o).Some? then
      Rows.StoreOrder(s.rows, Rows.Normalized(TransactionOf(s.intents[k], SubmittedHash(o).value, o.at)))
    else []
  }

  /** One pass: claim the oldest queued intent, process it, repeat; counts of successes and failures. */
  function Pass(s: Stores, outcomes: seq<Outcome>): (Stores, nat, nat)
    decreases |outcomes|
  {
    var k := Intents.OldestQueued(s.intents);
    if outcomes == [] || k == |s.intents| then (s, 0, 0)
    else
      var claimed := s.(intents := Intents.ClaimAt(s.intents, k));
      var rest := Pass(Process(claimed, k, outcomes[0], StoreListing(claimed, k, outcomes[0])), outcomes[1..]);
      if Succeeds(outcomes[0]) then (rest.0, rest.1 + 1, rest.2) else (rest.0, rest.1, rest.2 + 1)
  }

  lemma PassUnfolds(s: Stores, outcomes: seq<Outcome>)
    ensures var k := Intents.OldestQueued(s.intents);
            if outcomes == [] || k == |s.intents| then Pass(s, outcomes) == (s, 0, 0)
            else
              var claimed := s.(intents := Intents.ClaimAt(s.intents, k));
              var rest := Pass(Process(claimed, k, outcomes[0], StoreListing(claimed, k, outcomes[0])), outcomes[1..]);
              && Pass(s, outcomes).0 == rest.0
              && Pass(s, outcomes).1 == rest.1 + (if Succeeds(outcomes[0]) then 1 else 0)
              && Pass(s, outcomes).2 == rest.2 + (if Succeeds(outcomes[0]) then 0 else 1)
  {
  }

  // ---------- What one intent leaves behind ----------

  function CountQueued(ns: seq<Intents.Intent>): nat
  {
    if ns == [] then 0 else CountQueued(ns[..|ns| - 1]) + if ns[|ns| - 1].status == Intents.Queued then 1 else 0
  }

  lemma {:induction false} CountAfterChange(ns: seq<Intents.Intent>, k: nat, n: Intents.Intent)
    requires k < |ns|
    ensures CountQueued(ns[k := n]) == CountQueued(ns)
              + (if n.status == Intents.Queued then 1 else 0) - (if ns[k].status == Intents.Queued then 1 else 0)
  {
    var m := |ns| - 1;
    if k < m {
      CountAfterChange(ns[..m], k, n);
      assert ns[k := n][..m] == ns[..m][k := n];
    } else {
      assert ns[k := n][..m] == ns[..m];
    }
  }

  lemma {:induction false} CountPositive(ns: seq<Intents.Intent>, k: nat)
    requires k < |ns| && ns[k].status == Intents.Queued
    ensures CountQueued(ns) > 0
  {
    if k < |ns| - 1 {
      CountPositive(ns[..|ns| - 1], k);
    }
  }

  lemma {:induction false} CountNone(ns: seq<Intents.Intent>)
    requires forall i :: 0 <= i < |ns| ==> ns[i].status != Intents.Queued
    ensures CountQueued(ns) == 0
  {
    if ns != [] {
      CountNone(ns[..|ns| - 1]);
    }
  }

  /** Processing changes one intent, which is submitted or failed afterwards. */
  lemma ProcessSettlesIntent(s: Stores, k: nat, o: Outcome, listing: seq<string>)
    requires k < |s.intents|
    ensures var t := Process(s, k, o, listing);
            && |t.intents| == |s.intents|
            && t.intents == s.intents[k := t.intents[k]]
            && t.intents[k].id == s.intents[k].id
            && t.intents[k].status == (if Succeeds(o) then Intents.SubmittedIntent else Intents.FailedIntent)
            && t.intents[k].txHash == if Succeeds(o) then Some(Text.Trim(SubmittedHash(o).value))
                                      else NormalizeNullable(s.intents[k].txHash)
  {
    hide Nonces.Apply, Transfers.UpdateById, Transfers.UpdateByHashes, Rows.Record, Rows.Normalized;
  }

  /**
   A pass settles min(batch, queued) intents, one outcome each: every one counts as a success or a failure, and what
   is left in the queue is the rest.
   */
  lemma {:induction false} PassCounts(s: Stores, outcomes: seq<Outcome>)
    ensures var r := Pass(s, outcomes);
            && r.1 + r.2 == Min(|outcomes|, CountQueued(s.intents))
            && CountQueued(r.0.intents) == CountQueued(s.intents) - (r.1 + r.2)
    decreases |outcomes|
  {
    hide Process, StoreListing, CountQueued;
    var k := Intents.OldestQueued(s.intents);
    if k == |s.intents| {
      CountNone(s.intents);
    } else if outcomes != [] {
      var claimed := s.(intents := Intents.ClaimAt(s.intents, k));
      var listing := StoreListing(claimed, k, outcomes[0]);
      var t := Process(claimed, k, outcomes[0], listing);
      CountPositive(s.intents, k);
      CountAfterChange(s.intents, k, claimed.intents[k]);
      ProcessSettlesIntent(claimed, k, outcomes[0], listing);
      CountAfterChange(claimed.intents, k, t.intents[k]);
      PassCounts(t, outcomes[1..]);
    }
  }

  // ---------- The worker, over the stores ----------

  class Worker {
    const stores: WalletStores

    constructor (stores: WalletStores)
      ensures this.stores == stores
    {
      this.stores := stores;
    }

    method MarkTransferSubmitted(n: Intents.Intent, hash: string, earlier: Option<string>)
      modifies stores.transfers
      ensures stores.Snapshot() == UpdateLog(old(stores.Snapshot()), n.transferLogId, SubmittedUpdate(n, hash, earlier))
    {
      stores.transfers.UpdateTransferStatus(n.transferLogId, SubmittedUpdate(n, hash, earlier));
    }

    method MarkReplacedTransferAttempts(hashes: seq<string>, replacedBy: string)
      modifies stores.transfers, stores.nonces
      ensures stores.Snapshot() == MarkReplaced(old(stores.Snapshot()), hashes, replacedBy)
    {
      stores.transfers.UpdateAttempts(hashes, Transfers.ReplacedUpdate(replacedBy));
      var marked := stores.nonces.UpdateByTxHashes(hashes, Nonces.Failed);
    }

    /** The record step; an error of the row store is only logged. */
    method RecordTransaction(k: nat, hash: string, at: int)
      requires k < |stores.intents.intents|
      modifies stores.rows, stores.transfers, stores.nonces
      ensures var before := old(stores.Snapshot());
              stores.Snapshot() == RecordSent(before, k, hash, at,
                Rows.StoreOrder(before.rows, Rows.Normalized(TransactionOf(before.intents[k], hash, at))))
    {
      hide Rows.StoreOrder, Transfers.UpdateById, Transfers.UpdateByHashes, Nonces.Apply;
      var n := stores.intents.intents[k];
      var recorded := stores.rows.RecordChainTransaction(TransactionOf(n, hash, at));
      if recorded.Err? { return; }
      if recorded.value != [] {
        MarkTransferSubmitted(n, hash, Some(recorded.value[0]));
      }
      MarkReplacedTransferAttempts(recorded.value, hash);
    }

    /** After a successful broadcast: reservation, intent, transfer log, then the chain row. */
    method StoreSent(k: nat, hash: string, at: int, recordFails: bool)
      requires k < |stores.intents.intents| && Text.Trim(hash) != ""
      modifies stores.rows, stores.transfers, stores.nonces, stores.intents
      ensures |stores.intents.intents| == |old(stores.intents.intents)|
      ensures var before := old(stores.Snapshot());
              var n := before.intents[k];
              var t := Submit(before, k, hash);
              stores.Snapshot() ==
                if recordFails then t
                else RecordSent(t, k, hash, at, Rows.StoreOrder(before.rows, Rows.Normalized(TransactionOf(n, hash, at))))
    {
      hide Rows.StoreOrder, Transfers.UpdateById, Transfers.UpdateByHashes, Rows.Record, RecordSent;
      var n := stores.intents.intents[k];
      var marked := stores.nonces.MarkSubmittedById(n.reservationId, hash);
      stores.intents.UpdateIntent(k, Intents.SubmittedIntent, Some(Some(hash)), None);
      MarkTransferSubmitted(n, hash, None);
      if !recordFails {
        RecordTransaction(k, hash, at);
      }
    }

    /** `processClaimedSigningIntent`; returns the hash, or the error that is thrown on. */
    method ProcessClaimed(k: nat, o: Outcome) returns (r: Result<string, string>)
      requires k < |stores.intents.intents| && !o.NoProvider?
      modifies stores.rows, stores.transfers, stores.nonces, stores.intents
      ensures r.Ok? <==> Succeeds(o)
      ensures r.Err? ==> r.error == ErrorOf(o)
      ensures |stores.intents.intents| == |old(stores.intents.intents)|
      ensures var before := old(stores.Snapshot());
              if r.Ok? then stores.Snapshot() == Process(before, k, o, StoreListing(before, k, o))
              else stores.Snapshot() == Thrown(before, k, o)
    {
      hide Rows.StoreOrder, Transfers.UpdateById, Transfers.UpdateByHashes, Rows.Record, RecordSent;
      var n := stores.intents.intents[k];
      if o.SignFailed? {
        var released := stores.nonces.UpdateById(n.reservationId, Nonces.Released, None);
        return Err(o.error);
      }
      stores.intents.UpdateIntent(k, Intents.Signed, Some(o.derived), None);
      if !Succeeds(o) {
        var failed := stores.nonces.UpdateById(n.reservationId, Nonces.Failed, None);
        return Err(ErrorOf(o));
      }
      ghost var signed := stores.Snapshot();
      var hash := SubmittedHash(o).value;
      StoreSent(k, hash, o.at, o.recordFails);
      SignedIsOverwritten(old(stores.Snapshot()), k, o.derived, hash, o.at);
      return Ok(hash);
    }

    /** The body of the pass loop for one claimed intent. */
    method ProcessOne(k: nat, o: Outcome) returns (ok: bool)
      requires k < |stores.intents.intents|
      modifies stores.rows, stores.transfers, stores.nonces, stores.intents
      ensures ok <==> Succeeds(o)
      ensures var before := old(stores.Snapshot());
              stores.Snapshot() == Process(before, k, o, StoreListing(before, k, o))
    {
      hide Rows.StoreOrder, Transfers.UpdateById, Transfers.UpdateByHashes, Rows.Record;
      hide Nonces.Apply, Thrown, RecordSent, Submit;
      var n := stores.intents.intents[k];
      var r: Result<string, string>;
      if o.NoProvider? {
        r := Err(o.error);
      } else {
        r := ProcessClaimed(k, o);
      }
      if r.Ok? { return true; }
      if !o.NoProvider? { ThrownThenFailed(old(stores.Snapshot()), k, o, StoreListing(old(stores.Snapshot()), k, o)); }
      stores.intents.UpdateIntent(k, Intents.FailedIntent, Some(n.txHash), NormalizeNullable(Some(r.error)));
      stores.transfers.UpdateTransferStatus(n.transferLogId, FailedUpdate(n, n.txHash));
      return false;
    }

    /** `processWalletSigningIntentQueuePass`. */
    method ProcessQueuePass(outcomes: seq<Outcome>) returns (processed: nat, succeeded: nat, failed: nat)
      modifies stores.rows, stores.transfers, stores.nonces, stores.intents
      ensures (stores.Snapshot(), succeeded, failed) == Pass(old(stores.Snapshot()), outcomes)
      ensures processed == succeeded + failed
    {
      hide Process, StoreListing, Pass, Succeeds, Intents.OldestQueued, Nonces.MemoryNonces.State;
      processed, succeeded, failed := 0, 0, 0;
      ghost var start := stores.Snapshot();
      ghost var left := outcomes;
      for i := 0 to |outcomes|
        invariant processed == succeeded + failed && left == outcomes[i..]
        invariant var r := Pass(stores.Snapshot(), left);
                  (r.0, succeeded + r.1, failed + r.2) == Pass(start, outcomes)
      {
        PassUnfolds(stores.Snapshot(), left);
        var claimed := stores.intents.ClaimNextQueued();
        if claimed.None? { break; }
        processed := processed + 1;
        left := left[1..];
        var ok := ProcessOne(claimed.value, outcomes[i]);
        if ok {
          succeeded := succeeded + 1;
        } else {
          failed := failed + 1;
        }
      }
      PassUnfolds(stores.Snapshot(), left);
    }
  }
}
