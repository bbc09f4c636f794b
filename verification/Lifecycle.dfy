/**
 The life of EVM transfers over all stores: app/api/wallet/send/route.ts, services/signing-intent.worker.ts,
 services/chain-transaction-sync.service.ts.

 A run interleaves requests, claims, worker outcomes and syncs in any order; each is one step. The invariant ties
 chain rows, index, logs, token transfers, transfer logs, nonce reservations and signing intents together.
 */
module Lifecycle {
  import opened Prelude
  import opened ChainStatus
  import opened ChainSync
  import opened SigningWorker
  import opened Agreement
  import Text = Decimals
  import Rows = ChainRows
  import Transfers = TransferLogs
  import Nonces = NonceReservations
  import Intents = SigningIntents

  /**
   What becomes of a request once a nonce is reserved: an intent is queued, or the request is turned down and the
   reservation released, with or without a transfer log that says so.
   */
  datatype Decision = Queue | TurnDown(logged: Option<WorkflowStatus>)

  /** One request to send. The action id is the caller's trace id and may repeat. */
  datatype SendRequest = SendRequest(
    path: Nonces.Path,
    nonceRequest: Nonces.Request,
    pendingNonce: int,
    payloadNonce: Option<string>,
    amount: nat,
    at: int,
    decision: Decision,
    reservationId: string,
    logId: string,
    intentId: string)

  datatype Step =
    | Send(request: SendRequest)
    | Claim
    | Work(k: nat, outcome: Outcome, listing: seq<string>)
    | Sync(i: nat, view: NodeView)

  function NewLog(e: SendRequest, status: WorkflowStatus, nonce: Option<string>): Transfers.TransferLog
  {
    Transfers.TransferLog(e.logId, e.nonceRequest.walletId, status, None, NormalizeNullable(nonce), NO_BLOCK, None, None)
  }

  function NewIntent(e: SendRequest, reservationId: string): Intents.Intent
  {
    Intents.Intent(e.intentId, Intents.Queued, e.nonceRequest.walletId, Text.NatToText(e.nonceRequest.chainId),
                   reservationId, e.logId, e.payloadNonce, e.amount, e.at, None, None)
  }

  /** The reservation a request is handed: a new one, or the one its action already has. */
  function HandedOut(s: Stores, e: SendRequest): Result<Nonces.Reservation, Nonces.NonceError>
  {
    Nonces.ReserveOn(e.path, s.nonces, e.nonceRequest, e.pendingNonce, e.reservationId).1
  }

  function AfterSend(s: Stores, e: SendRequest): Stores
  {
    var (nonces, r) := Nonces.ReserveOn(e.path, s.nonces, e.nonceRequest, e.pendingNonce, e.reservationId);
    match r
    case Err(_) => s
    case Ok(reservation) =>
      match e.decision
      case Queue =>
        s.(nonces := nonces,
           transfers := s.transfers + [NewLog(e, PendingBroadcast, e.payloadNonce)],
           intents := s.intents + [NewIntent(e, reservation.id)])
      case TurnDown(logged) =>
        s.(nonces := Nonces.Apply(nonces, Nonces.Release(reservation.id)),
           transfers := s.transfers + if logged.Some? then [NewLog(e, logged.value, None)] else [])
  }

  function AfterClaim(s: Stores): Stores
  {
    var k := Intents.OldestQueued(s.intents);
    if k == |s.intents| then s else s.(intents := Intents.ClaimAt(s.intents, k))
  }

  function Apply(s: Stores, step: Step): Stores
    requires Enabled(s, step)
  {
    match step
    case Send(e) => AfterSend(s, e)
    case Claim => AfterClaim(s)
    case Work(k, o, listing) => Process(s, k, o, listing)
    case Sync(i, v) => AfterSync(s, i, v)
  }

  /** A signed transaction's hash is new to every store. */
  ghost predicate FreshHash(s: Stores, hash: string)
  {
    && CleanHash(hash)
    && (forall i :: 0 <= i < |s.rows| ==> s.rows[i].txHash != hash)
    && !HasLog(s.transfers, hash)
    && !HasReservation(s.nonces.reservations, hash)
    && !HasIntent(s.intents, hash)
  }

  ghost predicate FreshSend(s: Stores, e: SendRequest)
  {
    && Nonces.FreshId(s.nonces, e.reservationId)
    && (forall j :: 0 <= j < |s.transfers| ==> s.transfers[j].id != e.logId)
    && (forall k :: 0 <= k < |s.intents| ==> s.intents[k].transferLogId != e.logId)
  }

  /** Record ids and hashes are new; the worker holds a claimed intent; the sync picks a syncable row. */
  ghost predicate Enabled(s: Stores, step: Step)
  {
    match step
    case Send(e) => FreshSend(s, e)
    case Claim => true
    case Work(k, o, listing) =>
      && k < |s.intents| && s.intents[k].status.Approved?
      && (Succeeds(o) ==>
            && FreshHash(s, SubmittedHash(o).value)
            && Rows.Lists(listing, s.rows, Rows.Normalized(TransactionOf(s.intents[k], SubmittedHash(o).value, o.at))))
    case Sync(i, v) => i < |s.rows| && IsSyncable(s.rows[i].status) && CarriesBlock(v)
  }

  ghost predicate Inv(s: Stores)
  {
    && ChainData(s)
    && Rows.ReplacementInv(s.rows)
    && Nonces.Inv(s.nonces)
    && Agree(s)
    && Owned(s)
  }

  const EMPTY := Stores([], map[], map[], map[], [], Nonces.NonceState(map[], []), [])

  // ---------- Sending ----------

  lemma SendKeepsNonces(s: Stores, e: SendRequest)
    requires Nonces.Inv(s.nonces) && Nonces.FreshId(s.nonces, e.reservationId)
    ensures Nonces.Inv(AfterSend(s, e).nonces) && Nonces.Grows(s.nonces, AfterSend(s, e).nonces)
  {
    hide Nonces.ReserveInMemory, Nonces.ReserveInPostgres, Nonces.Inv, Nonces.SetById, Nonces.Grows;
    Nonces.ReserveKeepsInv(s.nonces, e.nonceRequest, e.pendingNonce, e.reservationId);
    var (nonces, r) := Nonces.ReserveOn(e.path, s.nonces, e.nonceRequest, e.pendingNonce, e.reservationId);
    NoncesGrowSame(s.nonces);
    if r.Ok? {
      Nonces.StepKeepsInv(nonces, Nonces.Release(r.value.id));
      NoncesGrowTwice(s.nonces, nonces, Nonces.Apply(nonces, Nonces.Release(r.value.id)));
    }
  }

  /** A reservation handed out is one that exists, or a new one without a hash. */
  ghost predicate HandsOut(xs: seq<Nonces.Reservation>, ys: seq<Nonces.Reservation>, x: Nonces.Reservation, newId: string)
  {
    || (ys == xs && x in xs)
    || (ys == xs + [x] && x.txHash.None? && x.status == Nonces.Reserved && x.id == newId)
  }

  lemma ReserveHandsOut(s: Stores, e: SendRequest)
    ensures var (nonces, r) := Nonces.ReserveOn(e.path, s.nonces, e.nonceRequest, e.pendingNonce, e.reservationId);
            r.Ok? ==> HandsOut(s.nonces.reservations, nonces.reservations, r.value, e.reservationId)
  {
  }

  /** What a request adds: a log, unless it is turned down silently, and an intent if it is queued. */
  lemma SendAdds(s: Stores, e: SendRequest)
    ensures var t, r := AfterSend(s, e), HandedOut(s, e);
            if r.Err? then t == s
            else
              && t == s.(nonces := t.nonces, transfers := t.transfers, intents := t.intents)
              && |t.nonces.reservations| >= |s.nonces.reservations|
              && (forall j :: 0 <= j < |s.nonces.reservations| ==>
                    var x, y := s.nonces.reservations[j], t.nonces.reservations[j];
                    y == if e.decision.TurnDown? && x.id == r.value.id then x.(status := Nonces.Released) else x)
              && (|| (|t.nonces.reservations| == |s.nonces.reservations| && r.value in s.nonces.reservations)
                  || (&& |t.nonces.reservations| == |s.nonces.reservations| + 1
                      && t.nonces.reservations[|s.nonces.reservations|] ==
                           (if e.decision.TurnDown? then r.value.(status := Nonces.Released) else r.value)
                      && r.value.txHash.None? && r.value.status == Nonces.Reserved && r.value.id == e.reservationId))
              && (match e.decision
                  case Queue =>
                    && t.transfers == s.transfers + [NewLog(e, PendingBroadcast, e.payloadNonce)]
                    && t.intents == s.intents + [NewIntent(e, r.value.id)]
                  case TurnDown(logged) =>
                    && t.transfers == s.transfers + (if logged.Some? then [NewLog(e, logged.value, None)] else [])
                    && t.intents == s.intents)
  {
    hide Nonces.ReserveOn, NewLog, NewIntent;
    ReserveHandsOut(s, e);
    var (nonces, r) := Nonces.ReserveOn(e.path, s.nonces, e.nonceRequest, e.pendingNonce, e.reservationId);
    if r.Ok? {
      FailedReservations(nonces.reservations, r.value.id);
    }
  }

  /** What a queued request stores: its own wallet, chain, amount and nonce, and the names of log and reservation. */
  lemma QueuedTells(s: Stores, e: SendRequest)
    requires HandedOut(s, e).Ok? && e.decision.Queue?
    ensures var t := AfterSend(s, e);
            && |t.transfers| == |s.transfers| + 1 && |t.intents| == |s.intents| + 1
            && var l, n := t.transfers[|s.transfers|], t.intents[|s.intents|];
               && (l.id, l.walletId, l.status, l.txHash) == (e.logId, e.nonceRequest.walletId, PendingBroadcast, None)
               && l.nonce == (if e.payloadNonce.None? || Text.Trim(e.payloadNonce.value) == "" then None
                              else Some(Text.Trim(e.payloadNonce.value)))
               && l.block == NO_BLOCK && l.replacesTxHash == None && l.replacedByTxHash == None
               && (n.id, n.status, n.walletId, n.networkId) ==
                    (e.intentId, Intents.Queued, e.nonceRequest.walletId, Text.NatToText(e.nonceRequest.chainId))
               && (n.reservationId, n.transferLogId) == (HandedOut(s, e).value.id, e.logId)
               && (n.nonce, n.amount, n.createdAt) == (e.payloadNonce, e.amount, e.at)
               && n.txHash == None && n.errorCode == None
  {
    hide HandedOut, Text.Trim, Text.NatToText;
    SendAdds(s, e);
  }

  /** A request turned down queues nothing; its log, if one is written, carries the given status and no nonce. */
  lemma TurnedDownTells(s: Stores, e: SendRequest)
    requires HandedOut(s, e).Ok? && e.decision.TurnDown?
    ensures var t, logged := AfterSend(s, e), e.decision.logged;
            && t.intents == s.intents && |t.transfers| == |s.transfers| + (if logged.Some? then 1 else 0)
            && (logged.Some? ==>
                  var l := t.transfers[|s.transfers|];
                  (l.id, l.walletId, l.status, l.txHash, l.nonce) ==
                    (e.logId, e.nonceRequest.walletId, logged.value, None, None))
            && forall j :: 0 <= j < |t.nonces.reservations| && t.nonces.reservations[j].id == HandedOut(s, e).value.id ==>
                 t.nonces.reservations[j].status == Nonces.Released
  {
    hide HandedOut, Text.Trim;
    SendAdds(s, e);
  }

  lemma SendKeepsAgreement(s: Stores, e: SendRequest)
    requires FreshSend(s, e) && Agree(s) && Owned(s)
    ensures Agree(AfterSend(s, e)) && Owned(AfterSend(s, e))
  {
    hide AfterSend, HandedOut, Nonces.FreshId;
    SendAdds(s, e);
    var t := AfterSend(s, e);
    if t != s {
      SendKeepsTracked(s, t);
      SendKeepsReady(s, t, e);
      SendKeepsOneHolder(s, t);
    }
  }

  /** Logs and intents are only added to; reservations keep id and hash, and new ones have no hash. */
  ghost predicate Adds(s: Stores, t: Stores)
  {
    && t.rows == s.rows
    && s.transfers <= t.transfers && s.intents <= t.intents
    && |t.nonces.reservations| >= |s.nonces.reservations|
    && (forall j :: 0 <= j < |s.nonces.reservations| ==>
          t.nonces.reservations[j].id == s.nonces.reservations[j].id
          && t.nonces.reservations[j].txHash == s.nonces.reservations[j].txHash)
    && (forall j :: |s.nonces.reservations| <= j < |t.nonces.reservations| ==> t.nonces.reservations[j].txHash.None?)
  }

  lemma SendKeepsTracked(s: Stores, t: Stores)
    requires Adds(s, t) && Tracked(s)
    ensures Tracked(t)
  {
    forall i | 0 <= i < |t.rows| ensures HasLog(t.transfers, t.rows[i].txHash) && HasIntent(t.intents, t.rows[i].txHash) {
      var hash := s.rows[i].txHash;
      var a :| 0 <= a < |s.transfers| && s.transfers[a].txHash == Some(hash);
      assert t.transfers[a].txHash == Some(hash);
      var c :| 0 <= c < |s.intents| && s.intents[c].txHash == Some(hash);
      assert t.intents[c].txHash == Some(hash);
    }
  }

  lemma SendKeepsOneHolder(s: Stores, t: Stores)
    requires Adds(s, t) && OneHolder(s.nonces.reservations)
    ensures OneHolder(t.nonces.reservations)
  {
  }

  lemma ReadyStays(s: Stores, t: Stores, n: Intents.Intent)
    requires Adds(s, t) && Ready(s, n)
    ensures Ready(t, n)
  {
    var b :| 0 <= b < |s.nonces.reservations| && s.nonces.reservations[b].id == n.reservationId;
    assert t.nonces.reservations[b].id == n.reservationId;
    if Pending(n) {
      var a :| 0 <= a < |s.transfers| && s.transfers[a].id == n.transferLogId && s.transfers[a].txHash.None?;
      assert t.transfers[a] == s.transfers[a];
    }
  }

  lemma SendKeepsReady(s: Stores, t: Stores, e: SendRequest)
    requires Owned(s) && t == AfterSend(s, e) && t != s
    ensures Adds(s, t)
    ensures forall k :: 0 <= k < |t.intents| ==> Ready(t, t.intents[k])
  {
    hide AfterSend, HandedOut, Ready;
    SendAdds(s, e);
    forall k | 0 <= k < |t.intents| ensures Ready(t, t.intents[k]) {
      if k < |s.intents| {
        ReadyStays(s, t, s.intents[k]);
      } else {
        QueuedIsReady(s, t, e);
      }
    }
  }

  lemma QueuedIsReady(s: Stores, t: Stores, e: SendRequest)
    requires t == AfterSend(s, e) && t != s && e.decision.Queue?
    ensures |t.intents| == |s.intents| + 1 && Ready(t, t.intents[|s.intents|])
  {
    hide AfterSend, HandedOut;
    SendAdds(s, e);
    assert t.transfers[|s.transfers|] == NewLog(e, PendingBroadcast, e.payloadNonce);
    var id := t.intents[|s.intents|].reservationId;
    if |t.nonces.reservations| == |s.nonces.reservations| {
      assert exists j :: 0 <= j < |t.nonces.reservations| && t.nonces.reservations[j].id == id;
    } else {
      assert t.nonces.reservations[|s.nonces.reservations|].id == id;
    }
  }

  // ---------- Claiming ----------

  lemma ClaimKeepsAgreement(s: Stores)
    requires Agree(s) && Owned(s)
    ensures Agree(AfterClaim(s)) && Owned(AfterClaim(s))
  {
    var k := Intents.OldestQueued(s.intents);
    if k < |s.intents| {
      var t := AfterClaim(s);
      assert Ready(s, s.intents[k]);
      ChangedIntentKeepsReady(s, t, k);
      forall i | 0 <= i < |s.rows| ensures HasIntent(t.intents, s.rows[i].txHash) {
        var c :| 0 <= c < |s.intents| && s.intents[c].txHash == Some(s.rows[i].txHash);
        assert t.intents[c].txHash == Some(s.rows[i].txHash);
      }
    }
  }

  lemma ChangedIntentKeepsReady(s: Stores, t: Stores, k: nat)
    requires k < |s.intents| && Owned(s) && Ready(s, s.intents[k])
    requires t == s.(intents := s.intents[k := s.intents[k].(status := Intents.Approved)])
    requires Pending(s.intents[k])
    ensures forall j :: 0 <= j < |t.intents| ==> Ready(t, t.intents[j])
  {
  }

  // ---------- The worker settles its intent ----------

  /** Intent k, its log and its reservation take this hash, or keep what they have; nothing else changes. */
  ghost predicate Settles(s: Stores, t: Stores, k: nat, hash: Option<string>)
    requires k < |s.intents|
  {
    var n := s.intents[k];
    && t.rows == s.rows && t.index == s.index && t.logs == s.logs && t.tokens == s.tokens
    && |t.transfers| == |s.transfers|
    && (forall j :: 0 <= j < |s.transfers| ==>
          if s.transfers[j].id == n.transferLogId
          then t.transfers[j].id == n.transferLogId && t.transfers[j].txHash == hash && Blank(t.transfers[j])
          else t.transfers[j] == s.transfers[j])
    && |t.nonces.reservations| == |s.nonces.reservations|
    && (forall j :: 0 <= j < |s.nonces.reservations| ==>
          if s.nonces.reservations[j].id == n.reservationId
          then
            && t.nonces.reservations[j].id == n.reservationId
            && t.nonces.reservations[j].txHash == (if hash.Some? then hash else s.nonces.reservations[j].txHash)
          else t.nonces.reservations[j] == s.nonces.reservations[j])
    && |t.intents| == |s.intents|
    && t.intents == s.intents[k := t.intents[k]]
    && t.intents[k].transferLogId == n.transferLogId && t.intents[k].reservationId == n.reservationId
    && t.intents[k].txHash == hash && !Pending(t.intents[k])
  }

  /** The log of a claimed intent is the only one with its id, and unsent; its reservation exists. */
  lemma ClaimedHoldsUnsent(s: Stores, k: nat)
    requires Owned(s) && Nonces.Inv(s.nonces) && k < |s.intents| && Pending(s.intents[k])
    ensures s.intents[k].txHash.None?
    ensures forall j :: 0 <= j < |s.transfers| && s.transfers[j].id == s.intents[k].transferLogId ==>
              s.transfers[j].txHash.None? && Blank(s.transfers[j])
    ensures exists j :: 0 <= j < |s.transfers| && s.transfers[j].id == s.intents[k].transferLogId
    ensures exists j :: 0 <= j < |s.nonces.reservations| && s.nonces.reservations[j].id == s.intents[k].reservationId
  {
  }

  lemma FailedReservations(xs: seq<Nonces.Reservation>, id: string)
    ensures forall status :: |Nonces.SetById(xs, id, status, None)| == |xs|
    ensures forall status, j :: 0 <= j < |xs| ==>
              Nonces.SetById(xs, id, status, None)[j] == if xs[j].id == id then xs[j].(status := status) else xs[j]
  {
  }

  lemma FailureSettles(s: Stores, k: nat, o: Outcome, listing: seq<string>)
    requires Owned(s) && Nonces.Inv(s.nonces) && k < |s.intents| && Pending(s.intents[k]) && !Succeeds(o)
    ensures Settles(s, Process(s, k, o, listing), k, None)
  {
    hide Owned, Nonces.Inv, RecordSent, Submit, Transfers.FindLog, Text.Trim, Nonces.SetById, ErrorOf, SubmittedHash;
    ClaimedHoldsUnsent(s, k);
    FailedReservations(s.nonces.reservations, s.intents[k].reservationId);
  }

  lemma SubmitSettles(s: Stores, k: nat, hash: string)
    requires Owned(s) && Nonces.Inv(s.nonces) && k < |s.intents| && Pending(s.intents[k]) && CleanHash(hash)
    ensures Settles(s, Submit(s, k, hash), k, Some(hash))
  {
  }

  lemma SettlesKeepsAgree(s: Stores, t: Stores, k: nat, hash: Option<string>)
    requires Agree(s) && Owned(s) && Nonces.Inv(s.nonces) && k < |s.intents| && Pending(s.intents[k])
    requires Settles(s, t, k, hash)
    requires hash.Some? ==> forall i :: 0 <= i < |s.rows| ==> s.rows[i].txHash != hash.value
    ensures Agree(t)
  {
    hide Owned, Nonces.Inv, HasLog, HasIntent;
    ClaimedHoldsUnsent(s, k);
    SettlesKeepsTracked(s, t, k, hash);
  }

  lemma SettlesKeepsTracked(s: Stores, t: Stores, k: nat, hash: Option<string>)
    requires Tracked(s) && Owned(s) && Nonces.Inv(s.nonces) && k < |s.intents| && Pending(s.intents[k])
    requires Settles(s, t, k, hash)
    ensures Tracked(t)
  {
    hide Owned, Nonces.Inv;
    ClaimedHoldsUnsent(s, k);
    forall i | 0 <= i < |s.rows| ensures HasLog(t.transfers, t.rows[i].txHash) && HasIntent(t.intents, t.rows[i].txHash) {
      var row := s.rows[i].txHash;
      var a :| 0 <= a < |s.transfers| && s.transfers[a].txHash == Some(row);
      assert t.transfers[a].txHash == Some(row);
      var c :| 0 <= c < |s.intents| && s.intents[c].txHash == Some(row);
      assert t.intents[c].txHash == Some(row);
    }
  }

  lemma SettlesKeepsOwned(s: Stores, t: Stores, k: nat, hash: Option<string>)
    requires Owned(s) && Nonces.Inv(s.nonces) && k < |s.intents| && Settles(s, t, k, hash)
    requires hash.Some? ==> !HasReservation(s.nonces.reservations, hash.value)
    ensures Owned(t)
  {
  }

  // ---------- Recording what was sent ----------

  predicate IntentSaysSubmitted(n: Intents.Intent) { n.status == Intents.SubmittedIntent && n.errorCode == None }

  /** Log and intent of a transaction that went out wait for its chain row. */
  ghost predicate Outgoing(t: Stores, k: nat, hash: string)
    requires k < |t.intents|
  {
    && (forall i :: 0 <= i < |t.rows| ==> t.rows[i].txHash != hash)
    && (forall j :: 0 <= j < |t.transfers| && t.transfers[j].id == t.intents[k].transferLogId ==>
          t.transfers[j].txHash == Some(hash) && t.transfers[j].status == Chain(Submitted) && Blank(t.transfers[j]))
    && t.intents[k].txHash == Some(hash) && IntentSaysSubmitted(t.intents[k])
    && HasLog(t.transfers, hash) && HasIntent(t.intents, hash)
  }

  function Head(listing: seq<string>): Option<string> { if listing == [] then None else Some(listing[0]) }

  /** The log says what a row just recorded says. */
  predicate SaysSubmitted(l: Transfers.TransferLog, listing: seq<string>)
  {
    l.status == Chain(Submitted) && l.block == NO_BLOCK && l.replacedByTxHash.None? && l.replacesTxHash == Head(listing)
  }

  /** A log under the hash that is not the intent's own. */
  ghost predicate OtherLog(t: Stores, k: nat, hash: string, j: nat)
    requires k < |t.intents| && j < |t.transfers|
  {
    t.transfers[j].txHash == Some(hash) && t.transfers[j].id != t.intents[k].transferLogId
  }

  /** Whatever else the stores hold under the hash says submitted as well. */
  ghost predicate OthersMatch(t: Stores, k: nat, hash: string, listing: seq<string>)
    requires k < |t.intents|
  {
    && (forall j :: 0 <= j < |t.transfers| && OtherLog(t, k, hash, j) ==> SaysSubmitted(t.transfers[j], listing))
    && (forall j :: 0 <= j < |t.intents| && t.intents[j].txHash == Some(hash) ==> IntentSaysSubmitted(t.intents[j]))
  }

  lemma SubmittedLog(s: Stores, k: nat, hash: string, a: nat)
    requires Owned(s) && Nonces.Inv(s.nonces) && k < |s.intents| && Pending(s.intents[k]) && CleanHash(hash)
    requires a < |s.transfers| && s.transfers[a].id == s.intents[k].transferLogId
    ensures var t := Submit(s, k, hash);
            && |t.transfers| == |s.transfers| && t.transfers[a].txHash == Some(hash)
            && t.transfers[a].status == Chain(Submitted) && Blank(t.transfers[a])
            && t.transfers[a].nonce == NormalizeNullable(s.intents[k].nonce)
            && |t.intents| == |s.intents| && t.intents[k].nonce == s.intents[k].nonce && IntentSaysSubmitted(t.intents[k])
  {
    ClaimedHoldsUnsent(s, k);
  }

  lemma SubmitGoesOut(s: Stores, k: nat, hash: string, listing: seq<string>)
    requires Owned(s) && Nonces.Inv(s.nonces) && k < |s.intents| && Pending(s.intents[k]) && CleanHash(hash)
    requires forall i :: 0 <= i < |s.rows| ==> s.rows[i].txHash != hash
    ensures |Submit(s, k, hash).intents| == |s.intents| && Outgoing(Submit(s, k, hash), k, hash)
    ensures OthersMatch(Submit(s, k, hash), k, hash, listing) <==> OthersMatch(s, k, hash, listing)
  {
    hide Owned, Nonces.Inv, Submit, SaysSubmitted;
    ClaimedHoldsUnsent(s, k);
    SubmitSettles(s, k, hash);
    var t := Submit(s, k, hash);
    forall j | 0 <= j < |t.transfers| && t.transfers[j].id == s.intents[k].transferLogId
      ensures t.transfers[j].txHash == Some(hash) && t.transfers[j].status == Chain(Submitted) && Blank(t.transfers[j])
    {
      SubmittedLog(s, k, hash, j);
    }
    var a :| 0 <= a < |s.transfers| && s.transfers[a].id == s.intents[k].transferLogId;
    SubmittedLog(s, k, hash, a);
    forall j | 0 <= j < |s.intents| && j != k ensures t.intents[j] == s.intents[j] {}
    if OthersMatch(t, k, hash, listing) {
      forall j | 0 <= j < |s.transfers| && OtherLog(s, k, hash, j) ensures SaysSubmitted(s.transfers[j], listing) {
        assert t.transfers[j] == s.transfers[j] && OtherLog(t, k, hash, j);
      }
      forall j | 0 <= j < |s.intents| && s.intents[j].txHash == Some(hash) ensures IntentSaysSubmitted(s.intents[j]) {
        assert t.intents[j] == s.intents[j];
      }
    }
  }

  lemma FreshHashIsAlone(s: Stores, k: nat, hash: string, listing: seq<string>)
    requires FreshHash(s, hash) && k < |s.intents|
    ensures OthersMatch(s, k, hash, listing)
  {
  }

  /** The listed hashes are those of the replaced rows. */
  lemma ListedIff(rows: seq<Rows.ChainRow>, t: Rows.NewTransaction, listing: seq<string>, i: nat)
    requires CleanRows(rows) && Rows.Lists(listing, rows, t) && i < |rows|
    ensures rows[i].txHash in listing <==> Rows.IsReplaced(rows[i], t)
    ensures forall h :: h in listing ==> h != t.txHash && CleanHash(h)
    ensures CleanHashes(listing) == listing
  {
    assert forall h :: h in listing ==> h != t.txHash && CleanHash(h);
    CleanHashesUnchanged(listing);
  }

  lemma ReplacedLog(l: Transfers.TransferLog, hash: string)
    requires CleanHash(hash)
    ensures Transfers.ApplyUpdate(l, Transfers.ReplacedUpdate(hash)) ==
              l.(status := Chain(Replaced), replacedByTxHash := Some(hash))
  {
  }

  lemma LinkedLog(l: Transfers.TransferLog, n: Intents.Intent, hash: string, earlier: string)
    requires CleanHash(hash) && CleanHash(earlier)
    ensures Transfers.ApplyUpdate(l, SubmittedUpdate(n, hash, Some(earlier))) ==
              l.(status := Chain(Submitted), txHash := Some(hash), nonce := NormalizeNullable(n.nonce),
                 replacesTxHash := Some(earlier))
  {
  }

  /** The log's half of `RecordSent`. */
  function LogsAfterRecord(ts: seq<Transfers.TransferLog>, n: Intents.Intent, hash: string, listing: seq<string>)
    : seq<Transfers.TransferLog>
  {
    var linked := if listing == [] then ts
                  else Transfers.UpdateById(ts, n.transferLogId, SubmittedUpdate(n, hash, Some(listing[0])));
    Transfers.UpdateByHashes(linked, CleanHashes(listing), Transfers.ReplacedUpdate(hash))
  }

  lemma RecordSentParts(t: Stores, k: nat, hash: string, at: int, listing: seq<string>)
    requires k < |t.intents|
    ensures var n := t.intents[k];
            var recorded := Rows.Record(t.rows, Rows.Normalized(TransactionOf(n, hash, at)), listing);
            RecordSent(t, k, hash, at, listing) ==
              if recorded.Err? then t
              else t.(rows := recorded.value,
                      transfers := LogsAfterRecord(t.transfers, n, hash, listing),
                      nonces := Nonces.Apply(t.nonces, Nonces.MarkByHashes(listing, Nonces.Failed)))
  {
  }

  /** One log after the record: linked if it is the sent one, replaced if its hash is listed. */
  ghost predicate LogBecomes(l: Transfers.TransferLog, m: Transfers.TransferLog, n: Intents.Intent, hash: string,
                             listing: seq<string>)
  {
    if l.id == n.transferLogId then
      if listing == [] then m == l
      else m == l.(status := Chain(Submitted), nonce := NormalizeNullable(n.nonce), replacesTxHash := Some(listing[0]))
    else if l.txHash.Some? && l.txHash.value in listing then
      m == l.(status := Chain(Replaced), replacedByTxHash := Some(hash))
    else m == l
  }

  lemma LogAfterRecord(ts: seq<Transfers.TransferLog>, n: Intents.Intent, hash: string, listing: seq<string>, j: nat)
    requires j < |ts| && LogsOwned(ts) && CleanHash(hash) && hash !in listing
    requires forall i :: 0 <= i < |listing| ==> CleanHash(listing[i])
    requires forall i :: 0 <= i < |ts| && ts[i].id == n.transferLogId ==> ts[i].txHash == Some(hash)
    ensures |LogsAfterRecord(ts, n, hash, listing)| == |ts|
    ensures LogBecomes(ts[j], LogsAfterRecord(ts, n, hash, listing)[j], n, hash, listing)
  {
    hide Transfers.ApplyUpdate, SubmittedUpdate, Transfers.ReplacedUpdate, CleanHashes;
    CleanHashesUnchanged(listing);
    if listing != [] {
      LinkedLog(ts[j], n, hash, listing[0]);
    }
    ReplacedLog(ts[j], hash);
  }

  lemma OldPairAgrees(l: Transfers.TransferLog, m: Transfers.TransferLog, r: Rows.ChainRow, q: Rows.ChainRow,
                      n: Intents.Intent, hash: string, listing: seq<string>)
    requires LogAgrees(l, r) && LogBecomes(l, m, n, hash, listing) && r.txHash != hash
    requires l.id == n.transferLogId ==> l.txHash == Some(hash)
    requires q == if r.txHash in listing then r.(status := Replaced, replacedByTxHash := Some(hash)) else r
    ensures LogAgrees(m, q)
  {
  }

  lemma NewPairAgreesIff(l: Transfers.TransferLog, m: Transfers.TransferLog, tx: Rows.NewTransaction, n: Intents.Intent,
                         listing: seq<string>)
    requires LogBecomes(l, m, n, tx.txHash, listing) && tx.txHash !in listing && tx.status == Submitted
    requires l.id == n.transferLogId ==> l.txHash == Some(tx.txHash) && l.status == Chain(Submitted) && Blank(l)
    ensures LogAgrees(m, Rows.NewRow(tx, listing)) <==>
              (l.txHash == Some(tx.txHash) && l.id != n.transferLogId ==> SaysSubmitted(l, listing))
  {
  }

  lemma RecordLogsIff(t: Stores, k: nat, hash: string, at: int, listing: seq<string>)
    requires k < |t.intents| && Agree(t) && LogsOwned(t.transfers) && Outgoing(t, k, hash) && CleanHash(hash)
    requires var tx := Rows.Normalized(TransactionOf(t.intents[k], hash, at));
             Rows.UniqueRows(t.rows) && Rows.Lists(listing, t.rows, tx) && Rows.Record(t.rows, tx, listing).Ok?
    ensures LogsAgree(RecordSent(t, k, hash, at, listing).rows, RecordSent(t, k, hash, at, listing).transfers) <==>
              forall j :: 0 <= j < |t.transfers| && OtherLog(t, k, hash, j) ==> SaysSubmitted(t.transfers[j], listing)
  {
    hide LogsAfterRecord, RecordSent, Rows.Record, Rows.Lists, IntentsAgree, Tracked, Rows.UniqueRows;
    hide LogAgrees, LogBecomes, Rows.IsReplaced, LogsOwned, SaysSubmitted;
    var n, last := t.intents[k], |t.rows|;
    var tx := Rows.Normalized(TransactionOf(n, hash, at));
    var u := RecordSent(t, k, hash, at, listing);
    NormalizedParts(n, hash, at);
    RecordSentParts(t, k, hash, at, listing);
    Rows.RecordRows(t.rows, tx, listing);
    ListedHashes(t.rows, tx, listing);
    var some :| 0 <= some < |t.transfers| && t.transfers[some].txHash == Some(hash);
    LogAfterRecord(t.transfers, n, hash, listing, some);
    forall j | 0 <= j < |t.transfers|
      ensures LogAgrees(u.transfers[j], u.rows[last]) <==>
                (OtherLog(t, k, hash, j) ==> SaysSubmitted(t.transfers[j], listing))
    {
      LogAfterRecord(t.transfers, n, hash, listing, j);
      NewPairAgreesIff(t.transfers[j], u.transfers[j], tx, n, listing);
    }
    forall j, i | 0 <= j < |u.transfers| && 0 <= i < last ensures LogAgrees(u.transfers[j], u.rows[i]) {
      LogAfterRecord(t.transfers, n, hash, listing, j);
      ListedIff(t.rows, tx, listing, i);
      assert LogAgrees(t.transfers[j], t.rows[i]);
      OldPairAgrees(t.transfers[j], u.transfers[j], t.rows[i], u.rows[i], n, hash, listing);
    }
  }

  lemma NormalizedParts(n: Intents.Intent, hash: string, at: int)
    ensures Rows.Normalized(TransactionOf(n, hash, at)).status == Submitted
    ensures CleanHash(hash) ==> Rows.Normalized(TransactionOf(n, hash, at)).txHash == hash
  {
  }

  lemma ListedHashes(rows: seq<Rows.ChainRow>, t: Rows.NewTransaction, listing: seq<string>)
    requires CleanRows(rows) && Rows.Lists(listing, rows, t)
    ensures t.txHash !in listing
    ensures forall i :: 0 <= i < |listing| ==> CleanHash(listing[i])
    ensures forall h :: h in listing ==> exists i :: 0 <= i < |rows| && rows[i].txHash == h
    ensures CleanHashes(listing) == listing
  {
    assert forall h :: h in listing ==> h != t.txHash && CleanHash(h);
    CleanHashesUnchanged(listing);
  }

  lemma RecordIntentsIff(t: Stores, k: nat, hash: string, at: int, listing: seq<string>)
    requires k < |t.intents| && Agree(t) && Outgoing(t, k, hash) && CleanHash(hash)
    requires var tx := Rows.Normalized(TransactionOf(t.intents[k], hash, at));
             Rows.UniqueRows(t.rows) && Rows.Lists(listing, t.rows, tx) && Rows.Record(t.rows, tx, listing).Ok?
    ensures IntentsAgree(RecordSent(t, k, hash, at, listing).rows, RecordSent(t, k, hash, at, listing).intents) <==>
              forall j :: 0 <= j < |t.intents| && t.intents[j].txHash == Some(hash) ==>
                IntentSaysSubmitted(t.intents[j])
  {
    hide LogsAfterRecord, RecordSent, Rows.Record, Rows.Lists, LogsAgree, Tracked, Rows.UniqueRows;
    var tx := Rows.Normalized(TransactionOf(t.intents[k], hash, at));
    NormalizedParts(t.intents[k], hash, at);
    var u, last := RecordSent(t, k, hash, at, listing), |t.rows|;
    RecordSentParts(t, k, hash, at, listing);
    Rows.RecordRows(t.rows, tx, listing);
    forall j | 0 <= j < |u.intents|
      ensures IntentAgrees(u.intents[j], u.rows[last]) <==>
                (t.intents[j].txHash == Some(hash) ==> IntentSaysSubmitted(t.intents[j]))
    {
    }
    forall j, i | 0 <= j < |u.intents| && 0 <= i < last ensures IntentAgrees(u.intents[j], u.rows[i]) {
      assert IntentAgrees(t.intents[j], t.rows[i]);
    }
  }

  lemma RecordHolders(t: Stores, k: nat, hash: string, at: int, listing: seq<string>)
    requires k < |t.intents| && CleanRows(t.rows) && LogsOwned(t.transfers) && Outgoing(t, k, hash) && CleanHash(hash)
    requires var tx := Rows.Normalized(TransactionOf(t.intents[k], hash, at));
             Rows.Lists(listing, t.rows, tx) && Rows.Record(t.rows, tx, listing).Ok?
    ensures SameHolders(t, RecordSent(t, k, hash, at, listing))
    ensures RecordSent(t, k, hash, at, listing).intents == t.intents
  {
    hide LogsAfterRecord, RecordSent, Rows.Record, Rows.Lists;
    var tx := Rows.Normalized(TransactionOf(t.intents[k], hash, at));
    assert tx.txHash == hash;
    var u := RecordSent(t, k, hash, at, listing);
    RecordSentParts(t, k, hash, at, listing);
    ListedHashes(t.rows, tx, listing);
    var a :| 0 <= a < |t.transfers| && t.transfers[a].txHash == Some(hash);
    LogAfterRecord(t.transfers, t.intents[k], hash, listing, a);
    forall j | 0 <= j < |t.transfers|
      ensures u.transfers[j].id == t.transfers[j].id && u.transfers[j].txHash == t.transfers[j].txHash
              && (t.transfers[j].txHash.None? ==> u.transfers[j] == t.transfers[j])
    {
      LogAfterRecord(t.transfers, t.intents[k], hash, listing, j);
    }
  }

  lemma RecordKeepsTracked(t: Stores, k: nat, hash: string, at: int, listing: seq<string>)
    requires k < |t.intents| && Tracked(t) && Outgoing(t, k, hash) && CleanHash(hash) && Rows.UniqueRows(t.rows)
    requires var tx := Rows.Normalized(TransactionOf(t.intents[k], hash, at));
             Rows.Lists(listing, t.rows, tx) && Rows.Record(t.rows, tx, listing).Ok?
    requires SameHolders(t, RecordSent(t, k, hash, at, listing)) && CleanRows(t.rows)
    ensures Tracked(RecordSent(t, k, hash, at, listing)) && CleanRows(RecordSent(t, k, hash, at, listing).rows)
  {
    hide LogsAfterRecord, RecordSent, Rows.Record, Rows.Lists, SameHolders, HasLog, HasIntent;
    var tx := Rows.Normalized(TransactionOf(t.intents[k], hash, at));
    assert tx.txHash == hash;
    var u := RecordSent(t, k, hash, at, listing);
    RecordSentParts(t, k, hash, at, listing);
    Rows.RecordRows(t.rows, tx, listing);
    forall i | 0 <= i < |u.rows|
      ensures HasLog(u.transfers, u.rows[i].txHash) && HasIntent(u.intents, u.rows[i].txHash)
    {
      SameHoldersTrack(t, u, u.rows[i].txHash);
    }
  }

  /**
   Recording a sent transaction, with everything it replaces, keeps rows, logs and intents in agreement exactly when
   whatever else the stores hold under its hash says submitted too.
   */
  lemma RecordAgreesIff(t: Stores, k: nat, hash: string, at: int, listing: seq<string>)
    requires k < |t.intents| && Agree(t) && LogsOwned(t.transfers) && Outgoing(t, k, hash) && CleanHash(hash)
    requires var tx := Rows.Normalized(TransactionOf(t.intents[k], hash, at));
             Rows.UniqueRows(t.rows) && Rows.Lists(listing, t.rows, tx) && Rows.Record(t.rows, tx, listing).Ok?
    ensures Agree(RecordSent(t, k, hash, at, listing)) <==> OthersMatch(t, k, hash, listing)
    ensures SameHolders(t, RecordSent(t, k, hash, at, listing))
  {
    hide RecordSent, Rows.Record, Rows.Lists, Outgoing, SameHolders, LogsAgree, IntentsAgree, Tracked, SaysSubmitted;
    hide Rows.UniqueRows, CleanRows, LogsOwned, Rows.Normalized, TransactionOf;
    RecordLogsIff(t, k, hash, at, listing);
    RecordIntentsIff(t, k, hash, at, listing);
    RecordHolders(t, k, hash, at, listing);
    RecordKeepsTracked(t, k, hash, at, listing);
  }

  lemma RecordKeepsAgreement(t: Stores, k: nat, hash: string, at: int, listing: seq<string>)
    requires k < |t.intents| && Agree(t) && Owned(t) && Outgoing(t, k, hash) && CleanHash(hash) && Rows.UniqueRows(t.rows)
    requires Rows.Lists(listing, t.rows, Rows.Normalized(TransactionOf(t.intents[k], hash, at)))
    requires OthersMatch(t, k, hash, listing)
    ensures Agree(RecordSent(t, k, hash, at, listing)) && Owned(RecordSent(t, k, hash, at, listing))
  {
    hide RecordSent, Rows.Record, Rows.Lists, Outgoing, OthersMatch, Agree, Rows.UniqueRows, Rows.Normalized;
    hide TransactionOf, LogsOwned, IntentsOwn, OneHolder, Ready, SameHolders;
    RecordSentParts(t, k, hash, at, listing);
    if Rows.Record(t.rows, Rows.Normalized(TransactionOf(t.intents[k], hash, at)), listing).Ok? {
      RecordAgreesIff(t, k, hash, at, listing);
      SameHoldersKeepOwned(t, RecordSent(t, k, hash, at, listing));
    }
  }

  /** A new row and the rows it replaces keep the chain data current: their block fields do not move. */
  lemma RecordKeepsChainData(s: Stores, u: Stores, tx: Rows.NewTransaction, listing: seq<string>)
    requires ChainData(s) && Rows.ReplacementInv(s.rows) && Rows.Lists(listing, s.rows, tx)
    requires Rows.Record(s.rows, tx, listing) == Ok(u.rows) && tx.status == Submitted
    requires u.index == s.index && u.logs == s.logs && u.tokens == s.tokens
    ensures ChainData(u) && Rows.ReplacementInv(u.rows) && Rows.RowsGrow(s.rows, u.rows)
  {
    hide Rows.Record, Rows.Lists, Rows.ReplacementInv, Current, IndexedAs, Shape, Rows.RowsGrow;
    Rows.RecordKeepsLinks(s.rows, tx, listing);
    LinkedRowsAreUnique(u.rows);
    Rows.RecordRows(s.rows, tx, listing);
    BlocksCarryOver(s.rows, u.rows);
    forall i | 0 <= i < |u.rows| ensures Shape(u.rows[i]) {
      if i < |s.rows| {
        ReplacedShape(s.rows[i], tx.txHash);
      } else {
        NewShape(tx, listing);
      }
    }
  }

  lemma ReplacedShape(r: Rows.ChainRow, hash: string)
    requires Shape(r)
    ensures Shape(r.(status := Replaced, replacedByTxHash := Some(hash)))
  {
  }

  lemma NewShape(tx: Rows.NewTransaction, listing: seq<string>)
    requires tx.status == Submitted
    ensures Shape(Rows.NewRow(tx, listing))
  {
  }

  lemma BlocksCarryOver(rows: seq<Rows.ChainRow>, after: seq<Rows.ChainRow>)
    requires |rows| <= |after|
    requires forall i :: 0 <= i < |rows| ==>
               && after[i].networkId == rows[i].networkId && after[i].txHash == rows[i].txHash
               && after[i].block == rows[i].block && (after[i].status == rows[i].status || after[i].status.Replaced?)
    ensures forall key, hash :: Current(rows, key, hash) ==> Current(after, key, hash)
    ensures forall key, x :: IndexedAs(rows, key, x) ==> IndexedAs(after, key, x)
  {
  }

  lemma LinkedRowsAreUnique(rows: seq<Rows.ChainRow>)
    requires Rows.ReplacementInv(rows)
    ensures Rows.UniqueRows(rows)
  {
  }

  // ---------- Every step, every run ----------

  /** What later states keep: rows and their links, reservations and their nonces, counters. */
  ghost predicate Later(s: Stores, t: Stores)
  {
    Rows.RowsGrow(s.rows, t.rows) && Nonces.Grows(s.nonces, t.nonces)
  }

  lemma FailureKeepsInv(s: Stores, k: nat, o: Outcome, listing: seq<string>)
    requires Inv(s) && k < |s.intents| && s.intents[k].status.Approved? && !Succeeds(o)
    ensures Inv(Process(s, k, o, listing)) && Later(s, Process(s, k, o, listing))
  {
    hide Agree, Owned, Nonces.Inv, Nonces.Grows, Rows.ReplacementInv, ChainData;
    var t := Process(s, k, o, listing);
    FailureSettles(s, k, o, listing);
    SettlesKeepsAgree(s, t, k, None);
    SettlesKeepsOwned(s, t, k, None);
    FailureNonces(s, k, o, listing);
    SameChainData(s, t);
  }

  lemma FailureNonces(s: Stores, k: nat, o: Outcome, listing: seq<string>)
    requires Nonces.Inv(s.nonces) && k < |s.intents| && !Succeeds(o)
    ensures Nonces.Inv(Process(s, k, o, listing).nonces) && Nonces.Grows(s.nonces, Process(s, k, o, listing).nonces)
  {
    hide Nonces.Inv, Nonces.Apply;
    var id := s.intents[k].reservationId;
    Nonces.StepKeepsInv(s.nonces, Nonces.Release(id));
    Nonces.StepKeepsInv(s.nonces, Nonces.MarkFailed(id));
    Nonces.RunIsSafe(s.nonces, []);
  }

  lemma SameChainData(s: Stores, t: Stores)
    requires ChainData(s) && t.rows == s.rows && t.index == s.index && t.logs == s.logs && t.tokens == s.tokens
    ensures ChainData(t)
  {
  }

  lemma SuccessKeepsInv(s: Stores, k: nat, o: Outcome, listing: seq<string>)
    requires Inv(s) && Enabled(s, Work(k, o, listing)) && Succeeds(o)
    ensures Inv(Process(s, k, o, listing)) && Later(s, Process(s, k, o, listing))
  {
    hide Agree, Owned, Nonces.Inv, Nonces.Grows, Rows.ReplacementInv, ChainData, Submit, RecordSent, Rows.Lists;
    hide Settles, Outgoing, OthersMatch, Rows.RowsGrow, FreshHash, Rows.Normalized, SubmittedHash;
    var hash := SubmittedHash(o).value;
    var t := Submit(s, k, hash);
    HashIsClean(s, hash);
    SubmitSettles(s, k, hash);
    SubmitGoesOut(s, k, hash, listing);
    FreshHashIsAlone(s, k, hash, listing);
    SettlesKeepsAgree(s, t, k, Some(hash));
    assert !HasReservation(s.nonces.reservations, hash) by { HashIsClean(s, hash); }
    SettlesKeepsOwned(s, t, k, Some(hash));
    SubmitKeepsRest(s, k, hash, o.at);
    if !o.recordFails {
      RecordKeepsAgreement(t, k, hash, o.at, listing);
      RecordKeepsRest(t, k, hash, o.at, listing);
      NoncesGrowTwice(s.nonces, t.nonces, Process(s, k, o, listing).nonces);
    }
  }

  lemma HashIsClean(s: Stores, hash: string)
    requires FreshHash(s, hash)
    ensures CleanHash(hash) && !HasReservation(s.nonces.reservations, hash)
    ensures forall i :: 0 <= i < |s.rows| ==> s.rows[i].txHash != hash
  {
  }

  lemma SubmitKeepsRest(s: Stores, k: nat, hash: string, at: int)
    requires k < |s.intents| && ChainData(s) && Nonces.Inv(s.nonces)
    ensures var t := Submit(s, k, hash);
            && t.rows == s.rows && ChainData(t) && Rows.UniqueRows(t.rows) && |t.intents| == |s.intents|
            && Nonces.Inv(t.nonces) && Nonces.Grows(s.nonces, t.nonces) && Rows.RowsGrow(s.rows, t.rows)
            && TransactionOf(t.intents[k], hash, at) == TransactionOf(s.intents[k], hash, at)
  {
    hide Nonces.Inv, Nonces.Apply, Transfers.UpdateById, Nonces.Grows;
    Nonces.StepKeepsInv(s.nonces, Nonces.MarkSubmitted(s.intents[k].reservationId, hash));
    SameChainData(s, Submit(s, k, hash));
  }

  lemma RecordKeepsRest(t: Stores, k: nat, hash: string, at: int, listing: seq<string>)
    requires k < |t.intents| && ChainData(t) && Nonces.Inv(t.nonces) && Rows.ReplacementInv(t.rows)
    requires Rows.Lists(listing, t.rows, Rows.Normalized(TransactionOf(t.intents[k], hash, at)))
    ensures var u := RecordSent(t, k, hash, at, listing);
            && ChainData(u) && Rows.ReplacementInv(u.rows) && Rows.RowsGrow(t.rows, u.rows)
            && Nonces.Inv(u.nonces) && Nonces.Grows(t.nonces, u.nonces)
  {
    hide Nonces.Inv, Nonces.Apply, Nonces.Grows, ChainData;
    hide Rows.ReplacementInv, Rows.Lists, LogsAfterRecord, RecordSent;
    hide Rows.Record, Rows.Normalized, TransactionOf;
    RecordSentParts(t, k, hash, at, listing);
    var tx := Rows.Normalized(TransactionOf(t.intents[k], hash, at));
    Nonces.StepKeepsInv(t.nonces, Nonces.MarkByHashes(listing, Nonces.Failed));
    Nonces.RunIsSafe(t.nonces, []);
    if Rows.Record(t.rows, tx, listing).Ok? {
      NormalizedParts(t.intents[k], hash, at);
      RecordKeepsChainData(t, RecordSent(t, k, hash, at, listing), tx, listing);
    }
  }

  lemma SyncKeepsInv(s: Stores, i: nat, v: NodeView)
    requires Inv(s) && Enabled(s, Sync(i, v))
    ensures Inv(AfterSync(s, i, v)) && Later(s, AfterSync(s, i, v))
  {
    hide Agree, Owned, Nonces.Inv, Nonces.Grows, Rows.ReplacementInv, ChainData, AfterSync;
    SyncKeepsChainData(s, i, v);
    SyncKeepsAgreement(s, i, v);
    SyncIsSetRows(s, i, v);
  }

  /** Seen from rows and nonces a sync is a sequence of status changes of one row, none of them to replaced. */
  lemma SyncIsSetRows(s: Stores, i: nat, v: NodeView)
    requires i < |s.rows| && IsSyncable(s.rows[i].status) && Rows.ReplacementInv(s.rows) && Nonces.Inv(s.nonces)
    ensures Rows.ReplacementInv(AfterSync(s, i, v).rows) && Rows.RowsGrow(s.rows, AfterSync(s, i, v).rows)
    ensures Nonces.Inv(AfterSync(s, i, v).nonces) && Nonces.Grows(s.nonces, AfterSync(s, i, v).nonces)
  {
    hide Nonces.Inv, Nonces.Grows, Rows.ReplacementInv, SetStatus, Rows.RowsGrow;
    var block := s.rows[i].block.(confirmations := 0);
    var back := Transfers.NO_CHANGE.(status := Some(Chain(Submitted)), confirmations := Transfers.Set(0));
    SetStatusGrows(s, i, Reorged, NO_BLOCK, Transfers.StatusAndBlock(Reorged, NO_BLOCK));
    SetStatusGrows(s, i, Dropped, NO_BLOCK, Transfers.StatusAndBlock(Dropped, NO_BLOCK));
    SetStatusGrows(s, i, Submitted, block, back);
    SetStatusGrows(Withdraw(s, i, Reorged), i, Dropped, NO_BLOCK, Transfers.StatusAndBlock(Dropped, NO_BLOCK));
    RowsGrowTwice(s.rows, Withdraw(s, i, Reorged).rows, Withdraw(Withdraw(s, i, Reorged), i, Dropped).rows);
    NoncesGrowTwice(s.nonces, Withdraw(s, i, Reorged).nonces, Withdraw(Withdraw(s, i, Reorged), i, Dropped).nonces);
    Nonces.RunIsSafe(s.nonces, []);
    RowsGrowSame(s.rows);
    if v.receipt.Some? {
      var r := v.receipt.value;
      ReceiptBlockHash(r, v);
      var status := ReceiptStatus(r, v.currentBlock).0;
      SetStatusGrows(s, i, status, ReceiptBlock(r, v), Transfers.StatusAndBlock(status, ReceiptBlock(r, v)));
    }
  }

  lemma SetStatusGrows(s: Stores, i: nat, status: Status, block: BlockFields, u: Transfers.TransferUpdate)
    requires i < |s.rows| && !s.rows[i].status.Replaced? && !status.Replaced?
    requires Rows.ReplacementInv(s.rows) && Nonces.Inv(s.nonces)
    ensures var t := SetStatus(s, i, status, block, u);
            && |t.rows| == |s.rows| && t.rows[i].status == status
            && Rows.ReplacementInv(t.rows) && Rows.RowsGrow(s.rows, t.rows)
            && Nonces.Inv(t.nonces) && Nonces.Grows(s.nonces, t.nonces)
  {
    hide Nonces.Inv, Nonces.Grows, Rows.ReplacementInv, Nonces.Apply;
    hide Rows.RowsGrow, IntentsByHash, Transfers.UpdateByHashes;
    Rows.SetRowKeepsLinks(s.rows, i, status, block);
    Nonces.StepKeepsInv(s.nonces, Nonces.MarkByHashes([s.rows[i].txHash], ReservationStatus(status)));
  }

  lemma RowsGrowSame(rows: seq<Rows.ChainRow>)
    ensures Rows.RowsGrow(rows, rows)
  {
  }

  lemma RowsGrowTwice(a: seq<Rows.ChainRow>, b: seq<Rows.ChainRow>, c: seq<Rows.ChainRow>)
    requires Rows.RowsGrow(a, b) && Rows.RowsGrow(b, c)
    ensures Rows.RowsGrow(a, c)
  {
  }

  lemma NoncesGrowTwice(a: Nonces.NonceState, b: Nonces.NonceState, c: Nonces.NonceState)
    requires Nonces.Grows(a, b) && Nonces.Grows(b, c)
    ensures Nonces.Grows(a, c)
  {
  }

  /** Every step keeps the invariant, every row with its links, and every reservation with its nonce. */
  lemma StepKeepsInv(s: Stores, step: Step)
    requires Inv(s) && Enabled(s, step)
    ensures Inv(Apply(s, step)) && Later(s, Apply(s, step))
  {
    hide Agree, Owned, Nonces.Inv, Nonces.Grows, Rows.ReplacementInv;
    hide ChainData, AfterSync, Process, AfterSend, AfterClaim;
    match step
    case Send(e) =>
      SendKeepsAgreement(s, e);
      SendKeepsNonces(s, e);
      SendKeepsChain(s, e);
    case Claim =>
      ClaimKeepsAgreement(s);
      ClaimKeepsChain(s);
    case Work(k, o, listing) =>
      if Succeeds(o) {
        SuccessKeepsInv(s, k, o, listing);
      } else {
        FailureKeepsInv(s, k, o, listing);
      }
    case Sync(i, v) => SyncKeepsInv(s, i, v);
  }

  lemma SendKeepsChain(s: Stores, e: SendRequest)
    requires ChainData(s)
    ensures ChainData(AfterSend(s, e)) && AfterSend(s, e).rows == s.rows && Rows.RowsGrow(s.rows, s.rows)
  {
    hide ChainData, Nonces.ReserveOn, Nonces.Apply;
    SameChainData(s, AfterSend(s, e));
  }

  lemma ClaimKeepsChain(s: Stores)
    requires ChainData(s) && Nonces.Inv(s.nonces)
    ensures var t := AfterClaim(s);
            ChainData(t) && t.rows == s.rows && t.nonces == s.nonces && Rows.RowsGrow(s.rows, s.rows)
            && Nonces.Grows(s.nonces, s.nonces)
  {
  }

  ghost predicate EnabledRun(s: Stores, steps: seq<Step>)
    decreases |steps|
  {
    steps == [] || (Enabled(s, steps[0]) && EnabledRun(Apply(s, steps[0]), steps[1..]))
  }

  function Run(s: Stores, steps: seq<Step>): Stores
    requires EnabledRun(s, steps)
    decreases |steps|
  {
    if steps == [] then s else Run(Apply(s, steps[0]), steps[1..])
  }

  /**
   In every run, however requests, claims, failures, broadcasts, replacements, reorgs and drops interleave and action
   ids repeat: row, log and intent agree on every recorded transaction, no data of an abandoned block survives,
   replacement links stay in order, and nonces stay distinct.
   */
  lemma {:induction false} RunKeepsInv(s: Stores, steps: seq<Step>)
    requires Inv(s) && EnabledRun(s, steps)
    ensures Inv(Run(s, steps)) && Later(s, Run(s, steps))
    decreases |steps|
  {
    hide Inv, Apply, Enabled;
    if steps == [] {
      RowsGrowSame(s.rows);
      NoncesGrowSame(s.nonces);
    } else {
      var t := Apply(s, steps[0]);
      StepKeepsInv(s, steps[0]);
      RunKeepsInv(t, steps[1..]);
      RowsGrowTwice(s.rows, t.rows, Run(s, steps).rows);
      NoncesGrowTwice(s.nonces, t.nonces, Run(s, steps).nonces);
    }
  }

  lemma NoncesGrowSame(a: Nonces.NonceState)
    ensures Nonces.Grows(a, a)
  {
  }

  lemma StartsConsistent(steps: seq<Step>)
    requires EnabledRun(EMPTY, steps)
    ensures Inv(Run(EMPTY, steps))
  {
    RunKeepsInv(EMPTY, steps);
  }

  // ---------- The same transaction sent again ----------

  /** What goes out under a recorded hash is refused by the rows, so only reservation, intent and log take it. */
  lemma ResentIsNotRecorded(s: Stores, k: nat, o: Outcome, listing: seq<string>, i: nat)
    requires CleanRows(s.rows) && k < |s.intents| && Succeeds(o)
    requires i < |s.rows| && SubmittedHash(o) == Some(s.rows[i].txHash) && s.rows[i].networkId == s.intents[k].networkId
    ensures Process(s, k, o, listing) == Submit(s, k, s.rows[i].txHash)
  {
    hide Submit, RecordSent;
    var hash, t := s.rows[i].txHash, Submit(s, k, s.rows[i].txHash);
    SubmitLeavesRows(s, k, hash);
    RecordSentParts(t, k, hash, o.at, listing);
    NormalizedParts(t.intents[k], hash, o.at);
    assert Rows.SameKey(t.rows[i], s.intents[k].networkId, hash);
  }

  lemma SubmitLeavesRows(s: Stores, k: nat, hash: string)
    requires k < |s.intents|
    ensures var t := Submit(s, k, hash);
            t.rows == s.rows && |t.intents| == |s.intents| && t.intents[k].networkId == s.intents[k].networkId
  {
  }

  lemma ResentKeepsPairs(s: Stores, k: nat, i: nat)
    requires Agree(s) && Owned(s) && Nonces.Inv(s.nonces) && k < |s.intents| && Pending(s.intents[k]) && i < |s.rows|
    requires s.rows[i].status == Submitted && s.rows[i].block == NO_BLOCK
    requires s.rows[i].replacesTxHash.None? && s.rows[i].replacedByTxHash.None?
    ensures var t := Submit(s, k, s.rows[i].txHash);
            LogsAgree(t.rows, t.transfers) && IntentsAgree(t.rows, t.intents)
  {
    hide Owned, Nonces.Inv, Submit;
    var hash := s.rows[i].txHash;
    var t := Submit(s, k, hash);
    SubmitSettles(s, k, hash);
    ClaimedHoldsUnsent(s, k);
    var a :| 0 <= a < |s.transfers| && s.transfers[a].id == s.intents[k].transferLogId;
    forall j, m | 0 <= j < |t.transfers| && 0 <= m < |t.rows| ensures LogAgrees(t.transfers[j], t.rows[m]) {
      if s.transfers[j].id == s.intents[k].transferLogId {
        SubmittedLog(s, k, hash, j);
      } else {
        assert LogAgrees(s.transfers[j], s.rows[m]);
      }
    }
    SubmittedLog(s, k, hash, a);
    forall j, m | 0 <= j < |t.intents| && 0 <= m < |t.rows| ensures IntentAgrees(t.intents[j], t.rows[m]) {
      if j != k { assert IntentAgrees(s.intents[j], s.rows[m]); }
    }
  }

  /**
   The node may take a transaction again that it gave up, and return the hash it had. The stores stay in agreement
   exactly when its row still says submitted and replaced nothing: log and intent of the new attempt say just that.
   */
  lemma ResentAgreesIff(s: Stores, k: nat, o: Outcome, listing: seq<string>, i: nat)
    requires Inv(s) && k < |s.intents| && s.intents[k].status.Approved? && Succeeds(o)
    requires i < |s.rows| && SubmittedHash(o) == Some(s.rows[i].txHash) && s.rows[i].networkId == s.intents[k].networkId
    ensures Agree(Process(s, k, o, listing)) <==> s.rows[i].status == Submitted && s.rows[i].replacesTxHash.None?
  {
    hide Owned, Nonces.Inv, Rows.UniqueRows, Rows.BackLink, Submit, Process;
    var hash, row := s.rows[i].txHash, s.rows[i];
    var t := Submit(s, k, hash);
    ResentIsNotRecorded(s, k, o, listing, i);
    SubmitSettles(s, k, hash);
    ClaimedHoldsUnsent(s, k);
    var a :| 0 <= a < |s.transfers| && s.transfers[a].id == s.intents[k].transferLogId;
    SubmittedLog(s, k, hash, a);
    assert LogAgrees(t.transfers[a], t.rows[i]) <==> row.status == Submitted && row.replacesTxHash.None? by {
      assert Shape(row) && Rows.ForwardLink(s.rows, i);
    }
    if row.status == Submitted && row.replacesTxHash.None? {
      SettlesKeepsTracked(s, t, k, Some(hash));
      ResentKeepsPairs(s, k, i);
    }
  }

  /**
   A log, an intent or a reservation may know the hash when an earlier broadcast of the transaction was not recorded.
   Sent again, and recorded this time, the stores stay in agreement exactly when whatever knows the hash says submitted
   and names the replaced transaction the new row names; when recording fails again nothing is at odds.
   */
  lemma UnrecordedAgreesIff(s: Stores, k: nat, o: Outcome, listing: seq<string>)
    requires Inv(s) && k < |s.intents| && s.intents[k].status.Approved? && Succeeds(o)
    requires CleanHash(SubmittedHash(o).value)
    requires forall i :: 0 <= i < |s.rows| ==> s.rows[i].txHash != SubmittedHash(o).value
    requires Rows.Lists(listing, s.rows, Rows.Normalized(TransactionOf(s.intents[k], SubmittedHash(o).value, o.at)))
    ensures Agree(Process(s, k, o, listing)) <==> o.recordFails || OthersMatch(s, k, SubmittedHash(o).value, listing)
  {
    hide Agree, Owned, Nonces.Inv, Rows.ReplacementInv, ChainData, Submit, RecordSent, Rows.Lists, Rows.Record;
    hide Settles, Outgoing, OthersMatch, Rows.Normalized, SubmittedHash;
    var hash := SubmittedHash(o).value;
    SubmitSettles(s, k, hash);
    SubmitGoesOut(s, k, hash, listing);
    SettlesKeepsAgree(s, Submit(s, k, hash), k, Some(hash));
    if !o.recordFails {
      var t := Submit(s, k, hash);
      SubmitKeepsRest(s, k, hash, o.at);
      NormalizedParts(t.intents[k], hash, o.at);
      SettledLogsAreOwned(s, t, k, Some(hash));
      NewHashIsRecorded(s.rows, Rows.Normalized(TransactionOf(s.intents[k], hash, o.at)), listing);
      RecordAgreesIff(t, k, hash, o.at, listing);
    }
  }

  lemma SettledLogsAreOwned(s: Stores, t: Stores, k: nat, hash: Option<string>)
    requires Owned(s) && k < |s.intents| && Settles(s, t, k, hash)
    ensures LogsOwned(t.transfers)
  {
  }

  lemma NewHashIsRecorded(rows: seq<Rows.ChainRow>, tx: Rows.NewTransaction, listing: seq<string>)
    requires forall i :: 0 <= i < |rows| ==> rows[i].txHash != tx.txHash
    ensures Rows.Record(rows, tx, listing).Ok?
  {
  }

  // ---------- What failures leave, and what is spent ----------

  lemma SubmittedReservation(s: Stores, k: nat, hash: string, j: nat)
    requires k < |s.intents| && CleanHash(hash)
    requires j < |s.nonces.reservations| && s.nonces.reservations[j].id == s.intents[k].reservationId
    ensures var xs := Submit(s, k, hash).nonces.reservations;
            && |xs| == |s.nonces.reservations|
            && xs[j] == s.nonces.reservations[j].(status := Nonces.Submitted, txHash := Some(hash))
  {
    Nonces.MarksWrite(s.nonces, Nonces.MarkSubmitted(s.intents[k].reservationId, hash), j);
  }

  /** The reservation of what was sent is not among those of the replaced hashes. */
  lemma RecordedReservation(t: Stores, k: nat, hash: string, at: int, listing: seq<string>, j: nat)
    requires k < |t.intents| && j < |t.nonces.reservations| && t.nonces.reservations[j].txHash == Some(hash)
    requires CleanRows(t.rows) && CleanHash(hash)
    requires Rows.Lists(listing, t.rows, Rows.Normalized(TransactionOf(t.intents[k], hash, at)))
    ensures var xs := RecordSent(t, k, hash, at, listing).nonces.reservations;
            |xs| == |t.nonces.reservations| && xs[j] == t.nonces.reservations[j]
  {
    hide RecordSent, Rows.Record, Rows.Lists, Nonces.Apply, LogsAfterRecord;
    RecordSentParts(t, k, hash, at, listing);
    NormalizedParts(t.intents[k], hash, at);
    ListedHashes(t.rows, Rows.Normalized(TransactionOf(t.intents[k], hash, at)), listing);
    Nonces.MarksWrite(t.nonces, Nonces.MarkByHashes(listing, Nonces.Failed), j);
  }

  /**
   After a broadcast that was recorded, reservation, intent and log say submitted under the hash: the one the node
   returned, or the derived one if it returned none.
   */
  lemma SuccessFate(s: Stores, k: nat, o: Outcome, listing: seq<string>, i: nat, j: nat)
    requires Inv(s) && Enabled(s, Work(k, o, listing)) && Succeeds(o) && !o.recordFails
    requires i < |s.transfers| && s.transfers[i].id == s.intents[k].transferLogId
    requires j < |s.nonces.reservations| && s.nonces.reservations[j].id == s.intents[k].reservationId
    ensures var t, hash := Process(s, k, o, listing), if o.returned != "" then Some(o.returned) else o.derived;
            && |t.intents| == |s.intents| && |t.transfers| == |s.transfers|
            && |t.nonces.reservations| == |s.nonces.reservations|
            && (t.intents[k].status, t.intents[k].txHash, t.intents[k].errorCode) == (Intents.SubmittedIntent, hash, None)
            && (t.nonces.reservations[j].status, t.nonces.reservations[j].txHash) == (Nonces.Submitted, hash)
            && (t.transfers[i].status, t.transfers[i].txHash) == (Chain(Submitted), hash)
            && t.transfers[i].nonce == NormalizeNullable(s.intents[k].nonce)
  {
    hide Agree, Owned, Nonces.Inv, Rows.ReplacementInv, ChainData, Submit, RecordSent, Rows.Lists, Settles, Outgoing;
    hide FreshHash, Rows.Normalized, Text.Trim;
    var hash, t := SubmittedHash(o).value, Submit(s, k, SubmittedHash(o).value);
    HashIsClean(s, hash);
    SubmitKeepsRest(s, k, hash, o.at);
    SentLog(s, k, hash, o.at, listing, i);
    SubmittedReservation(s, k, hash, j);
    RecordedReservation(t, k, hash, o.at, listing, j) by { RowsAreClean(s); }
  }

  /** The log of what was sent, and its intent, once the row is recorded. */
  lemma SentLog(s: Stores, k: nat, hash: string, at: int, listing: seq<string>, i: nat)
    requires Inv(s) && k < |s.intents| && Pending(s.intents[k]) && FreshHash(s, hash)
    requires Rows.Lists(listing, s.rows, Rows.Normalized(TransactionOf(s.intents[k], hash, at)))
    requires i < |s.transfers| && s.transfers[i].id == s.intents[k].transferLogId
    ensures |Submit(s, k, hash).intents| == |s.intents|
    ensures var u := RecordSent(Submit(s, k, hash), k, hash, at, listing);
            && |u.intents| == |s.intents| && |u.transfers| == |s.transfers|
            && (u.intents[k].status, u.intents[k].txHash, u.intents[k].errorCode) ==
                 (Intents.SubmittedIntent, Some(hash), None)
            && (u.transfers[i].status, u.transfers[i].txHash, u.transfers[i].nonce) ==
                 (Chain(Submitted), Some(hash), NormalizeNullable(s.intents[k].nonce))
  {
    hide Agree, Owned, Nonces.Inv, ChainData, Rows.ReplacementInv, Submit, RecordSent, Rows.Lists, FreshHash;
    hide Rows.Normalized, LogsAfterRecord, TransactionOf;
    var t := Submit(s, k, hash);
    HashIsClean(s, hash);
    SubmitGoesOut(s, k, hash, listing);
    SubmitKeepsRest(s, k, hash, at);
    NormalizedParts(s.intents[k], hash, at);
    SubmitSettles(s, k, hash);
    RowsAreClean(s);
    RecordSentParts(t, k, hash, at, listing);
    var tx := Rows.Normalized(TransactionOf(t.intents[k], hash, at));
    ListedHashes(t.rows, tx, listing);
    SettledLogsAreOwned(s, t, k, Some(hash));
    SubmittedLog(s, k, hash, i);
    LogAfterRecord(t.transfers, t.intents[k], hash, listing, i);
  }

  /** The new row comes last and spends the intent's amount and nonce. */
  lemma SentRow(s: Stores, k: nat, o: Outcome, listing: seq<string>)
    requires Inv(s) && Enabled(s, Work(k, o, listing)) && Succeeds(o) && !o.recordFails
    ensures var n, t, hash := s.intents[k], Process(s, k, o, listing), if o.returned != "" then Some(o.returned) else o.derived;
            && |t.rows| == |s.rows| + 1
            && var r := t.rows[|s.rows|];
               && (r.networkId, r.walletId, r.value, r.createdAt) == (n.networkId, n.walletId, n.amount, o.at)
               && (Some(r.txHash), r.status, r.nonce) == (hash, Submitted, NormalizeNullable(n.nonce))
  {
    hide Agree, Owned, Nonces.Inv, Rows.ReplacementInv, ChainData, Submit, RecordSent, Rows.Lists, FreshHash, Text.Trim;
    hide Rows.Record;
    var hash, t := SubmittedHash(o).value, Submit(s, k, SubmittedHash(o).value);
    HashIsClean(s, hash);
    SubmitKeepsRest(s, k, hash, o.at);
    RecordSentParts(t, k, hash, o.at, listing);
    var tx := Rows.Normalized(TransactionOf(s.intents[k], hash, o.at));
    NormalizedParts(s.intents[k], hash, o.at);
    NewHashIsRecorded(s.rows, tx, listing);
    Rows.RecordRows(s.rows, tx, listing);
  }

  lemma RowsAreClean(s: Stores)
    requires Agree(s)
    ensures CleanRows(s.rows)
  {
  }

  /**
   After a failure the intent and its log are failed without a hash, whatever hash was derived. The reservation is as it
   was when no provider was found, released when signing failed, failed once a broadcast was tried.
   */
  lemma FailureFate(s: Stores, k: nat, o: Outcome, listing: seq<string>, j: nat)
    requires Inv(s) && k < |s.intents| && s.intents[k].status.Approved? && !Succeeds(o)
    requires j < |s.nonces.reservations| && s.nonces.reservations[j].id == s.intents[k].reservationId
    ensures var t := Process(s, k, o, listing);
            && t.intents[k].status.FailedIntent? && t.intents[k].txHash.None?
            && t.intents[k].errorCode ==
                 NormalizeNullable(Some(
                   match o
                   case NoProvider(e) => e
                   case SignFailed(e) => e
                   case BroadcastFailed(_, e) => e
                   case Broadcast(returned, derived, _, _) =>
                     if returned == "" && (derived.None? || derived.value == "")
                     then "Unable to determine submitted transaction hash" else "INVALID_TX_HASH"))
            && (forall a :: 0 <= a < |t.transfers| && t.transfers[a].id == s.intents[k].transferLogId ==>
                  t.transfers[a].status == Chain(Failed) && t.transfers[a].txHash.None?
                  && t.transfers[a].nonce == NormalizeNullable(s.intents[k].nonce))
            && t.nonces.reservations[j].status ==
                 (match o
                  case NoProvider(_) => s.nonces.reservations[j].status
                  case SignFailed(_) => Nonces.Released
                  case _ => Nonces.Failed)
  {
    hide Nonces.Inv, Agree, ChainData, Rows.ReplacementInv, Ready, RecordSent, Submit, Text.Trim;
    ClaimedHoldsUnsent(s, k);
  }

  /** Seen from the rows a sync writes status and block of one row. */
  lemma SyncIsOneSetRow(s: Stores, i: nat, v: NodeView)
    requires i < |s.rows|
    ensures |AfterSync(s, i, v).rows| == |s.rows|
    ensures AfterSync(s, i, v).rows ==
              Rows.SetRow(s.rows, i, AfterSync(s, i, v).rows[i].status, AfterSync(s, i, v).rows[i].block)
  {
    hide Nonces.Apply, IntentsByHash, Transfers.UpdateByHashes, Transfers.StatusAndBlock, ReceiptBlock, ReceiptStatus;
  }

  /** A sync moves the day's spend by its own row's value, as the row enters or leaves the active statuses. */
  lemma SpendAfterSync(s: Stores, i: nat, v: NodeView, walletId: string, networkId: string, since: int)
    requires i < |s.rows|
    ensures |AfterSync(s, i, v).rows| == |s.rows|
    ensures var before, after := IsActiveSpend(s.rows[i].status), IsActiveSpend(AfterSync(s, i, v).rows[i].status);
            Rows.Spent(AfterSync(s, i, v).rows, walletId, networkId, since) ==
              Rows.Spent(s.rows, walletId, networkId, since)
                + if !Rows.CountsFor(s.rows[i], walletId, networkId, since) || before == after then 0
                  else if after then s.rows[i].value else -s.rows[i].value
  {
    hide AfterSync;
    SyncIsOneSetRow(s, i, v);
    var after := AfterSync(s, i, v).rows[i];
    Rows.SpendAfterSetRow(s.rows, i, after.status, after.block, walletId, networkId, since);
  }

  /** Requests, claims and failures spend nothing; a recorded broadcast spends its value less what it replaces. */
  lemma SpendAfterStep(s: Stores, step: Step, walletId: string, networkId: string, since: int)
    requires Inv(s) && Enabled(s, step) && !step.Sync?
    ensures Rows.Spent(Apply(s, step).rows, walletId, networkId, since) ==
              Rows.Spent(s.rows, walletId, networkId, since)
                + if step.Work? && Succeeds(step.outcome) && !step.outcome.recordFails
                     && s.intents[step.k].walletId == walletId && s.intents[step.k].networkId == networkId
                  then
                    var tx := Rows.Normalized(
                      TransactionOf(s.intents[step.k], SubmittedHash(step.outcome).value, step.outcome.at));
                    (if tx.createdAt >= since then tx.value else 0) - Rows.ReplacedSpend(s.rows, tx, since)
                  else 0
  {
    hide Agree, Owned, Nonces.Inv, Rows.ReplacementInv, Rows.Spent;
    hide Rows.ReplacedSpend, Rows.Record, Rows.Lists, FailIntent;
    hide Nonces.Apply, Nonces.ReserveOn, Text.Trim, Submit, RecordSent, FreshHash;
    if step.Work? && Succeeds(step.outcome) {
      var hash, at := SubmittedHash(step.outcome).value, step.outcome.at;
      SubmitKeepsRest(s, step.k, hash, at);
      HashIsClean(s, hash);
      if !step.outcome.recordFails {
        var t := Submit(s, step.k, hash);
        RecordSentParts(t, step.k, hash, at, step.listing);
        var tx := Rows.Normalized(TransactionOf(s.intents[step.k], hash, at));
        FreshIsUnrecorded(s, tx, step.listing);
        Rows.SpendAfterRecord(s.rows, tx, step.listing, walletId, networkId, since);
      }
    } else if step.Work? {
      UnrecordedKeepsRows(s, step.k, step.outcome, step.listing);
    }
  }

  lemma FreshIsUnrecorded(s: Stores, tx: Rows.NewTransaction, listing: seq<string>)
    requires FreshHash(s, tx.txHash)
    ensures Rows.Record(s.rows, tx, listing).Ok?
  {
  }

  lemma UnrecordedKeepsRows(s: Stores, k: nat, o: Outcome, listing: seq<string>)
    requires k < |s.intents| && !(Succeeds(o) && !o.recordFails)
    ensures Process(s, k, o, listing).rows == s.rows
  {
    hide Nonces.Apply, Transfers.UpdateById, RecordSent;
  }

  lemma ClaimKeepsRows(s: Stores)
    ensures AfterClaim(s).rows == s.rows
  {
  }
}
