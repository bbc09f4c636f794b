/**
 When the nonce reservation tells the same story as the chain row.

 A repeated action id is handed the reservation it already has (services/nonce-reservation.service.ts:298-306,
 314-315), so several intents may name one reservation, and a reservation holds one hash. `Fits` says that every
 recorded transaction has a reservation with its hash and that every such reservation has the row's status. `Disturbs`
 is the exact condition, readable before a step, under which the step breaks that.
 */
module SharedReservations {
  import opened Prelude
  import opened ChainStatus
  import opened ChainSync
  import opened SigningWorker
  import opened Agreement
  import opened Lifecycle
  import Text = Decimals
  import Rows = ChainRows
  import Transfers = TransferLogs
  import Nonces = NonceReservations
  import Intents = SigningIntents

  ghost predicate ReservationAgrees(x: Nonces.Reservation, r: Rows.ChainRow)
  {
    x.txHash == Some(r.txHash) ==> ReservationTells(r.status, x.status)
  }

  ghost predicate ReservationsAgree(rows: seq<Rows.ChainRow>, xs: seq<Nonces.Reservation>)
  {
    forall j, i :: 0 <= j < |xs| && 0 <= i < |rows| ==> ReservationAgrees(xs[j], rows[i])
  }

  ghost predicate RowsReserved(rows: seq<Rows.ChainRow>, xs: seq<Nonces.Reservation>)
  {
    forall i :: 0 <= i < |rows| ==> HasReservation(xs, rows[i].txHash)
  }

  ghost predicate Fits(s: Stores)
  {
    ReservationsAgree(s.rows, s.nonces.reservations) && RowsReserved(s.rows, s.nonces.reservations)
  }

  /** The reservation holds the hash of a recorded transaction. */
  ghost predicate CarriesRow(rows: seq<Rows.ChainRow>, x: Nonces.Reservation)
  {
    exists i :: 0 <= i < |rows| && x.txHash == Some(rows[i].txHash)
  }

  /** The same, of a transaction that is not failed, dropped or replaced. */
  ghost predicate CarriesOpenRow(rows: seq<Rows.ChainRow>, x: Nonces.Reservation)
  {
    exists i :: 0 <= i < |rows| && x.txHash == Some(rows[i].txHash)
      && !rows[i].status.Failed? && !rows[i].status.Dropped? && !rows[i].status.Replaced?
  }

  /** The reservation intent k names holds the hash of a recorded transaction. */
  ghost predicate NamesCarrier(s: Stores, k: nat)
    requires k < |s.intents|
  {
    exists j :: 0 <= j < |s.nonces.reservations| && s.nonces.reservations[j].id == s.intents[k].reservationId
      && CarriesRow(s.rows, s.nonces.reservations[j])
  }

  ghost predicate NamesOpenCarrier(s: Stores, k: nat)
    requires k < |s.intents|
  {
    exists j :: 0 <= j < |s.nonces.reservations| && s.nonces.reservations[j].id == s.intents[k].reservationId
      && CarriesOpenRow(s.rows, s.nonces.reservations[j])
  }

  /**
   A request is turned down with a reservation that another request's transaction uses; or a worker signs in vain,
   fails to broadcast, or broadcasts anew, on one that does.
   */
  ghost predicate Disturbs(s: Stores, step: Step)
    requires Enabled(s, step)
  {
    match step
    case Send(e) => e.decision.TurnDown? && HandedOut(s, e).Ok? && CarriesRow(s.rows, HandedOut(s, e).value)
    case Work(k, o, _) =>
      if o.NoProvider? then false
      else if o.SignFailed? || Succeeds(o) then NamesCarrier(s, k)
      else NamesOpenCarrier(s, k)
    case _ => false
  }

  // ---------- Requests ----------

  /** Reservation j takes a status of its own and keeps its hash; the others stay. */
  ghost predicate Marks(xs: seq<Nonces.Reservation>, ys: seq<Nonces.Reservation>, id: string, status: Nonces.Status)
  {
    && |ys| == |xs|
    && forall j :: 0 <= j < |xs| ==> ys[j] == if xs[j].id == id then xs[j].(status := status) else xs[j]
  }

  lemma MarksKeepReserved(rows: seq<Rows.ChainRow>, xs: seq<Nonces.Reservation>, ys: seq<Nonces.Reservation>, id: string,
                          status: Nonces.Status)
    requires RowsReserved(rows, xs) && Marks(xs, ys, id, status)
    ensures RowsReserved(rows, ys)
  {
    forall i | 0 <= i < |rows| ensures HasReservation(ys, rows[i].txHash) {
      var j :| 0 <= j < |xs| && xs[j].txHash == Some(rows[i].txHash);
      assert ys[j].txHash == Some(rows[i].txHash);
    }
  }

  /** The mark fits exactly when no recorded transaction of that reservation calls for another status. */
  lemma MarksFitIff(rows: seq<Rows.ChainRow>, xs: seq<Nonces.Reservation>, ys: seq<Nonces.Reservation>, id: string,
                    status: Nonces.Status)
    requires ReservationsAgree(rows, xs) && Marks(xs, ys, id, status)
    ensures ReservationsAgree(rows, ys) <==>
              forall j, i :: 0 <= j < |xs| && xs[j].id == id && 0 <= i < |rows| && xs[j].txHash == Some(rows[i].txHash) ==>
                status == ReservationStatus(rows[i].status)
  {
    if ReservationsAgree(rows, ys) {
      forall j, i | 0 <= j < |xs| && xs[j].id == id && 0 <= i < |rows| && xs[j].txHash == Some(rows[i].txHash)
        ensures status == ReservationStatus(rows[i].status)
      {
        assert ReservationAgrees(ys[j], rows[i]);
      }
    }
    if forall j, i :: 0 <= j < |xs| && xs[j].id == id && 0 <= i < |rows| && xs[j].txHash == Some(rows[i].txHash) ==>
                        status == ReservationStatus(rows[i].status) {
      forall j, i | 0 <= j < |ys| && 0 <= i < |rows| ensures ReservationAgrees(ys[j], rows[i]) {
        assert ReservationAgrees(xs[j], rows[i]);
      }
    }
  }

  /** A new reservation without a hash changes nothing. */
  lemma UnsentAddFits(rows: seq<Rows.ChainRow>, xs: seq<Nonces.Reservation>, x: Nonces.Reservation)
    requires ReservationsAgree(rows, xs) && RowsReserved(rows, xs) && x.txHash.None?
    ensures ReservationsAgree(rows, xs + [x]) && RowsReserved(rows, xs + [x])
  {
    var ys := xs + [x];
    forall j, i | 0 <= j < |ys| && 0 <= i < |rows| ensures ReservationAgrees(ys[j], rows[i]) {
      assert j < |xs| ==> ReservationAgrees(xs[j], rows[i]);
    }
    forall i | 0 <= i < |rows| ensures HasReservation(ys, rows[i].txHash) {
      var j :| 0 <= j < |xs| && xs[j].txHash == Some(rows[i].txHash);
      assert ys[j].txHash == Some(rows[i].txHash);
    }
  }

  lemma ReleaseMarks(s: Nonces.NonceState, id: string)
    ensures Marks(s.reservations, Nonces.Apply(s, Nonces.Release(id)).reservations, id, Nonces.Released)
  {
  }

  lemma SendFitsIff(s: Stores, e: SendRequest)
    requires Fits(s) && Nonces.Inv(s.nonces) && FreshSend(s, e)
    ensures Fits(AfterSend(s, e)) <==> !Disturbs(s, Send(e))
  {
    hide ReservationsAgree, RowsReserved, Nonces.ReserveOn, Marks, NewLog, NewIntent;
    var (nonces, r) := Nonces.ReserveOn(e.path, s.nonces, e.nonceRequest, e.pendingNonce, e.reservationId);
    if r.Ok? {
      ReserveHandsOut(s, e);
      if nonces.reservations == s.nonces.reservations + [r.value] {
        UnsentAddFits(s.rows, s.nonces.reservations, r.value);
      }
      assert ReservationsAgree(s.rows, nonces.reservations) && RowsReserved(s.rows, nonces.reservations);
      if e.decision.TurnDown? {
        var ys := Nonces.Apply(nonces, Nonces.Release(r.value.id)).reservations;
        ReleaseMarks(nonces, r.value.id);
        MarksKeepReserved(s.rows, nonces.reservations, ys, r.value.id, Nonces.Released);
        MarksFitIff(s.rows, nonces.reservations, ys, r.value.id, Nonces.Released);
        OneWithId(s, e);
      }
    }
  }

  /** The reservation handed out is the only one with its id. */
  lemma OneWithId(s: Stores, e: SendRequest)
    requires Nonces.Inv(s.nonces) && FreshSend(s, e) && HandedOut(s, e).Ok?
    ensures var (nonces, r) := Nonces.ReserveOn(e.path, s.nonces, e.nonceRequest, e.pendingNonce, e.reservationId);
            && r.value in nonces.reservations
            && forall j :: 0 <= j < |nonces.reservations| && nonces.reservations[j].id == r.value.id ==>
                 nonces.reservations[j] == r.value
  {
    hide Nonces.ReserveOn, Nonces.Inv;
    Nonces.ReserveKeepsInv(s.nonces, e.nonceRequest, e.pendingNonce, e.reservationId);
    ReserveHandsOut(s, e);
    var (nonces, r) := Nonces.ReserveOn(e.path, s.nonces, e.nonceRequest, e.pendingNonce, e.reservationId);
    assert Nonces.Inv(nonces) by { PathKeepsInv(s, e); }
    IdsAreUnique(nonces);
  }

  lemma PathKeepsInv(s: Stores, e: SendRequest)
    requires Nonces.Inv(s.nonces) && Nonces.FreshId(s.nonces, e.reservationId)
    ensures Nonces.Inv(Nonces.ReserveOn(e.path, s.nonces, e.nonceRequest, e.pendingNonce, e.reservationId).0)
  {
    hide Nonces.Inv, Nonces.ReserveInMemory, Nonces.ReserveInPostgres;
    Nonces.ReserveKeepsInv(s.nonces, e.nonceRequest, e.pendingNonce, e.reservationId);
  }

  lemma IdsAreUnique(s: Nonces.NonceState)
    requires Nonces.Inv(s)
    ensures forall i, j :: (0 <= i < |s.reservations| && 0 <= j < |s.reservations|
                            && s.reservations[i].id == s.reservations[j].id) ==> i == j
  {
  }

  // ---------- Failures ----------

  lemma FailureFitsIff(s: Stores, k: nat, o: Outcome, listing: seq<string>)
    requires Fits(s) && Enabled(s, Work(k, o, listing)) && !Succeeds(o)
    ensures Fits(Process(s, k, o, listing)) <==> !Disturbs(s, Work(k, o, listing))
  {
    hide ReservationsAgree, RowsReserved, Marks, RecordSent, Submit, ErrorOf, Transfers.UpdateById;
    var t, id := Process(s, k, o, listing), s.intents[k].reservationId;
    assert t.rows == s.rows;
    if !o.NoProvider? {
      var status := if o.SignFailed? then Nonces.Released else Nonces.Failed;
      FailureMarks(s, k, o, listing);
      MarksKeepReserved(s.rows, s.nonces.reservations, t.nonces.reservations, id, status);
      MarksFitIff(s.rows, s.nonces.reservations, t.nonces.reservations, id, status);
    }
  }

  lemma FailureMarks(s: Stores, k: nat, o: Outcome, listing: seq<string>)
    requires k < |s.intents| && !Succeeds(o) && !o.NoProvider?
    ensures Marks(s.nonces.reservations, Process(s, k, o, listing).nonces.reservations, s.intents[k].reservationId,
                  if o.SignFailed? then Nonces.Released else Nonces.Failed)
  {
    hide RecordSent, Submit, ErrorOf, Transfers.UpdateById, SubmittedHash;
  }

  // ---------- Broadcasts ----------

  /** Reservation `id` takes the new hash and is submitted. */
  ghost predicate Sends(xs: seq<Nonces.Reservation>, ys: seq<Nonces.Reservation>, id: string, hash: string)
  {
    && |ys| == |xs|
    && forall j :: 0 <= j < |xs| ==>
         ys[j] == if xs[j].id == id then xs[j].(status := Nonces.Submitted, txHash := Some(hash)) else xs[j]
  }

  lemma SubmitSends(s: Stores, k: nat, hash: string)
    requires k < |s.intents| && CleanHash(hash)
    ensures Sends(s.nonces.reservations, Submit(s, k, hash).nonces.reservations, s.intents[k].reservationId, hash)
    ensures Submit(s, k, hash).rows == s.rows && |Submit(s, k, hash).intents| == |s.intents|
  {
    hide Transfers.UpdateById;
  }

  /** A transaction whose reservation is sent anew has none left: no two reservations held its hash. */
  lemma SendingLosesHash(rows: seq<Rows.ChainRow>, xs: seq<Nonces.Reservation>, ys: seq<Nonces.Reservation>, id: string,
                         hash: string, j: nat, i: nat)
    requires OneHolder(xs) && Sends(xs, ys, id, hash) && j < |xs| && xs[j].id == id
    requires i < |rows| && xs[j].txHash == Some(rows[i].txHash) && rows[i].txHash != hash
    ensures !HasReservation(ys, rows[i].txHash)
  {
    forall m | 0 <= m < |ys| ensures ys[m].txHash != Some(rows[i].txHash) {
      if m < j {
        assert xs[m].txHash.Some? ==> xs[m].txHash != xs[j].txHash;
      } else if j < m {
        assert xs[j].txHash != xs[m].txHash;
      }
    }
  }

  lemma SendingFits(rows: seq<Rows.ChainRow>, xs: seq<Nonces.Reservation>, ys: seq<Nonces.Reservation>, id: string,
                    hash: string)
    requires ReservationsAgree(rows, xs) && RowsReserved(rows, xs) && Sends(xs, ys, id, hash)
    requires forall i :: 0 <= i < |rows| ==> rows[i].txHash != hash
    requires forall j :: 0 <= j < |xs| && xs[j].id == id ==> !CarriesRow(rows, xs[j])
    ensures ReservationsAgree(rows, ys) && RowsReserved(rows, ys)
  {
    forall j, i | 0 <= j < |ys| && 0 <= i < |rows| ensures ReservationAgrees(ys[j], rows[i]) {
      assert ReservationAgrees(xs[j], rows[i]);
    }
    forall i | 0 <= i < |rows| ensures HasReservation(ys, rows[i].txHash) {
      var j :| 0 <= j < |xs| && xs[j].txHash == Some(rows[i].txHash);
      assert CarriesRow(rows, xs[j]);
      assert ys[j].txHash == Some(rows[i].txHash);
    }
  }

  /** The rows and reservations after the record. */
  lemma RecordParts(t: Stores, k: nat, hash: string, at: int, listing: seq<string>)
    requires k < |t.intents| && CleanRows(t.rows) && Rows.UniqueRows(t.rows) && CleanHash(hash)
    requires forall i :: 0 <= i < |t.rows| ==> t.rows[i].txHash != hash
    requires Rows.Lists(listing, t.rows, Rows.Normalized(TransactionOf(t.intents[k], hash, at)))
    ensures var tx, u := Rows.Normalized(TransactionOf(t.intents[k], hash, at)), RecordSent(t, k, hash, at, listing);
            && |u.rows| == |t.rows| + 1 && u.rows[|t.rows|] == Rows.NewRow(tx, listing) && tx.txHash == hash
            && tx.status == Submitted
            && (forall i :: 0 <= i < |t.rows| ==>
                  u.rows[i] == if t.rows[i].txHash in listing
                               then t.rows[i].(status := Replaced, replacedByTxHash := Some(hash)) else t.rows[i])
            && u.nonces.reservations == Nonces.SetByHashes(t.nonces.reservations, listing, Nonces.Failed)
            && hash !in listing
  {
    hide LogsAfterRecord, RecordSent, Rows.Lists, Rows.IsReplaced;
    var tx := Rows.Normalized(TransactionOf(t.intents[k], hash, at));
    NormalizedParts(t.intents[k], hash, at);
    RecordSentParts(t, k, hash, at, listing);
    assert !Rows.Recorded(t.rows, tx.networkId, tx.txHash);
    Rows.RecordRows(t.rows, tx, listing);
    ListedHashes(t.rows, tx, listing);
    forall i | 0 <= i < |t.rows| ensures t.rows[i].txHash in listing <==> Rows.IsReplaced(t.rows[i], tx) {
      ListedIff(t.rows, tx, listing, i);
    }
  }

  /** Recording fits the reservations it finds, and never finds one again. */
  lemma RecordFitsIff(t: Stores, k: nat, hash: string, at: int, listing: seq<string>)
    requires k < |t.intents| && CleanRows(t.rows) && Rows.UniqueRows(t.rows) && CleanHash(hash)
    requires forall i :: 0 <= i < |t.rows| ==> t.rows[i].txHash != hash
    requires Rows.Lists(listing, t.rows, Rows.Normalized(TransactionOf(t.intents[k], hash, at)))
    requires HasReservation(t.nonces.reservations, hash) && ReservationsAgree(t.rows, t.nonces.reservations)
    requires forall j :: 0 <= j < |t.nonces.reservations| && t.nonces.reservations[j].txHash == Some(hash) ==>
               t.nonces.reservations[j].status == Nonces.Submitted
    ensures Fits(RecordSent(t, k, hash, at, listing)) <==> RowsReserved(t.rows, t.nonces.reservations)
  {
    hide RecordSent, Rows.Lists, Rows.UniqueRows, CleanRows, TransactionOf, Rows.Normalized;
    RecordParts(t, k, hash, at, listing);
    var u, xs := RecordSent(t, k, hash, at, listing), t.nonces.reservations;
    var ys := u.nonces.reservations;
    forall j, i | 0 <= j < |ys| && 0 <= i < |u.rows| ensures ReservationAgrees(ys[j], u.rows[i]) {
      if i < |t.rows| { assert ReservationAgrees(xs[j], t.rows[i]); }
    }
    forall h ensures HasReservation(ys, h) <==> HasReservation(xs, h) {
      SameHashes(xs, listing, h);
    }
    forall i | 0 <= i < |t.rows| ensures u.rows[i].txHash == t.rows[i].txHash {}
    if RowsReserved(u.rows, ys) {
      forall i | 0 <= i < |t.rows| ensures HasReservation(xs, t.rows[i].txHash) {
        assert HasReservation(ys, u.rows[i].txHash);
      }
    }
  }

  lemma SameHashes(xs: seq<Nonces.Reservation>, listing: seq<string>, h: string)
    ensures HasReservation(Nonces.SetByHashes(xs, listing, Nonces.Failed), h) <==> HasReservation(xs, h)
  {
    var ys := Nonces.SetByHashes(xs, listing, Nonces.Failed);
    if j :| 0 <= j < |xs| && xs[j].txHash == Some(h) { assert ys[j].txHash == Some(h); }
    if j :| 0 <= j < |ys| && ys[j].txHash == Some(h) { assert xs[j].txHash == Some(h); }
  }

  lemma SubmitFitsIff(s: Stores, k: nat, hash: string)
    requires Inv(s) && Fits(s) && k < |s.intents| && FreshHash(s, hash)
    ensures var t := Submit(s, k, hash);
            && ReservationsAgree(t.rows, t.nonces.reservations)
            && (RowsReserved(t.rows, t.nonces.reservations) <==> !NamesCarrier(s, k))
            && HasReservation(t.nonces.reservations, hash)
            && (forall j :: 0 <= j < |t.nonces.reservations| && t.nonces.reservations[j].txHash == Some(hash) ==>
                  t.nonces.reservations[j].status == Nonces.Submitted)
  {
    hide Submit, ChainData, Agree, Rows.ReplacementInv, Nonces.Inv, LogsOwned, IntentsOwn, RowsReserved, HasReservation;
    var t, xs, id := Submit(s, k, hash), s.nonces.reservations, s.intents[k].reservationId;
    var ys := t.nonces.reservations;
    HashIsClean(s, hash);
    SubmitSends(s, k, hash);
    assert Ready(s, s.intents[k]);
    NewHashIsHeld(xs, ys, id, hash);
    NewHashAgrees(s.rows, xs, ys, id, hash);
    if NamesCarrier(s, k) {
      var j :| 0 <= j < |xs| && xs[j].id == id && CarriesRow(s.rows, xs[j]);
      var i :| 0 <= i < |s.rows| && xs[j].txHash == Some(s.rows[i].txHash);
      SendingLosesHash(s.rows, xs, ys, id, hash, j, i);
      NotReserved(s.rows, ys, i);
    } else {
      SendingFits(s.rows, xs, ys, id, hash);
    }
  }

  lemma NotReserved(rows: seq<Rows.ChainRow>, xs: seq<Nonces.Reservation>, i: nat)
    requires i < |rows| && !HasReservation(xs, rows[i].txHash)
    ensures !RowsReserved(rows, xs)
  {
  }

  lemma NewHashIsHeld(xs: seq<Nonces.Reservation>, ys: seq<Nonces.Reservation>, id: string, hash: string)
    requires Sends(xs, ys, id, hash) && HasId(xs, id) && !HasReservation(xs, hash)
    ensures HasReservation(ys, hash)
    ensures forall j :: 0 <= j < |ys| && ys[j].txHash == Some(hash) ==> ys[j].status == Nonces.Submitted
  {
    var j :| 0 <= j < |xs| && xs[j].id == id;
    assert ys[j].txHash == Some(hash);
  }

  lemma NewHashAgrees(rows: seq<Rows.ChainRow>, xs: seq<Nonces.Reservation>, ys: seq<Nonces.Reservation>, id: string,
                      hash: string)
    requires Sends(xs, ys, id, hash) && ReservationsAgree(rows, xs) && forall i :: 0 <= i < |rows| ==> rows[i].txHash != hash
    ensures ReservationsAgree(rows, ys)
  {
    forall j, i | 0 <= j < |ys| && 0 <= i < |rows| ensures ReservationAgrees(ys[j], rows[i]) {
      assert ReservationAgrees(xs[j], rows[i]);
    }
  }

  lemma SuccessFitsIff(s: Stores, k: nat, o: Outcome, listing: seq<string>)
    requires Inv(s) && Fits(s) && Enabled(s, Work(k, o, listing)) && Succeeds(o)
    ensures Fits(Process(s, k, o, listing)) <==> !Disturbs(s, Work(k, o, listing))
  {
    hide Submit, RecordSent, ChainData, Rows.ReplacementInv, Nonces.Inv, Owned, RowsReserved, ReservationsAgree;
    hide NamesCarrier, Rows.Lists, Rows.Normalized, TransactionOf, FreshHash, SubmittedHash, HasReservation, LogsAgree;
    hide IntentsAgree, Tracked, Rows.UniqueRows, CleanRows;
    var hash := SubmittedHash(o).value;
    var t := Submit(s, k, hash);
    HashIsClean(s, hash);
    HashIsUnrecorded(s, hash);
    SubmitFitsIff(s, k, hash);
    SubmitKeepsRest(s, k, hash, o.at);
    if !o.recordFails {
      RecordFitsIff(t, k, hash, o.at, listing);
    }
  }

  lemma HashIsUnrecorded(s: Stores, hash: string)
    requires FreshHash(s, hash)
    ensures forall i :: 0 <= i < |s.rows| ==> s.rows[i].txHash != hash
  {
  }

  // ---------- Syncs ----------

  lemma SetStatusFits(s: Stores, i: nat, status: Status, block: BlockFields, u: Transfers.TransferUpdate)
    requires CleanRows(s.rows) && Fits(s) && i < |s.rows|
    ensures Fits(SetStatus(s, i, status, block, u)) && CleanRows(SetStatus(s, i, status, block, u).rows)
    ensures |SetStatus(s, i, status, block, u).rows| == |s.rows|
  {
    hide Transfers.UpdateByHashes, IntentsByHash, CleanHashes;
    var t, xs := SetStatus(s, i, status, block, u), s.nonces.reservations;
    OwnHash(s.rows[i].txHash);
    var ys := t.nonces.reservations;
    assert ys == Nonces.SetByHashes(xs, [s.rows[i].txHash], ReservationStatus(status));
    forall j, m | 0 <= j < |ys| && 0 <= m < |t.rows| ensures ReservationAgrees(ys[j], t.rows[m]) {
      assert ReservationAgrees(xs[j], s.rows[m]);
    }
    forall m | 0 <= m < |t.rows| ensures HasReservation(ys, t.rows[m].txHash) {
      var j :| 0 <= j < |xs| && xs[j].txHash == Some(s.rows[m].txHash);
      assert ys[j].txHash == Some(s.rows[m].txHash);
    }
  }

  lemma SyncFits(s: Stores, i: nat, v: NodeView)
    requires CleanRows(s.rows) && Fits(s) && i < |s.rows|
    ensures Fits(AfterSync(s, i, v))
  {
    hide Fits, CleanRows, SetStatus, ReceiptBlock;
    var block := s.rows[i].block.(confirmations := 0);
    var back := Transfers.NO_CHANGE.(status := Some(Chain(Submitted)), confirmations := Transfers.Set(0));
    SetStatusFits(s, i, Reorged, NO_BLOCK, Transfers.StatusAndBlock(Reorged, NO_BLOCK));
    SetStatusFits(s, i, Dropped, NO_BLOCK, Transfers.StatusAndBlock(Dropped, NO_BLOCK));
    SetStatusFits(s, i, Submitted, block, back);
    FitsIgnoresIndex(SetStatus(s, i, Reorged, NO_BLOCK, Transfers.StatusAndBlock(Reorged, NO_BLOCK)), Withdraw(s, i, Reorged));
    FitsIgnoresIndex(SetStatus(s, i, Dropped, NO_BLOCK, Transfers.StatusAndBlock(Dropped, NO_BLOCK)), Withdraw(s, i, Dropped));
    var w := Withdraw(s, i, Reorged);
    SetStatusFits(w, i, Dropped, NO_BLOCK, Transfers.StatusAndBlock(Dropped, NO_BLOCK));
    FitsIgnoresIndex(SetStatus(w, i, Dropped, NO_BLOCK, Transfers.StatusAndBlock(Dropped, NO_BLOCK)), Withdraw(w, i, Dropped));
    if v.receipt.Some? {
      var r := v.receipt.value;
      var status, b := ReceiptStatus(r, v.currentBlock).0, ReceiptBlock(r, v);
      SetStatusFits(s, i, status, b, Transfers.StatusAndBlock(status, b));
      FitsIgnoresIndex(SetStatus(s, i, status, b, Transfers.StatusAndBlock(status, b)), OnReceipt(s, i, r, v));
    }
  }

  lemma FitsIgnoresIndex(s: Stores, t: Stores)
    requires t == s.(index := t.index, logs := t.logs, tokens := t.tokens)
    ensures (Fits(s) <==> Fits(t)) && (CleanRows(s.rows) <==> CleanRows(t.rows)) && |t.rows| == |s.rows|
  {
  }

  // ---------- Every step, every run ----------

  /** A step leaves every recorded transaction with an agreeing reservation exactly when it disturbs none. */
  lemma StepFitsIff(s: Stores, step: Step)
    requires Inv(s) && Fits(s) && Enabled(s, step)
    ensures Fits(Apply(s, step)) <==> !Disturbs(s, step)
  {
    hide Fits, ChainData, Rows.ReplacementInv, Nonces.Inv, Owned, AfterSend, AfterSync, Process, Disturbs;
    match step
    case Send(e) => SendFitsIff(s, e);
    case Claim => ClaimFits(s);
    case Work(k, o, listing) =>
      if Succeeds(o) {
        SuccessFitsIff(s, k, o, listing);
      } else {
        FailureFitsIff(s, k, o, listing);
      }
    case Sync(i, v) =>
      SyncFits(s, i, v);
      SyncsDisturbNothing(s, i, v);
  }

  lemma SyncsDisturbNothing(s: Stores, i: nat, v: NodeView)
    requires Enabled(s, Sync(i, v))
    ensures !Disturbs(s, Sync(i, v))
  {
  }

  lemma ClaimFits(s: Stores)
    requires Fits(s)
    ensures Fits(AfterClaim(s)) && Enabled(s, Claim) && !Disturbs(s, Claim)
  {
  }

  /** The reservations fit before every step and at the end. */
  ghost predicate FitsThroughout(s: Stores, steps: seq<Step>)
    requires EnabledRun(s, steps)
    decreases |steps|
  {
    Fits(s) && (steps == [] || FitsThroughout(Apply(s, steps[0]), steps[1..]))
  }

  ghost predicate Undisturbed(s: Stores, steps: seq<Step>)
    requires EnabledRun(s, steps)
    decreases |steps|
  {
    steps == [] || (!Disturbs(s, steps[0]) && Undisturbed(Apply(s, steps[0]), steps[1..]))
  }

  /**
   A run keeps every recorded transaction with a reservation of its own status, confirmed exactly at finality and
   failed exactly when it failed, was dropped or replaced, if and only if none of its steps disturbs one.
   */
  lemma {:induction false} RunFitsIff(s: Stores, steps: seq<Step>)
    requires Inv(s) && Fits(s) && EnabledRun(s, steps)
    ensures FitsThroughout(s, steps) <==> Undisturbed(s, steps)
    decreases |steps|
  {
    hide Inv, Fits, Apply, Enabled, Disturbs;
    if steps != [] {
      StepFitsIff(s, steps[0]);
      StepKeepsInv(s, steps[0]);
      if Fits(Apply(s, steps[0])) {
        RunFitsIff(Apply(s, steps[0]), steps[1..]);
      } else {
        UnfitAtOnce(Apply(s, steps[0]), steps[1..]);
      }
    }
  }

  lemma UnfitAtOnce(s: Stores, steps: seq<Step>)
    requires EnabledRun(s, steps) && !Fits(s)
    ensures !FitsThroughout(s, steps)
  {
  }

  // ---------- A condition on requests alone ----------

  /** No pending intent names a reservation that another transaction or another pending intent uses. */
  ghost predicate PendingFree(s: Stores)
  {
    && (forall k :: 0 <= k < |s.intents| && Pending(s.intents[k]) ==> !NamesCarrier(s, k))
    && (forall k, m :: 0 <= k < m < |s.intents| && Pending(s.intents[k]) && Pending(s.intents[m]) ==>
          s.intents[k].reservationId != s.intents[m].reservationId)
  }

  /** The request is handed a reservation that no recorded transaction and no other pending intent uses. */
  ghost predicate HandsOutFree(s: Stores, step: Step)
  {
    step.Send? && HandedOut(s, step.request).Ok? ==>
      var x := HandedOut(s, step.request).value;
      && !CarriesRow(s.rows, x)
      && forall k :: 0 <= k < |s.intents| && Pending(s.intents[k]) ==> s.intents[k].reservationId != x.id
  }

  /** Hashes, ids and names stay; new reservations have no hash; no settled intent becomes pending. */
  ghost predicate Quiet(s: Stores, t: Stores)
  {
    && |t.rows| == |s.rows| && (forall i :: 0 <= i < |s.rows| ==> t.rows[i].txHash == s.rows[i].txHash)
    && |t.nonces.reservations| >= |s.nonces.reservations|
    && (forall j :: 0 <= j < |s.nonces.reservations| ==>
          t.nonces.reservations[j].id == s.nonces.reservations[j].id
          && t.nonces.reservations[j].txHash == s.nonces.reservations[j].txHash)
    && (forall j :: |s.nonces.reservations| <= j < |t.nonces.reservations| ==> t.nonces.reservations[j].txHash.None?)
    && |t.intents| >= |s.intents|
    && (forall k :: 0 <= k < |s.intents| ==>
          t.intents[k].reservationId == s.intents[k].reservationId && (Pending(t.intents[k]) ==> Pending(s.intents[k])))
  }

  lemma QuietCarriers(s: Stores, t: Stores, k: nat)
    requires Quiet(s, t) && k < |s.intents| && NamesCarrier(t, k)
    ensures NamesCarrier(s, k)
  {
    var j :| 0 <= j < |t.nonces.reservations| && t.nonces.reservations[j].id == t.intents[k].reservationId
      && CarriesRow(t.rows, t.nonces.reservations[j]);
    var i :| 0 <= i < |t.rows| && t.nonces.reservations[j].txHash == Some(t.rows[i].txHash);
    assert s.nonces.reservations[j].txHash == Some(s.rows[i].txHash);
    assert CarriesRow(s.rows, s.nonces.reservations[j]);
  }

  lemma QuietKeepsFree(s: Stores, t: Stores)
    requires Quiet(s, t) && PendingFree(s) && |t.intents| == |s.intents|
    ensures PendingFree(t)
  {
    hide NamesCarrier;
    forall k | 0 <= k < |t.intents| && Pending(t.intents[k]) ensures !NamesCarrier(t, k) {
      if NamesCarrier(t, k) { QuietCarriers(s, t, k); }
    }
  }

  lemma QuietTwice(s: Stores, t: Stores, u: Stores)
    requires Quiet(s, t) && Quiet(t, u)
    ensures Quiet(s, u)
  {
  }

  lemma SetStatusQuiet(s: Stores, i: nat, status: Status, block: BlockFields, u: Transfers.TransferUpdate)
    requires i < |s.rows|
    ensures Quiet(s, SetStatus(s, i, status, block, u)) && |SetStatus(s, i, status, block, u).intents| == |s.intents|
  {
    hide Transfers.UpdateByHashes, CleanHashes;
  }

  lemma QuietIgnoresIndex(s: Stores, t: Stores, u: Stores)
    requires Quiet(s, t) && u == t.(index := u.index, logs := u.logs, tokens := u.tokens)
    ensures Quiet(s, u) && |u.intents| == |t.intents| && |u.rows| == |s.rows|
  {
  }

  lemma WithdrawQuiet(s: Stores, i: nat, status: Status)
    requires i < |s.rows|
    ensures Quiet(s, Withdraw(s, i, status)) && |Withdraw(s, i, status).intents| == |s.intents|
    ensures |Withdraw(s, i, status).rows| == |s.rows|
  {
    hide Quiet, SetStatus;
    SetStatusQuiet(s, i, status, NO_BLOCK, Transfers.StatusAndBlock(status, NO_BLOCK));
    QuietIgnoresIndex(s, SetStatus(s, i, status, NO_BLOCK, Transfers.StatusAndBlock(status, NO_BLOCK)), Withdraw(s, i, status));
  }

  lemma SyncQuiet(s: Stores, i: nat, v: NodeView)
    requires i < |s.rows|
    ensures Quiet(s, AfterSync(s, i, v)) && |AfterSync(s, i, v).intents| == |s.intents|
  {
    hide Quiet, SetStatus, Withdraw, ReceiptBlock;
    var block := s.rows[i].block.(confirmations := 0);
    var back := Transfers.NO_CHANGE.(status := Some(Chain(Submitted)), confirmations := Transfers.Set(0));
    QuietItself(s);
    WithdrawQuiet(s, i, Reorged);
    WithdrawQuiet(s, i, Dropped);
    SetStatusQuiet(s, i, Submitted, block, back);
    var w := Withdraw(s, i, Reorged);
    WithdrawQuiet(w, i, Dropped);
    QuietTwice(s, w, Withdraw(w, i, Dropped));
    if v.receipt.Some? {
      var r := v.receipt.value;
      var status, b := ReceiptStatus(r, v.currentBlock).0, ReceiptBlock(r, v);
      SetStatusQuiet(s, i, status, b, Transfers.StatusAndBlock(status, b));
      QuietIgnoresIndex(s, SetStatus(s, i, status, b, Transfers.StatusAndBlock(status, b)), OnReceipt(s, i, r, v));
    } else {
      ReorgedStaysThere(s, i);
    }
  }

  lemma ReorgedStaysThere(s: Stores, i: nat)
    requires i < |s.rows|
    ensures |Withdraw(s, i, Reorged).rows| == |s.rows| && Withdraw(s, i, Reorged).rows[i].status.Reorged?
  {
  }

  lemma QuietItself(s: Stores)
    ensures Quiet(s, s)
  {
  }

  lemma FailureQuiet(s: Stores, k: nat, o: Outcome, listing: seq<string>)
    requires k < |s.intents| && !Succeeds(o)
    ensures Quiet(s, Process(s, k, o, listing)) && |Process(s, k, o, listing).intents| == |s.intents|
  {
    hide RecordSent, Submit, ErrorOf, Transfers.UpdateById, SubmittedHash, Text.Trim;
  }

  lemma SendKeepsFree(s: Stores, e: SendRequest)
    requires Inv(s) && PendingFree(s) && FreshSend(s, e) && HandsOutFree(s, Send(e))
    ensures PendingFree(AfterSend(s, e))
  {
    hide AfterSend, HandedOut, Inv, NamesCarrier, NewLog, Nonces.FreshId;
    SendAdds(s, e);
    var t := AfterSend(s, e);
    if t != s {
      assert Quiet(s, t);
      forall k | 0 <= k < |t.intents| && Pending(t.intents[k]) ensures !NamesCarrier(t, k) {
        if k < |s.intents| {
          if NamesCarrier(t, k) { QuietCarriers(s, t, k); }
        } else {
          QueuedNamesFree(s, e, k);
        }
      }
    }
  }

  lemma QueuedNamesFree(s: Stores, e: SendRequest, k: nat)
    requires Inv(s) && FreshSend(s, e) && HandsOutFree(s, Send(e)) && HandedOut(s, e).Ok? && e.decision.Queue?
    requires k == |s.intents|
    ensures k < |AfterSend(s, e).intents| && !NamesCarrier(AfterSend(s, e), k)
  {
    hide Inv, Nonces.ReserveOn, NewLog;
    assert Nonces.Inv(s.nonces) by { InvHasNonces(s); }
    OneWithId(s, e);
  }

  lemma InvHasNonces(s: Stores)
    requires Inv(s)
    ensures Nonces.Inv(s.nonces)
  {
  }

  lemma SuccessKeepsFree(s: Stores, k: nat, o: Outcome, listing: seq<string>)
    requires Inv(s) && PendingFree(s) && Enabled(s, Work(k, o, listing)) && Succeeds(o)
    ensures PendingFree(Process(s, k, o, listing))
  {
    hide Inv, Submit, RecordSent, NamesCarrier, Rows.Lists, Rows.Normalized, TransactionOf, SubmittedHash;
    var t, hash := Process(s, k, o, listing), SubmittedHash(o).value;
    SuccessParts(s, k, o, listing);
    forall m | 0 <= m < |t.intents| && Pending(t.intents[m]) ensures !NamesCarrier(t, m) {
      if NamesCarrier(t, m) {
        CarrierAmongOthers(s, t, k, m, hash);
      }
    }
  }

  /** What a broadcast does to hashes: one reservation takes the new one, and at most one row with it is added. */
  ghost predicate SentParts(s: Stores, t: Stores, k: nat, hash: string)
    requires k < |s.intents|
  {
    && |s.rows| <= |t.rows| <= |s.rows| + 1
    && (forall i :: 0 <= i < |s.rows| ==> t.rows[i].txHash == s.rows[i].txHash)
    && (|t.rows| > |s.rows| ==> t.rows[|s.rows|].txHash == hash)
    && |t.nonces.reservations| == |s.nonces.reservations|
    && (forall j :: 0 <= j < |s.nonces.reservations| ==>
          t.nonces.reservations[j].id == s.nonces.reservations[j].id
          && t.nonces.reservations[j].txHash ==
               (if s.nonces.reservations[j].id == s.intents[k].reservationId then Some(hash)
                else s.nonces.reservations[j].txHash))
    && |t.intents| == |s.intents| && !Pending(t.intents[k])
    && (forall m :: 0 <= m < |s.intents| && m != k ==> t.intents[m] == s.intents[m])
  }

  lemma SuccessParts(s: Stores, k: nat, o: Outcome, listing: seq<string>)
    requires Inv(s) && Enabled(s, Work(k, o, listing)) && Succeeds(o)
    ensures SentParts(s, Process(s, k, o, listing), k, SubmittedHash(o).value)
  {
    hide Inv, RecordSent, Rows.Lists, Rows.Normalized, TransactionOf, SubmittedHash, Transfers.UpdateById, CleanRows;
    hide ChainData;
    var hash := SubmittedHash(o).value;
    HashIsClean(s, hash);
    SubmitSends(s, k, hash);
    assert ChainData(s) && Nonces.Inv(s.nonces) && CleanRows(s.rows) by { InvForRecord(s); }
    SubmitKeepsRest(s, k, hash, o.at);
    if !o.recordFails {
      var t := Submit(s, k, hash);
      RecordParts(t, k, hash, o.at, listing);
      RecordKeepsIntentList(t, k, hash, o.at, listing);
    }
  }

  lemma InvForRecord(s: Stores)
    requires Inv(s)
    ensures ChainData(s) && Nonces.Inv(s.nonces) && CleanRows(s.rows)
  {
  }

  lemma RecordKeepsIntentList(t: Stores, k: nat, hash: string, at: int, listing: seq<string>)
    requires k < |t.intents|
    ensures RecordSent(t, k, hash, at, listing).intents == t.intents
  {
    hide RecordSent;
    RecordSentParts(t, k, hash, at, listing);
  }

  /** A carrier that another intent with another reservation names was one before. */
  lemma CarrierAmongOthers(s: Stores, t: Stores, k: nat, m: nat, hash: string)
    requires k < |s.intents| && SentParts(s, t, k, hash) && FreshHash(s, hash)
    requires m < |t.intents| && m != k && NamesCarrier(t, m) && s.intents[m].reservationId != s.intents[k].reservationId
    ensures NamesCarrier(s, m)
  {
    var j :| 0 <= j < |t.nonces.reservations| && t.nonces.reservations[j].id == t.intents[m].reservationId
      && CarriesRow(t.rows, t.nonces.reservations[j]);
    var i :| 0 <= i < |t.rows| && t.nonces.reservations[j].txHash == Some(t.rows[i].txHash);
    assert s.nonces.reservations[j].txHash == Some(t.rows[i].txHash);
    assert i < |s.rows|;
    assert CarriesRow(s.rows, s.nonces.reservations[j]);
  }

  lemma FreeStepDisturbsNothing(s: Stores, step: Step)
    requires Inv(s) && PendingFree(s) && Enabled(s, step) && HandsOutFree(s, step)
    ensures !Disturbs(s, step)
  {
    hide Inv, HandedOut;
    if step.Work? && NamesOpenCarrier(s, step.k) {
      OpenIsCarrier(s, step.k);
    }
  }

  lemma OpenIsCarrier(s: Stores, k: nat)
    requires k < |s.intents| && NamesOpenCarrier(s, k)
    ensures NamesCarrier(s, k)
  {
  }

  lemma StepKeepsFree(s: Stores, step: Step)
    requires Inv(s) && PendingFree(s) && Enabled(s, step) && HandsOutFree(s, step)
    ensures PendingFree(Apply(s, step))
  {
    hide Inv, PendingFree, AfterSend, AfterSync, Process, HandsOutFree, Quiet;
    match step
    case Send(e) => SendKeepsFree(s, e);
    case Claim =>
      ClaimQuiet(s);
      QuietKeepsFree(s, AfterClaim(s));
    case Work(k, o, listing) =>
      if Succeeds(o) {
        SuccessKeepsFree(s, k, o, listing);
      } else {
        FailureQuiet(s, k, o, listing);
        QuietKeepsFree(s, Process(s, k, o, listing));
      }
    case Sync(i, v) =>
      SyncQuiet(s, i, v);
      QuietKeepsFree(s, AfterSync(s, i, v));
  }

  lemma ClaimQuiet(s: Stores)
    ensures Quiet(s, AfterClaim(s)) && |AfterClaim(s).intents| == |s.intents|
  {
  }

  ghost predicate FreeRun(s: Stores, steps: seq<Step>)
    requires EnabledRun(s, steps)
    decreases |steps|
  {
    steps == [] || (HandsOutFree(s, steps[0]) && FreeRun(Apply(s, steps[0]), steps[1..]))
  }

  /** If no request is handed a reservation in use, the reservations fit in the whole run. */
  lemma {:induction false} FreeRunFits(s: Stores, steps: seq<Step>)
    requires Inv(s) && Fits(s) && PendingFree(s) && EnabledRun(s, steps) && FreeRun(s, steps)
    ensures FitsThroughout(s, steps)
    decreases |steps|
  {
    hide Inv, Fits, PendingFree, Apply, Enabled, HandsOutFree, Disturbs;
    if steps != [] {
      FreeStepDisturbsNothing(s, steps[0]);
      StepFitsIff(s, steps[0]);
      StepKeepsInv(s, steps[0]);
      StepKeepsFree(s, steps[0]);
      FreeRunFits(Apply(s, steps[0]), steps[1..]);
    }
  }

  // ---------- And nothing less ----------

  /** Some run without another shared request breaks the fit. */
  ghost predicate CanBreak(s: Stores)
  {
    exists steps: seq<Step> :: EnabledRun(s, steps) && FreeRun(s, steps) && !FitsThroughout(s, steps)
  }

  lemma RunStarts(s: Stores, step: Step, rest: seq<Step>)
    requires Enabled(s, step) && EnabledRun(Apply(s, step), rest)
    ensures EnabledRun(s, [step] + rest) && Run(s, [step] + rest) == Run(Apply(s, step), rest)
    ensures FitsThroughout(s, [step] + rest) ==> FitsThroughout(Apply(s, step), rest)
    ensures HandsOutFree(s, step) && FreeRun(Apply(s, step), rest) ==> FreeRun(s, [step] + rest)
  {
    hide Apply, Enabled, Fits, HandsOutFree;
    assert ([step] + rest)[1..] == rest;
  }

  lemma CanBreakBefore(s: Stores, step: Step)
    requires Enabled(s, step) && !step.Send? && CanBreak(Apply(s, step))
    ensures CanBreak(s)
  {
    hide Apply, Enabled, FitsThroughout, FreeRun, EnabledRun;
    var rest: seq<Step> :| EnabledRun(Apply(s, step), rest) && FreeRun(Apply(s, step), rest)
      && !FitsThroughout(Apply(s, step), rest);
    RunStarts(s, step, rest);
  }

  lemma UnfitCanBreak(s: Stores)
    requires !Fits(s)
    ensures CanBreak(s)
  {
    hide Fits;
    assert EnabledRun(s, []) && FreeRun(s, []) && !FitsThroughout(s, []);
  }

  lemma ClaimIsEnabled(s: Stores)
    ensures Enabled(s, Claim) && Apply(s, Claim) == AfterClaim(s)
  {
  }

  lemma KeptByClaim(s: Stores)
    requires Inv(s) && Fits(s)
    ensures Inv(AfterClaim(s)) && Fits(AfterClaim(s))
  {
    hide Inv, Fits;
    StepKeepsInv(s, Claim);
    StepFitsIff(s, Claim);
    ClaimFits(s);
  }

  /** A claim shortens the queue and leaves every pending intent pending, with what it names. */
  lemma ClaimShortens(s: Stores, k: nat)
    requires k < |s.intents| && s.intents[k].status.Queued?
    ensures var t := AfterClaim(s);
            && CountQueued(t.intents) < CountQueued(s.intents)
            && t.rows == s.rows && t.nonces == s.nonces && |t.intents| == |s.intents|
            && forall m :: 0 <= m < |s.intents| ==>
                 (Pending(t.intents[m]) <==> Pending(s.intents[m])) && t.intents[m].reservationId == s.intents[m].reservationId
  {
    var c := Intents.OldestQueued(s.intents);
    CountAfterChange(s.intents, c, AfterClaim(s).intents[c]);
  }

  /** A pending intent that names a carrier breaks the fit once its signature fails. */
  lemma {:induction false} CarrierBreaks(s: Stores, k: nat)
    requires Inv(s) && Fits(s) && k < |s.intents| && Pending(s.intents[k]) && NamesCarrier(s, k)
    ensures CanBreak(s)
    decreases CountQueued(s.intents)
  {
    hide Inv, Fits, Apply, CanBreak, CountQueued, AfterClaim;
    if s.intents[k].status.Queued? {
      KeptByClaim(s);
      ClaimShortens(s, k);
      CarrierBreaks(AfterClaim(s), k);
      ClaimIsEnabled(s);
      CanBreakBefore(s, Claim);
    } else {
      var step := Work(k, SignFailed(""), []);
      StepFitsIff(s, step);
      UnfitCanBreak(Apply(s, step));
      CanBreakBefore(s, step);
    }
  }

  lemma {:induction false} LongerThanAll(used: set<string>) returns (n: nat)
    ensures forall h :: h in used ==> |h| < n
    decreases |used|
  {
    if used == {} {
      n := 0;
    } else {
      var h :| h in used;
      n := LongerThanAll(used - {h});
      n := Max(n, |h| + 1);
    }
  }

  /** There is always a hash that no store knows. */
  lemma SomeFreshHash(s: Stores) returns (hash: string)
    ensures FreshHash(s, hash)
  {
    var inRows := set i | 0 <= i < |s.rows| :: s.rows[i].txHash;
    var inLogs := set j | 0 <= j < |s.transfers| && s.transfers[j].txHash.Some? :: s.transfers[j].txHash.value;
    var inIntents := set k | 0 <= k < |s.intents| && s.intents[k].txHash.Some? :: s.intents[k].txHash.value;
    var xs := s.nonces.reservations;
    var inReservations := set j | 0 <= j < |xs| && xs[j].txHash.Some? :: xs[j].txHash.value;
    var n := LongerThanAll(inRows + inLogs + inIntents + inReservations);
    hash := seq(n + 1, _ => 'x');
    assert hash[0] == 'x' && hash[n] == 'x';
    Text.TrimKeepsSolidEnds(hash);
    assert hash !in inRows && hash !in inLogs && hash !in inIntents && hash !in inReservations;
  }

  lemma IntentsNameIds(s: Stores, k: nat)
    requires Inv(s) && k < |s.intents|
    ensures HasId(s.nonces.reservations, s.intents[k].reservationId)
  {
    assert Ready(s, s.intents[k]);
  }

  lemma SuccessAddsRow(s: Stores, k: nat, o: Outcome, listing: seq<string>)
    requires Inv(s) && Enabled(s, Work(k, o, listing)) && Succeeds(o) && !o.recordFails
    ensures |Process(s, k, o, listing).rows| == |s.rows| + 1
  {
    hide Inv, RecordSent, Rows.Lists, Rows.Normalized, TransactionOf, SubmittedHash, Submit, CleanRows, ChainData;
    var hash := SubmittedHash(o).value;
    HashIsClean(s, hash);
    HashIsUnrecorded(s, hash);
    assert ChainData(s) && Nonces.Inv(s.nonces) && CleanRows(s.rows) by { InvForRecord(s); }
    SubmitKeepsRest(s, k, hash, o.at);
    RecordParts(Submit(s, k, hash), k, hash, o.at, listing);
  }

  /** After a recorded broadcast every intent of its reservation names a carrier. */
  lemma SentCarries(s: Stores, k: nat, m: nat, o: Outcome, listing: seq<string>)
    requires Inv(s) && Enabled(s, Work(m, o, listing)) && Succeeds(o) && !o.recordFails
    requires k < |s.intents| && k != m && Pending(s.intents[k]) && s.intents[k].reservationId == s.intents[m].reservationId
    ensures var t := Apply(s, Work(m, o, listing));
            k < |t.intents| && Pending(t.intents[k]) && NamesCarrier(t, k)
  {
    hide Inv, Process, SubmittedHash, FreshHash, Rows.Lists;
    var t, hash := Process(s, m, o, listing), SubmittedHash(o).value;
    SuccessParts(s, m, o, listing);
    SuccessAddsRow(s, m, o, listing);
    assert HasId(s.nonces.reservations, s.intents[k].reservationId) by { IntentsNameIds(s, k); }
    var j :| 0 <= j < |s.nonces.reservations| && s.nonces.reservations[j].id == s.intents[k].reservationId;
    assert t.nonces.reservations[j].txHash == Some(t.rows[|s.rows|].txHash);
    assert CarriesRow(t.rows, t.nonces.reservations[j]);
  }

  /** Two pending intents of one reservation break the fit: one sends, then the other names a carrier. */
  lemma {:induction false} SharedPendingBreaks(s: Stores, k: nat, m: nat)
    requires Inv(s) && Fits(s) && k < |s.intents| && m < |s.intents| && k != m
    requires Pending(s.intents[k]) && Pending(s.intents[m]) && s.intents[k].reservationId == s.intents[m].reservationId
    ensures CanBreak(s)
    decreases CountQueued(s.intents)
  {
    hide Inv, Fits, Apply, CanBreak, CountQueued, AfterClaim, NamesCarrier, FreshHash, Rows.Lists, Rows.Normalized;
    hide TransactionOf, Rows.StoreOrder;
    if s.intents[m].status.Queued? {
      KeptByClaim(s);
      ClaimShortens(s, m);
      SharedPendingBreaks(AfterClaim(s), k, m);
      ClaimIsEnabled(s);
      CanBreakBefore(s, Claim);
    } else {
      var hash := SomeFreshHash(s);
      HashIsClean(s, hash);
      var tx := Rows.Normalized(TransactionOf(s.intents[m], hash, 0));
      var o := Broadcast(hash, None, 0, false);
      Rows.StoreOrderLists(s.rows, tx);
      var step := Work(m, o, Rows.StoreOrder(s.rows, tx));
      StepKeepsInv(s, step);
      if Fits(Apply(s, step)) {
        SentCarries(s, k, m, o, Rows.StoreOrder(s.rows, tx));
        CarrierBreaks(Apply(s, step), k);
      } else {
        UnfitCanBreak(Apply(s, step));
      }
      CanBreakBefore(s, step);
    }
  }

  lemma SharedQueueBreaks(s: Stores, e: SendRequest)
    requires Inv(s) && FreshSend(s, e) && e.decision.Queue? && HandedOut(s, e).Ok? && !HandsOutFree(s, Send(e))
    requires Inv(AfterSend(s, e)) && Fits(AfterSend(s, e))
    ensures CanBreak(AfterSend(s, e))
  {
    hide Inv, Fits, HandedOut, AfterSend, CanBreak, NewLog, Nonces.FreshId;
    SendAdds(s, e);
    var t, x, k := AfterSend(s, e), HandedOut(s, e).value, |s.intents|;
    assert t.intents[k] == NewIntent(e, x.id);
    if CarriesRow(s.rows, x) {
      assert x in s.nonces.reservations && x in t.nonces.reservations;
      var j :| 0 <= j < |t.nonces.reservations| && t.nonces.reservations[j] == x;
      assert NamesCarrier(t, k);
      CarrierBreaks(t, k);
    } else {
      var m :| 0 <= m < |s.intents| && Pending(s.intents[m]) && s.intents[m].reservationId == x.id;
      SharedPendingBreaks(t, k, m);
    }
  }

  /**
   Queueing a request is safe for every later run without a shared request if and only if the reservation it is
   handed is in no other use.
   */
  lemma QueueIsSafeIff(s: Stores, e: SendRequest)
    requires Inv(s) && Fits(s) && PendingFree(s) && FreshSend(s, e) && e.decision.Queue? && HandedOut(s, e).Ok?
    ensures !CanBreak(AfterSend(s, e)) <==> HandsOutFree(s, Send(e))
  {
    hide Inv, Fits, PendingFree, HandsOutFree, AfterSend, FreeRun, EnabledRun, FitsThroughout;
    var t := AfterSend(s, e);
    StepKeepsInv(s, Send(e));
    StepFitsIff(s, Send(e));
    if HandsOutFree(s, Send(e)) {
      SendKeepsFree(s, e);
      forall steps: seq<Step> | EnabledRun(t, steps) && FreeRun(t, steps) ensures FitsThroughout(t, steps) {
        FreeRunFits(t, steps);
      }
    } else {
      SharedQueueBreaks(s, e);
    }
  }

  // ---------- The input that breaks it ----------

  const ACTION := Nonces.Request("w", 1, "trace", None)

  function Ask(reservationId: string, logId: string, intentId: string): SendRequest
  {
    SendRequest(Nonces.InMemory, ACTION, 0, Some("0"), 5, 0, Queue, reservationId, logId, intentId)
  }

  const FIRST := Ask("r1", "l1", "i1")
  const SECOND := Ask("r2", "l2", "i2")
  const SENT_FIRST := Broadcast("0xa", None, 1, false)
  const SENT_SECOND := Broadcast("0xb", None, 2, false)

  /** Two requests of one action id, each claimed and broadcast. */
  const OPENING := [Send(FIRST), Claim, Work(0, SENT_FIRST, [])]
  const TWICE := OPENING + [Send(SECOND), Claim, Work(1, SENT_SECOND, ["0xa"])]

  function LogWith(id: string, status: WorkflowStatus, hash: Option<string>): Transfers.TransferLog
  {
    Transfers.TransferLog(id, "w", status, hash, Some("0"), NO_BLOCK, None, None)
  }

  function IntentWith(id: string, logId: string, status: Intents.IntentStatus, hash: Option<string>): Intents.Intent
  {
    Intents.Intent(id, status, "w", "1", "r1", logId, Some("0"), 5, 0, hash, None)
  }

  function Shared(status: Nonces.Status, hash: Option<string>): Nonces.NonceState
  {
    Nonces.NonceState(map[("w", 1) := 1], [Nonces.Reservation("r1", "w", 1, 0, "trace", status, hash)])
  }

  const FIRST_ROW := Rows.ChainRow("1", "0xa", "w", Some("0"), 5, 1, Submitted, NO_BLOCK, None, None)

  const QUEUED := Stores([], map[], map[], map[], [LogWith("l1", PendingBroadcast, None)], Shared(Nonces.Reserved, None),
                         [IntentWith("i1", "l1", Intents.Queued, None)])
  const SENT := Stores([FIRST_ROW], map[], map[], map[], [LogWith("l1", Chain(Submitted), Some("0xa"))],
                       Shared(Nonces.Submitted, Some("0xa")),
                       [IntentWith("i1", "l1", Intents.SubmittedIntent, Some("0xa"))])
  const AGAIN := SENT.(transfers := SENT.transfers + [LogWith("l2", PendingBroadcast, None)],
                       intents := SENT.intents + [IntentWith("i2", "l2", Intents.Queued, None)])

  lemma SmallTexts()
    ensures Text.NatToText(1) == "1" && NormalizeNullable(Some("0")) == Some("0")
    ensures CleanHash("0xa") && CleanHash("0xb")
  {
    Text.TrimKeepsSolidEnds("0");
    Text.TrimKeepsSolidEnds("0xa");
    Text.TrimKeepsSolidEnds("0xb");
  }

  lemma FirstIsQueued()
    ensures Enabled(EMPTY, Send(FIRST)) && Apply(EMPTY, Send(FIRST)) == QUEUED
  {
    SmallTexts();
    hide Text.NatToText, NormalizeNullable, Text.Trim, Nonces.ActionKey;
  }

  lemma FirstIsSent()
    ensures var claimed := AfterClaim(QUEUED);
            Enabled(claimed, Work(0, SENT_FIRST, [])) && Apply(claimed, Work(0, SENT_FIRST, [])) == SENT
  {
    SmallTexts();
    hide Text.NatToText, Text.Trim;
    assert AfterClaim(QUEUED).intents == [IntentWith("i1", "l1", Intents.Approved, None)];
  }

  lemma SecondIsHandedTheFirst()
    ensures Enabled(SENT, Send(SECOND)) && HandedOut(SENT, SECOND) == Ok(SENT.nonces.reservations[0])
    ensures Apply(SENT, Send(SECOND)) == AGAIN
    ensures !HandsOutFree(SENT, Send(SECOND))
  {
    SmallTexts();
    hide Text.NatToText, NormalizeNullable, Text.Trim;
    assert Nonces.SameKey(SENT.nonces.reservations[0], ACTION);
    assert Nonces.FindByKey(SENT.nonces.reservations, ACTION) == 0;
    assert SENT.nonces.reservations[0].txHash == Some(SENT.rows[0].txHash);
    assert CarriesRow(SENT.rows, SENT.nonces.reservations[0]);
  }

  lemma SecondReplaces()
    ensures var claimed := AfterClaim(AGAIN);
            && Enabled(claimed, Work(1, SENT_SECOND, ["0xa"])) && Disturbs(claimed, Work(1, SENT_SECOND, ["0xa"]))
            && var t := Apply(claimed, Work(1, SENT_SECOND, ["0xa"]));
               |t.rows| == 2 && t.rows[0].status == Replaced
  {
    SmallTexts();
    hide Text.NatToText, Text.Trim;
    var claimed := AfterClaim(AGAIN);
    assert AGAIN.intents[..1] == [AGAIN.intents[0]];
    assert claimed.intents == [IntentWith("i1", "l1", Intents.SubmittedIntent, Some("0xa")),
                               IntentWith("i2", "l2", Intents.Approved, None)];
    assert claimed.nonces.reservations[0].txHash == Some(claimed.rows[0].txHash);
    assert CarriesRow(claimed.rows, claimed.nonces.reservations[0]);
    var tx := Rows.Normalized(TransactionOf(claimed.intents[1], "0xb", 2));
    assert Rows.IsReplaced(claimed.rows[0], tx);
    assert Rows.Lists(["0xa"], claimed.rows, tx);
  }

  lemma EmptyFits(s: Stores)
    ensures EnabledRun(s, []) && Run(s, []) == s && (FitsThroughout(s, []) <==> Fits(s))
  {
  }

  /** The first request is queued, claimed and broadcast. */
  lemma AfterOpening(rest: seq<Step>)
    requires EnabledRun(SENT, rest)
    ensures EnabledRun(EMPTY, OPENING + rest) && Run(EMPTY, OPENING + rest) == Run(SENT, rest)
    ensures FitsThroughout(EMPTY, OPENING + rest) ==> FitsThroughout(SENT, rest)
  {
    hide Run, EnabledRun, FitsThroughout, FreeRun, AfterClaim, Apply, Enabled, HandsOutFree, LogWith, IntentWith, Ask;
    FirstIsQueued();
    ClaimIsEnabled(QUEUED);
    FirstIsSent();
    var sent := Work(0, SENT_FIRST, []);
    RunStarts(AfterClaim(QUEUED), sent, rest);
    RunStarts(QUEUED, Claim, [sent] + rest);
    RunStarts(EMPTY, Send(FIRST), [Claim] + ([sent] + rest));
    assert OPENING + rest == [Send(FIRST)] + ([Claim] + ([sent] + rest));
  }

  /**
   The failing input: a client sends twice under one trace id. The second broadcast replaces the first transaction and
   takes its reservation away, so the replaced row has none left to be failed.
   */
  lemma TwiceUnderOneTrace()
    ensures EnabledRun(EMPTY, TWICE)
    ensures var t := Run(EMPTY, TWICE);
            && |t.rows| == 2 && t.rows[0].status == Replaced
            && !Fits(t) && !FitsThroughout(EMPTY, TWICE)
  {
    hide Fits, Disturbs, AfterClaim, AfterSend, Process, FreshSend, FreshHash, Rows.Lists, Inv, HandsOutFree;
    FirstIsQueued();
    FirstIsSent();
    SecondIsHandedTheFirst();
    SecondReplaces();
    SentIsConsistent();
    var last := Work(1, SENT_SECOND, ["0xa"]);
    var claimed := AfterClaim(AGAIN);
    StepFitsIff(claimed, last);
    EmptyFits(Apply(claimed, last));
    RunStarts(claimed, last, []);
    RunStarts(AGAIN, Claim, [last] + []);
    RunStarts(SENT, Send(SECOND), [Claim] + ([last] + []));
    assert [Send(SECOND), Claim, last] == [Send(SECOND)] + ([Claim] + ([last] + []));
    AfterOpening([Send(SECOND), Claim, last]);
  }

  lemma SentIsConsistent()
    ensures Inv(SENT) && Inv(AfterClaim(AGAIN)) && Fits(AfterClaim(AGAIN))
  {
    hide Apply, Enabled, Inv, Fits, Disturbs;
    EmptyIsConsistent();
    FirstIsQueued();
    FirstIsSent();
    SecondIsHandedTheFirst();
    FirstDisturbsNothing();
    StepKeepsInv(EMPTY, Send(FIRST));
    StepFitsIff(EMPTY, Send(FIRST));
    KeptByClaim(QUEUED);
    StepKeepsInv(AfterClaim(QUEUED), Work(0, SENT_FIRST, []));
    StepFitsIff(AfterClaim(QUEUED), Work(0, SENT_FIRST, []));
    StepKeepsInv(SENT, Send(SECOND));
    StepFitsIff(SENT, Send(SECOND));
    KeptByClaim(AGAIN);
  }

  lemma EmptyIsConsistent()
    ensures Inv(EMPTY) && Fits(EMPTY)
  {
  }

  lemma FirstDisturbsNothing()
    requires Enabled(EMPTY, Send(FIRST)) && Enabled(AfterClaim(QUEUED), Work(0, SENT_FIRST, []))
    requires Enabled(SENT, Send(SECOND))
    ensures !Disturbs(EMPTY, Send(FIRST)) && !Disturbs(AfterClaim(QUEUED), Work(0, SENT_FIRST, []))
    ensures !Disturbs(SENT, Send(SECOND))
  {
  }

  // ---------- The same transaction after it was dropped ----------

  /** The node knows nothing of the transaction, long after it was recorded. */
  const FORGOTTEN := NodeView(None, None, None, None, false, map[], 0, 1 + DROP_AFTER_MS)
  const FORGET := Sync(0, FORGOTTEN)

  const DROPPED := SENT.(rows := [FIRST_ROW.(status := Dropped)],
                         transfers := [LogWith("l1", Chain(Dropped), Some("0xa"))],
                         nonces := Shared(Nonces.Failed, Some("0xa")),
                         intents := [IntentWith("i1", "l1", Intents.FailedIntent, Some("0xa"))
                                       .(errorCode := Some("TX_DROPPED"))])
  const ASKED_AGAIN := DROPPED.(transfers := DROPPED.transfers + [LogWith("l2", PendingBroadcast, None)],
                                intents := DROPPED.intents + [IntentWith("i2", "l2", Intents.Queued, None)])
  const SENT_AGAIN := Broadcast("0xa", None, 2, false)

  lemma FirstIsDropped()
    ensures Enabled(SENT, FORGET) && Apply(SENT, FORGET) == DROPPED
  {
    SmallTexts();
    hide Text.NatToText, Text.Trim;
  }

  lemma AskedAgain()
    ensures Enabled(DROPPED, Send(SECOND)) && Apply(DROPPED, Send(SECOND)) == ASKED_AGAIN
  {
    SmallTexts();
    hide Text.NatToText, NormalizeNullable, Text.Trim;
    assert Nonces.SameKey(DROPPED.nonces.reservations[0], ACTION);
    assert Nonces.FindByKey(DROPPED.nonces.reservations, ACTION) == 0;
  }

  lemma SecondIsClaimed()
    ensures AfterClaim(ASKED_AGAIN) ==
              ASKED_AGAIN.(intents := DROPPED.intents + [IntentWith("i2", "l2", Intents.Approved, None)])
  {
    assert ASKED_AGAIN.intents[..1] == [ASKED_AGAIN.intents[0]];
  }

  lemma DroppedRun()
    ensures EnabledRun(EMPTY, OPENING + [FORGET, Send(SECOND), Claim])
    ensures Run(EMPTY, OPENING + [FORGET, Send(SECOND), Claim]) == AfterClaim(ASKED_AGAIN)
  {
    hide AfterClaim, AfterSend, AfterSync, FreshSend;
    FirstIsDropped();
    AskedAgain();
    RunStarts(ASKED_AGAIN, Claim, []);
    RunStarts(DROPPED, Send(SECOND), [Claim] + []);
    RunStarts(SENT, FORGET, [Send(SECOND)] + ([Claim] + []));
    assert [FORGET, Send(SECOND), Claim] == [FORGET] + ([Send(SECOND)] + ([Claim] + []));
    AfterOpening([FORGET, Send(SECOND), Claim]);
  }

  /**
   A transaction is dropped, the client repeats the request, and the node takes the same signed transaction under the
   hash it had: the new log says submitted, and the row stays dropped, where no sync looks any more.
   */
  lemma ResentAfterDrop()
    ensures EnabledRun(EMPTY, OPENING + [FORGET, Send(SECOND), Claim])
    ensures var s := Run(EMPTY, OPENING + [FORGET, Send(SECOND), Claim]);
            && Inv(s) && |s.intents| == 2 && s.intents[1].status.Approved?
            && var t := Process(s, 1, SENT_AGAIN, []);
               !Agree(t) && t.rows == s.rows && |t.rows| == 1 && !IsSyncable(t.rows[0].status)
  {
    hide Inv, AfterClaim, Process, Agree, Submit, Run, EnabledRun;
    var s := AfterClaim(ASKED_AGAIN);
    DroppedRun();
    StartsConsistent(OPENING + [FORGET, Send(SECOND), Claim]);
    SecondIsClaimed();
    SmallTexts();
    assert CleanRows(s.rows);
    ResentIsNotRecorded(s, 1, SENT_AGAIN, [], 0);
    SubmitLeavesRows(s, 1, "0xa");
    ResentAgreesIff(s, 1, SENT_AGAIN, [], 0);
  }
}
