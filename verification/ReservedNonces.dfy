/**
 Runs of the send route proper: every payload spends the nonce of the reservation its request was handed
 (app/api/wallet/send/route.ts:360-377).

 In such runs a broadcast replaces exactly the active transactions sent under its own reservation, which takes a
 repeated action id; a run replaces nothing if and only if no broadcast meets such a transaction.
 */
module ReservedNonces {
  import opened Prelude
  import opened ChainStatus
  import opened ChainSync
  import opened SigningWorker
  import opened Agreement
  import opened Lifecycle
  import Text = Decimals
  import Rows = ChainRows
  import Transfers = TransferLogs
  import Nonces = NonceReservations
  import Intents = SigningIntents

  /** The reservation holds the nonce the intent spends, for its wallet and network. */
  ghost predicate Backs(x: Nonces.Reservation, n: Intents.Intent)
  {
    && x.id == n.reservationId
    && x.walletId == n.walletId && n.networkId == Text.NatToText(x.chainId) && n.nonce == Some(Text.NatToText(x.nonce))
  }

  ghost predicate IntentBacked(xs: seq<Nonces.Reservation>, n: Intents.Intent)
  {
    exists j :: 0 <= j < |xs| && Backs(xs[j], n)
  }

  /** The row spends what the intent that sent it spends. */
  ghost predicate SentAs(n: Intents.Intent, r: Rows.ChainRow)
  {
    n.txHash == Some(r.txHash) ==>
      r.walletId == n.walletId && r.networkId == n.networkId && r.nonce == NormalizeNullable(n.nonce)
  }

  ghost predicate RowsSent(ns: seq<Intents.Intent>, rows: seq<Rows.ChainRow>)
  {
    forall m, i :: 0 <= m < |ns| && 0 <= i < |rows| ==> SentAs(ns[m], rows[i])
  }

  ghost predicate IntentsBacked(xs: seq<Nonces.Reservation>, ns: seq<Intents.Intent>)
  {
    forall k :: 0 <= k < |ns| ==> IntentBacked(xs, ns[k])
  }

  ghost predicate Backed(s: Stores)
  {
    RowsSent(s.intents, s.rows) && IntentsBacked(s.nonces.reservations, s.intents)
  }

  /** The request puts the nonce it was handed into its payload, and was handed one of its own wallet and chain. */
  ghost predicate SpendsReserved(s: Stores, step: Step)
  {
    step.Send? && HandedOut(s, step.request).Ok? ==>
      var e, x := step.request, HandedOut(s, step.request).value;
      && e.payloadNonce == Some(Text.NatToText(x.nonce))
      && x.walletId == e.nonceRequest.walletId && x.chainId == e.nonceRequest.chainId
  }

  /** Row i was sent under the reservation intent k names. */
  ghost predicate SentUnderSame(s: Stores, k: nat, i: nat)
    requires k < |s.intents| && i < |s.rows|
  {
    exists m :: 0 <= m < |s.intents| && s.intents[m].txHash == Some(s.rows[i].txHash)
      && s.intents[m].reservationId == s.intents[k].reservationId
  }

  /** A broadcast is recorded while an active transaction of its reservation is on record. */
  ghost predicate Resends(s: Stores, step: Step)
    requires Enabled(s, step)
  {
    step.Work? && Succeeds(step.outcome) && !step.outcome.recordFails
    && exists i :: 0 <= i < |s.rows| && IsActiveSpend(s.rows[i].status) && SentUnderSame(s, step.k, i)
  }

  lemma NumberIsTrimmed(n: nat)
    ensures NormalizeNullable(Some(Text.NatToText(n))) == Some(Text.NatToText(n))
  {
  }

  /** Intents that spend one nonce of one wallet and network name one reservation, and conversely. */
  lemma OneReservation(s: Nonces.NonceState, n: Intents.Intent, m: Intents.Intent)
    requires Nonces.Inv(s) && IntentBacked(s.reservations, n) && IntentBacked(s.reservations, m)
    ensures n.reservationId == m.reservationId <==>
              n.walletId == m.walletId && n.networkId == m.networkId && n.nonce == m.nonce
    ensures n.nonce.Some? && NormalizeNullable(n.nonce) == n.nonce
  {
    hide Text.NatToText, NormalizeNullable;
    var a :| 0 <= a < |s.reservations| && Backs(s.reservations[a], n);
    var b :| 0 <= b < |s.reservations| && Backs(s.reservations[b], m);
    var x, y := s.reservations[a], s.reservations[b];
    NumberIsTrimmed(x.nonce);
    Nonces.NumberTextInjective(x.chainId, y.chainId);
    Nonces.NumberTextInjective(x.nonce, y.nonce);
    if n.walletId == m.walletId && n.networkId == m.networkId && n.nonce == m.nonce {
      assert Nonces.SameWallet(x, y) && Nonces.SameWallet(y, x) && x.nonce == y.nonce;
    }
  }

  /** A broadcast replaces exactly the active transactions sent under its own reservation. */
  lemma ReplacedIff(s: Stores, k: nat, hash: string, at: int, i: nat)
    requires Inv(s) && Backed(s) && k < |s.intents| && FreshHash(s, hash) && i < |s.rows|
    ensures Rows.IsReplaced(s.rows[i], Rows.Normalized(TransactionOf(s.intents[k], hash, at))) <==>
              IsActiveSpend(s.rows[i].status) && SentUnderSame(s, k, i)
  {
    hide ChainData, Rows.ReplacementInv, Nonces.Inv, Owned, LogsAgree, IntentsAgree, IntentBacked, NormalizeNullable;
    var n, r := s.intents[k], s.rows[i];
    NormalizedParts(n, hash, at);
    assert HasIntent(s.intents, r.txHash);
    OneReservation(s.nonces, n, n);
    forall m | 0 <= m < |s.intents| && s.intents[m].txHash == Some(r.txHash)
      ensures Rows.SharesSlot(r, Rows.Normalized(TransactionOf(n, hash, at))) <==>
                s.intents[m].reservationId == n.reservationId
    {
      OneReservation(s.nonces, n, s.intents[m]);
      OneReservation(s.nonces, s.intents[m], n);
      assert SentAs(s.intents[m], r);
    }
  }

  lemma InvParts(s: Stores)
    requires Inv(s)
    ensures ChainData(s) && Rows.UniqueRows(s.rows) && Nonces.Inv(s.nonces) && Owned(s) && Agree(s)
  {
  }

  // ---------- The backing lasts ----------

  /** Reservations keep who they are. */
  ghost predicate Keeps(xs: seq<Nonces.Reservation>, ys: seq<Nonces.Reservation>)
  {
    |xs| <= |ys| && forall j :: 0 <= j < |xs| ==> Nonces.SameIdentity(xs[j], ys[j])
  }

  /** An intent keeps what it spends; a hash it gains is of no row before. */
  ghost predicate SameWork(n: Intents.Intent, m: Intents.Intent, rows: seq<Rows.ChainRow>)
  {
    && m == n.(status := m.status, txHash := m.txHash, errorCode := m.errorCode)
    && (m.txHash == n.txHash || forall i :: 0 <= i < |rows| ==> m.txHash != Some(rows[i].txHash))
  }

  lemma BackingStays(xs: seq<Nonces.Reservation>, ys: seq<Nonces.Reservation>, n: Intents.Intent, m: Intents.Intent)
    requires Keeps(xs, ys) && IntentBacked(xs, n)
    requires m == n.(status := m.status, txHash := m.txHash, errorCode := m.errorCode)
    ensures IntentBacked(ys, m)
  {
    var j :| 0 <= j < |xs| && Backs(xs[j], n);
    assert Nonces.SameIdentity(xs[j], ys[j]) && Backs(ys[j], m);
  }

  lemma BackedStays(s: Stores, t: Stores)
    requires Backed(s) && Keeps(s.nonces.reservations, t.nonces.reservations) && |t.intents| == |s.intents|
    requires forall k :: 0 <= k < |s.intents| ==> SameWork(s.intents[k], t.intents[k], s.rows)
    requires |t.rows| == |s.rows| && Rows.RowsGrow(s.rows, t.rows)
    ensures Backed(t)
  {
    hide IntentBacked, Keeps;
    forall k | 0 <= k < |t.intents| ensures IntentBacked(t.nonces.reservations, t.intents[k]) {
      assert SameWork(s.intents[k], t.intents[k], s.rows);
      BackingStays(s.nonces.reservations, t.nonces.reservations, s.intents[k], t.intents[k]);
    }
    forall m, i | 0 <= m < |t.intents| && 0 <= i < |t.rows| ensures SentAs(t.intents[m], t.rows[i]) {
      assert SameWork(s.intents[m], t.intents[m], s.rows) && Rows.SameRow(s.rows[i], t.rows[i]);
      assert SentAs(s.intents[m], s.rows[i]);
    }
  }

  lemma SetStatusStays(s: Stores, i: nat, status: Status, block: BlockFields, u: Transfers.TransferUpdate)
    requires i < |s.rows| && Backed(s)
    ensures Backed(SetStatus(s, i, status, block, u)) && |SetStatus(s, i, status, block, u).rows| == |s.rows|
  {
    hide IntentsBacked, RowsSent, CleanHashes;
    BackedStays(s, SetStatus(s, i, status, block, u));
  }

  lemma SameBacking(s: Stores, t: Stores)
    requires Backed(s) && t.rows == s.rows && t.nonces == s.nonces && t.intents == s.intents
    ensures Backed(t)
  {
  }

  lemma WithdrawStays(s: Stores, i: nat, status: Status)
    requires i < |s.rows| && Backed(s)
    ensures Backed(Withdraw(s, i, status)) && |Withdraw(s, i, status).rows| == |s.rows|
  {
    hide Backed, SetStatus;
    SetStatusStays(s, i, status, NO_BLOCK, Transfers.StatusAndBlock(status, NO_BLOCK));
    SameBacking(SetStatus(s, i, status, NO_BLOCK, Transfers.StatusAndBlock(status, NO_BLOCK)), Withdraw(s, i, status));
  }

  lemma SyncStays(s: Stores, i: nat, v: NodeView)
    requires Backed(s) && i < |s.rows|
    ensures Backed(AfterSync(s, i, v))
  {
    hide Backed, Withdraw, SetStatus, ReceiptBlock;
    var block := s.rows[i].block.(confirmations := 0);
    var back := Transfers.NO_CHANGE.(status := Some(Chain(Submitted)), confirmations := Transfers.Set(0));
    WithdrawStays(s, i, Reorged);
    WithdrawStays(s, i, Dropped);
    WithdrawStays(Withdraw(s, i, Reorged), i, Dropped);
    SetStatusStays(s, i, Submitted, block, back);
    if v.receipt.Some? {
      var r := v.receipt.value;
      var status, b := ReceiptStatus(r, v.currentBlock).0, ReceiptBlock(r, v);
      SetStatusStays(s, i, status, b, Transfers.StatusAndBlock(status, b));
      SameBacking(SetStatus(s, i, status, b, Transfers.StatusAndBlock(status, b)), OnReceipt(s, i, r, v));
    }
  }

  lemma SendStays(s: Stores, e: SendRequest)
    requires Inv(s) && Backed(s) && FreshSend(s, e) && SpendsReserved(s, Send(e))
    ensures Backed(AfterSend(s, e))
  {
    hide Inv, IntentBacked, Nonces.FreshId, AfterSend, SpendsReserved, HandedOut, NewLog;
    var t := AfterSend(s, e);
    SendAdds(s, e);
    if t != s {
      forall k | 0 <= k < |t.intents| ensures IntentBacked(t.nonces.reservations, t.intents[k]) {
        if k < |s.intents| {
          BackingStays(s.nonces.reservations, t.nonces.reservations, s.intents[k], t.intents[k]);
        } else {
          QueuedIsBacked(s, e);
        }
      }
      forall m, i | 0 <= m < |t.intents| && 0 <= i < |t.rows| ensures SentAs(t.intents[m], t.rows[i]) {
        assert m < |s.intents| ==> SentAs(s.intents[m], s.rows[i]);
      }
    }
  }

  lemma QueuedIsBacked(s: Stores, e: SendRequest)
    requires SpendsReserved(s, Send(e)) && HandedOut(s, e).Ok? && e.decision.Queue?
    ensures |AfterSend(s, e).intents| == |s.intents| + 1
    ensures IntentBacked(AfterSend(s, e).nonces.reservations, AfterSend(s, e).intents[|s.intents|])
  {
    hide Nonces.ReserveOn, NewLog, Text.NatToText;
    ReserveHandsOut(s, e);
    var x, ys, n := HandedOut(s, e).value, AfterSend(s, e).nonces.reservations, AfterSend(s, e).intents[|s.intents|];
    assert Backs(x, n) && x in ys;
  }

  lemma FailureStays(s: Stores, k: nat, o: Outcome, listing: seq<string>)
    requires Backed(s) && Owned(s) && k < |s.intents| && Pending(s.intents[k]) && !Succeeds(o)
    ensures Backed(Process(s, k, o, listing))
  {
    hide IntentsBacked, RowsSent, Transfers.UpdateById, Text.Trim, RecordSent;
    hide Submit, SubmittedHash, LogsOwned, OneHolder;
    assert Ready(s, s.intents[k]);
    BackedStays(s, Process(s, k, o, listing));
  }

  lemma SubmitStays(s: Stores, k: nat, hash: string)
    requires Backed(s) && k < |s.intents| && FreshHash(s, hash)
    ensures Backed(Submit(s, k, hash)) && |Submit(s, k, hash).intents| == |s.intents|
  {
    hide IntentsBacked, RowsSent, Transfers.UpdateById;
    BackedStays(s, Submit(s, k, hash));
  }

  /** The recorded row is what its intent spends; no other intent has its hash. */
  lemma RecordStays(s: Stores, k: nat, hash: string, at: int, listing: seq<string>)
    requires Inv(s) && Backed(s) && k < |s.intents| && FreshHash(s, hash)
    requires Backed(Submit(s, k, hash)) && |Submit(s, k, hash).intents| == |s.intents|
    requires Rows.Lists(listing, s.rows, Rows.Normalized(TransactionOf(s.intents[k], hash, at)))
    ensures Backed(RecordSent(Submit(s, k, hash), k, hash, at, listing))
  {
    hide Inv, ChainData, Nonces.Inv, Rows.Record, RecordSent;
    hide IntentBacked, LogsAfterRecord, Rows.IsReplaced, Rows.Lists;
    hide CleanHashes, Transfers.UpdateById;
    InvParts(s);
    HashIsClean(s, hash);
    var t := Submit(s, k, hash);
    SubmitKeepsRest(s, k, hash, at);
    RecordSentParts(t, k, hash, at, listing);
    var tx, u := Rows.Normalized(TransactionOf(t.intents[k], hash, at)), RecordSent(t, k, hash, at, listing);
    if Rows.Record(t.rows, tx, listing).Ok? {
      Rows.RecordRows(t.rows, tx, listing);
      forall m | 0 <= m < |u.intents| ensures IntentBacked(u.nonces.reservations, u.intents[m]) {
        BackingStays(t.nonces.reservations, u.nonces.reservations, t.intents[m], u.intents[m]);
      }
      forall m, i | 0 <= m < |u.intents| && 0 <= i < |u.rows| ensures SentAs(u.intents[m], u.rows[i]) {
        if i < |t.rows| {
          assert SentAs(t.intents[m], t.rows[i]);
        } else {
          NormalizedParts(t.intents[k], hash, at);
        }
      }
    }
  }

  lemma WorkStays(s: Stores, k: nat, o: Outcome, listing: seq<string>)
    requires Inv(s) && Backed(s) && Enabled(s, Work(k, o, listing))
    ensures Backed(Process(s, k, o, listing))
  {
    hide Backed, Inv, RecordSent, Submit, FailIntent, SubmittedHash, FreshHash, Rows.Normalized;
    InvParts(s);
    if Succeeds(o) {
      var hash := SubmittedHash(o).value;
      SubmitStays(s, k, hash);
      if !o.recordFails {
        RecordStays(s, k, hash, o.at, listing);
      }
    } else {
      FailureStays(s, k, o, listing);
    }
  }

  lemma ClaimStays(s: Stores)
    requires Backed(s)
    ensures Backed(AfterClaim(s))
  {
    hide IntentsBacked, RowsSent;
    BackedStays(s, AfterClaim(s));
  }

  lemma StepKeepsBacked(s: Stores, step: Step)
    requires Inv(s) && Backed(s) && Enabled(s, step) && SpendsReserved(s, step)
    ensures Backed(Apply(s, step))
  {
    hide Inv, Backed, AfterSend, AfterClaim, Process, AfterSync, SpendsReserved;
    match step
    case Send(e) => SendStays(s, e);
    case Claim => ClaimStays(s);
    case Work(k, o, listing) => WorkStays(s, k, o, listing);
    case Sync(i, v) => SyncStays(s, i, v);
  }

  // ---------- What a run replaces ----------

  ghost predicate NoneReplaced(rows: seq<Rows.ChainRow>)
  {
    forall i :: 0 <= i < |rows| ==> rows[i].status != Replaced
  }

  lemma SuccessReplacesIff(s: Stores, k: nat, o: Outcome, listing: seq<string>)
    requires Inv(s) && Backed(s) && NoneReplaced(s.rows) && Enabled(s, Work(k, o, listing)) && Succeeds(o) && !o.recordFails
    ensures NoneReplaced(Process(s, k, o, listing).rows) <==> !Resends(s, Work(k, o, listing))
  {
    hide Inv, Backed, RecordSent, Submit, Rows.Normalized, TransactionOf, SubmittedHash, SentUnderSame, Rows.Lists;
    hide LogsAfterRecord, Rows.Record, FreshHash, Rows.IsReplaced;
    InvParts(s);
    var hash := SubmittedHash(o).value;
    SubmitKeepsRest(s, k, hash, o.at);
    HashIsClean(s, hash);
    NormalizedParts(s.intents[k], hash, o.at);
    var tx := Rows.Normalized(TransactionOf(s.intents[k], hash, o.at));
    FreshIsUnrecorded(s, tx, listing);
    RecordSentParts(Submit(s, k, hash), k, hash, o.at, listing);
    Rows.RecordRows(s.rows, tx, listing);
    var after := Process(s, k, o, listing).rows;
    forall i | 0 <= i < |s.rows|
      ensures after[i].status == Replaced <==> IsActiveSpend(s.rows[i].status) && SentUnderSame(s, k, i)
    {
      ReplacedIff(s, k, hash, o.at, i);
    }
    assert after[|s.rows|].status == Submitted;
  }

  /** A step replaces something exactly when it broadcasts under a reservation with an active transaction. */
  lemma StepReplacesIff(s: Stores, step: Step)
    requires Inv(s) && Backed(s) && NoneReplaced(s.rows) && Enabled(s, step)
    ensures NoneReplaced(Apply(s, step).rows) <==> !Resends(s, step)
  {
    hide Inv, Backed, AfterSend, AfterClaim, Process, AfterSync, SentUnderSame;
    match step
    case Send(e) =>
      InvParts(s);
      SendKeepsChain(s, e);
    case Claim => ClaimKeepsRows(s);
    case Work(k, o, listing) =>
      if Succeeds(o) && !o.recordFails {
        SuccessReplacesIff(s, k, o, listing);
      } else {
        UnrecordedKeepsRows(s, k, o, listing);
      }
    case Sync(i, v) => SyncReplacesNothing(s, i, v);
  }

  lemma SyncReplacesNothing(s: Stores, i: nat, v: NodeView)
    requires i < |s.rows| && NoneReplaced(s.rows)
    ensures NoneReplaced(AfterSync(s, i, v).rows)
  {
    hide Nonces.Apply, IntentsByHash, Transfers.UpdateByHashes, Transfers.StatusAndBlock, ReceiptBlock;
    if v.receipt.Some? {
      ReceiptBlockHash(v.receipt.value, v);
    }
  }

  ghost predicate SpendsReservedRun(s: Stores, steps: seq<Step>)
    requires EnabledRun(s, steps)
    decreases |steps|
  {
    steps == [] || (SpendsReserved(s, steps[0]) && SpendsReservedRun(Apply(s, steps[0]), steps[1..]))
  }

  ghost predicate NeverResends(s: Stores, steps: seq<Step>)
    requires EnabledRun(s, steps)
    decreases |steps|
  {
    steps == [] || (!Resends(s, steps[0]) && NeverResends(Apply(s, steps[0]), steps[1..]))
  }

  /** A replaced row stays replaced. */
  lemma ReplacedForGood(s: Stores, steps: seq<Step>)
    requires Inv(s) && EnabledRun(s, steps) && !NoneReplaced(s.rows)
    ensures !NoneReplaced(Run(s, steps).rows)
  {
    hide ChainData, Agree, Owned, Nonces.Inv, Run, EnabledRun, Nonces.Grows;
    RunKeepsInv(s, steps);
    var i :| 0 <= i < |s.rows| && s.rows[i].status == Replaced;
    assert Rows.ForwardLink(s.rows, i) && Rows.SameRow(s.rows[i], Run(s, steps).rows[i]);
    assert Rows.ForwardLink(Run(s, steps).rows, i);
  }

  /** When every payload spends its reserved nonce, a run replaces nothing if and only if it never resends. */
  lemma {:induction false} RunReplacesIff(s: Stores, steps: seq<Step>)
    requires Inv(s) && Backed(s) && NoneReplaced(s.rows) && EnabledRun(s, steps) && SpendsReservedRun(s, steps)
    ensures NoneReplaced(Run(s, steps).rows) <==> NeverResends(s, steps)
    decreases |steps|
  {
    hide Inv, Backed, Apply, Enabled, SpendsReserved, NoneReplaced, Resends;
    if steps != [] {
      var t := Apply(s, steps[0]);
      StepKeepsInv(s, steps[0]);
      StepReplacesIff(s, steps[0]);
      if NoneReplaced(t.rows) {
        StepKeepsBacked(s, steps[0]);
        RunReplacesIff(t, steps[1..]);
      } else {
        ReplacedForGood(t, steps[1..]);
      }
    }
  }
}
