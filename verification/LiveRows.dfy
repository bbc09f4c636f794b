/**
 One live row for each nonce, over whole runs: services/wallet.service.ts:563-591 and the sync.

 A recorded transaction replaces the active rows of its nonce but not a reorged one, which may be included again.
 */
module LiveRows {
  import opened Prelude
  import opened ChainStatus
  import opened ChainSync
  import opened SigningWorker
  import opened Agreement
  import opened Lifecycle
  import opened SharedReservations
  import Rows = ChainRows
  import Nonces = NonceReservations
  import Intents = SigningIntents
  import Text = Decimals

  /** A broadcast is recorded while a reorged row holds its nonce. */
  ghost predicate Revivable(s: Stores, step: Step)
    requires Enabled(s, step)
  {
    step.Work? && Succeeds(step.outcome) && !step.outcome.recordFails
    && var tx := Rows.Normalized(TransactionOf(s.intents[step.k], SubmittedHash(step.outcome).value, step.outcome.at));
       exists i :: 0 <= i < |s.rows| && Rows.SharesSlot(s.rows[i], tx) && s.rows[i].status == Reorged
  }

  /** A sync never makes a second row of a nonce live: it only touches a row that is live already. */
  lemma SyncKeepsSingleLive(s: Stores, i: nat, v: NodeView)
    requires Rows.SingleLive(s.rows) && i < |s.rows| && IsSyncable(s.rows[i].status)
    ensures Rows.SingleLive(AfterSync(s, i, v).rows)
  {
    hide AfterSync;
    SyncIsOneSetRow(s, i, v);
    var rows, after := s.rows, AfterSync(s, i, v).rows;
    forall a, b | 0 <= a < b < |after| && Rows.SameSlot(after[a], after[b])
      ensures !(IsSyncable(after[a].status) && IsSyncable(after[b].status))
    {
      assert Rows.SameSlot(rows[a], rows[b]);
    }
  }

  /** A step keeps one live row for each nonce exactly when it does not record beside a reorged one. */
  lemma StepSingleLiveIff(s: Stores, step: Step)
    requires Inv(s) && Rows.SingleLive(s.rows) && Enabled(s, step)
    ensures Rows.SingleLive(Apply(s, step).rows) <==> !Revivable(s, step)
  {
    hide Rows.SingleLive, ChainData, Agree, Owned, Nonces.Inv, Rows.ReplacementInv, AfterSync, AfterSend, Process;
    match step
    case Send(e) => SendKeepsChain(s, e);
    case Claim => ClaimKeepsRows(s);
    case Work(k, o, listing) =>
      if Succeeds(o) && !o.recordFails {
        RecordedRows(s, k, o, listing);
      } else {
        UnrecordedKeepsRows(s, k, o, listing);
      }
    case Sync(i, v) => SyncKeepsSingleLive(s, i, v);
  }

  lemma RecordedRows(s: Stores, k: nat, o: Outcome, listing: seq<string>)
    requires Inv(s) && Rows.SingleLive(s.rows) && Enabled(s, Work(k, o, listing)) && Succeeds(o) && !o.recordFails
    ensures Rows.SingleLive(Process(s, k, o, listing).rows) <==> !Revivable(s, Work(k, o, listing))
  {
    hide Rows.SingleLive, Inv, RecordSent, Submit, Rows.Normalized;
    hide TransactionOf, SubmittedHash, Rows.Lists, Rows.Record;
    hide LogsAfterRecord, FreshHash, ChainData;
    assert ChainData(s) && Nonces.Inv(s.nonces) by { HasParts(s); }
    var hash := SubmittedHash(o).value;
    var tx := Rows.Normalized(TransactionOf(s.intents[k], hash, o.at));
    SubmitKeepsRest(s, k, hash, o.at);
    HashIsClean(s, hash);
    NormalizedParts(s.intents[k], hash, o.at);
    FreshIsUnrecorded(s, tx, listing);
    RecordSentParts(Submit(s, k, hash), k, hash, o.at, listing);
    Rows.SingleLiveIff(s.rows, tx, listing);
  }

  lemma HasParts(s: Stores)
    requires Inv(s)
    ensures ChainData(s) && Nonces.Inv(s.nonces)
  {
  }

  ghost predicate SingleLiveThroughout(s: Stores, steps: seq<Step>)
    requires EnabledRun(s, steps)
    decreases |steps|
  {
    Rows.SingleLive(s.rows) && (steps == [] || SingleLiveThroughout(Apply(s, steps[0]), steps[1..]))
  }

  ghost predicate NeverRevivable(s: Stores, steps: seq<Step>)
    requires EnabledRun(s, steps)
    decreases |steps|
  {
    steps == [] || (!Revivable(s, steps[0]) && NeverRevivable(Apply(s, steps[0]), steps[1..]))
  }

  lemma NotSingleAtOnce(s: Stores, steps: seq<Step>)
    requires EnabledRun(s, steps) && !Rows.SingleLive(s.rows)
    ensures !SingleLiveThroughout(s, steps)
  {
  }

  /** A run keeps one live row for each nonce if and only if it never records beside a reorged row of that nonce. */
  lemma {:induction false} RunSingleLiveIff(s: Stores, steps: seq<Step>)
    requires Inv(s) && Rows.SingleLive(s.rows) && EnabledRun(s, steps)
    ensures SingleLiveThroughout(s, steps) <==> NeverRevivable(s, steps)
    decreases |steps|
  {
    hide Inv, Apply, Enabled, Rows.SingleLive, Revivable;
    if steps != [] {
      StepSingleLiveIff(s, steps[0]);
      StepKeepsInv(s, steps[0]);
      if Rows.SingleLive(Apply(s, steps[0]).rows) {
        RunSingleLiveIff(Apply(s, steps[0]), steps[1..]);
      } else {
        NotSingleAtOnce(Apply(s, steps[0]), steps[1..]);
      }
    }
  }

  // ---------- The input that makes two rows live ----------

  const MINED := NodeView(Some(Receipt(Some("0xb1"), Some(10), true, None, [])), None, None, None, true, map[], 10, 2)
  const UNMINED := NodeView(None, None, None, None, true, map[], 10, 3)

  /** One transaction is sent, mined and thrown out again; a second one of the same action id is broadcast beside it. */
  const BESIDE := OPENING + [Sync(0, MINED), Sync(0, UNMINED), Send(SECOND), Claim, Work(1, SENT_SECOND, [])]

  const BLOCK := BlockFields(Some(10), Some("0xb1"), None, None, 1)

  const INCLUDED := SENT.(rows := [FIRST_ROW.(status := Included, block := BLOCK)],
                          index := map[("1", "0xa") := IndexRow(Included, Some(10), Some("0xb1"), None, 1)],
                          transfers := [LogWith("l1", Chain(Included), Some("0xa")).(block := BLOCK)])
  const THROWN_OUT := SENT.(rows := [FIRST_ROW.(status := Reorged)],
                            index := map[("1", "0xa") := IndexRow(Reorged, None, None, None, 0)],
                            transfers := [LogWith("l1", Chain(Reorged), Some("0xa"))])
  const ASKED_BESIDE := THROWN_OUT.(transfers := THROWN_OUT.transfers + [LogWith("l2", PendingBroadcast, None)],
                                    intents := THROWN_OUT.intents + [IntentWith("i2", "l2", Intents.Queued, None)])

  lemma FirstIsMined()
    ensures Enabled(SENT, Sync(0, MINED)) && Apply(SENT, Sync(0, MINED)) == INCLUDED
  {
    SmallTexts();
    Text.TrimKeepsSolidEnds("0xb1");
    hide Text.NatToText, Text.Trim;
  }

  lemma FirstIsThrownOut()
    ensures Enabled(INCLUDED, Sync(0, UNMINED)) && Apply(INCLUDED, Sync(0, UNMINED)) == THROWN_OUT
  {
    SmallTexts();
    hide Text.NatToText, Text.Trim;
  }

  lemma SecondIsAsked()
    ensures Enabled(THROWN_OUT, Send(SECOND)) && Apply(THROWN_OUT, Send(SECOND)) == ASKED_BESIDE
  {
    SmallTexts();
    hide Text.NatToText, NormalizeNullable, Text.Trim;
    assert Nonces.SameKey(THROWN_OUT.nonces.reservations[0], ACTION);
    assert Nonces.FindByKey(THROWN_OUT.nonces.reservations, ACTION) == 0;
  }

  lemma SecondGoesOutBeside()
    ensures var claimed, last := AfterClaim(ASKED_BESIDE), Work(1, SENT_SECOND, []);
            Enabled(claimed, last) && Revivable(claimed, last)
  {
    SmallTexts();
    hide Text.NatToText, Text.Trim;
    assert ASKED_BESIDE.intents[..1] == [ASKED_BESIDE.intents[0]];
    var claimed := AfterClaim(ASKED_BESIDE);
    assert claimed.intents == [ASKED_BESIDE.intents[0], IntentWith("i2", "l2", Intents.Approved, None)];
    assert Rows.SharesSlot(claimed.rows[0], Rows.Normalized(TransactionOf(claimed.intents[1], "0xb", 2)));
  }

  /** The failing input: the thrown out row is not replaced, so the sync looks at two rows of one nonce. */
  lemma TwoLiveRows()
    ensures EnabledRun(EMPTY, BESIDE) && !Rows.SingleLive(Run(EMPTY, BESIDE).rows)
  {
    hide AfterClaim, AfterSend, AfterSync, Process, FreshSend, FreshHash, Rows.Lists, Inv, HandsOutFree, Fits;
    hide Rows.SingleLive, Revivable;
    FirstIsMined();
    FirstIsThrownOut();
    SecondIsAsked();
    SecondGoesOutBeside();
    var last, claimed := Work(1, SENT_SECOND, []), AfterClaim(ASKED_BESIDE);
    var four := [Send(SECOND)] + ([Claim] + ([last] + []));
    RunStarts(claimed, last, []);
    RunStarts(ASKED_BESIDE, Claim, [last] + []);
    RunStarts(THROWN_OUT, Send(SECOND), [Claim] + ([last] + []));
    RunStarts(INCLUDED, Sync(0, UNMINED), four);
    RunStarts(SENT, Sync(0, MINED), [Sync(0, UNMINED)] + four);
    var rest := [Sync(0, MINED), Sync(0, UNMINED), Send(SECOND), Claim, last];
    assert rest == [Sync(0, MINED)] + ([Sync(0, UNMINED)] + four);
    AfterOpening(rest);
    OneRowIsSingle(claimed);
    EmptyFits(Apply(claimed, last));
    ClaimedIsConsistent();
    StepSingleLiveIff(claimed, last);
  }

  lemma OneRowIsSingle(s: Stores)
    ensures |s.rows| <= 1 ==> Rows.SingleLive(s.rows)
  {
  }

  lemma ClaimedIsConsistent()
    ensures Inv(AfterClaim(ASKED_BESIDE)) && |AfterClaim(ASKED_BESIDE).rows| == 1
  {
    hide Apply, Enabled, Inv, Fits, AfterClaim;
    SentIsConsistent();
    FirstIsMined();
    FirstIsThrownOut();
    SecondIsAsked();
    StepKeepsInv(SENT, Sync(0, MINED));
    StepKeepsInv(INCLUDED, Sync(0, UNMINED));
    StepKeepsInv(THROWN_OUT, Send(SECOND));
    ClaimIsEnabled(ASKED_BESIDE);
    StepKeepsInv(ASKED_BESIDE, Claim);
    ClaimKeepsRows(ASKED_BESIDE);
  }
}
