/** Signing intents: services/signing-intent.service.ts. */
module SigningIntents {
  import opened Prelude
  import opened ChainStatus
  import Text = Decimals

  datatype IntentStatus = Queued | Approved | Signed | SubmittedIntent | ConfirmedIntent | FailedIntent

  /** The payload names the reservation and the transfer log the worker has to update. */
  datatype Intent = Intent(
    id: string,
    status: IntentStatus,
    walletId: string,
    networkId: string,
    reservationId: string,
    transferLogId: string,
    nonce: Option<string>,
    amount: nat,
    createdAt: int,
    txHash: Option<string>,
    errorCode: Option<string>)

  /** `applyWalletSigningIntentUpdates` for the fields the state machine uses. */
  function SetIntent(n: Intent, status: IntentStatus, txHash: Option<Option<string>>, errorCode: Option<string>): Intent
  {
    n.(status := status,
       txHash := if txHash.Some? then NormalizeNullable(txHash.value) else n.txHash,
       errorCode := errorCode)
  }

  function SetIntentAt(ns: seq<Intent>, i: nat, status: IntentStatus, txHash: Option<Option<string>>,
                       errorCode: Option<string>): seq<Intent>
    requires i < |ns|
  {
    ns[i := SetIntent(ns[i], status, txHash, errorCode)]
  }

  function SetIntentsByHash(ns: seq<Intent>, hash: string, status: IntentStatus, errorCode: Option<string>): seq<Intent>
  {
    seq(|ns|, i requires 0 <= i < |ns| =>
      if ns[i].txHash == Some(hash) then SetIntent(ns[i], status, None, errorCode) else ns[i])
  }

  /** How many intents carry the hash. */
  ghost function CountByHash(ns: seq<Intent>, hash: string): nat
  {
    if ns == [] then 0
    else CountByHash(ns[..|ns| - 1], hash) + if ns[|ns| - 1].txHash == Some(hash) then 1 else 0
  }

  /** The oldest queued intent, the earliest stored among equals; the length when none is queued. */
  function OldestQueued(ns: seq<Intent>): (k: nat)
    ensures k <= |ns|
    ensures k < |ns| ==> ns[k].status == Queued
    ensures k < |ns| ==> forall i :: 0 <= i < |ns| && ns[i].status == Queued ==> ns[k].createdAt <= ns[i].createdAt
    ensures k < |ns| ==> forall i :: 0 <= i < k && ns[i].status == Queued ==> ns[k].createdAt < ns[i].createdAt
    ensures k == |ns| ==> forall i :: 0 <= i < |ns| ==> ns[i].status != Queued
  {
    if ns == [] then 0
    else
      var n := |ns| - 1;
      var front := OldestQueued(ns[..n]);
      if front == n then (if ns[n].status == Queued then n else n + 1)
      else if ns[n].status == Queued && ns[n].createdAt < ns[front].createdAt then n
      else front
  }

  function ClaimAt(ns: seq<Intent>, k: nat): seq<Intent>
    requires k < |ns|
  {
    ns[k := ns[k].(status := Approved)]
  }

  class IntentStore {
    var intents: seq<Intent>

    constructor ()
      ensures intents == []
    {
      intents := [];
    }

    method Append(n: Intent)
      modifies this
      ensures intents == old(intents) + [n]
    {
      intents := intents + [n];
    }

    /** `claimNextQueuedWalletSigningIntent` on the in-memory store; the position stands for the intent's id. */
    method ClaimNextQueued() returns (claimed: Option<nat>)
      modifies this
      ensures var k := OldestQueued(old(intents));
              if k == |old(intents)| then claimed == None && intents == old(intents)
              else claimed == Some(k) && intents == old(intents)[k := old(intents)[k].(status := Approved)]
    {
      var k := OldestQueued(intents);
      if k == |intents| { return None; }
      intents := ClaimAt(intents, k);
      return Some(k);
    }

    /** `updateWalletSigningIntent`. */
    method UpdateIntent(i: nat, status: IntentStatus, txHash: Option<Option<string>>, errorCode: Option<string>)
      requires i < |intents|
      modifies this
      ensures intents == SetIntentAt(old(intents), i, status, txHash, errorCode)
    {
      intents := SetIntentAt(intents, i, status, txHash, errorCode);
    }

    /** `updateWalletSigningIntentByTxHash`: overwrite each matching record while walking the map. */
    method UpdateIntentsByHash(hash: string, status: IntentStatus, errorCode: Option<string>) returns (updated: nat)
      modifies this
      ensures intents == if Text.Trim(hash) == "" then old(intents)
                         else SetIntentsByHash(old(intents), Text.Trim(hash), status, errorCode)
      ensures updated == if Text.Trim(hash) == "" then 0 else CountByHash(old(intents), Text.Trim(hash))
    {
      var normalized := Text.Trim(hash);
      updated := 0;
      if normalized == "" { return; }
      ghost var before := intents;
      for i := 0 to |intents|
        invariant |intents| == |before|
        invariant forall j :: 0 <= j < i ==> intents[j] == SetIntentsByHash(before, normalized, status, errorCode)[j]
        invariant forall j :: i <= j < |before| ==> intents[j] == before[j]
        invariant updated == CountByHash(before[..i], normalized)
      {
        assert before[..i + 1][..i] == before[..i];
        if intents[i].txHash == Some(normalized) {
          intents := intents[i := SetIntent(intents[i], status, None, errorCode)];
          updated := updated + 1;
        }
      }
      assert before[..|before|] == before;
      assert intents == SetIntentsByHash(before, normalized, status, errorCode);
    }
  }
}
