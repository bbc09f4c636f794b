/** The transfer log: services/transfer-log.service.ts. */
module TransferLogs {
  import opened Prelude
  import opened ChainStatus

  datatype TransferLog = TransferLog(
    id: string,
    walletId: string,
    status: WorkflowStatus,
    txHash: Option<string>,
    nonce: Option<string>,
    block: BlockFields,
    replacesTxHash: Option<string>,
    replacedByTxHash: Option<string>)

  /** A field left out of an update keeps its value. */
  datatype Change<+T> = Keep | Set(value: T)

  datatype TransferUpdate = TransferUpdate(
    status: Option<WorkflowStatus>,
    txHash: Change<Option<string>>,
    nonce: Change<Option<string>>,
    height: Change<Option<int>>,
    hash: Change<Option<string>>,
    gasUsed: Change<Option<nat>>,
    confirmedAt: Change<Option<int>>,
    confirmations: Change<nat>,
    replacesTxHash: Change<Option<string>>,
    replacedByTxHash: Change<Option<string>>)

  const NO_CHANGE := TransferUpdate(None, Keep, Keep, Keep, Keep, Keep, Keep, Keep, Keep, Keep)

  function Changed<T>(c: Change<T>, current: T): T
  {
    match c case Keep => current case Set(v) => v
  }

  function ChangedText(c: Change<Option<string>>, current: Option<string>): Option<string>
  {
    match c case Keep => current case Set(v) => NormalizeNullable(v)
  }

  /** `applyTransferLogUpdates`. */
  function ApplyUpdate(t: TransferLog, u: TransferUpdate): TransferLog
  {
    TransferLog(
      t.id,
      t.walletId,
      if u.status.Some? then u.status.value else t.status,
      ChangedText(u.txHash, t.txHash),
      ChangedText(u.nonce, t.nonce),
      BlockFields(
        Changed(u.height, t.block.height),
        ChangedText(u.hash, t.block.hash),
        Changed(u.gasUsed, t.block.gasUsed),
        Changed(u.confirmedAt, t.block.confirmedAt),
        Changed(u.confirmations, t.block.confirmations)),
      ChangedText(u.replacesTxHash, t.replacesTxHash),
      ChangedText(u.replacedByTxHash, t.replacedByTxHash))
  }

  /** The update a sync writes: status and all block fields. */
  function StatusAndBlock(status: Status, b: BlockFields): TransferUpdate
  {
    NO_CHANGE.(status := Some(Chain(status)), height := Set(b.height), hash := Set(b.hash),
               gasUsed := Set(b.gasUsed), confirmedAt := Set(b.confirmedAt), confirmations := Set(b.confirmations))
  }

  function ReplacedUpdate(replacedBy: string): TransferUpdate
  {
    NO_CHANGE.(status := Some(Chain(Replaced)), replacedByTxHash := Set(Some(replacedBy)))
  }

  /** Updates every log whose hash is among `hashes`. */
  function UpdateByHashes(ts: seq<TransferLog>, hashes: seq<string>, u: TransferUpdate): seq<TransferLog>
  {
    seq(|ts|, i requires 0 <= i < |ts| =>
      if ts[i].txHash.Some? && ts[i].txHash.value in hashes then ApplyUpdate(ts[i], u) else ts[i])
  }

  /** First position of the log with this id, or the length. */
  function FindLog(ts: seq<TransferLog>, id: string): (k: nat)
    ensures k <= |ts|
    ensures k < |ts| ==> ts[k].id == id
    ensures forall i :: 0 <= i < k ==> ts[i].id != id
  {
    if ts == [] || ts[0].id == id then 0 else 1 + FindLog(ts[1..], id)
  }

  function UpdateById(ts: seq<TransferLog>, id: string, u: TransferUpdate): seq<TransferLog>
  {
    var k := FindLog(ts, id);
    if k < |ts| then ts[k := ApplyUpdate(ts[k], u)] else ts
  }

  class TransferLogStore {
    var logs: seq<TransferLog>

    constructor ()
      ensures logs == []
    {
      logs := [];
    }

    method Append(t: TransferLog)
      modifies this
      ensures logs == old(logs) + [t]
    {
      logs := logs + [t];
    }

    /** `updateTransferStatus`: the first log with the id. */
    method UpdateTransferStatus(id: string, u: TransferUpdate)
      modifies this
      ensures logs == UpdateById(old(logs), id, u)
    {
      for i := 0 to |logs|
        invariant logs == old(logs)
        invariant forall j :: 0 <= j < i ==> logs[j].id != id
      {
        if logs[i].id == id {
          logs := logs[i := ApplyUpdate(logs[i], u)];
          return;
        }
      }
    }

    /** `updateTransferAttemptByTxHash`, `replaceTransferAttemptsByTxHashes`: overwrite each matching entry in turn. */
    method UpdateAttempts(hashes: seq<string>, u: TransferUpdate)
      modifies this
      ensures logs == UpdateByHashes(old(logs), CleanHashes(hashes), u)
    {
      var normalized := CleanHashes(hashes);
      ghost var before := logs;
      for i := 0 to |logs|
        invariant |logs| == |before|
        invariant forall j :: 0 <= j < i ==> logs[j] == UpdateByHashes(before, normalized, u)[j]
        invariant forall j :: i <= j < |before| ==> logs[j] == before[j]
      {
        if logs[i].txHash.Some? && logs[i].txHash.value in normalized {
          logs := logs[i := ApplyUpdate(logs[i], u)];
        }
      }
      assert logs == UpdateByHashes(before, normalized, u);
    }
  }
}
