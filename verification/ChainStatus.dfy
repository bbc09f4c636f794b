/** Statuses of chain transactions and finality by depth: lib/chain-transactions.ts. */
module ChainStatus {
  import opened Prelude
  import Text = Decimals

  datatype Status =
    | Submitted
    | Included
    | SoftConfirmed
    | FinalConfirmed
    | Reorged
    | Failed
    | Replaced
    | Dropped

  /** A transfer log is either still before the chain, refused, or in a chain status. */
  datatype WorkflowStatus = Created | PendingBroadcast | Denied | Review | Chain(status: Status)

  const FINAL_CONFIRMATIONS: nat := 12
  const DROP_AFTER_MS: nat := 10 * 60 * 1000

  predicate IsActiveSpend(s: Status)
  {
    s.Submitted? || s.Included? || s.SoftConfirmed? || s.FinalConfirmed?
  }

  predicate IsSyncable(s: Status) { IsActiveSpend(s) || s.Reorged? }

  predicate HasCanonicalInclusion(s: Status)
  {
    s.Included? || s.SoftConfirmed? || s.FinalConfirmed?
  }

  /** `getEvmTransactionFinality`: status and confirmation count at the current height. */
  function Finality(currentBlock: int, includedBlock: Option<int>): (Status, nat)
  {
    if includedBlock.None? || includedBlock.value < 0 then (Included, 1)
    else
      var confirmations := Max(1, currentBlock - includedBlock.value + 1);
      if confirmations >= FINAL_CONFIRMATIONS then (FinalConfirmed, confirmations)
      else if confirmations >= 2 then (SoftConfirmed, confirmations)
      else (Included, confirmations)
  }

  /** The confirmation counts a status may carry. */
  predicate CountFits(s: Status, confirmations: nat)
  {
    match s
    case Included => confirmations == 1
    case SoftConfirmed => 2 <= confirmations < FINAL_CONFIRMATIONS
    case FinalConfirmed => confirmations >= FINAL_CONFIRMATIONS
    case Replaced => true
    case _ => confirmations == 0
  }

  /** Block data stored with a transaction. */
  datatype BlockFields = BlockFields(
    height: Option<int>,
    hash: Option<string>,
    gasUsed: Option<nat>,
    confirmedAt: Option<int>,
    confirmations: nat)

  const NO_BLOCK := BlockFields(None, None, None, None, 0)

  /** A hash that trimming leaves alone. */
  predicate CleanHash(h: string) { h != "" && Text.Trim(h) == h }

  /** `normalizeNullableString`. */
  function NormalizeNullable(s: Option<string>): Option<string>
  {
    if s.None? || Text.Trim(s.value) == "" then None else Some(Text.Trim(s.value))
  }

  /** Trimmed hashes, without the empty ones. */
  function CleanHashes(hashes: seq<string>): seq<string>
  {
    if hashes == [] then []
    else
      var h := Text.Trim(hashes[0]);
      (if h == "" then [] else [h]) + CleanHashes(hashes[1..])
  }

  lemma {:induction false} CleanHashesUnchanged(hashes: seq<string>)
    requires forall i :: 0 <= i < |hashes| ==> CleanHash(hashes[i])
    ensures CleanHashes(hashes) == hashes
  {
    if hashes != [] {
      CleanHashesUnchanged(hashes[1..]);
    }
  }
}
