/**
 Reconciling transfer logs with chain transactions: services/cross-db-reconciliation.service.ts:252-276, 338-499.

 A pass reads the clock once. Its inputs are the rows its queries return, in the order they return them.
 */
module Reconciliation {
  import opened Prelude
  import opened ChainStatus
  import opened ReconciliationIssues
  import Text = Decimals
  import Nonces = NonceReservations

  // ---------- Hashes and lookup keys ----------

  /** `normalizeHash`, and `normalizeEvmAddress` alike. */
  function NormalizeHash(h: Option<string>): Option<string>
  {
    if h.None? then None
    else
      var n := Text.Lower(Text.Trim(h.value));
      if n == "" then None else Some(n)
  }

  /** `buildTxKey`; an empty hash prints as null. */
  function TxKey(networkId: string, txHash: string): string
  {
    networkId + ":" + match NormalizeHash(Some(txHash)) case Some(h) => h case None => "null"
  }

  /** A network id and hash as a transfer log asks for them. */
  ghost predicate Askable(networkId: string, hash: string)
  {
    (exists c: nat :: networkId == Text.NatToText(c)) && NormalizeHash(Some(hash)) == Some(hash)
  }

  /** A normal hash is its own normal form. */
  lemma NormalHashIsFixed(h: Option<string>)
    ensures var n := NormalizeHash(h);
            n.Some? ==> NormalizeHash(n) == n
  {
    if NormalizeHash(h).Some? {
      var trimmed := Text.Trim(h.value);
      var n := Text.Lower(trimmed);
      var front, back := Text.TrimIs(h.value);
      assert !Text.IsSpace(trimmed[0]) && !Text.IsSpace(trimmed[|trimmed| - 1]);
      assert n[0] == Text.LowerChar(trimmed[0]) && n[|n| - 1] == Text.LowerChar(trimmed[|trimmed| - 1]);
      Text.TrimKeepsSolidEnds(n);
      assert Text.Lower(n) == n;
    }
  }

  /** Lookup keys of different transactions differ. */
  lemma TxKeyInjective(n1: string, h1: string, n2: string, h2: string)
    requires Askable(n1, h1) && Askable(n2, h2) && TxKey(n1, h1) == TxKey(n2, h2)
    ensures n1 == n2 && h1 == h2
  {
    var c1: nat :| n1 == Text.NatToText(c1);
    var c2: nat :| n2 == Text.NatToText(c2);
    Nonces.NumberTextInjective(c1, c2);
    Nonces.NumberTextInjective(c2, c1);
    Nonces.FirstColonSplits(n1, h1, n2, h2);
  }

  // ---------- Transfer logs against chain transactions ----------

  datatype LogView = LogView(
    id: string,
    walletId: string,
    chainId: nat,
    toAddress: string,
    amount: int,
    status: WorkflowStatus,
    traceId: string,
    txHash: Option<string>,
    nonce: Option<string>,
    createdAt: int)

  datatype IntentView = IntentView(transferLogId: Option<string>, txHash: Option<string>)

  datatype TxView = TxView(
    networkId: string,
    txHash: string,
    status: Status,
    fromWalletId: string,
    toAddress: string,
    value: int,
    nonce: Option<string>)

  datatype Bucket = Bucket(checked: nat, missing: nat, mismatch: nat)

  /** First intent of the log; the newest, since intents come newest first. */
  function LatestIntent(ns: seq<IntentView>, logId: string): Option<IntentView>
  {
    if ns == [] then None
    else
      var earlier := LatestIntent(ns[..|ns| - 1], logId);
      var n := ns[|ns| - 1];
      if earlier.Some? then earlier
      else if n.transferLogId == Some(logId) && logId != "" then Some(n) else None
  }

  function EffectiveHash(log: LogView, ns: seq<IntentView>): Option<string>
  {
    if NormalizeHash(log.txHash).Some? then NormalizeHash(log.txHash)
    else
      match LatestIntent(ns, log.id)
      case None => None
      case Some(n) => NormalizeHash(n.txHash)
  }

  /** The chain row of this network and hash. */
  function FindTx(rows: seq<TxView>, networkId: string, hash: string): Option<TxView>
  {
    if rows == [] then None
    else
      var r := rows[|rows| - 1];
      if r.networkId == networkId && r.txHash == hash then Some(r) else FindTx(rows[..|rows| - 1], networkId, hash)
  }

  function ChainTxOf(log: LogView, ns: seq<IntentView>, rows: seq<TxView>): Option<TxView>
  {
    match EffectiveHash(log, ns)
    case None => None
    case Some(hash) => FindTx(rows, Text.NatToText(log.chainId), hash)
  }

  predicate ExpectsChainTx(s: WorkflowStatus)
  {
    s.Chain? && !s.status.Failed?
  }

  /** Old enough, on its way to the chain, and not there. */
  predicate IsMissing(log: LogView, ns: seq<IntentView>, rows: seq<TxView>, graceMs: int, now: int)
  {
    && now - log.createdAt >= graceMs
    && (EffectiveHash(log, ns).Some? || ExpectsChainTx(log.status))
    && ChainTxOf(log, ns, rows).None?
  }

  function Trimmed(s: Option<string>): string
  {
    if s.None? then "" else Text.Trim(s.value)
  }

  /** The log and its chain row tell different stories. */
  predicate Diverges(log: LogView, tx: TxView)
  {
    || tx.fromWalletId != log.walletId
    || NormalizeHash(Some(tx.toAddress)) != NormalizeHash(Some(log.toAddress))
    || tx.value != log.amount
    || (Trimmed(log.nonce) != "" && Trimmed(tx.nonce) != "" && Trimmed(log.nonce) != Trimmed(tx.nonce))
    || log.status != Chain(tx.status)
  }

  predicate IsMismatched(log: LogView, ns: seq<IntentView>, rows: seq<TxView>)
  {
    var tx := ChainTxOf(log, ns, rows);
    tx.Some? && Diverges(log, tx.value)
  }

  function Reason(holds: bool, reason: string): seq<string> { if holds then [reason] else [] }

  function MismatchReasons(log: LogView, tx: Option<TxView>): (r: seq<string>)
    ensures r != [] <==> tx.Some? && Diverges(log, tx.value)
  {
    if tx.None? then []
    else
      Reason(tx.value.fromWalletId != log.walletId, "from_wallet_mismatch")
      + Reason(NormalizeHash(Some(tx.value.toAddress)) != NormalizeHash(Some(log.toAddress)), "to_address_mismatch")
      + Reason(tx.value.value != log.amount, "amount_mismatch")
      + Reason(Trimmed(log.nonce) != "" && Trimmed(tx.value.nonce) != "" && Trimmed(log.nonce) != Trimmed(tx.value.nonce),
               "nonce_mismatch")
      + Reason(log.status != Chain(tx.value.status), "status_mismatch")
  }

  function MissingCheck(log: LogView, ns: seq<IntentView>, rows: seq<TxView>, graceMs: int, now: int): Check
  {
    Check(IssueKey(MissingChainTransaction, log.id), IsMissing(log, ns, rows, graceMs, now), Some(log.traceId), [], now)
  }

  function MismatchCheck(log: LogView, ns: seq<IntentView>, rows: seq<TxView>, now: int): Check
  {
    var reasons := MismatchReasons(log, ChainTxOf(log, ns, rows));
    Check(IssueKey(ChainTransactionMismatch, log.id), reasons != [], Some(log.traceId), reasons, now)
  }

  function ChecksOf(log: LogView, ns: seq<IntentView>, rows: seq<TxView>, graceMs: int, now: int): seq<Check>
  {
    [MissingCheck(log, ns, rows, graceMs, now), MismatchCheck(log, ns, rows, now)]
  }

  /** The checks of a pass, two for each log. */
  function TransferChecks(logs: seq<LogView>, ns: seq<IntentView>, rows: seq<TxView>, graceMs: int, now: int): seq<Check>
  {
    if logs == [] then []
    else TransferChecks(logs[..|logs| - 1], ns, rows, graceMs, now) + ChecksOf(logs[|logs| - 1], ns, rows, graceMs, now)
  }

  lemma {:induction false} CheckPositions(logs: seq<LogView>, ns: seq<IntentView>, rows: seq<TxView>, graceMs: int, now: int,
                                          i: nat)
    ensures |TransferChecks(logs, ns, rows, graceMs, now)| == 2 * |logs|
    ensures i < |logs| ==>
              var cs := TransferChecks(logs, ns, rows, graceMs, now);
              cs[2 * i] == MissingCheck(logs[i], ns, rows, graceMs, now) && cs[2 * i + 1] == MismatchCheck(logs[i], ns, rows, now)
  {
    hide MissingCheck, MismatchCheck;
    if logs != [] {
      CheckPositions(logs[..|logs| - 1], ns, rows, graceMs, now, i);
    }
  }

  function CountMissing(logs: seq<LogView>, ns: seq<IntentView>, rows: seq<TxView>, graceMs: int, now: int): nat
  {
    if logs == [] then 0
    else
      var n := |logs| - 1;
      CountMissing(logs[..n], ns, rows, graceMs, now) + if IsMissing(logs[n], ns, rows, graceMs, now) then 1 else 0
  }

  function CountMismatched(logs: seq<LogView>, ns: seq<IntentView>, rows: seq<TxView>): nat
  {
    if logs == [] then 0
    else
      var n := |logs| - 1;
      CountMismatched(logs[..n], ns, rows) + if IsMismatched(logs[n], ns, rows) then 1 else 0
  }

  ghost predicate DistinctLogs(logs: seq<LogView>)
  {
    forall i, j :: 0 <= i < j < |logs| ==> logs[i].id != logs[j].id
  }

  lemma TransferKeysDistinct(logs: seq<LogView>, ns: seq<IntentView>, rows: seq<TxView>, graceMs: int, now: int)
    requires DistinctLogs(logs)
    ensures DistinctKeys(TransferChecks(logs, ns, rows, graceMs, now))
  {
    hide TransferChecks;
    var cs := TransferChecks(logs, ns, rows, graceMs, now);
    CheckPositions(logs, ns, rows, graceMs, now, 0);
    forall i: nat, j: nat | i < j < |cs| ensures cs[i].key != cs[j].key {
      CheckAt(logs, ns, rows, graceMs, now, i);
      CheckAt(logs, ns, rows, graceMs, now, j);
    }
  }

  lemma CheckAt(logs: seq<LogView>, ns: seq<IntentView>, rows: seq<TxView>, graceMs: int, now: int, i: nat)
    requires i < 2 * |logs|
    ensures i < |TransferChecks(logs, ns, rows, graceMs, now)|
    ensures TransferChecks(logs, ns, rows, graceMs, now)[i].key ==
              IssueKey(if i % 2 == 0 then MissingChainTransaction else ChainTransactionMismatch, logs[i / 2].id)
  {
    hide TransferChecks, IsMissing, MismatchReasons, ChainTxOf;
    CheckPositions(logs, ns, rows, graceMs, now, i / 2);
    assert i == 2 * (i / 2) || i == 2 * (i / 2) + 1;
  }

  // ---------- What a pass looks for ----------

  /** Without the space around it and in lower case, the text is this hash. */
  ghost predicate Names(h: Option<string>, hash: string)
  {
    h.Some? && hash != "" && Text.Lower(Text.Trim(h.value)) == hash
  }

  ghost predicate NamesNothing(h: Option<string>) { h.None? || Text.Trim(h.value) == "" }

  /** The first listed, and so the newest, intent of the log. */
  ghost predicate NewestIntent(ns: seq<IntentView>, logId: string, k: nat)
  {
    && logId != "" && k < |ns| && ns[k].transferLogId == Some(logId)
    && forall i :: 0 <= i < k ==> ns[i].transferLogId != Some(logId)
  }

  /** The log knows the hash of its transaction, by itself or through its newest intent. */
  ghost predicate KnowsHash(log: LogView, ns: seq<IntentView>, hash: string)
  {
    || Names(log.txHash, hash)
    || (NamesNothing(log.txHash) && exists k: nat :: NewestIntent(ns, log.id, k) && Names(ns[k].txHash, hash))
  }

  ghost predicate KnowsNoHash(log: LogView, ns: seq<IntentView>)
  {
    NamesNothing(log.txHash) && forall k: nat :: NewestIntent(ns, log.id, k) ==> NamesNothing(ns[k].txHash)
  }

  ghost predicate IsRowOf(rows: seq<TxView>, j: nat, log: LogView, hash: string)
  {
    j < |rows| && rows[j].networkId == Text.NatToText(log.chainId) && rows[j].txHash == hash
  }

  /** The last listed row of the transaction; the database has one. */
  ghost predicate TheRow(rows: seq<TxView>, j: nat, log: LogView, hash: string)
  {
    IsRowOf(rows, j, log, hash) && forall i: nat :: j < i ==> !IsRowOf(rows, i, log, hash)
  }

  /** A log in one of these statuses must have a transaction. */
  predicate MustHaveTransaction(s: WorkflowStatus)
  {
    s == Chain(Submitted) || s == Chain(Included) || s == Chain(SoftConfirmed) || s == Chain(FinalConfirmed)
    || s == Chain(Reorged) || s == Chain(Replaced) || s == Chain(Dropped)
  }

  /** Log and row agree in wallet, address, amount, nonce (where both give one) and status. */
  ghost predicate SameStory(log: LogView, tx: TxView)
  {
    && tx.fromWalletId == log.walletId
    && Text.Lower(Text.Trim(tx.toAddress)) == Text.Lower(Text.Trim(log.toAddress))
    && tx.value == log.amount
    && (NamesNothing(log.nonce) || NamesNothing(tx.nonce) || Text.Trim(log.nonce.value) == Text.Trim(tx.nonce.value))
    && log.status == Chain(tx.status)
  }

  lemma {:induction false} LatestIsNewest(ns: seq<IntentView>, logId: string, k: nat)
    ensures NewestIntent(ns, logId, k) ==> LatestIntent(ns, logId) == Some(ns[k])
    ensures LatestIntent(ns, logId).Some? ==> exists m: nat :: NewestIntent(ns, logId, m)
  {
    if ns != [] {
      var n := |ns| - 1;
      LatestIsNewest(ns[..n], logId, k);
      if LatestIntent(ns[..n], logId).Some? {
        var m: nat :| NewestIntent(ns[..n], logId, m);
        assert NewestIntent(ns, logId, m);
      } else if LatestIntent(ns, logId).Some? {
        NoneEarlier(ns[..n], logId);
        assert NewestIntent(ns, logId, n);
      }
      if NewestIntent(ns, logId, k) && k < n {
        assert NewestIntent(ns[..n], logId, k);
      }
    }
  }

  lemma {:induction false} NoneEarlier(ns: seq<IntentView>, logId: string)
    requires LatestIntent(ns, logId).None? && logId != ""
    ensures forall i :: 0 <= i < |ns| ==> ns[i].transferLogId != Some(logId)
  {
    if ns != [] {
      NoneEarlier(ns[..|ns| - 1], logId);
    }
  }

  /** The hash a pass works with is the one the log knows. */
  lemma EffectiveIsKnown(log: LogView, ns: seq<IntentView>, hash: string)
    ensures EffectiveHash(log, ns) == Some(hash) <==> KnowsHash(log, ns, hash)
    ensures EffectiveHash(log, ns).None? <==> KnowsNoHash(log, ns)
  {
    hide LatestIntent, Text.Trim, Text.Lower;
    if log.txHash.Some? { LowerIsBlank(Text.Trim(log.txHash.value)); }
    LatestIsNewest(ns, log.id, 0);
    if LatestIntent(ns, log.id).Some? {
      var m: nat :| NewestIntent(ns, log.id, m);
      LatestIsNewest(ns, log.id, m);
      if ns[m].txHash.Some? { LowerIsBlank(Text.Trim(ns[m].txHash.value)); }
      forall k: nat | NewestIntent(ns, log.id, k) ensures k == m {}
    } else {
      forall k: nat ensures !NewestIntent(ns, log.id, k) {
        LatestIsNewest(ns, log.id, k);
      }
    }
  }

  lemma LowerIsBlank(t: string)
    ensures Text.Lower(t) == "" <==> t == ""
  {
  }

  lemma {:induction false} FoundIsTheRow(rows: seq<TxView>, log: LogView, hash: string, j: nat)
    ensures TheRow(rows, j, log, hash) ==> FindTx(rows, Text.NatToText(log.chainId), hash) == Some(rows[j])
    ensures FindTx(rows, Text.NatToText(log.chainId), hash).Some? ==> exists m: nat :: TheRow(rows, m, log, hash)
    ensures FindTx(rows, Text.NatToText(log.chainId), hash).None? ==> forall m: nat :: !IsRowOf(rows, m, log, hash)
  {
    hide Text.NatToText;
    if rows != [] {
      var n := |rows| - 1;
      FoundIsTheRow(rows[..n], log, hash, j);
      if IsRowOf(rows, n, log, hash) {
        assert TheRow(rows, n, log, hash);
      } else {
        forall m: nat ensures IsRowOf(rows, m, log, hash) <==> IsRowOf(rows[..n], m, log, hash) {}
        forall m: nat ensures TheRow(rows, m, log, hash) <==> TheRow(rows[..n], m, log, hash) {}
      }
    }
  }

  /** What `IsMissing` and `IsMismatched` come to. */
  lemma FindsWhatItLooksFor(log: LogView, ns: seq<IntentView>, rows: seq<TxView>, graceMs: int, now: int)
    ensures IsMissing(log, ns, rows, graceMs, now) <==>
              && now - log.createdAt >= graceMs
              && ((KnowsNoHash(log, ns) && MustHaveTransaction(log.status))
                  || exists hash :: KnowsHash(log, ns, hash) && forall j: nat :: !IsRowOf(rows, j, log, hash))
    ensures IsMismatched(log, ns, rows) <==>
              exists hash, j ::
                0 <= j < |rows| && KnowsHash(log, ns, hash) && TheRow(rows, j, log, hash) && !SameStory(log, rows[j])
  {
    hide EffectiveHash, KnowsHash, KnowsNoHash, FindTx, TheRow, IsRowOf, Text.NatToText, SameStory, Diverges;
    EffectiveIsKnown(log, ns, "");
    forall hash ensures EffectiveHash(log, ns) == Some(hash) <==> KnowsHash(log, ns, hash) {
      EffectiveIsKnown(log, ns, hash);
    }
    if EffectiveHash(log, ns).Some? {
      var hash := EffectiveHash(log, ns).value;
      FoundIsTheRow(rows, log, hash, 0);
      if m: nat :| TheRow(rows, m, log, hash) {
        TheRowIsARow(rows, m, log, hash);
        FoundIsTheRow(rows, log, hash, m);
        DivergesOrNot(log, rows[m]);
      }
      forall j: nat | j < |rows| && TheRow(rows, j, log, hash)
        ensures FindTx(rows, Text.NatToText(log.chainId), hash) == Some(rows[j])
                && (SameStory(log, rows[j]) <==> !Diverges(log, rows[j])) && IsRowOf(rows, j, log, hash)
      {
        FoundIsTheRow(rows, log, hash, j);
        TheRowIsARow(rows, j, log, hash);
        DivergesOrNot(log, rows[j]);
      }
    }
  }

  lemma TheRowIsARow(rows: seq<TxView>, j: nat, log: LogView, hash: string)
    requires TheRow(rows, j, log, hash)
    ensures IsRowOf(rows, j, log, hash) && j < |rows|
  {
  }

  lemma DivergesOrNot(log: LogView, tx: TxView)
    ensures SameStory(log, tx) <==> !Diverges(log, tx)
  {
    hide Text.Trim, Text.Lower;
    LowerIsBlank(Text.Trim(tx.toAddress));
    LowerIsBlank(Text.Trim(log.toAddress));
  }

  /**
   After a pass, for every examined log: the missing issue is open exactly when the log is old enough and either knows no
   hash although its status needs a transaction, or knows one that no row has; the mismatch issue exactly when the row
   of its hash tells another story; never both.
   */
  lemma TransferPassDecides(t: IssueTable, logs: seq<LogView>, ns: seq<IntentView>, rows: seq<TxView>, graceMs: int,
                            now: int, i: nat)
    requires DistinctLogs(logs) && i < |logs|
    ensures var log, u := logs[i], AfterChecks(t, TransferChecks(logs, ns, rows, graceMs, now));
            var missing, mismatch := IssueKey(MissingChainTransaction, log.id), IssueKey(ChainTransactionMismatch, log.id);
            && (IsOpen(u, missing) <==>
                  && now - log.createdAt >= graceMs
                  && ((KnowsNoHash(log, ns) && MustHaveTransaction(log.status))
                      || exists hash :: KnowsHash(log, ns, hash) && forall j: nat :: !IsRowOf(rows, j, log, hash)))
            && (IsOpen(u, mismatch) <==>
                  exists hash, j ::
                    0 <= j < |rows| && KnowsHash(log, ns, hash) && TheRow(rows, j, log, hash) && !SameStory(log, rows[j]))
            && !(IsOpen(u, missing) && IsOpen(u, mismatch))
  {
    hide TransferChecks, AfterChecks, Diverges, ChainTxOf, KnowsHash, KnowsNoHash, TheRow, IsRowOf, SameStory;
    var cs := TransferChecks(logs, ns, rows, graceMs, now);
    TransferKeysDistinct(logs, ns, rows, graceMs, now);
    CheckPositions(logs, ns, rows, graceMs, now, i);
    ChecksDecide(t, cs, 2 * i);
    ChecksDecide(t, cs, 2 * i + 1);
    FindsWhatItLooksFor(logs[i], ns, rows, graceMs, now);
  }

  lemma {:induction false} MissingByPosition(logs: seq<LogView>, ns: seq<IntentView>, rows: seq<TxView>, graceMs: int,
                                             now: int)
    ensures CountMissing(logs, ns, rows, graceMs, now) ==
              |set i | 0 <= i < |logs| && IsMissing(logs[i], ns, rows, graceMs, now)|
  {
    hide IsMissing;
    var all := set i | 0 <= i < |logs| && IsMissing(logs[i], ns, rows, graceMs, now);
    if logs == [] {
      assert all == {};
    } else {
      var n := |logs| - 1;
      var front := set i | 0 <= i < n && IsMissing(logs[..n][i], ns, rows, graceMs, now);
      MissingByPosition(logs[..n], ns, rows, graceMs, now);
      assert all == if IsMissing(logs[n], ns, rows, graceMs, now) then front + {n} else front;
    }
  }

  lemma {:induction false} MismatchedByPosition(logs: seq<LogView>, ns: seq<IntentView>, rows: seq<TxView>)
    ensures CountMismatched(logs, ns, rows) == |set i | 0 <= i < |logs| && IsMismatched(logs[i], ns, rows)|
  {
    hide IsMismatched;
    var all := set i | 0 <= i < |logs| && IsMismatched(logs[i], ns, rows);
    if logs == [] {
      assert all == {};
    } else {
      var n := |logs| - 1;
      var front := set i | 0 <= i < n && IsMismatched(logs[..n][i], ns, rows);
      MismatchedByPosition(logs[..n], ns, rows);
      assert all == if IsMismatched(logs[n], ns, rows) then front + {n} else front;
    }
  }

  /** The result counts the examined logs whose issues are open after the pass. */
  lemma CountsWhatIsOpen(t: IssueTable, logs: seq<LogView>, ns: seq<IntentView>, rows: seq<TxView>, graceMs: int, now: int)
    requires DistinctLogs(logs)
    ensures var u := AfterChecks(t, TransferChecks(logs, ns, rows, graceMs, now));
            && CountMissing(logs, ns, rows, graceMs, now) ==
                 |set i | 0 <= i < |logs| && IsOpen(u, IssueKey(MissingChainTransaction, logs[i].id))|
            && CountMismatched(logs, ns, rows) ==
                 |set i | 0 <= i < |logs| && IsOpen(u, IssueKey(ChainTransactionMismatch, logs[i].id))|
  {
    hide IsMissing, IsMismatched, AfterChecks, TransferChecks, IsOpen, KnowsHash, KnowsNoHash, TheRow, IsRowOf, SameStory;
    var u := AfterChecks(t, TransferChecks(logs, ns, rows, graceMs, now));
    MissingByPosition(logs, ns, rows, graceMs, now);
    MismatchedByPosition(logs, ns, rows);
    forall i | 0 <= i < |logs|
      ensures IsOpen(u, IssueKey(MissingChainTransaction, logs[i].id)) <==> IsMissing(logs[i], ns, rows, graceMs, now)
      ensures IsOpen(u, IssueKey(ChainTransactionMismatch, logs[i].id)) <==> IsMismatched(logs[i], ns, rows)
    {
      TransferPassDecides(t, logs, ns, rows, graceMs, now, i);
      FindsWhatItLooksFor(logs[i], ns, rows, graceMs, now);
    }
    assert (set i | 0 <= i < |logs| && IsOpen(u, IssueKey(MissingChainTransaction, logs[i].id))) ==
           (set i | 0 <= i < |logs| && IsMissing(logs[i], ns, rows, graceMs, now));
    assert (set i | 0 <= i < |logs| && IsOpen(u, IssueKey(ChainTransactionMismatch, logs[i].id))) ==
           (set i | 0 <= i < |logs| && IsMismatched(logs[i], ns, rows));
  }

  /** The reasons are exactly the differences there are. */
  ghost predicate Explains(reasons: seq<string>, log: LogView, tx: TxView)
  {
    && ("from_wallet_mismatch" in reasons <==> tx.fromWalletId != log.walletId)
    && ("to_address_mismatch" in reasons <==>
          Text.Lower(Text.Trim(tx.toAddress)) != Text.Lower(Text.Trim(log.toAddress)))
    && ("amount_mismatch" in reasons <==> tx.value != log.amount)
    && ("nonce_mismatch" in reasons <==>
          !NamesNothing(log.nonce) && !NamesNothing(tx.nonce)
          && Text.Trim(log.nonce.value) != Text.Trim(tx.nonce.value))
    && ("status_mismatch" in reasons <==> log.status != Chain(tx.status))
  }

  lemma ListedOnce(a: bool, b: bool, c: bool, d: bool, e: bool)
    ensures var all := Reason(a, "from_wallet_mismatch") + Reason(b, "to_address_mismatch") + Reason(c, "amount_mismatch")
                       + Reason(d, "nonce_mismatch") + Reason(e, "status_mismatch");
            && ("from_wallet_mismatch" in all <==> a) && ("to_address_mismatch" in all <==> b)
            && ("amount_mismatch" in all <==> c) && ("nonce_mismatch" in all <==> d) && ("status_mismatch" in all <==> e)
  {
    assert |"from_wallet_mismatch"| == 20 && |"to_address_mismatch"| == 19 && |"amount_mismatch"| == 15;
    assert |"nonce_mismatch"| == 14 && |"status_mismatch"| == 15 && "amount_mismatch"[0] != "status_mismatch"[0];
  }

  lemma ReasonsExplain(log: LogView, tx: TxView)
    ensures Explains(MismatchReasons(log, Some(tx)), log, tx)
  {
    hide Text.Trim, Text.Lower, Reason;
    LowerIsBlank(Text.Trim(tx.toAddress));
    LowerIsBlank(Text.Trim(log.toAddress));
    ListedOnce(tx.fromWalletId != log.walletId, NormalizeHash(Some(tx.toAddress)) != NormalizeHash(Some(log.toAddress)),
               tx.value != log.amount,
               Trimmed(log.nonce) != "" && Trimmed(tx.nonce) != "" && Trimmed(log.nonce) != Trimmed(tx.nonce),
               log.status != Chain(tx.status));
  }

  /** An open mismatch lists exactly the differences there are, with the log's trace id. */
  lemma MismatchSaysWhy(t: IssueTable, logs: seq<LogView>, ns: seq<IntentView>, rows: seq<TxView>, graceMs: int,
                        now: int, i: nat, hash: string, j: nat)
    requires DistinctLogs(logs) && i < |logs| && j < |rows|
    requires KnowsHash(logs[i], ns, hash) && TheRow(rows, j, logs[i], hash) && !SameStory(logs[i], rows[j])
    ensures var u := AfterChecks(t, TransferChecks(logs, ns, rows, graceMs, now));
            var key := IssueKey(ChainTransactionMismatch, logs[i].id);
            && IsOpen(u, key) && u[key].traceId == Some(logs[i].traceId) && u[key].lastSeenAt == now
            && Explains(u[key].reasons, logs[i], rows[j])
  {
    hide TransferChecks, AfterChecks, FindTx, EffectiveHash, KnowsHash, TheRow, SameStory, Diverges, Explains, Text.NatToText;
    hide MismatchReasons, IsMissing, AfterCheck;
    var cs := TransferChecks(logs, ns, rows, graceMs, now);
    TransferKeysDistinct(logs, ns, rows, graceMs, now);
    CheckPositions(logs, ns, rows, graceMs, now, i);
    ChecksRecord(t, cs, 2 * i + 1);
    EffectiveIsKnown(logs[i], ns, hash);
    FoundIsTheRow(rows, logs[i], hash, j);
    DivergesOrNot(logs[i], rows[j]);
    ReasonsExplain(logs[i], rows[j]);
  }

  lemma TransferPassLeavesOthers(t: IssueTable, logs: seq<LogView>, ns: seq<IntentView>, rows: seq<TxView>, graceMs: int,
                                 now: int, key: IssueKey)
    requires (key.kind.MissingChainTransaction? || key.kind.ChainTransactionMismatch?) ==>
               forall i :: 0 <= i < |logs| ==> logs[i].id != key.refId
    ensures var u := AfterChecks(t, TransferChecks(logs, ns, rows, graceMs, now));
            (key in u <==> key in t) && (key in t ==> u[key] == t[key])
  {
    hide TransferChecks, AfterChecks;
    var cs := TransferChecks(logs, ns, rows, graceMs, now);
    CheckPositions(logs, ns, rows, graceMs, now, 0);
    forall i: nat | i < |cs| ensures cs[i].key != key {
      CheckAt(logs, ns, rows, graceMs, now, i);
    }
    UntouchedKey(t, cs, key);
  }

  /** The number of open issues moves by what the pass opened and resolved. */
  lemma TransferPassBalances(t: IssueTable, logs: seq<LogView>, ns: seq<IntentView>, rows: seq<TxView>,
                             graceMs: int, now: int)
    ensures var cs := TransferChecks(logs, ns, rows, graceMs, now);
            |OpenIssues(AfterChecks(t, cs))| + Count(t, cs, Resolved) == |OpenIssues(t)| + Count(t, cs, Opened)
  {
    OpenCountBalances(t, TransferChecks(logs, ns, rows, graceMs, now));
  }

  /** The same pass again at the same clock changes nothing, opens nothing and resolves nothing. */
  lemma TransferPassIsIdle(t: IssueTable, logs: seq<LogView>, ns: seq<IntentView>, rows: seq<TxView>,
                           graceMs: int, now: int)
    requires DistinctLogs(logs)
    ensures var cs := TransferChecks(logs, ns, rows, graceMs, now);
            var u := AfterChecks(t, cs);
            AfterChecks(u, cs) == u && Count(u, cs, Opened) == 0 && Count(u, cs, Resolved) == 0
  {
    hide TransferChecks, AfterChecks, Count, DistinctKeys;
    TransferKeysDistinct(logs, ns, rows, graceMs, now);
    RepeatIsIdle(t, TransferChecks(logs, ns, rows, graceMs, now));
  }

  /** The pass, with the lookups it builds. */
  class Reconciler {
    const store: IssueStore

    constructor (store: IssueStore)
      ensures this.store == store
    {
      this.store := store;
    }

    method LatestIntents(ns: seq<IntentView>) returns (latest: map<string, IntentView>)
      ensures forall id :: if id in latest then LatestIntent(ns, id) == Some(latest[id]) else LatestIntent(ns, id).None?
    {
      latest := map[];
      for i := 0 to |ns|
        invariant forall id :: if id in latest then LatestIntent(ns[..i], id) == Some(latest[id])
                               else LatestIntent(ns[..i], id).None?
      {
        assert ns[..i + 1][..i] == ns[..i];
        var n := ns[i];
        if n.transferLogId.Some? && n.transferLogId.value != "" && n.transferLogId.value !in latest {
          latest := latest[n.transferLogId.value := n];
        }
      }
      assert ns[..|ns|] == ns;
    }

    /** `findEvmChainTransactions` and the map over its result. */
    method FetchByKey(rows: seq<TxView>, wanted: set<(string, string)>) returns (byKey: map<string, TxView>)
      requires forall w :: w in wanted ==> Askable(w.0, w.1)
      ensures forall w :: w in wanted ==>
                if TxKey(w.0, w.1) in byKey then FindTx(rows, w.0, w.1) == Some(byKey[TxKey(w.0, w.1)])
                else FindTx(rows, w.0, w.1).None?
    {
      hide TxKey, Askable;
      byKey := map[];
      for i := 0 to |rows|
        invariant forall w :: w in wanted ==>
                    if TxKey(w.0, w.1) in byKey then FindTx(rows[..i], w.0, w.1) == Some(byKey[TxKey(w.0, w.1)])
                    else FindTx(rows[..i], w.0, w.1).None?
      {
        assert rows[..i + 1][..i] == rows[..i];
        var r := rows[i];
        if (r.networkId, r.txHash) in wanted {
          forall w | w in wanted && TxKey(w.0, w.1) == TxKey(r.networkId, r.txHash) ensures w == (r.networkId, r.txHash) {
            TxKeyInjective(w.0, w.1, r.networkId, r.txHash);
          }
          byKey := byKey[TxKey(r.networkId, r.txHash) := r];
        }
      }
      assert rows[..|rows|] == rows;
    }

    /** Network and hash of every log that has one. */
    method AskedTransactions(logs: seq<LogView>, ghost ns: seq<IntentView>, latest: map<string, IntentView>)
      returns (wanted: set<(string, string)>)
      requires forall id :: if id in latest then LatestIntent(ns, id) == Some(latest[id]) else LatestIntent(ns, id).None?
      ensures forall w :: w in wanted ==> Askable(w.0, w.1)
      ensures forall j :: 0 <= j < |logs| && EffectiveHash(logs[j], ns).Some? ==>
                (Text.NatToText(logs[j].chainId), EffectiveHash(logs[j], ns).value) in wanted
    {
      hide Askable, NormalizeHash, LatestIntent, EffectiveHash;
      wanted := {};
      for i := 0 to |logs|
        invariant forall w :: w in wanted ==> Askable(w.0, w.1)
        invariant forall j :: 0 <= j < i && EffectiveHash(logs[j], ns).Some? ==>
                    (Text.NatToText(logs[j].chainId), EffectiveHash(logs[j], ns).value) in wanted
      {
        var hash := HashOf(logs[i], ns, latest);
        if hash.Some? {
          AskedFor(logs[i], ns);
          wanted := wanted + {(Text.NatToText(logs[i].chainId), hash.value)};
        }
      }
    }

    /** The two checks of one log. */
    method ReconcileLog(log: LogView, hash: Option<string>, chainTx: Option<TxView>, graceMs: int, now: int,
                        ghost ns: seq<IntentView>, ghost rows: seq<TxView>,
                        ghost t: IssueTable, ghost opens: nat, ghost resolves: nat, ghost cs: seq<Check>)
      returns (missing: bool, mismatched: bool)
      requires hash == EffectiveHash(log, ns) && chainTx == ChainTxOf(log, ns, rows)
      requires store.Reached(t, opens, resolves, cs)
      modifies store
      ensures store.Reached(t, opens, resolves, cs + ChecksOf(log, ns, rows, graceMs, now))
      ensures missing == IsMissing(log, ns, rows, graceMs, now) && mismatched == IsMismatched(log, ns, rows)
    {
      hide AfterChecks, Count, EffectiveHash, ChainTxOf, MismatchReasons, Diverges, IssueStore.Reached;
      missing := now - log.createdAt >= graceMs && (hash.Some? || ExpectsChainTx(log.status)) && chainTx.None?;
      store.Settle(Check(IssueKey(MissingChainTransaction, log.id), missing, Some(log.traceId), [], now),
                   t, opens, resolves, cs);
      var reasons := MismatchReasons(log, chainTx);
      mismatched := reasons != [];
      store.Settle(Check(IssueKey(ChainTransactionMismatch, log.id), mismatched, Some(log.traceId), reasons, now),
                   t, opens, resolves, cs + [MissingCheck(log, ns, rows, graceMs, now)]);
      assert cs + [MissingCheck(log, ns, rows, graceMs, now)] + [MismatchCheck(log, ns, rows, now)] ==
             cs + ChecksOf(log, ns, rows, graceMs, now);
    }

    /** `reconcileWalletTransfers`. */
    method ReconcileWalletTransfers(logs: seq<LogView>, ns: seq<IntentView>, rows: seq<TxView>, graceMs: int, now: int)
      returns (bucket: Bucket)
      modifies store
      ensures store.Reached(old(store.issues), old(store.openedCount), old(store.resolvedCount),
                            TransferChecks(logs, ns, rows, graceMs, now))
      ensures bucket == Bucket(|logs|, CountMissing(logs, ns, rows, graceMs, now), CountMismatched(logs, ns, rows))
    {
      hide TxKey, Askable, NormalizeHash, FindTx, LatestIntent;
      hide Diverges, AfterChecks, Count, MismatchReasons, EffectiveHash;
      hide ChecksOf, IsMissing, IsMismatched;
      ghost var t, opens, resolves := store.issues, store.openedCount, store.resolvedCount;
      var latest := LatestIntents(ns);
      var wanted := AskedTransactions(logs, ns, latest);
      var byKey := FetchByKey(rows, wanted);
      bucket := Bucket(0, 0, 0);
      NoChecks(t);
      for i := 0 to |logs|
        invariant store.Reached(t, opens, resolves, TransferChecks(logs[..i], ns, rows, graceMs, now))
        invariant bucket == Bucket(i, CountMissing(logs[..i], ns, rows, graceMs, now), CountMismatched(logs[..i], ns, rows))
      {
        assert logs[..i + 1][..i] == logs[..i];
        var log := logs[i];
        var hash := HashOf(log, ns, latest);
        var key := if hash.Some? then TxKey(Text.NatToText(log.chainId), hash.value) else "";
        var chainTx := if hash.Some? && key in byKey then Some(byKey[key]) else None;
        var missing, mismatched := ReconcileLog(log, hash, chainTx, graceMs, now, ns, rows, t, opens, resolves,
                                                TransferChecks(logs[..i], ns, rows, graceMs, now));
        bucket := Bucket(i + 1, bucket.missing + (if missing then 1 else 0),
                         bucket.mismatch + (if mismatched then 1 else 0));
      }
      assert logs[..|logs|] == logs;
    }

    function HashOf(log: LogView, ghost ns: seq<IntentView>, latest: map<string, IntentView>): (h: Option<string>)
      requires forall id :: if id in latest then LatestIntent(ns, id) == Some(latest[id]) else LatestIntent(ns, id).None?
      ensures h == EffectiveHash(log, ns)
    {
      var own := NormalizeHash(log.txHash);
      if own.Some? then own else if log.id in latest then NormalizeHash(latest[log.id].txHash) else None
    }

    lemma AskedFor(log: LogView, ns: seq<IntentView>)
      requires EffectiveHash(log, ns).Some?
      ensures Askable(Text.NatToText(log.chainId), EffectiveHash(log, ns).value)
    {
      NormalHashIsFixed(log.txHash);
      if NormalizeHash(log.txHash).None? {
        NormalHashIsFixed(LatestIntent(ns, log.id).value.txHash);
      }
    }

    lemma NoChecks(t: IssueTable)
      ensures AfterChecks(t, []) == t && Count(t, [], Opened) == 0 && Count(t, [], Resolved) == 0
    {
    }
  }
}
