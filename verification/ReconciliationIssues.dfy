/**
 The issue table of the reconciliation: services/cross-db-reconciliation.service.ts:164-250.

 A pass boils down to a list of checks, each saying whether one issue should be open. What a list of checks does to the
 table, to the counters and to a second pass is proved here for any list.
 */
module ReconciliationIssues {
  import opened Prelude

  /** A kind belongs to one scope, so kind and reference identify an issue. */
  datatype Kind =
    | MissingChainTransaction
    | ChainTransactionMismatch
      /** Kinds of the passes over XRPL actions and risk decisions. */
    | OtherKind(scope: string, name: string)

  datatype IssueKey = IssueKey(kind: Kind, refId: string)

  datatype Issue = Issue(
    open: bool,
    traceId: Option<string>,
    reasons: seq<string>,
    firstSeenAt: int,
    lastSeenAt: int,
    resolvedAt: Option<int>)

  type IssueTable = map<IssueKey, Issue>

  datatype Change = Opened | Updated | Resolved | Noop

  datatype Check = Check(key: IssueKey, isOpen: bool, traceId: Option<string>, reasons: seq<string>, now: int)

  predicate IsOpen(t: IssueTable, key: IssueKey)
  {
    key in t && t[key].open
  }

  /** `setIssueState`: upsert an issue that holds, resolve an open one that does not. */
  function AfterCheck(t: IssueTable, c: Check): IssueTable
  {
    if c.isOpen then
      t[c.key := Issue(true, c.traceId, c.reasons, if c.key in t then t[c.key].firstSeenAt else c.now, c.now, None)]
    else if IsOpen(t, c.key) then
      t[c.key := t[c.key].(open := false, lastSeenAt := c.now, resolvedAt := Some(c.now))]
    else t
  }

  function ChangeOf(t: IssueTable, c: Check): Change
  {
    if c.isOpen then (if IsOpen(t, c.key) then Updated else Opened)
    else if IsOpen(t, c.key) then Resolved else Noop
  }

  function AfterChecks(t: IssueTable, cs: seq<Check>): IssueTable
  {
    if cs == [] then t else AfterCheck(AfterChecks(t, cs[..|cs| - 1]), cs[|cs| - 1])
  }

  /** How many of the checks change the table in this way. */
  function Count(t: IssueTable, cs: seq<Check>, change: Change): nat
  {
    if cs == [] then 0
    else
      var n := |cs| - 1;
      Count(t, cs[..n], change) + if ChangeOf(AfterChecks(t, cs[..n]), cs[n]) == change then 1 else 0
  }

  /** The reported change is the one there is. */
  lemma ChangeSays(t: IssueTable, c: Check)
    ensures var was, holds := IsOpen(t, c.key), IsOpen(AfterCheck(t, c), c.key);
            && (ChangeOf(t, c) == Opened <==> !was && holds) && (ChangeOf(t, c) == Updated <==> was && holds)
            && (ChangeOf(t, c) == Resolved <==> was && !holds) && (ChangeOf(t, c) == Noop <==> !was && !holds)
  {
  }

  ghost function OpenIssues(t: IssueTable): set<IssueKey>
  {
    set key | key in t && t[key].open
  }

  ghost predicate DistinctKeys(cs: seq<Check>)
  {
    forall i, j :: 0 <= i < j < |cs| ==> cs[i].key != cs[j].key
  }

  lemma CheckMovesOneIssue(t: IssueTable, c: Check)
    ensures OpenIssues(AfterCheck(t, c)) == if c.isOpen then OpenIssues(t) + {c.key} else OpenIssues(t) - {c.key}
  {
  }

  /** The number of open issues moves by what was opened and what was resolved. */
  lemma {:induction false} OpenCountBalances(t: IssueTable, cs: seq<Check>)
    ensures |OpenIssues(AfterChecks(t, cs))| + Count(t, cs, Resolved) == |OpenIssues(t)| + Count(t, cs, Opened)
  {
    if cs != [] {
      var n := |cs| - 1;
      OpenCountBalances(t, cs[..n]);
      CheckMovesOneIssue(AfterChecks(t, cs[..n]), cs[n]);
    }
  }

  lemma {:induction false} UntouchedKey(t: IssueTable, cs: seq<Check>, key: IssueKey)
    requires forall i :: 0 <= i < |cs| ==> cs[i].key != key
    ensures key in AfterChecks(t, cs) <==> key in t
    ensures key in t ==> AfterChecks(t, cs)[key] == t[key]
  {
    if cs != [] {
      UntouchedKey(t, cs[..|cs| - 1], key);
    }
  }

  /** With distinct keys every check acts as if it were alone. */
  lemma {:induction false} CheckActsAlone(t: IssueTable, cs: seq<Check>, i: nat)
    requires DistinctKeys(cs) && i < |cs|
    ensures cs[i].key in AfterChecks(t, cs) <==> cs[i].key in AfterCheck(t, cs[i])
    ensures cs[i].key in AfterChecks(t, cs) ==> AfterChecks(t, cs)[cs[i].key] == AfterCheck(t, cs[i])[cs[i].key]
  {
    var n := |cs| - 1;
    if i < n {
      CheckActsAlone(t, cs[..n], i);
      assert cs[..n][i] == cs[i];
    } else {
      UntouchedKey(t, cs[..n], cs[n].key);
    }
  }

  /** After a pass the issue of every check is open exactly when the check says so. */
  lemma ChecksDecide(t: IssueTable, cs: seq<Check>, i: nat)
    requires DistinctKeys(cs) && i < |cs|
    ensures IsOpen(AfterChecks(t, cs), cs[i].key) <==> cs[i].isOpen
  {
  }

  /**
   What a pass writes into the issue of a check: an issue that holds is open, seen now and keeps the time it was first
   seen; one that no longer holds is resolved now; one that never held is not written at all.
   */
  lemma ChecksRecord(t: IssueTable, cs: seq<Check>, i: nat)
    requires DistinctKeys(cs) && i < |cs|
    ensures var c, u := cs[i], AfterChecks(t, cs);
            && (c.isOpen ==>
                  && c.key in u && u[c.key].open && u[c.key].resolvedAt == None && u[c.key].lastSeenAt == c.now
                  && u[c.key].traceId == c.traceId && u[c.key].reasons == c.reasons
                  && u[c.key].firstSeenAt == (if c.key in t then t[c.key].firstSeenAt else c.now))
            && (!c.isOpen && IsOpen(t, c.key) ==>
                  && c.key in u && !u[c.key].open && u[c.key].resolvedAt == Some(c.now) && u[c.key].lastSeenAt == c.now
                  && u[c.key].traceId == t[c.key].traceId && u[c.key].reasons == t[c.key].reasons
                  && u[c.key].firstSeenAt == t[c.key].firstSeenAt)
            && (!c.isOpen && !IsOpen(t, c.key) ==>
                  (c.key in u <==> c.key in t) && (c.key in t ==> u[c.key] == t[c.key]))
  {
    hide AfterChecks, DistinctKeys;
    CheckActsAlone(t, cs, i);
  }

  lemma {:induction false} SettledChecksIdle(t: IssueTable, cs: seq<Check>)
    requires forall i :: 0 <= i < |cs| ==> AfterCheck(t, cs[i]) == t && (IsOpen(t, cs[i].key) <==> cs[i].isOpen)
    ensures AfterChecks(t, cs) == t && Count(t, cs, Opened) == 0 && Count(t, cs, Resolved) == 0
  {
    if cs != [] {
      SettledChecksIdle(t, cs[..|cs| - 1]);
    }
  }

  /** The same pass again, at the same clock, changes nothing at all. */
  lemma RepeatIsIdle(t: IssueTable, cs: seq<Check>)
    requires DistinctKeys(cs)
    ensures AfterChecks(AfterChecks(t, cs), cs) == AfterChecks(t, cs)
    ensures Count(AfterChecks(t, cs), cs, Opened) == 0 && Count(AfterChecks(t, cs), cs, Resolved) == 0
  {
    var u := AfterChecks(t, cs);
    forall i | 0 <= i < |cs| ensures AfterCheck(u, cs[i]) == u && (IsOpen(u, cs[i].key) <==> cs[i].isOpen) {
      CheckActsAlone(t, cs, i);
    }
    SettledChecksIdle(u, cs);
  }

  /** Two lists in a row are one list. */
  lemma {:induction false} ChecksCompose(t: IssueTable, a: seq<Check>, b: seq<Check>)
    ensures AfterChecks(t, a + b) == AfterChecks(AfterChecks(t, a), b)
    ensures forall change :: Count(t, a + b, change) == Count(t, a, change) + Count(AfterChecks(t, a), b, change)
    decreases |b|
  {
    if b == [] {
      assert a + b == a;
    } else {
      var n := |b| - 1;
      ChecksCompose(t, a, b[..n]);
      assert (a + b)[..|a + b| - 1] == a + b[..n];
    }
  }

  /** The table and the two counters of a result, changed in place. */
  class IssueStore {
    var issues: IssueTable
    var openedCount: nat
    var resolvedCount: nat

    constructor (issues: IssueTable)
      ensures this.issues == issues && openedCount == 0 && resolvedCount == 0
    {
      this.issues := issues;
      openedCount, resolvedCount := 0, 0;
    }

    method SetIssueState(c: Check) returns (change: Change)
      modifies `issues
      ensures issues == AfterCheck(old(issues), c) && change == ChangeOf(old(issues), c)
    {
      if c.isOpen {
        var existing := if c.key in issues then Some(issues[c.key]) else None;
        var firstSeenAt := if existing.Some? then existing.value.firstSeenAt else c.now;
        issues := issues[c.key := Issue(true, c.traceId, c.reasons, firstSeenAt, c.now, None)];
        return if existing.None? || !existing.value.open then Opened else Updated;
      }
      if IsOpen(issues, c.key) {
        issues := issues[c.key := issues[c.key].(open := false, lastSeenAt := c.now, resolvedAt := Some(c.now))];
        return Resolved;
      }
      return Noop;
    }

    method ApplyIssueState(change: Change)
      modifies `openedCount, `resolvedCount
      ensures openedCount == old(openedCount) + if change == Opened then 1 else 0
      ensures resolvedCount == old(resolvedCount) + if change == Resolved then 1 else 0
    {
      if change == Opened {
        openedCount := openedCount + 1;
      } else if change == Resolved {
        resolvedCount := resolvedCount + 1;
      }
    }

    /** This table and these counts, after more checks. */
    ghost predicate Reached(t: IssueTable, opens: nat, resolves: nat, cs: seq<Check>)
      reads this
    {
      && issues == AfterChecks(t, cs)
      && openedCount == opens + Count(t, cs, Opened)
      && resolvedCount == resolves + Count(t, cs, Resolved)
    }

    /** One check of a pass. */
    method Settle(c: Check, ghost t: IssueTable, ghost opens: nat, ghost resolves: nat, ghost cs: seq<Check>)
      requires Reached(t, opens, resolves, cs)
      modifies this
      ensures Reached(t, opens, resolves, cs + [c])
    {
      assert (cs + [c])[..|cs|] == cs;
      var change := SetIssueState(c);
      ApplyIssueState(change);
    }
  }
}
