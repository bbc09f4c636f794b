/**
 What the queue does to its entries, one operation at a time and over runs:
 services/security-signal-queue.adapter.ts:169-257 and services/security-alert-delivery-queue.ts.

 First in, first out: an entry enqueued later is delivered later, unless the earlier one is not yet available, was
 dropped, or came back from a flight that expired.
 */
module QueueOrder {
  import opened Prelude
  import opened DeliveryQueue

  /** x stands somewhere before y. */
  ghost predicate Ahead<T>(q: seq<Entry<T>>, x: Entry<T>, y: Entry<T>)
  {
    exists i, j :: 0 <= i < j < |q| && q[i] == x && q[j] == y
  }

  ghost predicate Distinct<T>(q: seq<Entry<T>>)
  {
    forall i, j :: 0 <= i < j < |q| ==> q[i].id != q[j].id
  }

  lemma ConservedIsDistinct<T>(w: World<T>)
    requires Conserved(w)
    ensures Distinct(w.state.queue)
  {
    var q := w.state.queue;
    forall i, j | 0 <= i < j < |q| ensures q[i].id != q[j].id {
      TwiceCounted(Ids(q), i, j);
      assert InQueue(w.state)[q[i].id] <= w.history.enqueued[q[i].id];
    }
  }

  lemma TwiceCounted(ids: seq<string>, i: nat, j: nat)
    requires i < j < |ids|
    ensures ids[i] == ids[j] ==> multiset(ids)[ids[i]] >= 2
  {
    assert ids == ids[..j] + ids[j..];
    assert ids[..j][i] == ids[i] && ids[j..][0] == ids[j];
  }

  lemma AheadOfMore<T>(q: seq<Entry<T>>, more: seq<Entry<T>>, x: Entry<T>, y: Entry<T>)
    requires Ahead(q, x, y)
    ensures Ahead(q + more, x, y)
  {
    var i, j :| 0 <= i < j < |q| && q[i] == x && q[j] == y;
    assert (q + more)[i] == x && (q + more)[j] == y;
  }

  lemma AheadBehindOne<T>(e: Entry<T>, q: seq<Entry<T>>, x: Entry<T>, y: Entry<T>)
    ensures Ahead(q, x, y) ==> Ahead([e] + q, x, y)
    ensures e == x && y in q ==> Ahead([e] + q, x, y)
  {
    if Ahead(q, x, y) {
      var i, j :| 0 <= i < j < |q| && q[i] == x && q[j] == y;
      assert ([e] + q)[i + 1] == x && ([e] + q)[j + 1] == y;
    }
    if e == x && y in q {
      var j :| 0 <= j < |q| && q[j] == y;
      assert ([e] + q)[0] == x && ([e] + q)[j + 1] == y;
    }
  }

  /** Taking keeps the order of what stays and of what leaves; nothing available is passed over. */
  lemma {:induction false} TakeKeepsOrder<T>(q: seq<Entry<T>>, now: int, n: nat, x: Entry<T>, y: Entry<T>)
    requires Distinct(q) && Ahead(q, x, y)
    ensures var (taken, rest) := TakeAvailable(q, now, n);
            && (x in rest && y in rest ==> Ahead(rest, x, y))
            && (y in taken && x.availableAt <= now ==> Ahead(taken, x, y))
    decreases |q|
  {
    if q != [] && n != 0 {
      var e, m := q[0], if q[0].availableAt > now then n else n - 1;
      var (taken, rest) := TakeAvailable(q[1..], now, m);
      TakeKeepsEntries(q[1..], now, m);
      var i, j :| 0 <= i < j < |q| && q[i] == x && q[j] == y;
      assert q[1..][j - 1] == y;
      if i > 0 {
        assert q[1..][i - 1] == x && q[1..][j - 1] == y;
        TakeKeepsOrder(q[1..], now, m, x, y);
      } else {
        forall k | 0 <= k < |q[1..]| ensures q[1..][k] != x { assert q[k + 1].id != q[0].id; }
        NotTaken(q[1..], taken, rest, x);
      }
      AheadBehindOne(e, rest, x, y);
      AheadBehindOne(e, taken, x, y);
      forall k | 0 <= k < |q[1..]| ensures q[1..][k] != e { assert q[k + 1].id != q[0].id; }
      NotTaken(q[1..], taken, rest, e);
    }
  }

  lemma NotTaken<T>(q: seq<Entry<T>>, taken: seq<Entry<T>>, rest: seq<Entry<T>>, e: Entry<T>)
    requires multiset(q) == multiset(taken) + multiset(rest) && e !in q
    ensures e !in taken && e !in rest
  {
    assert multiset(q)[e] == 0;
    assert multiset(taken)[e] == 0 && multiset(rest)[e] == 0;
  }

  /** An accepted entry stands behind all that stay: everything, or all but the oldest when the queue was full. */
  lemma EnqueuedGoesLast<T>(w: World<T>, entry: Entry<T>, maxDepth: nat, strategy: Overflow)
    ensures var q, t := w.state.queue, Apply(w, Enqueue(entry, maxDepth, strategy));
            && (|q| < maxDepth ==> t.state.queue == q + [entry])
            && (|q| >= maxDepth && strategy == DropOldest ==> t.state.queue == (if q == [] then [] else q[1..]) + [entry])
            && (|q| >= maxDepth && strategy == RejectNew ==> t == w)
            && t.state.inflight == w.state.inflight
  {
  }

  lemma LastIsBehind<T>(q: seq<Entry<T>>, entry: Entry<T>, x: Entry<T>)
    requires x in q
    ensures Ahead(q + [entry], x, entry)
  {
    var i :| 0 <= i < |q| && q[i] == x;
    assert (q + [entry])[i] == x && (q + [entry])[|q|] == entry;
  }

  lemma TailKeepsOrder<T>(q: seq<Entry<T>>, x: Entry<T>, y: Entry<T>)
    requires q != [] && Distinct(q) && Ahead(q, x, y) && x in q[1..]
    ensures Ahead(q[1..], x, y)
  {
    var i, j :| 0 <= i < j < |q| && q[i] == x && q[j] == y;
    var k :| 0 <= k < |q[1..]| && q[1..][k] == x;
    assert q[k + 1].id == q[i].id;
    assert q[1..][i - 1] == x && q[1..][j - 1] == y;
  }

  /** Two entries that both stay queued keep their order, whatever happens to the queue. */
  lemma StepKeepsOrder<T>(w: World<T>, step: Step<T>, x: Entry<T>, y: Entry<T>)
    requires Conserved(w) && Enabled(w, step) && Ahead(w.state.queue, x, y)
    requires x in Apply(w, step).state.queue && y in Apply(w, step).state.queue
    requires step.Enqueue? ==> x != step.entry
    ensures Ahead(Apply(w, step).state.queue, x, y)
  {
    hide Conserved, AtMostOnce;
    ConservedIsDistinct(w);
    match step {
      case Enqueue(entry, maxDepth, strategy) =>
        EnqueuedGoesLast(w, entry, maxDepth, strategy);
        var q, t := w.state.queue, Apply(w, step);
        if |q| < maxDepth {
          AheadOfMore(q, [entry], x, y);
        } else if strategy == DropOldest {
          TailKeepsOrder(q, x, y);
          AheadOfMore(q[1..], [entry], x, y);
        }
      case Dequeue(batchSize, now, ackTimeout) => DequeueKeepsOrder(w, batchSize, now, ackTimeout, x, y);
      case Ack(id) =>
      case ReadStats(now) => AheadOfMore(w.state.queue, Expired(w.state.inflight, now), x, y);
    }
  }

  /** Nothing available is overtaken: when y is delivered, so is the x before it, and earlier in the batch. */
  lemma DequeueKeepsOrder<T>(w: World<T>, batchSize: int, now: int, ackTimeout: nat, x: Entry<T>, y: Entry<T>)
    requires Conserved(w) && Ahead(w.state.queue, x, y)
    ensures var (t, taken) := DequeueResult(w.state, batchSize, now, ackTimeout);
            && (x in t.queue && y in t.queue ==> Ahead(t.queue, x, y))
            && (y in taken && x.availableAt <= now ==> Ahead(taken, x, y))
  {
    hide Conserved;
    ReclaimConserves(w, now);
    ConservedIsDistinct(Apply(w, ReadStats(now)));
    AheadOfMore(w.state.queue, Expired(w.state.inflight, now), x, y);
    TakeKeepsOrder(Reclaim(w.state, now).queue, now, BatchLimit(batchSize), x, y);
  }

  /** Both entries stay queued all through the run. */
  ghost predicate BothWait<T>(w: World<T>, steps: seq<Step<T>>, x: Entry<T>, y: Entry<T>)
    decreases |steps|
  {
    x in w.state.queue && y in w.state.queue && (steps == [] || BothWait(Apply(w, steps[0]), steps[1..], x, y))
  }

  /**
   First in, first out: y is enqueued while x waits; as long as both wait, whatever else happens, a delivery of y brings
   x before it, unless x is not yet available.
   */
  lemma FirstInFirstOut<T>(w: World<T>, y: Entry<T>, maxDepth: nat, strategy: Overflow, steps: seq<Step<T>>, x: Entry<T>,
                           batchSize: int, now: int, ackTimeout: nat)
    requires Conserved(w) && EnabledRun(w, [Enqueue(y, maxDepth, strategy)] + steps)
    requires var t := Apply(w, Enqueue(y, maxDepth, strategy)); t != w && BothWait(t, steps, x, y) && x != y
    ensures var t := Run(Apply(w, Enqueue(y, maxDepth, strategy)), steps);
            var taken := DequeueResult(t.state, batchSize, now, ackTimeout).1;
            y in taken && x.availableAt <= now ==> Ahead(taken, x, y)
  {
    hide Conserved, AtMostOnce;
    var step := Enqueue(y, maxDepth, strategy);
    assert ([step] + steps)[0] == step && ([step] + steps)[1..] == steps;
    var t := Apply(w, step);
    StepConserves(w, step);
    EnqueuedGoesLast(w, y, maxDepth, strategy);
    var q := w.state.queue;
    var kept := if |q| < maxDepth then q else if q == [] then [] else q[1..];
    assert t.state.queue == kept + [y];
    LastIsBehind(kept, y, x);
    WaitingKeepsOrder(t, steps, x, y);
    RunConserves(t, steps);
    DequeueKeepsOrder(Run(t, steps), batchSize, now, ackTimeout, x, y);
  }

  lemma {:induction false} WaitingKeepsOrder<T>(w: World<T>, steps: seq<Step<T>>, x: Entry<T>, y: Entry<T>)
    requires Conserved(w) && EnabledRun(w, steps) && Ahead(w.state.queue, x, y) && BothWait(w, steps, x, y)
    ensures Ahead(Run(w, steps).state.queue, x, y)
    decreases |steps|
  {
    hide Conserved, AtMostOnce, Apply;
    if steps != [] {
      StepConserves(w, steps[0]);
      if steps[0].Enqueue? { QueuedIsKnown(w, x); }
      StepKeepsOrder(w, steps[0], x, y);
      WaitingKeepsOrder(Apply(w, steps[0]), steps[1..], x, y);
    }
  }

  lemma QueuedIsKnown<T>(w: World<T>, x: Entry<T>)
    requires Conserved(w) && x in w.state.queue
    ensures x.id in w.history.enqueued
  {
    var i :| 0 <= i < |w.state.queue| && w.state.queue[i] == x;
    assert Ids(w.state.queue)[i] == x.id;
    assert x.id in InQueue(w.state);
  }

  // ---------- Flights ----------

  lemma {:induction false} ReclaimedOrNot<T>(fs: seq<Flight<T>>, now: int, f: Flight<T>)
    ensures f in Unexpired(fs, now) <==> f in fs && f.expiresAt > now
    ensures f in fs && f.expiresAt <= now ==> f.entry.(availableAt := now) in Expired(fs, now)
  {
    if fs != [] {
      var front, last := fs[..|fs| - 1], fs[|fs| - 1];
      ReclaimedOrNot(front, now, f);
      assert fs == front + [last];
    }
  }

  /** The entry comes from a flight past its deadline. */
  ghost predicate CameBack<T(!new)>(fs: seq<Flight<T>>, now: int, e: Entry<T>)
  {
    exists f :: f in fs && f.expiresAt <= now && e == f.entry.(availableAt := now)
  }

  /** Whatever comes back from a flight had reached its deadline, and is available at once. */
  lemma {:induction false} OnlyExpiredReturn<T(!new)>(fs: seq<Flight<T>>, now: int, k: nat)
    requires k < |Expired(fs, now)|
    ensures Expired(fs, now)[k].availableAt == now
    ensures CameBack(fs, now, Expired(fs, now)[k])
  {
    var front, last := fs[..|fs| - 1], fs[|fs| - 1];
    if k < |Expired(front, now)| {
      OnlyExpiredReturn(front, now, k);
      var f :| f in front && f.expiresAt <= now && Expired(front, now)[k] == f.entry.(availableAt := now);
      assert f in fs;
    } else {
      assert last in fs;
    }
  }

  /**
   Looking at the queue at a time brings back exactly the flights whose deadline has passed, behind everything queued and
   available from now on, and leaves the others in flight.
   */
  lemma LookingReclaims<T(!new)>(w: World<T>, now: int, f: Flight<T>)
    ensures var t := Apply(w, ReadStats(now));
            && (f in t.state.inflight <==> f in w.state.inflight && f.expiresAt > now)
            && w.state.queue <= t.state.queue
            && (f in w.state.inflight && f.expiresAt <= now ==>
                  f.entry.(availableAt := now) in t.state.queue[|w.state.queue|..])
            && forall k :: |w.state.queue| <= k < |t.state.queue| ==>
                 CameBack(w.state.inflight, now, t.state.queue[k])
  {
    var back, t := Expired(w.state.inflight, now), Apply(w, ReadStats(now));
    ReclaimedOrNot(w.state.inflight, now, f);
    assert t.state.queue[|w.state.queue|..] == back;
    forall k | |w.state.queue| <= k < |t.state.queue|
      ensures CameBack(w.state.inflight, now, t.state.queue[k])
    {
      OnlyExpiredReturn(w.state.inflight, now, k - |w.state.queue|);
      assert t.state.queue[k] == back[k - |w.state.queue|];
    }
  }

  lemma LaunchedOrNot<T>(fs: seq<Flight<T>>, taken: seq<Entry<T>>, expiresAt: int, f: Flight<T>)
    requires AtMostOnce(multiset(FlightIds(fs)) + multiset(Ids(taken)))
    ensures f in Launch(fs, taken, expiresAt) <==> f in fs || (f.entry in taken && f.expiresAt == expiresAt)
  {
    hide AtMostOnce, Launch;
    LaunchAppends(fs, taken, expiresAt);
    var more := seq(|taken|, i requires 0 <= i < |taken| => Flight(taken[i], expiresAt));
    if f.entry in taken && f.expiresAt == expiresAt {
      var k :| 0 <= k < |taken| && taken[k] == f.entry;
      assert more[k] == f;
    }
    assert f in fs + more <==> f in fs || f in more;
  }

  /** Every delivered entry was available, and is in flight until the acknowledgement time has passed. */
  lemma DeliveredIsInFlight<T>(w: World<T>, batchSize: int, now: int, ackTimeout: nat, f: Flight<T>)
    requires Conserved(w)
    ensures var (t, taken) := DequeueResult(w.state, batchSize, now, ackTimeout);
            && |taken| <= (if batchSize < 1 then 1 else batchSize)
            && (f.entry in taken ==> f.entry.availableAt <= now)
            && (f in t.inflight <==>
                  (f in w.state.inflight && f.expiresAt > now) || (f.entry in taken && f.expiresAt == now + ackTimeout))
  {
    hide Conserved, Launch, TakeAvailable, AtMostOnce, Expired, Unexpired;
    var r := Apply(w, ReadStats(now));
    ReclaimConserves(w, now);
    var taken, rest := DequeueSplits(w, batchSize, now, ackTimeout);
    FlightsUnique(r, taken, rest);
    LaunchedOrNot(r.state.inflight, taken, now + ackTimeout, f);
    ReclaimedOrNot(w.state.inflight, now, f);
    var cut := TakeCutsOnce(r.state.queue, now, BatchLimit(batchSize));
    AvailableOnes(r.state.queue[..cut], now, f.entry);
  }

  lemma {:induction false} AvailableOnes<T>(q: seq<Entry<T>>, now: int, e: Entry<T>)
    ensures e in AvailableIn(q, now) <==> e in q && e.availableAt <= now
  {
    if q != [] {
      AvailableOnes(q[1..], now, e);
      assert q == [q[0]] + q[1..];
    }
  }

  /** An acknowledgement ends the flight of this entry and of no other, and leaves the queue alone. */
  lemma AcknowledgedIsGone<T>(w: World<T>, id: string, f: Flight<T>)
    requires Conserved(w)
    ensures var t := Apply(w, Ack(id));
            && t.state.queue == w.state.queue
            && (f in t.state.inflight <==> f in w.state.inflight && f.entry.id != id)
  {
    FlightsAreDistinct(w);
    RemovedOrNot(w.state.inflight, id, f);
  }

  ghost predicate DistinctFlights<T>(fs: seq<Flight<T>>)
  {
    forall i, j :: 0 <= i < j < |fs| ==> fs[i].entry.id != fs[j].entry.id
  }

  lemma FlightsAreDistinct<T>(w: World<T>)
    requires Conserved(w)
    ensures DistinctFlights(w.state.inflight)
  {
    var fs := w.state.inflight;
    forall i, j | 0 <= i < j < |fs| ensures fs[i].entry.id != fs[j].entry.id {
      TwiceCounted(FlightIds(fs), i, j);
      assert InFlight(w.state)[fs[i].entry.id] <= w.history.enqueued[fs[i].entry.id];
    }
  }

  lemma {:induction false} RemovedOrNot<T>(fs: seq<Flight<T>>, id: string, f: Flight<T>)
    requires DistinctFlights(fs)
    ensures f in RemoveFlight(fs, id) <==> f in fs && f.entry.id != id
  {
    if fs != [] {
      assert fs == [fs[0]] + fs[1..];
      forall k | 0 <= k < |fs[1..]| ensures fs[1..][k].entry.id != fs[0].entry.id { assert fs[1..][k] == fs[k + 1]; }
      RemovedOrNot(fs[1..], id, f);
    }
  }
}
