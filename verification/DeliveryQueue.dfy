/**
 The in-memory queue with acknowledgement: services/security-signal-queue.adapter.ts and,
 with the same structure, services/security-alert-delivery-queue.ts.

 `InMemoryQueue` changes its list and its in-flight map in place; the functions above it say
 what each operation does. The ids a run enqueues, drops, delivers, expires and acknowledges
 are counted in a history, and conservation is stated over it.
 */
module DeliveryQueue {
  import opened Prelude

  datatype Entry<T> = Entry(id: string, payload: T, retryCount: nat, queuedAt: int, availableAt: int)

  datatype Flight<T> = Flight(entry: Entry<T>, expiresAt: int)

  /** `inflight` is in insertion order, as a JavaScript map iterates; the key is the entry's id. */
  datatype QueueState<T> = QueueState(queue: seq<Entry<T>>, inflight: seq<Flight<T>>)

  datatype Overflow = DropOldest | RejectNew

  datatype QueueError = QueueFull

  datatype EnqueueResult<T> = EnqueueResult(message: Entry<T>, dropped: bool, queueLength: nat)

  // ---------- What each operation does ----------

  /** In-flight entries whose deadline has passed, put back as available now. */
  function Expired<T>(fs: seq<Flight<T>>, now: int): seq<Entry<T>>
  {
    if fs == [] then []
    else
      Expired(fs[..|fs| - 1], now) +
      if fs[|fs| - 1].expiresAt <= now then [fs[|fs| - 1].entry.(availableAt := now)] else []
  }

  function Unexpired<T>(fs: seq<Flight<T>>, now: int): seq<Flight<T>>
  {
    if fs == [] then []
    else
      Unexpired(fs[..|fs| - 1], now) + if fs[|fs| - 1].expiresAt <= now then [] else [fs[|fs| - 1]]
  }

  function Reclaim<T>(s: QueueState<T>, now: int): QueueState<T>
  {
    QueueState(s.queue + Expired(s.inflight, now), Unexpired(s.inflight, now))
  }

  /** The first `n` available entries, and what stays behind. */
  function TakeAvailable<T>(q: seq<Entry<T>>, now: int, n: nat): (seq<Entry<T>>, seq<Entry<T>>)
  {
    if q == [] || n == 0 then ([], q)
    else if q[0].availableAt > now then
      var (taken, rest) := TakeAvailable(q[1..], now, n);
      (taken, [q[0]] + rest)
    else
      var (taken, rest) := TakeAvailable(q[1..], now, n - 1);
      ([q[0]] + taken, rest)
  }

  /** What taking returns once `messages` have left and `kept` have been passed over. */
  ghost function Resumed<T>(messages: seq<Entry<T>>, kept: seq<Entry<T>>, tail: seq<Entry<T>>, now: int, n: nat)
    : (seq<Entry<T>>, seq<Entry<T>>)
  {
    var (taken, rest) := TakeAvailable(tail, now, n);
    (messages + taken, kept + rest)
  }

  lemma LoopStarts<T>(all: seq<Entry<T>>, now: int, n: nat, fs: seq<Flight<T>>, expiresAt: int)
    ensures TakeAvailable(all, now, n) == Resumed([], [], all, now, n)
    ensures fs == Launch(fs, [], expiresAt)
  {
    var (taken, rest) := TakeAvailable(all, now, n);
    assert [] + taken == taken && [] + rest == rest;
  }

  lemma LoopAdvances<T>(messages: seq<Entry<T>>, kept: seq<Entry<T>>, tail: seq<Entry<T>>, now: int, n: nat)
    requires tail != [] && n > 0
    ensures Resumed(messages, kept, tail, now, n) ==
            if tail[0].availableAt > now then Resumed(messages, kept + [tail[0]], tail[1..], now, n)
            else Resumed(messages + [tail[0]], kept, tail[1..], now, n - 1)
  {
    var m := if tail[0].availableAt > now then n else n - 1;
    var (taken, rest) := TakeAvailable(tail[1..], now, m);
    assert messages + ([tail[0]] + taken) == messages + [tail[0]] + taken;
    assert kept + ([tail[0]] + rest) == kept + [tail[0]] + rest;
  }

  lemma LoopEnds<T>(messages: seq<Entry<T>>, kept: seq<Entry<T>>, tail: seq<Entry<T>>, now: int, n: nat)
    requires tail == [] || n == 0
    ensures Resumed(messages, kept, tail, now, n) == (messages, kept + tail)
  {
    assert messages + [] == messages;
  }

  lemma SpliceAt<T>(kept: seq<Entry<T>>, tail: seq<Entry<T>>)
    requires tail != []
    ensures (kept + tail)[..|kept|] + (kept + tail)[|kept| + 1..] == kept + tail[1..]
    ensures kept + tail == kept + [tail[0]] + tail[1..]
  {
  }

  lemma LaunchNext<T>(fs: seq<Flight<T>>, messages: seq<Entry<T>>, entry: Entry<T>, expiresAt: int)
    ensures Launch(fs, messages + [entry], expiresAt)
         == SetFlight(Launch(fs, messages, expiresAt), Flight(entry, expiresAt))
  {
  }

  /** `Map.set`: an existing key keeps its place. */
  function SetFlight<T>(fs: seq<Flight<T>>, f: Flight<T>): seq<Flight<T>>
  {
    if fs == [] then [f]
    else if fs[0].entry.id == f.entry.id then [f] + fs[1..]
    else [fs[0]] + SetFlight(fs[1..], f)
  }

  function Launch<T>(fs: seq<Flight<T>>, taken: seq<Entry<T>>, expiresAt: int): seq<Flight<T>>
  {
    if taken == [] then fs
    else SetFlight(Launch(fs, taken[..|taken| - 1], expiresAt), Flight(taken[|taken| - 1], expiresAt))
  }

  /** `Map.delete`. */
  function RemoveFlight<T>(fs: seq<Flight<T>>, id: string): seq<Flight<T>>
  {
    if fs == [] then []
    else if fs[0].entry.id == id then fs[1..]
    else [fs[0]] + RemoveFlight(fs[1..], id)
  }

  function BatchLimit(batchSize: int): nat { Max(1, batchSize) }

  function DequeueResult<T>(s: QueueState<T>, batchSize: int, now: int, ackTimeout: nat)
    : (QueueState<T>, seq<Entry<T>>)
  {
    var reclaimed := Reclaim(s, now);
    var (taken, rest) := TakeAvailable(reclaimed.queue, now, BatchLimit(batchSize));
    (QueueState(rest, Launch(reclaimed.inflight, taken, now + ackTimeout)), taken)
  }

  /** None when the queue is full and new messages are refused. */
  function RoomFor<T>(q: seq<Entry<T>>, maxDepth: nat, strategy: Overflow): Option<seq<Entry<T>>>
  {
    if |q| < maxDepth then Some(q)
    else if strategy.RejectNew? then None
    else Some(if q == [] then [] else q[1..])
  }

  // ---------- The history of a run ----------

  datatype History = History(
    enqueued: multiset<string>,
    dropped: multiset<string>,
    delivered: multiset<string>,
    expired: multiset<string>,
    acked: multiset<string>)

  datatype World<T> = World(state: QueueState<T>, history: History)

  datatype Step<T> =
    | Enqueue(entry: Entry<T>, maxDepth: nat, strategy: Overflow)
    | Dequeue(batchSize: int, now: int, ackTimeout: nat)
    | Ack(id: string)
    | ReadStats(now: int)

  function Ids<T>(q: seq<Entry<T>>): seq<string>
  {
    seq(|q|, i requires 0 <= i < |q| => q[i].id)
  }

  function FlightIds<T>(fs: seq<Flight<T>>): seq<string>
  {
    seq(|fs|, i requires 0 <= i < |fs| => fs[i].entry.id)
  }

  function Apply<T>(w: World<T>, step: Step<T>): World<T>
  {
    var s, h := w.state, w.history;
    match step
    case Enqueue(entry, maxDepth, strategy) =>
      (match RoomFor(s.queue, maxDepth, strategy)
       case None => w
       case Some(kept) =>
         World(s.(queue := kept + [entry]),
               h.(enqueued := h.enqueued + multiset{entry.id},
                  dropped := h.dropped + multiset(Ids(s.queue[..|s.queue| - |kept|])))))
    case Dequeue(batchSize, now, ackTimeout) =>
      var (t, taken) := DequeueResult(s, batchSize, now, ackTimeout);
      World(t, h.(expired := h.expired + multiset(Ids(Expired(s.inflight, now))),
                  delivered := h.delivered + multiset(Ids(taken))))
    case Ack(id) =>
      World(s.(inflight := RemoveFlight(s.inflight, id)),
            if id in FlightIds(s.inflight) then h.(acked := h.acked + multiset{id}) else h)
    case ReadStats(now) =>
      World(Reclaim(s, now), h.(expired := h.expired + multiset(Ids(Expired(s.inflight, now)))))
  }

  ghost predicate AtMostOnce(ids: multiset<string>) { forall id :: ids[id] <= 1 }

  ghost function InQueue<T>(s: QueueState<T>): multiset<string> { multiset(Ids(s.queue)) }

  ghost function InFlight<T>(s: QueueState<T>): multiset<string> { multiset(FlightIds(s.inflight)) }

  /**
   Every enqueued id is in exactly one of queue, flight, acknowledged and dropped; and every delivery
   has ended in an expiry or an acknowledgement or is still in flight.
   */
  ghost predicate Conserved<T>(w: World<T>)
  {
    && AtMostOnce(w.history.enqueued)
    && w.history.enqueued == InQueue(w.state) + InFlight(w.state) + w.history.acked + w.history.dropped
    && w.history.delivered == w.history.expired + InFlight(w.state) + w.history.acked
  }

  ghost predicate Enabled<T>(w: World<T>, step: Step<T>)
  {
    step.Enqueue? ==> step.entry.id !in w.history.enqueued
  }

  // ---------- Lemmas about the operations ----------

  lemma IdsConcat<T>(a: seq<Entry<T>>, b: seq<Entry<T>>)
    ensures Ids(a + b) == Ids(a) + Ids(b)
  {
  }

  lemma FlightIdsConcat<T>(a: seq<Flight<T>>, b: seq<Flight<T>>)
    ensures FlightIds(a + b) == FlightIds(a) + FlightIds(b)
  {
  }

  lemma {:induction false} ReclaimSplits<T>(fs: seq<Flight<T>>, now: int)
    ensures multiset(FlightIds(fs)) == multiset(Ids(Expired(fs, now))) + multiset(FlightIds(Unexpired(fs, now)))
  {
    if fs != [] {
      var front, last := fs[..|fs| - 1], fs[|fs| - 1];
      ReclaimSplits(front, now);
      assert fs == front + [last];
      FlightIdsConcat(front, [last]);
      assert FlightIds([last]) == [last.entry.id];
      if last.expiresAt <= now {
        IdsConcat(Expired(front, now), [last.entry.(availableAt := now)]);
        assert Ids([last.entry.(availableAt := now)]) == [last.entry.id];
        assert Unexpired(fs, now) == Unexpired(front, now);
      } else {
        assert Expired(fs, now) == Expired(front, now);
        FlightIdsConcat(Unexpired(front, now), [last]);
      }
    }
  }

  lemma {:induction false} TakeSplits<T>(q: seq<Entry<T>>, now: int, n: nat)
    ensures var (taken, rest) := TakeAvailable(q, now, n);
            multiset(Ids(q)) == multiset(Ids(taken)) + multiset(Ids(rest))
    decreases |q|
  {
    if q == [] || n == 0 {
      assert Ids<T>([]) == [];
    } else {
      var m := if q[0].availableAt > now then n else n - 1;
      TakeSplits(q[1..], now, m);
      var (taken, rest) := TakeAvailable(q[1..], now, m);
      assert q == [q[0]] + q[1..];
      IdsConcat([q[0]], q[1..]);
      IdsConcat([q[0]], rest);
      IdsConcat([q[0]], taken);
    }
  }

  lemma {:induction false} TakeKeepsEntries<T>(q: seq<Entry<T>>, now: int, n: nat)
    ensures var (taken, rest) := TakeAvailable(q, now, n);
            multiset(q) == multiset(taken) + multiset(rest)
    decreases |q|
  {
    if q != [] && n != 0 {
      var m := if q[0].availableAt > now then n else n - 1;
      TakeKeepsEntries(q[1..], now, m);
      assert q == [q[0]] + q[1..];
    }
  }

  /** All available entries of a list, in order. */
  ghost function AvailableIn<T>(q: seq<Entry<T>>, now: int): seq<Entry<T>>
  {
    if q == [] then [] else (if q[0].availableAt <= now then [q[0]] else []) + AvailableIn(q[1..], now)
  }

  ghost function WaitingIn<T>(q: seq<Entry<T>>, now: int): seq<Entry<T>>
  {
    if q == [] then [] else (if q[0].availableAt <= now then [] else [q[0]]) + WaitingIn(q[1..], now)
  }

  /**
   Taking cuts the queue at one place: before the cut the available entries leave and the others stay,
   behind it nothing moves; it stops early only with a full batch.
   */
  lemma {:induction false} TakeCutsOnce<T>(q: seq<Entry<T>>, now: int, n: nat) returns (cut: nat)
    ensures cut <= |q|
    ensures var (taken, rest) := TakeAvailable(q, now, n);
            && taken == AvailableIn(q[..cut], now)
            && rest == WaitingIn(q[..cut], now) + q[cut..]
            && |taken| <= n && (cut < |q| ==> |taken| == n)
    decreases |q|
  {
    if q == [] || n == 0 {
      cut := 0;
    } else {
      var m := if q[0].availableAt > now then n else n - 1;
      var inner := TakeCutsOnce(q[1..], now, m);
      cut := inner + 1;
      assert q[..cut][1..] == q[1..][..inner];
      assert q[cut..] == q[1..][inner..];
    }
  }

  lemma {:induction false} SetFlightAppends<T>(fs: seq<Flight<T>>, f: Flight<T>)
    requires f.entry.id !in FlightIds(fs)
    ensures SetFlight(fs, f) == fs + [f]
  {
    if fs != [] {
      assert FlightIds(fs)[0] == fs[0].entry.id;
      assert FlightIds(fs)[1..] == FlightIds(fs[1..]);
      SetFlightAppends(fs[1..], f);
    }
  }

  lemma SmallerAtMostOnce(part: multiset<string>, whole: multiset<string>)
    requires part <= whole && AtMostOnce(whole)
    ensures AtMostOnce(part)
  {
  }

  /** Entries that are not in flight are launched at the end, in order. */
  lemma {:induction false} LaunchAppends<T>(fs: seq<Flight<T>>, taken: seq<Entry<T>>, expiresAt: int)
    requires AtMostOnce(multiset(FlightIds(fs)) + multiset(Ids(taken)))
    ensures FlightIds(Launch(fs, taken, expiresAt)) == FlightIds(fs) + Ids(taken)
    ensures Launch(fs, taken, expiresAt) ==
            fs + seq(|taken|, i requires 0 <= i < |taken| => Flight(taken[i], expiresAt))
  {
    if taken == [] {
      assert Ids(taken) == [];
    } else {
      var front, last := taken[..|taken| - 1], taken[|taken| - 1];
      FrontIsUnique(fs, front, last, taken);
      LaunchAppends(fs, front, expiresAt);
      var launched := Launch(fs, front, expiresAt);
      SetFlightAppends(launched, Flight(last, expiresAt));
      FlightIdsConcat(launched, [Flight(last, expiresAt)]);
    }
  }

  lemma FrontIsUnique<T>(fs: seq<Flight<T>>, front: seq<Entry<T>>, last: Entry<T>, taken: seq<Entry<T>>)
    requires taken == front + [last]
    requires AtMostOnce(multiset(FlightIds(fs)) + multiset(Ids(taken)))
    ensures AtMostOnce(multiset(FlightIds(fs)) + multiset(Ids(front)))
    ensures last.id !in FlightIds(fs) + Ids(front)
    ensures Ids(taken) == Ids(front) + [last.id]
  {
    IdsConcat(front, [last]);
    assert Ids([last]) == [last.id];
    var whole := multiset(FlightIds(fs)) + multiset(Ids(taken));
    SmallerAtMostOnce(multiset(FlightIds(fs)) + multiset(Ids(front)), whole);
    assert whole[last.id] <= 1;
    assert multiset(FlightIds(fs) + Ids(front))[last.id] == 0;
  }

  lemma {:induction false} RemoveFlightSplits<T>(fs: seq<Flight<T>>, id: string)
    ensures id in FlightIds(fs) ==>
              multiset(FlightIds(fs)) == multiset(FlightIds(RemoveFlight(fs, id))) + multiset{id}
    ensures id !in FlightIds(fs) ==> RemoveFlight(fs, id) == fs
  {
    if fs != [] {
      assert fs == [fs[0]] + fs[1..];
      FlightIdsConcat([fs[0]], fs[1..]);
      assert FlightIds([fs[0]]) == [fs[0].entry.id];
      RemoveFlightSplits(fs[1..], id);
      if fs[0].entry.id != id {
        FlightIdsConcat([fs[0]], RemoveFlight(fs[1..], id));
      }
    }
  }

  // ---------- Conservation over every run ----------

  lemma EnqueueConserves<T>(w: World<T>, step: Step<T>)
    requires Conserved(w) && Enabled(w, step) && step.Enqueue?
    ensures Conserved(Apply(w, step))
  {
    var q := w.state.queue;
    match RoomFor(q, step.maxDepth, step.strategy) {
      case None =>
      case Some(kept) =>
        var gone := q[..|q| - |kept|];
        assert q == gone + kept;
        IdsConcat(gone, kept);
        IdsConcat(kept, [step.entry]);
        assert Ids([step.entry]) == [step.entry.id];
    }
  }

  lemma ReclaimConserves<T>(w: World<T>, now: int)
    requires Conserved(w)
    ensures Conserved(Apply(w, ReadStats(now)))
  {
    ReclaimSplits(w.state.inflight, now);
    IdsConcat(w.state.queue, Expired(w.state.inflight, now));
  }

  /** A dequeue is a reclaim followed by taking. */
  lemma DequeueSplits<T>(w: World<T>, batchSize: int, now: int, ackTimeout: nat)
    returns (taken: seq<Entry<T>>, rest: seq<Entry<T>>)
    ensures var r, v := Apply(w, ReadStats(now)), Apply(w, Dequeue(batchSize, now, ackTimeout));
            && (taken, rest) == TakeAvailable(r.state.queue, now, BatchLimit(batchSize))
            && v.state == QueueState(rest, Launch(r.state.inflight, taken, now + ackTimeout))
            && v.history == r.history.(delivered := r.history.delivered + multiset(Ids(taken)))
            && InQueue(r.state) == multiset(Ids(taken)) + multiset(Ids(rest))
  {
    var r := Apply(w, ReadStats(now));
    var split := TakeAvailable(r.state.queue, now, BatchLimit(batchSize));
    taken, rest := split.0, split.1;
    TakeSplits(r.state.queue, now, BatchLimit(batchSize));
  }

  /** Taking moves ids from the queue into flight and counts them as delivered. */
  lemma DequeueMoves<T>(w: World<T>, batchSize: int, now: int, ackTimeout: nat) returns (moved: multiset<string>)
    requires Conserved(Apply(w, ReadStats(now)))
    ensures var r, v := Apply(w, ReadStats(now)), Apply(w, Dequeue(batchSize, now, ackTimeout));
            && InQueue(r.state) == moved + InQueue(v.state)
            && InFlight(v.state) == InFlight(r.state) + moved
            && v.history == r.history.(delivered := r.history.delivered + moved)
  {
    hide TakeAvailable, Launch, Apply, Conserved, AtMostOnce;
    var taken, rest := DequeueSplits(w, batchSize, now, ackTimeout);
    moved := multiset(Ids(taken));
    var fs := Apply(w, ReadStats(now)).state.inflight;
    FlightsUnique(Apply(w, ReadStats(now)), taken, rest);
    LaunchedIds(fs, taken, now + ackTimeout);
  }

  lemma LaunchedIds<T>(fs: seq<Flight<T>>, taken: seq<Entry<T>>, expiresAt: int)
    requires AtMostOnce(multiset(FlightIds(fs)) + multiset(Ids(taken)))
    ensures multiset(FlightIds(Launch(fs, taken, expiresAt))) == multiset(FlightIds(fs)) + multiset(Ids(taken))
  {
    LaunchAppends(fs, taken, expiresAt);
  }

  lemma DequeueConserves<T>(w: World<T>, batchSize: int, now: int, ackTimeout: nat)
    requires Conserved(w)
    ensures Conserved(Apply(w, Dequeue(batchSize, now, ackTimeout)))
  {
    hide Apply, Conserved;
    ReclaimConserves(w, now);
    var moved := DequeueMoves(w, batchSize, now, ackTimeout);
    TakingConserves(Apply(w, ReadStats(now)), Apply(w, Dequeue(batchSize, now, ackTimeout)), moved);
  }

  lemma FlightsUnique<T>(r: World<T>, taken: seq<Entry<T>>, rest: seq<Entry<T>>)
    requires Conserved(r)
    requires InQueue(r.state) == multiset(Ids(taken)) + multiset(Ids(rest))
    ensures AtMostOnce(multiset(FlightIds(r.state.inflight)) + multiset(Ids(taken)))
  {
    hide InQueue;
    SmallerAtMostOnce(multiset(FlightIds(r.state.inflight)) + multiset(Ids(taken)), r.history.enqueued);
  }

  lemma TakingConserves<T>(r: World<T>, v: World<T>, taken: multiset<string>)
    requires Conserved(r)
    requires InQueue(r.state) == taken + InQueue(v.state)
    requires InFlight(v.state) == InFlight(r.state) + taken
    requires v.history == r.history.(delivered := r.history.delivered + taken)
    ensures Conserved(v)
  {
  }

  lemma StepConserves<T>(w: World<T>, step: Step<T>)
    requires Conserved(w) && Enabled(w, step)
    ensures Conserved(Apply(w, step))
    ensures w.history.acked <= Apply(w, step).history.acked
  {
    match step {
      case Enqueue(_, _, _) => EnqueueConserves(w, step);
      case Dequeue(batchSize, now, ackTimeout) => DequeueConserves(w, batchSize, now, ackTimeout);
      case Ack(id) => RemoveFlightSplits(w.state.inflight, id);
      case ReadStats(now) => ReclaimConserves(w, now);
    }
  }

  function Run<T>(w: World<T>, steps: seq<Step<T>>): World<T>
    decreases |steps|
  {
    if steps == [] then w else Run(Apply(w, steps[0]), steps[1..])
  }

  ghost predicate EnabledRun<T>(w: World<T>, steps: seq<Step<T>>)
    decreases |steps|
  {
    steps == [] || (Enabled(w, steps[0]) && EnabledRun(Apply(w, steps[0]), steps[1..]))
  }

  function Start<T>(): World<T>
  {
    World(QueueState([], []), History(multiset{}, multiset{}, multiset{}, multiset{}, multiset{}))
  }

  /** Nothing is lost and nothing duplicated, whatever the operations, clocks, depths and timeouts. */
  lemma {:induction false} RunConserves<T>(w: World<T>, steps: seq<Step<T>>)
    requires Conserved(w) && EnabledRun(w, steps)
    ensures Conserved(Run(w, steps))
    ensures w.history.acked <= Run(w, steps).history.acked
    decreases |steps|
  {
    if steps != [] {
      StepConserves(w, steps[0]);
      RunConserves(Apply(w, steps[0]), steps[1..]);
    }
  }

  /** From an empty queue, each id ever enqueued is at the end in exactly one of the four places. */
  lemma WhereIsIt<T>(steps: seq<Step<T>>, id: string)
    requires EnabledRun(Start<T>(), steps)
    ensures var w := Run(Start<T>(), steps);
            var places := [InQueue(w.state)[id], InFlight(w.state)[id], w.history.acked[id], w.history.dropped[id]];
            && places[0] + places[1] + places[2] + places[3] == w.history.enqueued[id]
            && w.history.enqueued[id] <= 1
  {
    assert Conserved(Start<T>());
    RunConserves(Start<T>(), steps);
  }

  lemma StepKeepsAcked<T>(w: World<T>, step: Step<T>, id: string)
    requires Conserved(w) && Enabled(w, step) && id in w.history.acked
    ensures Apply(w, step).history.delivered[id] == w.history.delivered[id]
    ensures Apply(w, step).history.expired[id] == w.history.expired[id]
  {
    StepConserves(w, step);
    var v := Apply(w, step);
    assert w.history.enqueued[id] <= 1 && v.history.enqueued[id] <= 1;
    assert w.history.delivered[id] == w.history.expired[id] + w.history.acked[id];
    assert v.history.delivered[id] == v.history.expired[id] + v.history.acked[id];
    if step.Dequeue? || step.ReadStats? {
      ReclaimSplits(w.state.inflight, step.now);
    }
  }

  /** A message acknowledged while in flight is never delivered again, in any continuation. */
  lemma {:induction false} AckedIsFinal<T>(w: World<T>, steps: seq<Step<T>>, id: string)
    requires Conserved(w) && EnabledRun(w, steps) && id in w.history.acked
    ensures Run(w, steps).history.delivered[id] == w.history.delivered[id]
    decreases |steps|
  {
    if steps != [] {
      StepConserves(w, steps[0]);
      StepKeepsAcked(w, steps[0], id);
      AckedIsFinal(Apply(w, steps[0]), steps[1..], id);
    }
  }

  // ---------- The queue, changed in place ----------

  class InMemoryQueue<T> {
    var queue: seq<Entry<T>>
    var inflight: seq<Flight<T>>
    ghost var history: History

    ghost function Current(): World<T>
      reads this
    {
      World(QueueState(queue, inflight), history)
    }

    constructor ()
      ensures Current() == Start()
    {
      queue, inflight := [], [];
      history := Start<T>().history;
    }

    /** Deletes expired entries from the map while walking it, and pushes them back. */
    method ReclaimExpired(now: int)
      modifies this
      ensures Current() == Apply(old(Current()), ReadStats(now))
    {
      ghost var before := inflight;
      var kept: seq<Flight<T>> := [];
      for i := 0 to |inflight|
        invariant inflight == before && history == old(history)
        invariant queue == old(queue) + Expired(before[..i], now)
        invariant kept == Unexpired(before[..i], now)
      {
        assert before[..i + 1][..i] == before[..i];
        if inflight[i].expiresAt <= now {
          queue := queue + [inflight[i].entry.(availableAt := now)];
        } else {
          kept := kept + [inflight[i]];
        }
      }
      assert before[..|before|] == before;
      inflight := kept;
      history := history.(expired := history.expired + multiset(Ids(Expired(before, now))));
    }

    method EnqueueMessage(payload: T, retryCount: nat, delayMs: int, now: int, freshId: string,
                          maxDepth: nat, strategy: Overflow)
      returns (r: Result<EnqueueResult<T>, QueueError>)
      modifies this
      ensures var entry := Entry(freshId, payload, retryCount, now, now + Max(0, delayMs));
              && Current() == Apply(old(Current()), Enqueue(entry, maxDepth, strategy))
              && (r.Err? <==> |old(queue)| >= maxDepth && strategy.RejectNew?)
              && (r.Ok? ==> r.value == EnqueueResult(entry, |old(queue)| >= maxDepth && old(queue) != [], |queue|))
    {
      var dropped := false;
      if |queue| >= maxDepth {
        if strategy.RejectNew? { return Err(QueueFull); }
        if queue != [] {
          history := history.(dropped := history.dropped + multiset(Ids(queue[..1])));
          queue := queue[1..];
          dropped := true;
        }
      }
      var entry := Entry(freshId, payload, retryCount, now, now + Max(0, delayMs));
      queue := queue + [entry];
      history := history.(enqueued := history.enqueued + multiset{freshId});
      assert Ids(old(queue)[..0]) == [];
      return Ok(EnqueueResult(entry, dropped, |queue|));
    }

    method DequeueMessages(batchSize: int, now: int, ackTimeout: nat) returns (messages: seq<Entry<T>>)
      modifies this
      ensures Current() == Apply(old(Current()), Dequeue(batchSize, now, ackTimeout))
      ensures messages == DequeueResult(old(Current().state), batchSize, now, ackTimeout).1
    {
      var maxBatch := BatchLimit(batchSize);
      ReclaimExpired(now);
      messages := SpliceAvailable(maxBatch, now, now + ackTimeout);
      history := history.(delivered := history.delivered + multiset(Ids(messages)));
    }

    /** The splice loop: the index moves on only over entries that are not yet available. */
    method SpliceAvailable(maxBatch: nat, now: int, expiresAt: int) returns (messages: seq<Entry<T>>)
      modifies this`queue, this`inflight
      ensures (messages, queue) == TakeAvailable(old(queue), now, maxBatch)
      ensures inflight == Launch(old(inflight), messages, expiresAt)
    {
      hide TakeAvailable, Launch, SetFlight, Resumed;
      messages := [];
      var index := 0;
      ghost var kept: seq<Entry<T>>, tail := [], queue;
      LoopStarts(queue, now, maxBatch, inflight, expiresAt);
      while index < |queue| && |messages| < maxBatch
        invariant index == |kept| && |messages| <= maxBatch
        invariant queue == kept + tail
        invariant inflight == Launch(old(inflight), messages, expiresAt)
        invariant TakeAvailable(old(queue), now, maxBatch) == Resumed(messages, kept, tail, now, maxBatch - |messages|)
        decreases |tail|
      {
        var entry := queue[index];
        LoopAdvances(messages, kept, tail, now, maxBatch - |messages|);
        SpliceAt(kept, tail);
        if entry.availableAt > now {
          index := index + 1;
          kept := kept + [entry];
        } else {
          queue := queue[..index] + queue[index + 1..];
          inflight := SetFlight(inflight, Flight(entry, expiresAt));
          LaunchNext(old(inflight), messages, entry, expiresAt);
          messages := messages + [entry];
        }
        tail := tail[1..];
      }
      LoopEnds(messages, kept, tail, now, maxBatch - |messages|);
    }

    method AckMessage(id: string)
      modifies this
      ensures Current() == Apply(old(Current()), Ack(id))
    {
      if id in FlightIds(inflight) {
        history := history.(acked := history.acked + multiset{id});
      }
      inflight := RemoveFlight(inflight, id);
    }

    method GetDepth(now: int) returns (depth: nat)
      modifies this
      ensures Current() == Apply(old(Current()), ReadStats(now))
      ensures depth == |queue|
    {
      ReclaimExpired(now);
      return |queue|;
    }
  }
}
