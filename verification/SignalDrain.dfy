/**
 Draining the signal queue: drainSecuritySignalQueue in services/security-anomaly.service.ts.

 Between any two awaits of a drain other tasks may enqueue signals or read the queue's
 statistics, which reclaims expired messages; the environment decides what they do, what the
 clock says and which signals fail. A drain is proved equal to a run of `DrainStep`s, and the
 claims about many drains are made for every such run.
 */
module SignalDrain {
  import opened Prelude
  import opened DeliveryQueue

  /** `sid` names the signal through all its retries. */
  datatype Signal = Signal(sid: nat, source: string)

  datatype Config = Config(
    maxDepth: nat,
    strategy: Overflow,
    ackTimeout: nat,
    dequeueBatch: nat,
    maxRetries: nat,
    retryBaseMs: nat,
    retryMaxMs: nat)

  function Pow2(n: nat): nat { if n == 0 then 1 else 2 * Pow2(n - 1) }

  /** `queueRetryDelayMs`: exponential back-off between the base and the maximum. */
  function RetryDelayMs(c: Config, attempt: nat): int
  {
    Min(c.retryMaxMs, Max(c.retryBaseMs, c.retryBaseMs * Pow2(if attempt == 0 then 0 else attempt - 1)))
  }

  /** The delay never exceeds the maximum and never shrinks from one attempt to the next. */
  lemma RetryDelayGrows(c: Config, attempt: nat)
    ensures 0 <= RetryDelayMs(c, attempt) <= c.retryMaxMs
    ensures RetryDelayMs(c, attempt) <= RetryDelayMs(c, attempt + 1)
    ensures c.retryBaseMs <= c.retryMaxMs ==> c.retryBaseMs <= RetryDelayMs(c, attempt)
  {
  }

  /** The first retry waits the base delay, each further one twice as long as the one before, up to the maximum. */
  lemma RetryDelayDoubles(c: Config, attempt: nat)
    requires 0 < attempt
    ensures RetryDelayMs(c, 1) == if c.retryBaseMs < c.retryMaxMs then c.retryBaseMs else c.retryMaxMs
    ensures RetryDelayMs(c, attempt + 1) ==
              if 2 * RetryDelayMs(c, attempt) < c.retryMaxMs then 2 * RetryDelayMs(c, attempt) else c.retryMaxMs
  {
    Pow2Positive(attempt - 1);
    TimesPositive(c.retryBaseMs, Pow2(attempt - 1));
  }

  lemma {:induction false} Pow2Positive(n: nat)
    ensures Pow2(n) >= 1
  {
    if n > 0 {
      Pow2Positive(n - 1);
    }
  }

  lemma TimesPositive(x: nat, p: nat)
    requires p >= 1
    ensures x * (2 * p) == 2 * (x * p) && x * p >= x
  {
    assert x * (p - 1) >= 0;
  }

  // ---------- Steps of drains and of the tasks beside them ----------

  datatype Other = Ingest(signal: Signal, now: int, freshId: string) | LookAtStats(now: int)

  datatype DrainStep =
    | Aside(other: Other)
    | Fetch(batchSize: int, now: int)
    | Handle(ok: bool, now: int, freshId: string)

  /** `batch` holds the messages a drain has dequeued and not yet handled. */
  datatype Sys = Sys(
    world: World<Signal>,
    batch: seq<Entry<Signal>>,
    ingested: set<nat>,
    attempts: multiset<nat>,
    processed: nat,
    retried: nat,
    failed: nat)

  function Fresh(signal: Signal, retryCount: nat, now: int, delay: int, id: string): Entry<Signal>
  {
    Entry(id, signal, retryCount, now, now + Max(0, delay))
  }

  function OtherStep(c: Config, o: Other): Step<Signal>
  {
    match o
    case Ingest(signal, now, id) => Enqueue(Fresh(signal, 0, now, 0, id), c.maxDepth, c.strategy)
    case LookAtStats(now) => ReadStats(now)
  }

  function RetryEntry(c: Config, m: Entry<Signal>, now: int, id: string): Entry<Signal>
  {
    Fresh(m.payload, m.retryCount + 1, now, RetryDelayMs(c, m.retryCount + 1), id)
  }

  function HandleMessage(c: Config, s: Sys, ok: bool, now: int, id: string): Sys
    requires s.batch != []
  {
    var m := s.batch[0];
    var acked := Apply(s.world, Ack(m.id));
    var s' := s.(batch := s.batch[1..], attempts := s.attempts + multiset{m.payload.sid}, world := acked);
    if ok then s'.(processed := s.processed + 1)
    else if m.retryCount + 1 <= c.maxRetries then
      var again := Apply(acked, Enqueue(RetryEntry(c, m, now, id), c.maxDepth, c.strategy));
      if RoomFor(acked.state.queue, c.maxDepth, c.strategy).None? then s'.(failed := s.failed + 1)
      else s'.(world := again, retried := s.retried + 1)
    else s'.(failed := s.failed + 1)
  }

  function Next(c: Config, s: Sys, step: DrainStep): Sys
  {
    match step
    case Aside(o) =>
      s.(world := Apply(s.world, OtherStep(c, o)),
         ingested := if o.Ingest? then s.ingested + {o.signal.sid} else s.ingested)
    case Fetch(batchSize, now) =>
      s.(world := Apply(s.world, Dequeue(batchSize, now, c.ackTimeout)),
         batch := s.batch + DequeueResult(s.world.state, batchSize, now, c.ackTimeout).1)
    case Handle(ok, now, id) =>
      if s.batch == [] then s else HandleMessage(c, s, ok, now, id)
  }

  function RunSteps(c: Config, s: Sys, steps: seq<DrainStep>): Sys
  {
    if steps == [] then s else Next(c, RunSteps(c, s, steps[..|steps| - 1]), steps[|steps| - 1])
  }

  lemma RunOneMore(c: Config, s: Sys, steps: seq<DrainStep>, step: DrainStep)
    ensures RunSteps(c, s, steps + [step]) == Next(c, RunSteps(c, s, steps), step)
  {
  }

  // ---------- What becomes of a message ----------

  /** The queue takes one entry more; a full one makes room by dropping its oldest, or refuses. */
  predicate Takes(c: Config, q: seq<Entry<Signal>>) { |q| < c.maxDepth || c.strategy == DropOldest }

  function WithRoom(c: Config, q: seq<Entry<Signal>>): seq<Entry<Signal>>
  {
    if |q| < c.maxDepth || q == [] then q else q[1..]
  }

  /**
   A handled message leaves the batch and is no longer in flight, and counts as one attempt. If its processing fails, it
   goes to the end of the queue with one retry more, after the delay, as long as retries are left and the queue takes it;
   otherwise it has failed. Exactly one of the three counters rises.
   */
  lemma HandlingTells(c: Config, s: Sys, ok: bool, now: int, id: string)
    requires s.batch != []
    ensures var m, t, q := s.batch[0], Next(c, s, Handle(ok, now, id)), s.world.state.queue;
            var again := !ok && m.retryCount < c.maxRetries && Takes(c, q);
            && t.batch == s.batch[1..] && t.attempts == s.attempts + multiset{m.payload.sid} && t.ingested == s.ingested
            && t.world.state.inflight == RemoveFlight(s.world.state.inflight, m.id)
            && t.world.state.queue ==
                 (if again
                  then WithRoom(c, q) + [Entry(id, m.payload, m.retryCount + 1, now,
                                               now + RetryDelayMs(c, m.retryCount + 1))]
                  else q)
            && t.processed == s.processed + (if ok then 1 else 0)
            && t.retried == s.retried + (if again then 1 else 0)
            && t.failed == s.failed + (if !ok && !again then 1 else 0)
  {
    RetryDelayGrows(c, s.batch[0].retryCount + 1);
  }

  // ---------- How often a signal is attempted ----------

  /** Signals are ingested under new names, and a drain fetches only after handling what it has. */
  ghost predicate Allowed(s: Sys, step: DrainStep)
  {
    match step
    case Aside(Ingest(signal, _, _)) => signal.sid !in s.ingested
    case Aside(LookAtStats(_)) => true
    case Fetch(_, _) => s.batch == []
    case Handle(_, _, _) => s.batch != []
  }

  ghost predicate AllowedRun(c: Config, s: Sys, steps: seq<DrainStep>)
  {
    steps == [] ||
    (AllowedRun(c, s, steps[..|steps| - 1]) && Allowed(RunSteps(c, s, steps[..|steps| - 1]), steps[|steps| - 1]))
  }

  lemma EmptyRun(c: Config, s: Sys)
    ensures RunSteps(c, s, []) == s && AllowedRun(c, s, [])
  {
  }

  /** Entries that are still going to be attempted. */
  ghost function Live(s: Sys): multiset<Entry<Signal>>
  {
    multiset(s.world.state.queue) + multiset(s.batch)
  }

  ghost predicate LiveEntry(c: Config, s: Sys, e: Entry<Signal>)
  {
    && Live(s)[e] == 1
    && e.payload.sid in s.ingested
    && e.retryCount == s.attempts[e.payload.sid] <= c.maxRetries
  }

  /** One live entry per signal at most, carrying the number of attempts made so far. */
  ghost predicate Bounded(c: Config, s: Sys)
  {
    && (forall e :: e in Live(s) ==> LiveEntry(c, s, e))
    && (forall e, f :: e in Live(s) && f in Live(s) && e.payload.sid == f.payload.sid ==> e == f)
    && (forall sid :: s.attempts[sid] <= c.maxRetries + 1)
    && (forall sid :: sid in s.attempts ==> sid in s.ingested)
  }

  /** A step during which nothing expires neither loses nor adds live entries unseen. */
  lemma FetchKeepsLive(c: Config, s: Sys, batchSize: int, now: int)
    requires Next(c, s, Fetch(batchSize, now)).world.history.expired == s.world.history.expired
    ensures Live(Next(c, s, Fetch(batchSize, now))) == Live(s)
  {
    var q := s.world.state.queue;
    QuietReclaim(s.world, now);
    TakeKeepsEntries(q, now, BatchLimit(batchSize));
  }

  lemma NothingAdded(a: multiset<string>, ids: seq<string>)
    requires a + multiset(ids) == a
    ensures ids == []
  {
    assert |a + multiset(ids)| == |a| + |multiset(ids)|;
    assert |multiset(ids)| == |ids|;
  }

  lemma QuietReclaim<T>(w: World<T>, now: int)
    requires Apply(w, ReadStats(now)).history.expired == w.history.expired
    ensures Expired(w.state.inflight, now) == []
    ensures Reclaim(w.state, now).queue == w.state.queue
  {
    NothingAdded(w.history.expired, Ids(Expired(w.state.inflight, now)));
    assert |Ids(Expired(w.state.inflight, now))| == |Expired(w.state.inflight, now)|;
    assert w.state.queue + [] == w.state.queue;
  }

  /** With a smaller set of live entries and the same counts the bound stays. */
  lemma FewerLive(c: Config, s: Sys, t: Sys)
    requires Bounded(c, s) && Live(t) <= Live(s)
    requires t.attempts == s.attempts && s.ingested <= t.ingested
    ensures Bounded(c, t)
  {
  }

  /** Adding one entry for a signal that has none. */
  lemma OneMoreLive(c: Config, s: Sys, t: Sys, e: Entry<Signal>)
    requires Bounded(c, s) && Live(t) <= Live(s) + multiset{e}
    requires t.attempts == s.attempts && s.ingested <= t.ingested && e.payload.sid in t.ingested
    requires e.retryCount == s.attempts[e.payload.sid] <= c.maxRetries
    requires forall f :: f in Live(s) ==> f.payload.sid != e.payload.sid
    ensures Bounded(c, t)
  {
  }

  lemma RoomKeepsFewer(q: seq<Entry<Signal>>, c: Config)
    ensures RoomFor(q, c.maxDepth, c.strategy).Some? ==>
              multiset(RoomFor(q, c.maxDepth, c.strategy).value) <= multiset(q)
  {
    if q != [] {
      assert q == [q[0]] + q[1..];
    }
  }

  lemma EnqueueLive(w: World<Signal>, e: Entry<Signal>, c: Config)
    ensures multiset(Apply(w, Enqueue(e, c.maxDepth, c.strategy)).state.queue)
         <= multiset(w.state.queue) + multiset{e}
  {
    RoomKeepsFewer(w.state.queue, c);
  }

  lemma AsideKeepsBound(c: Config, s: Sys, o: Other)
    requires Bounded(c, s) && Allowed(s, Aside(o))
    requires Next(c, s, Aside(o)).world.history.expired == s.world.history.expired
    ensures Bounded(c, Next(c, s, Aside(o)))
  {
    match o {
      case Ingest(signal, now, id) =>
        var e := Fresh(signal, 0, now, 0, id);
        EnqueueLive(s.world, e, c);
        forall f | f in Live(s) ensures f.payload.sid != signal.sid {
          assert LiveEntry(c, s, f);
        }
        OneMoreLive(c, s, Next(c, s, Aside(o)), e);
      case LookAtStats(now) =>
        QuietReclaim(s.world, now);
        FewerLive(c, s, Next(c, s, Aside(o)));
    }
  }

  /** Handling the first message: the entry leaves, its signal has one attempt more. */
  function Attempted(s: Sys): Sys
    requires s.batch != []
  {
    s.(batch := s.batch[1..], attempts := s.attempts + multiset{s.batch[0].payload.sid})
  }

  lemma AttemptKeepsBound(c: Config, s: Sys)
    requires Bounded(c, s) && s.batch != []
    ensures Bounded(c, Attempted(s))
    ensures Attempted(s).attempts[s.batch[0].payload.sid] == s.batch[0].retryCount + 1
    ensures forall f :: f in Live(Attempted(s)) ==> f.payload.sid != s.batch[0].payload.sid
  {
    var m, t := s.batch[0], Attempted(s);
    assert s.batch == [m] + s.batch[1..];
    assert Live(s) == Live(t) + multiset{m};
    assert LiveEntry(c, s, m);
    forall e | e in Live(t) ensures e.payload.sid != m.payload.sid && LiveEntry(c, t, e) {
      assert e in Live(s) && LiveEntry(c, s, e);
      assert Live(s)[e] == Live(t)[e] + multiset{m}[e];
    }
  }

  lemma HandleKeepsBound(c: Config, s: Sys, ok: bool, now: int, id: string)
    requires Bounded(c, s) && s.batch != []
    ensures Bounded(c, Next(c, s, Handle(ok, now, id)))
  {
    var m, t := s.batch[0], Next(c, s, Handle(ok, now, id));
    AttemptKeepsBound(c, s);
    var acked := Apply(s.world, Ack(m.id));
    assert acked.state.queue == s.world.state.queue;
    if t.retried == s.retried {
      FewerLive(c, Attempted(s), t);
    } else {
      var e := RetryEntry(c, m, now, id);
      EnqueueLive(acked, e, c);
      assert m.payload.sid in Attempted(s).attempts;
      OneMoreLive(c, Attempted(s), t, e);
    }
  }

  lemma StepKeepsBound(c: Config, s: Sys, step: DrainStep)
    requires Bounded(c, s) && Allowed(s, step)
    requires Next(c, s, step).world.history.expired == s.world.history.expired
    ensures Bounded(c, Next(c, s, step))
  {
    match step {
      case Aside(o) => AsideKeepsBound(c, s, o);
      case Fetch(batchSize, now) =>
        FetchKeepsLive(c, s, batchSize, now);
        FewerLive(c, s, Next(c, s, step));
      case Handle(ok, now, id) => HandleKeepsBound(c, s, ok, now, id);
    }
  }

  lemma ExpiredOnlyGrows(c: Config, s: Sys, step: DrainStep)
    ensures s.world.history.expired <= Next(c, s, step).world.history.expired
  {
  }

  /**
   When no message expires in flight, no signal is attempted more than maxRetries + 1 times, over all
   drains and whatever other tasks do in between.
   */
  lemma {:induction false} AttemptsAreBounded(c: Config, s: Sys, steps: seq<DrainStep>)
    requires Bounded(c, s) && AllowedRun(c, s, steps)
    requires RunSteps(c, s, steps).world.history.expired == s.world.history.expired
    ensures Bounded(c, RunSteps(c, s, steps))
    ensures forall sid :: RunSteps(c, s, steps).attempts[sid] <= c.maxRetries + 1
    ensures s.world.history.expired <= RunSteps(c, s, steps).world.history.expired
  {
    if steps != [] {
      var front, last := steps[..|steps| - 1], steps[|steps| - 1];
      ExpiredGrowsOverRun(c, s, front);
      ExpiredOnlyGrows(c, RunSteps(c, s, front), last);
      AttemptsAreBounded(c, s, front);
      StepKeepsBound(c, RunSteps(c, s, front), last);
    }
  }

  // ---------- A signal that always fails ----------

  /** The signal has used up its attempts, or an entry with its count still waits. */
  ghost predicate Due(c: Config, s: Sys, sid: nat)
  {
    || s.attempts[sid] == c.maxRetries + 1
    || exists e :: e in Live(s) && e.payload.sid == sid && e.retryCount == s.attempts[sid]
  }

  /** Processing this signal fails whenever the step handles it, and nothing is put into a full queue. */
  ghost predicate FailsWithRoom(c: Config, s: Sys, step: DrainStep, sid: nat)
  {
    && (step.Handle? && s.batch != [] && s.batch[0].payload.sid == sid ==> !step.ok)
    && (step.Handle? || (step.Aside? && step.other.Ingest?) ==> |s.world.state.queue| < c.maxDepth)
  }

  ghost predicate FailsThroughout(c: Config, s: Sys, steps: seq<DrainStep>, sid: nat)
  {
    steps == [] ||
    (FailsThroughout(c, s, steps[..|steps| - 1], sid)
     && FailsWithRoom(c, RunSteps(c, s, steps[..|steps| - 1]), steps[|steps| - 1], sid))
  }

  lemma HandleKeepsDue(c: Config, s: Sys, step: DrainStep, sid: nat)
    requires Bounded(c, s) && Due(c, s, sid) && step.Handle? && s.batch != [] && FailsWithRoom(c, s, step, sid)
    ensures Due(c, Next(c, s, step), sid)
  {
    var m, t := s.batch[0], Next(c, s, step);
    HandlingTells(c, s, step.ok, step.now, step.freshId);
    assert s.batch == [m] + s.batch[1..];
    assert m in Live(s) && LiveEntry(c, s, m);
    if m.payload.sid == sid {
      if m.retryCount < c.maxRetries {
        var again := t.world.state.queue[|t.world.state.queue| - 1];
        assert again in Live(t) && again.payload.sid == sid && again.retryCount == t.attempts[sid];
      }
    } else if s.attempts[sid] != c.maxRetries + 1 {
      var e :| e in Live(s) && e.payload.sid == sid && e.retryCount == s.attempts[sid];
      assert e in Live(t);
    }
  }

  lemma StepKeepsDue(c: Config, s: Sys, step: DrainStep, sid: nat)
    requires Bounded(c, s) && Allowed(s, step) && FailsWithRoom(c, s, step, sid)
    requires Next(c, s, step).world.history.expired == s.world.history.expired
    requires sid in s.ingested ==> Due(c, s, sid)
    ensures sid in Next(c, s, step).ingested ==> Due(c, Next(c, s, step), sid)
  {
    var t := Next(c, s, step);
    match step {
      case Aside(Ingest(signal, now, id)) =>
        var e := Fresh(signal, 0, now, 0, id);
        assert t.world.state.queue == s.world.state.queue + [e];
        assert e in Live(t);
      case Aside(LookAtStats(now)) => QuietReclaim(s.world, now);
      case Fetch(batchSize, now) => FetchKeepsLive(c, s, batchSize, now);
      case Handle(_, _, _) => if sid in s.ingested { HandleKeepsDue(c, s, step, sid); }
    }
  }

  lemma {:induction false} RunKeepsDue(c: Config, s: Sys, steps: seq<DrainStep>, sid: nat)
    requires Bounded(c, s) && AllowedRun(c, s, steps) && FailsThroughout(c, s, steps, sid)
    requires RunSteps(c, s, steps).world.history.expired == s.world.history.expired
    requires sid in s.ingested ==> Due(c, s, sid)
    ensures sid in RunSteps(c, s, steps).ingested ==> Due(c, RunSteps(c, s, steps), sid)
  {
    hide Next, Bounded, Due, Allowed, FailsWithRoom;
    if steps != [] {
      var front, last := steps[..|steps| - 1], steps[|steps| - 1];
      ExpiredGrowsOverRun(c, s, front);
      ExpiredOnlyGrows(c, RunSteps(c, s, front), last);
      AttemptsAreBounded(c, s, front);
      RunKeepsDue(c, s, front, sid);
      StepKeepsDue(c, RunSteps(c, s, front), last, sid);
    }
  }

  /**
   A signal that always fails, with no overflow and no expiry in flight, is attempted exactly maxRetries + 1 times by the
   time nothing waits any more.
   */
  lemma AlwaysFailingIsTriedOut(c: Config, s: Sys, steps: seq<DrainStep>, sid: nat)
    requires Bounded(c, s) && AllowedRun(c, s, steps) && FailsThroughout(c, s, steps, sid)
    requires RunSteps(c, s, steps).world.history.expired == s.world.history.expired
    requires sid in s.ingested ==> Due(c, s, sid)
    requires var t := RunSteps(c, s, steps); t.world.state.queue == [] && t.batch == [] && sid in t.ingested
    ensures RunSteps(c, s, steps).attempts[sid] == c.maxRetries + 1
  {
    hide RunSteps, AllowedRun, FailsThroughout, Bounded;
    RunKeepsDue(c, s, steps, sid);
  }

  lemma AlwaysFailingIsTriedOutFromStart(c: Config, steps: seq<DrainStep>, sid: nat)
    requires AllowedRun(c, Idle(), steps) && FailsThroughout(c, Idle(), steps, sid)
    requires var t := RunSteps(c, Idle(), steps);
             t.world.history.expired == multiset{} && t.world.state.queue == [] && t.batch == [] && sid in t.ingested
    ensures RunSteps(c, Idle(), steps).attempts[sid] == c.maxRetries + 1
  {
    AlwaysFailingIsTriedOut(c, Idle(), steps, sid);
  }

  function Idle(): Sys { Sys(Start(), [], {}, multiset{}, 0, 0, 0) }

  /** The same from an empty queue. */
  lemma AttemptsAreBoundedFromStart(c: Config, steps: seq<DrainStep>, sid: nat)
    requires AllowedRun(c, Idle(), steps)
    requires RunSteps(c, Idle(), steps).world.history.expired == multiset{}
    ensures RunSteps(c, Idle(), steps).attempts[sid] <= c.maxRetries + 1
  {
    AttemptsAreBounded(c, Idle(), steps);
  }

  lemma {:induction false} ExpiredGrowsOverRun(c: Config, s: Sys, steps: seq<DrainStep>)
    ensures s.world.history.expired <= RunSteps(c, s, steps).world.history.expired
  {
    if steps != [] {
      ExpiredGrowsOverRun(c, s, steps[..|steps| - 1]);
      ExpiredOnlyGrows(c, RunSteps(c, s, steps[..|steps| - 1]), steps[|steps| - 1]);
    }
  }

  // ---------- The drain itself ----------

  lemma {:induction false} TakenAtMost<T>(q: seq<Entry<T>>, now: int, n: nat)
    ensures |TakeAvailable(q, now, n).0| <= n
    decreases |q|
  {
    if q != [] && n != 0 {
      TakenAtMost(q[1..], now, if q[0].availableAt > now then n else n - 1);
    }
  }

  /** A batch is no longer than asked for, and each of its messages is one delivery. */
  lemma FetchedAtMost<T>(w: World<T>, count: int, now: int, ackTimeout: nat)
    requires count >= 1
    ensures var taken := DequeueResult(w.state, count, now, ackTimeout).1;
            && |taken| <= count
            && |Apply(w, Dequeue(count, now, ackTimeout)).history.delivered| == |w.history.delivered| + |taken|
  {
    var taken := DequeueResult(w.state, count, now, ackTimeout).1;
    TakenAtMost(Reclaim(w.state, now).queue, now, BatchLimit(count));
    assert |multiset(Ids(taken))| == |taken|;
  }

  /** What the outside decides at the k-th opportunity. */
  datatype Env = Env(
    now: nat -> int,
    succeeds: nat -> bool,
    freshId: nat -> string,
    others: nat -> seq<Other>)

  /** Signals that other tasks bring in from the k-th opportunity on are new, and all different. */
  ghost predicate NewSignals(env: Env, from: nat, known: set<nat>)
  {
    && (forall k: nat, i :: k >= from && 0 <= i < |env.others(k)| && env.others(k)[i].Ingest? ==>
          env.others(k)[i].signal.sid !in known)
    && (forall k: nat, i, l: nat, j ::
          (k >= from && 0 <= i < |env.others(k)| && env.others(k)[i].Ingest?
           && l >= from && 0 <= j < |env.others(l)| && env.others(l)[j].Ingest? && (k != l || i != j)) ==>
            env.others(k)[i].signal.sid != env.others(l)[j].signal.sid)
  }

  ghost predicate NewBatch(others: seq<Other>, known: set<nat>)
  {
    && (forall i :: 0 <= i < |others| && others[i].Ingest? ==> others[i].signal.sid !in known)
    && (forall i, j :: 0 <= i < j < |others| && others[i].Ingest? && others[j].Ingest? ==>
          others[i].signal.sid != others[j].signal.sid)
  }

  ghost function BroughtBy(others: seq<Other>): set<nat>
  {
    set i | 0 <= i < |others| && others[i].Ingest? :: others[i].signal.sid
  }

  lemma NextBatchIsNew(env: Env, k: nat, known: set<nat>)
    requires NewSignals(env, k, known)
    ensures NewBatch(env.others(k), known) && NewSignals(env, k + 1, known + BroughtBy(env.others(k)))
  {
  }

  lemma AllowedOneMore(c: Config, s: Sys, steps: seq<DrainStep>, step: DrainStep)
    requires AllowedRun(c, s, steps) && Allowed(RunSteps(c, s, steps), step)
    ensures AllowedRun(c, s, steps + [step])
  {
    assert (steps + [step])[..|steps|] == steps;
  }

  datatype DrainResult = DrainResult(processed: nat, retried: nat, failed: nat, remaining: nat)

  lemma OnlyDequeueDelivers<T>(w: World<T>, step: Step<T>)
    requires !step.Dequeue?
    ensures Apply(w, step).history.delivered == w.history.delivered
  {
  }

  lemma RoomDecidesRetry(w: World<Signal>, e: Entry<Signal>, c: Config)
    ensures RoomFor(w.state.queue, c.maxDepth, c.strategy).None? <==>
              |w.state.queue| >= c.maxDepth && c.strategy.RejectNew?
    ensures RoomFor(w.state.queue, c.maxDepth, c.strategy).None? ==> Apply(w, Enqueue(e, c.maxDepth, c.strategy)) == w
  {
  }

  lemma BroughtOneMore(others: seq<Other>, i: nat)
    requires i < |others|
    ensures BroughtBy(others[..i + 1]) ==
              BroughtBy(others[..i]) + if others[i].Ingest? then {others[i].signal.sid} else {}
  {
    var now, before := BroughtBy(others[..i + 1]), BroughtBy(others[..i]);
    forall sid ensures sid in now <==> sid in before || (others[i].Ingest? && sid == others[i].signal.sid) {
      if sid in before {
        var j :| 0 <= j < i && others[..i][j].Ingest? && others[..i][j].signal.sid == sid;
        assert others[..i + 1][j].Ingest?;
      }
      if others[i].Ingest? && sid == others[i].signal.sid {
        assert others[..i + 1][i].Ingest?;
      }
    }
  }

  lemma NotYetBrought(others: seq<Other>, known: set<nat>, i: nat)
    requires NewBatch(others, known) && i < |others| && others[i].Ingest?
    ensures others[i].signal.sid !in known + BroughtBy(others[..i])
  {
  }

  class Drainer {
    const queue: InMemoryQueue<Signal>
    const config: Config
    var draining: bool
    ghost var batch: seq<Entry<Signal>>
    ghost var ingested: set<nat>
    ghost var attempts: multiset<nat>
    var processed: nat
    var retried: nat
    var failed: nat

    ghost function Current(): Sys
      reads this, queue
    {
      Sys(queue.Current(), batch, ingested, attempts, processed, retried, failed)
    }

    constructor (queue: InMemoryQueue<Signal>, config: Config)
      ensures this.queue == queue && this.config == config && !draining
      ensures Current() == Sys(queue.Current(), [], {}, multiset{}, 0, 0, 0)
    {
      this.queue, this.config := queue, config;
      draining := false;
      batch, ingested, attempts := [], {}, multiset{};
      processed, retried, failed := 0, 0, 0;
    }

    /** Messages handled since the drain began. */
    function Handled(p0: nat, r0: nat, f0: nat): int
      reads this`processed, this`retried, this`failed
    {
      processed - p0 + (retried - r0) + (failed - f0)
    }

    /** What is handled or still in the batch is what was delivered, within the budget. */
    ghost predicate Progress(p0: nat, r0: nat, f0: nat, maxItems: int, start: Sys, steps: seq<DrainStep>)
      reads this, queue
    {
      && processed >= p0 && retried >= r0 && failed >= f0
      && Handled(p0, r0, f0) + |batch| <= Max(0, maxItems)
      && Handled(p0, r0, f0) + |batch| == |queue.history.delivered| - |start.world.history.delivered|
      && Current() == RunSteps(config, start, steps)
    }

    /** Other tasks run while the drain awaits. */
    method LetOthersRun(others: seq<Other>, ghost start: Sys, ghost done: seq<DrainStep>) returns (ghost steps: seq<DrainStep>)
      requires Current() == RunSteps(config, start, done)
      modifies this`ingested, queue
      ensures Current() == RunSteps(config, start, steps)
      ensures batch == old(batch) && draining == old(draining)
      ensures queue.history.delivered == old(queue.history.delivered)
      ensures ingested == old(ingested) + BroughtBy(others)
      ensures NewBatch(others, old(ingested)) && AllowedRun(config, start, done) ==> AllowedRun(config, start, steps)
    {
      hide RunSteps, Apply, AllowedRun, NewBatch;
      steps := done;
      for i := 0 to |others|
        invariant Current() == RunSteps(config, start, steps)
        invariant queue.history.delivered == old(queue.history.delivered)
        invariant batch == old(batch) && attempts == old(attempts) && draining == old(draining)
        invariant processed == old(processed) && retried == old(retried) && failed == old(failed)
        invariant ingested == old(ingested) + BroughtBy(others[..i])
        invariant NewBatch(others, old(ingested)) && AllowedRun(config, start, done) ==> AllowedRun(config, start, steps)
      {
        RunOneMore(config, start, steps, Aside(others[i]));
        OnlyDequeueDelivers(queue.Current(), OtherStep(config, others[i]));
        BroughtOneMore(others, i);
        if NewBatch(others, old(ingested)) && AllowedRun(config, start, done) {
          if others[i].Ingest? { NotYetBrought(others, old(ingested), i); }
          AllowedOneMore(config, start, steps, Aside(others[i]));
        }
        match others[i] {
          case Ingest(signal, now, id) =>
            var _ := queue.EnqueueMessage(signal, 0, 0, now, id, config.maxDepth, config.strategy);
            ingested := ingested + {signal.sid};
          case LookAtStats(now) =>
            var _ := queue.GetDepth(now);
        }
        steps := steps + [Aside(others[i])];
      }
      assert others[..|others|] == others;
    }

    /** The body of the message loop. */
    method HandleOne(message: Entry<Signal>, ok: bool, now: int, freshId: string)
      requires batch != [] && batch[0] == message
      modifies this`batch, this`attempts, this`processed, this`retried, this`failed, queue
      ensures Current() == Next(config, old(Current()), Handle(ok, now, freshId))
      ensures batch == old(batch)[1..]
      ensures processed + retried + failed == old(processed + retried + failed) + 1
      ensures processed >= old(processed) && retried >= old(retried) && failed >= old(failed)
      ensures queue.history.delivered == old(queue.history.delivered)
    {
      hide Apply, RoomFor;
      OnlyDequeueDelivers(queue.Current(), Ack(message.id));
      batch := batch[1..];
      attempts := attempts + multiset{message.payload.sid};
      queue.AckMessage(message.id);
      if ok {
        processed := processed + 1;
        return;
      }
      var attempt := message.retryCount + 1;
      if attempt <= config.maxRetries {
        RoomDecidesRetry(queue.Current(), RetryEntry(config, message, now, freshId), config);
        OnlyDequeueDelivers(queue.Current(),
                            Enqueue(RetryEntry(config, message, now, freshId), config.maxDepth, config.strategy));
        var queued := queue.EnqueueMessage(message.payload, attempt, RetryDelayMs(config, attempt), now, freshId,
                                           config.maxDepth, config.strategy);
        if queued.Ok? { retried := retried + 1; } else { failed := failed + 1; }
      } else {
        failed := failed + 1;
      }
    }

    /** The message loop: other tasks run while a message is processed; the budget check ends it. */
    method HandleBatch(messages: seq<Entry<Signal>>, maxItems: int, env: Env, tick: nat,
                       p0: nat, r0: nat, f0: nat, ghost start: Sys, ghost done: seq<DrainStep>)
      returns (next: nat, ghost steps: seq<DrainStep>)
      requires batch == messages && Progress(p0, r0, f0, maxItems, start, done)
      modifies this`batch, this`attempts, this`ingested, this`processed, this`retried, this`failed, queue
      ensures batch == [] && Progress(p0, r0, f0, maxItems, start, steps)
      ensures Handled(p0, r0, f0) == old(Handled(p0, r0, f0)) + |messages|
      ensures NewSignals(env, tick, old(ingested)) && AllowedRun(config, start, done) ==>
                NewSignals(env, next, ingested) && AllowedRun(config, start, steps)
    {
      hide RunSteps, Next, NewSignals, NewBatch, AllowedRun, BroughtBy, Allowed, Apply;
      next, steps := tick, done;
      var i := 0;
      while i < |messages|
        invariant 0 <= i <= |messages| && batch == messages[i..]
        invariant Progress(p0, r0, f0, maxItems, start, steps)
        invariant Handled(p0, r0, f0) == old(Handled(p0, r0, f0)) + i
        invariant NewSignals(env, tick, old(ingested)) && AllowedRun(config, start, done) ==>
                    NewSignals(env, next, ingested) && AllowedRun(config, start, steps)
      {
        if NewSignals(env, next, ingested) { NextBatchIsNew(env, next, ingested); }
        steps := LetOthersRun(env.others(next), start, steps);
        var step := Handle(env.succeeds(next), env.now(next), env.freshId(next));
        RunOneMore(config, start, steps, step);
        if AllowedRun(config, start, steps) { AllowedOneMore(config, start, steps, step); }
        HandleOne(messages[i], step.ok, step.now, step.freshId);
        steps := steps + [step];
        next := next + 1;
        i := i + 1;
        if Handled(p0, r0, f0) >= maxItems { break; }
      }
    }

    /** One dequeue, no larger than the budget left. */
    method FetchBatch(maxItems: int, now: int, p0: nat, r0: nat, f0: nat, ghost start: Sys, ghost done: seq<DrainStep>)
      returns (messages: seq<Entry<Signal>>, ghost steps: seq<DrainStep>)
      requires batch == [] && Progress(p0, r0, f0, maxItems, start, done) && Handled(p0, r0, f0) < maxItems
      modifies this`batch, queue
      ensures batch == messages && Progress(p0, r0, f0, maxItems, start, steps)
      ensures AllowedRun(config, start, done) ==> AllowedRun(config, start, steps)
    {
      hide RunSteps, Apply, DequeueResult, AllowedRun;
      var budget := maxItems - Handled(p0, r0, f0);
      var count := Max(1, Min(config.dequeueBatch, budget));
      RunOneMore(config, start, done, Fetch(count, now));
      if AllowedRun(config, start, done) { AllowedOneMore(config, start, done, Fetch(count, now)); }
      FetchedAtMost(queue.Current(), count, now, config.ackTimeout);
      messages := queue.DequeueMessages(count, now, config.ackTimeout);
      assert [] + messages == messages;
      batch := messages;
      steps := done + [Fetch(count, now)];
    }

    /**
     `drainSecuritySignalQueue`. The drain ends although failed signals go back to the queue; it handles
     every message it dequeues exactly once and never more than `maxItems` of them.
     */
    method Drain(maxItems: int, env: Env, from: nat) returns (r: DrainResult, next: nat, ghost steps: seq<DrainStep>)
      requires batch == []
      modifies this, queue
      ensures draining == old(draining)
      ensures Current() == RunSteps(config, old(Current()), steps)
      ensures batch == []
      ensures r.processed + r.retried + r.failed == |queue.history.delivered| - |old(queue.history.delivered)|
      ensures r.processed + r.retried + r.failed <= Max(0, maxItems)
      ensures r.processed == processed - old(processed) && r.retried == retried - old(retried)
      ensures r.failed == failed - old(failed)
      ensures r.remaining == |queue.queue|
      ensures old(draining) ==> r.processed == r.retried == r.failed == 0
      ensures NewSignals(env, from, old(ingested)) ==>
                NewSignals(env, next, ingested) && AllowedRun(config, old(Current()), steps)
    {
      hide RunSteps, Apply, DequeueResult, NewSignals, AllowedRun, Live;
      ghost var start := Current();
      steps := [];
      next := from;
      EmptyRun(config, start);
      var p0, r0, f0 := processed, retried, failed;
      if draining {
        var depth := queue.GetDepth(env.now(next));
        OnlyDequeueDelivers(start.world, ReadStats(env.now(next)));
        RunOneMore(config, start, [], Aside(LookAtStats(env.now(next))));
        AllowedOneMore(config, start, [], Aside(LookAtStats(env.now(next))));
        steps := [Aside(LookAtStats(env.now(next)))];
        assert [] + steps == steps;
        return DrainResult(0, 0, 0, depth), next, steps;
      }
      draining := true;
      while Handled(p0, r0, f0) < maxItems
        invariant Progress(p0, r0, f0, maxItems, start, steps) && batch == [] && draining
        invariant NewSignals(env, from, old(ingested)) ==> NewSignals(env, next, ingested) && AllowedRun(config, start, steps)
        decreases maxItems - Handled(p0, r0, f0)
      {
        var messages;
        messages, steps := FetchBatch(maxItems, env.now(next), p0, r0, f0, start, steps);
        if |messages| == 0 { break; }

        next, steps := HandleBatch(messages, maxItems, env, next, p0, r0, f0, start, steps);
      }
      draining := false;
      var now := env.now(next);
      OnlyDequeueDelivers(queue.Current(), ReadStats(now));
      var depth := queue.GetDepth(now);
      RunOneMore(config, start, steps, Aside(LookAtStats(now)));
      if AllowedRun(config, start, steps) { AllowedOneMore(config, start, steps, Aside(LookAtStats(now))); }
      steps := steps + [Aside(LookAtStats(now))];
      r := DrainResult(processed - p0, retried - r0, failed - f0, depth);
    }

    /**
     One drain after another, with other tasks between them. When every signal they bring in is new and no message
     expires in flight, no signal is attempted more than maxRetries + 1 times over all the drains.
     */
    method DrainAgainAndAgain(budgets: seq<int>, env: Env) returns (ghost steps: seq<DrainStep>)
      requires batch == []
      modifies this, queue
      ensures Current() == RunSteps(config, old(Current()), steps) && batch == []
      ensures NewSignals(env, 0, old(ingested)) ==> AllowedRun(config, old(Current()), steps)
      ensures NewSignals(env, 0, old(ingested)) && Bounded(config, old(Current()))
              && queue.history.expired == old(queue.history.expired) ==>
                Bounded(config, Current()) && forall sid :: attempts[sid] <= config.maxRetries + 1
    {
      hide RunSteps, Apply, NewSignals, NewBatch, AllowedRun, BroughtBy, Bounded;
      ghost var start := Current();
      steps := [];
      EmptyRun(config, start);
      var next := 0;
      for i := 0 to |budgets|
        invariant Current() == RunSteps(config, start, steps) && batch == []
        invariant NewSignals(env, 0, old(ingested)) ==> NewSignals(env, next, ingested) && AllowedRun(config, start, steps)
      {
        if NewSignals(env, next, ingested) { NextBatchIsNew(env, next, ingested); }
        steps := LetOthersRun(env.others(next), start, steps);
        ghost var before := steps;
        var r, after;
        ghost var more;
        r, after, more := Drain(budgets[i], env, next + 1);
        RunsJoin(config, start, before, more);
        next, steps := after, before + more;
      }
      if NewSignals(env, 0, old(ingested)) && Bounded(config, start) && queue.history.expired == start.world.history.expired {
        AttemptsAreBounded(config, start, steps);
      }
    }
  }

  /** Two runs in a row are one run. */
  lemma {:induction false} RunsJoin(c: Config, s: Sys, a: seq<DrainStep>, b: seq<DrainStep>)
    ensures RunSteps(c, s, a + b) == RunSteps(c, RunSteps(c, s, a), b)
    ensures AllowedRun(c, s, a) && AllowedRun(c, RunSteps(c, s, a), b) ==> AllowedRun(c, s, a + b)
    decreases |b|
  {
    hide Next, Allowed;
    if b == [] {
      assert a + b == a;
    } else {
      var front, last := b[..|b| - 1], b[|b| - 1];
      RunsJoin(c, s, a, front);
      assert a + b == (a + front) + [last];
      assert (a + b)[..|a + b| - 1] == a + front;
    }
  }
}
