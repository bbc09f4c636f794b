/**
 Alert de-duplication: services/security-alert.service.ts, on the in-memory map.

 `Alerts` changes its map and buffer in place. An alert waits for storage and delivery between its
 verdict and its trim, so runs interleave the two freely, and a trim uses the time its alert came
 in. Such a run is compared with the same alerts on a map that is never pruned.
 */
module AlertDedup {
  import opened Prelude

  datatype DedupState = DedupState(firstSeenAt: int, lastSeenAt: int, duplicateCount: nat)

  datatype Severity = Low | Medium | High | Critical

  datatype Config = Config(
    windowMs: nat,
    ttlMs: nat,
    escalateAfter: nat,
    escalateEveryRaw: nat,
    dispatchAll: bool,
    maxBuffer: nat)

  datatype Verdict = Verdict(
    isDuplicate: bool,
    duplicateCount: nat,
    firstSeenAt: int,
    lastSeenAt: int,
    escalated: bool,
    severity: Severity)

  datatype Alert = Alert(key: string, severity: Severity, now: int)

  type DedupMap = map<string, DedupState>

  function EscalateEvery(c: Config): nat { Max(1, c.escalateEveryRaw) }

  predicate ShouldEscalate(c: Config, duplicateCount: nat)
  {
    && c.escalateAfter > 0
    && duplicateCount >= c.escalateAfter
    && (duplicateCount - c.escalateAfter) % EscalateEvery(c) == 0
  }

  function Escalate(s: Severity): Severity
  {
    match s case Low => Medium case Medium => High case High => Critical case Critical => Critical
  }

  /** What the alert's own entry becomes. */
  function NextState(c: Config, existing: Option<DedupState>, now: int): DedupState
  {
    if existing.None? || now - existing.value.lastSeenAt > c.windowMs then DedupState(now, now, 0)
    else existing.value.(lastSeenAt := now, duplicateCount := existing.value.duplicateCount + 1)
  }

  function Lookup(m: DedupMap, key: string): Option<DedupState>
  {
    if key in m then Some(m[key]) else None
  }

  function VerdictOf(c: Config, existing: Option<DedupState>, severity: Severity, now: int): Verdict
  {
    var next := NextState(c, existing, now);
    var duplicate := existing.Some? && now - existing.value.lastSeenAt <= c.windowMs;
    var escalated := duplicate && ShouldEscalate(c, next.duplicateCount);
    Verdict(duplicate, next.duplicateCount, next.firstSeenAt, next.lastSeenAt, escalated,
            if escalated then Escalate(severity) else severity)
  }

  function Rank(s: Severity): nat { match s case Low => 0 case Medium => 1 case High => 2 case Critical => 3 }

  /**
   Within the window of the last alert of its key an alert is a duplicate and counted on; otherwise counting begins anew.
   Only a duplicate escalates, and then by one step of severity, as far as there is one.
   */
  lemma VerdictTells(c: Config, existing: Option<DedupState>, severity: Severity, now: int)
    ensures var v := VerdictOf(c, existing, severity, now);
            && (v.isDuplicate <==> existing.Some? && now <= existing.value.lastSeenAt + c.windowMs)
            && v.duplicateCount == (if v.isDuplicate then existing.value.duplicateCount + 1 else 0)
            && v.firstSeenAt == (if v.isDuplicate then existing.value.firstSeenAt else now)
            && v.lastSeenAt == now
            && (v.escalated <==>
                  && v.isDuplicate && c.escalateAfter > 0 && v.duplicateCount >= c.escalateAfter
                  && (c.escalateEveryRaw < 2 || (v.duplicateCount - c.escalateAfter) % c.escalateEveryRaw == 0))
            && Rank(v.severity) == (if v.escalated && severity != Critical then Rank(severity) + 1 else Rank(severity))
  {
  }

  /** Delivered is what is new or escalated, or everything where that is configured. */
  lemma DeliveryTells(c: Config, v: Verdict)
    ensures !ShouldDeliver(c, v) <==> !c.dispatchAll && v.isDuplicate && !v.escalated
  {
  }

  predicate Stale(c: Config, s: DedupState, now: int) { now - s.lastSeenAt > c.ttlMs }

  function Prune(c: Config, m: DedupMap, now: int): DedupMap
  {
    map key | key in m && !Stale(c, m[key], now) :: m[key]
  }

  predicate ShouldDeliver(c: Config, v: Verdict)
  {
    c.dispatchAll || !v.isDuplicate || v.escalated
  }

  // ---------- Runs ----------

  /** The map after one alert; pruning may be switched off for comparison. */
  function AfterAlert(c: Config, m: DedupMap, a: Alert, pruning: bool): DedupMap
  {
    var updated := m[a.key := NextState(c, Lookup(m, a.key), a.now)];
    if pruning then Prune(c, updated, a.now) else updated
  }

  function Verdicts(c: Config, m: DedupMap, alerts: seq<Alert>, pruning: bool): (vs: seq<Verdict>)
    ensures |vs| == |alerts|
    decreases |alerts|
  {
    if alerts == [] then []
    else
      [VerdictOf(c, Lookup(m, alerts[0].key), alerts[0].severity, alerts[0].now)] +
      Verdicts(c, AfterAlert(c, m, alerts[0], pruning), alerts[1..], pruning)
  }

  ghost predicate Ordered(alerts: seq<Alert>)
  {
    forall i, j :: 0 <= i < j < |alerts| ==> alerts[i].now <= alerts[j].now
  }

  /** The pruned map lacks only entries that no later alert could still meet inside its window. */
  ghost predicate PrunedFrom(c: Config, pruned: DedupMap, full: DedupMap, now: int)
  {
    && (forall key :: key in pruned ==> key in full && pruned[key] == full[key])
    && (forall key :: key in full && key !in pruned ==> Stale(c, full[key], now))
  }

  // ---------- Verdicts and trims interleaved ----------

  /** The two steps of an alert that touch the map. */
  datatype Event = Evaluate(alert: Alert) | Trim(now: int)

  function AlertsOf(events: seq<Event>): seq<Alert>
  {
    if events == [] then []
    else (if events[0].Evaluate? then [events[0].alert] else []) + AlertsOf(events[1..])
  }

  /** Verdicts come in order of time, and a trim's time is not ahead of them. */
  ghost predicate Timely(events: seq<Event>, clock: int)
  {
    events == [] ||
    match events[0]
    case Evaluate(a) => clock <= a.now && Timely(events[1..], a.now)
    case Trim(now) => now <= clock && Timely(events[1..], clock)
  }

  function EventVerdicts(c: Config, m: DedupMap, events: seq<Event>): (vs: seq<Verdict>)
    ensures |vs| == |AlertsOf(events)|
    decreases |events|
  {
    if events == [] then []
    else
      match events[0]
      case Evaluate(a) =>
        [VerdictOf(c, Lookup(m, a.key), a.severity, a.now)] +
        EventVerdicts(c, AfterAlert(c, m, a, false), events[1..])
      case Trim(now) => EventVerdicts(c, Prune(c, m, now), events[1..])
  }

  /** Each alert trims before the next one comes. */
  function OneByOne(alerts: seq<Alert>): seq<Event>
  {
    if alerts == [] then [] else [Evaluate(alerts[0]), Trim(alerts[0].now)] + OneByOne(alerts[1..])
  }

  lemma {:induction false} OneByOneVerdicts(c: Config, m: DedupMap, alerts: seq<Alert>)
    ensures AlertsOf(OneByOne(alerts)) == alerts
    ensures EventVerdicts(c, m, OneByOne(alerts)) == Verdicts(c, m, alerts, true)
    decreases |alerts|
  {
    hide VerdictOf, NextState, Prune, AfterAlert, EventVerdicts;
    if alerts == [] {
      NoVerdicts(c, m);
    } else {
      OneByOneVerdicts(c, AfterAlert(c, m, alerts[0], true), alerts[1..]);
      PairVerdicts(c, m, alerts[0], OneByOne(alerts[1..]));
    }
  }

  lemma NoVerdicts(c: Config, m: DedupMap)
    ensures EventVerdicts(c, m, []) == []
  {
  }

  lemma PairVerdicts(c: Config, m: DedupMap, a: Alert, rest: seq<Event>)
    ensures var both := [Evaluate(a), Trim(a.now)] + rest;
            && AlertsOf(both) == [a] + AlertsOf(rest)
            && EventVerdicts(c, m, both) == [VerdictOf(c, Lookup(m, a.key), a.severity, a.now)] +
                                            EventVerdicts(c, AfterAlert(c, m, a, true), rest)
  {
    hide VerdictOf, NextState, Prune;
    var both := [Evaluate(a), Trim(a.now)] + rest;
    assert both[1..] == [Trim(a.now)] + rest;
    assert ([Trim(a.now)] + rest)[1..] == rest;
  }

  lemma TrimKeepsPrunedFrom(c: Config, pruned: DedupMap, full: DedupMap, clock: int, now: int)
    requires PrunedFrom(c, pruned, full, clock) && now <= clock
    ensures PrunedFrom(c, Prune(c, pruned, now), full, clock)
  {
  }

  lemma EvaluateKeepsPrunedFrom(c: Config, pruned: DedupMap, full: DedupMap, clock: int, a: Alert)
    requires c.ttlMs >= c.windowMs && clock <= a.now && PrunedFrom(c, pruned, full, clock)
    ensures VerdictOf(c, Lookup(pruned, a.key), a.severity, a.now) ==
              VerdictOf(c, Lookup(full, a.key), a.severity, a.now)
    ensures PrunedFrom(c, AfterAlert(c, pruned, a, false), AfterAlert(c, full, a, false), a.now)
  {
  }

  /** However verdicts and trims interleave: with a lifetime of at least the window, trims change no verdict. */
  lemma {:induction false} TrimsInvisible(c: Config, pruned: DedupMap, full: DedupMap, clock: int, events: seq<Event>)
    requires c.ttlMs >= c.windowMs && PrunedFrom(c, pruned, full, clock) && Timely(events, clock)
    ensures EventVerdicts(c, pruned, events) == Verdicts(c, full, AlertsOf(events), false)
    decreases |events|
  {
    hide VerdictOf, PrunedFrom, Prune, AfterAlert;
    if events != [] {
      match events[0]
      case Evaluate(a) =>
        EvaluateKeepsPrunedFrom(c, pruned, full, clock, a);
        TrimsInvisible(c, AfterAlert(c, pruned, a, false), AfterAlert(c, full, a, false), a.now, events[1..]);
        assert AlertsOf(events)[1..] == AlertsOf(events[1..]);
      case Trim(now) =>
        TrimKeepsPrunedFrom(c, pruned, full, clock, now);
        TrimsInvisible(c, Prune(c, pruned, now), full, clock, events[1..]);
        assert AlertsOf(events) == AlertsOf(events[1..]);
    }
  }

  lemma NothingIsTimely(clock: int)
    ensures Timely([], clock)
  {
  }

  lemma PairIsTimely(a: Alert, rest: seq<Event>, clock: int)
    requires clock <= a.now && Timely(rest, a.now)
    ensures Timely([Evaluate(a), Trim(a.now)] + rest, clock)
  {
    var both := [Evaluate(a), Trim(a.now)] + rest;
    assert both[1..] == [Trim(a.now)] + rest;
    assert ([Trim(a.now)] + rest)[1..] == rest;
  }

  lemma LaterOrdered(alerts: seq<Alert>)
    requires Ordered(alerts) && alerts != []
    ensures Ordered(alerts[1..]) && (alerts[1..] != [] ==> alerts[0].now <= alerts[1..][0].now)
  {
  }

  lemma {:induction false} OneByOneTimely(alerts: seq<Alert>, clock: int)
    requires Ordered(alerts) && (alerts != [] ==> clock <= alerts[0].now)
    ensures Timely(OneByOne(alerts), clock)
    decreases |alerts|
  {
    hide Ordered, Timely;
    if alerts == [] {
      NothingIsTimely(clock);
    } else {
      LaterOrdered(alerts);
      OneByOneTimely(alerts[1..], alerts[0].now);
      PairIsTimely(alerts[0], OneByOne(alerts[1..]), clock);
    }
  }

  /** With a lifetime of at least the window, pruning changes no verdict, count or escalation of alerts one by one. */
  lemma PruningInvisible(c: Config, pruned: DedupMap, full: DedupMap, before: int, alerts: seq<Alert>)
    requires c.ttlMs >= c.windowMs && PrunedFrom(c, pruned, full, before)
    requires Ordered(alerts) && (alerts != [] ==> before <= alerts[0].now)
    ensures Verdicts(c, pruned, alerts, true) == Verdicts(c, full, alerts, false)
  {
    OneByOneVerdicts(c, pruned, alerts);
    OneByOneTimely(alerts, before);
    TrimsInvisible(c, pruned, full, before, OneByOne(alerts));
  }

  /** Three alerts that show a too short lifetime. */
  function Exposing(c: Config): seq<Alert>
  {
    [Alert("a", Low, 0), Alert("b", Low, c.windowMs), Alert("a", Low, c.windowMs)]
  }

  lemma ShortLifetimeShows(c: Config)
    requires c.ttlMs < c.windowMs
    ensures Ordered(Exposing(c))
    ensures Verdicts(c, map[], Exposing(c), true) != Verdicts(c, map[], Exposing(c), false)
  {
    var alerts := Exposing(c);
    LastVerdict(c, alerts, true);
    LastVerdict(c, alerts, false);
    var p1 := AfterAlert(c, map[], alerts[0], true);
    assert p1 == map["a" := DedupState(0, 0, 0)];
    assert "a" !in AfterAlert(c, p1, alerts[1], true);
    var f1 := AfterAlert(c, map[], alerts[0], false);
    assert AfterAlert(c, f1, alerts[1], false)["a"] == DedupState(0, 0, 0);
  }

  lemma LastVerdict(c: Config, alerts: seq<Alert>, pruning: bool)
    requires |alerts| == 3
    ensures var m1 := AfterAlert(c, map[], alerts[0], pruning);
            var m2 := AfterAlert(c, m1, alerts[1], pruning);
            Verdicts(c, map[], alerts, pruning)[2]
            == VerdictOf(c, Lookup(m2, alerts[2].key), alerts[2].severity, alerts[2].now)
  {
    var m1 := AfterAlert(c, map[], alerts[0], pruning);
    var m2 := AfterAlert(c, m1, alerts[1], pruning);
    var last := alerts[1..][1..];
    assert last == [alerts[2]];
    assert Verdicts(c, m2, last, pruning)[0] == VerdictOf(c, Lookup(m2, last[0].key), last[0].severity, last[0].now);
    assert Verdicts(c, m1, alerts[1..], pruning)[1] == Verdicts(c, m2, last, pruning)[0];
  }

  /**
   Pruning is invisible in every ordered run of alerts, one after the other from an empty map, exactly when the
   lifetime covers the window.
   */
  lemma PruningInvisibleIff(c: Config)
    ensures (forall alerts: seq<Alert> :: Ordered(alerts) ==>
                Verdicts(c, map[], alerts, true) == Verdicts(c, map[], alerts, false))
            <==> c.ttlMs >= c.windowMs
  {
    if c.ttlMs >= c.windowMs {
      forall alerts: seq<Alert> | Ordered(alerts)
        ensures Verdicts(c, map[], alerts, true) == Verdicts(c, map[], alerts, false)
      {
        if alerts != [] {
          PruningInvisible(c, map[], map[], alerts[0].now, alerts);
        }
      }
    } else {
      ShortLifetimeShows(c);
    }
  }

  /** The events may happen in this order. */
  ghost predicate Possible(events: seq<Event>)
  {
    exists clock :: Timely(events, clock)
  }

  /** A run with trims gives the verdicts it would give without. */
  ghost predicate Unseen(c: Config, events: seq<Event>)
  {
    EventVerdicts(c, map[], events) == Verdicts(c, map[], AlertsOf(events), false)
  }

  /** The same for every interleaving of verdicts and trims. */
  lemma TrimsInvisibleIff(c: Config)
    ensures (forall events: seq<Event> :: Possible(events) ==> Unseen(c, events)) <==> c.ttlMs >= c.windowMs
  {
    if c.ttlMs >= c.windowMs {
      forall events: seq<Event> | Possible(events) ensures Unseen(c, events) {
        var clock :| Timely(events, clock);
        TrimsInvisible(c, map[], map[], clock, events);
      }
    } else {
      ShortLifetimeShows(c);
      OneByOneVerdicts(c, map[], Exposing(c));
      OneByOneTimely(Exposing(c), 0);
      assert Possible(OneByOne(Exposing(c))) && !Unseen(c, OneByOne(Exposing(c)));
    }
  }

  // ---------- How many alerts of a burst are delivered ----------

  /** Alerts of one key that are delivered. */
  ghost function Delivered(c: Config, alerts: seq<Alert>, verdicts: seq<Verdict>, key: string): nat
    requires |alerts| == |verdicts|
  {
    if alerts == [] then 0
    else
      (if alerts[0].key == key && ShouldDeliver(c, verdicts[0]) then 1 else 0) +
      Delivered(c, alerts[1..], verdicts[1..], key)
  }

  ghost function CountOf(alerts: seq<Alert>, key: string): nat
  {
    if alerts == [] then 0 else (if alerts[0].key == key then 1 else 0) + CountOf(alerts[1..], key)
  }

  /** Each alert of the key comes within the window of the one before; other keys may come in between. */
  ghost predicate Burst(c: Config, alerts: seq<Alert>, key: string, last: int)
  {
    alerts == [] ||
    if alerts[0].key == key
    then alerts[0].now - last <= c.windowMs && Burst(c, alerts[1..], key, alerts[0].now)
    else Burst(c, alerts[1..], key, last)
  }

  /** Escalations among the duplicates numbered from + 1 to from + n. */
  ghost function Escalations(c: Config, from: nat, n: nat): nat
  {
    if n == 0 then 0 else Escalations(c, from, n - 1) + if ShouldEscalate(c, from + n) then 1 else 0
  }

  lemma {:induction false} EscalationsFromFront(c: Config, from: nat, n: nat)
    requires n > 0
    ensures Escalations(c, from, n) ==
            (if ShouldEscalate(c, from + 1) then 1 else 0) + Escalations(c, from + 1, n - 1)
  {
    if n > 1 {
      EscalationsFromFront(c, from, n - 1);
    }
  }

  lemma {:induction false} BurstDelivers(c: Config, m: DedupMap, alerts: seq<Alert>, key: string)
    requires key in m && Burst(c, alerts, key, m[key].lastSeenAt) && !c.dispatchAll
    ensures Delivered(c, alerts, Verdicts(c, m, alerts, false), key)
         == Escalations(c, m[key].duplicateCount, CountOf(alerts, key))
    decreases |alerts|
  {
    if alerts != [] {
      var m' := AfterAlert(c, m, alerts[0], false);
      BurstDelivers(c, m', alerts[1..], key);
      assert Verdicts(c, m, alerts, false)[1..] == Verdicts(c, m', alerts[1..], false);
      if alerts[0].key == key {
        EscalationsFromFront(c, m[key].duplicateCount, CountOf(alerts, key));
      }
    }
  }

  lemma DivStep(x: nat, d: nat)
    requires d > 0
    ensures (x + 1) / d == x / d + if (x + 1) % d == 0 then 1 else 0
  {
    var q, r := x / d, x % d;
    if r + 1 == d {
      DivModUnique(x + 1, d, q + 1, 0);
    } else {
      DivModUnique(x + 1, d, q, r + 1);
    }
  }

  ghost function ExpectedEscalations(c: Config, n: nat): nat
  {
    if c.escalateAfter == 0 || n < c.escalateAfter then 0 else (n - c.escalateAfter) / EscalateEvery(c) + 1
  }

  lemma {:induction false} EscalationsClosedForm(c: Config, n: nat)
    ensures Escalations(c, 0, n) == ExpectedEscalations(c, n)
  {
    if n > 0 {
      EscalationsClosedForm(c, n - 1);
      if c.escalateAfter > 0 && n > c.escalateAfter {
        DivStep(n - 1 - c.escalateAfter, EscalateEvery(c));
      } else if n == c.escalateAfter {
        DivModUnique(0, EscalateEvery(c), 0, 0);
      }
    }
  }

  /**
   A first alert followed by n duplicates, each within the window of the one before and with alerts of
   other keys and trims anywhere between, is delivered once plus once for each escalation.
   */
  lemma BurstIsDeliveredExactly(c: Config, first: Alert, rest: seq<Alert>, events: seq<Event>)
    requires !c.dispatchAll && c.ttlMs >= c.windowMs
    requires Possible(events) && AlertsOf(events) == [first] + rest && Burst(c, rest, first.key, first.now)
    ensures Delivered(c, [first] + rest, EventVerdicts(c, map[], events), first.key)
         == 1 + ExpectedEscalations(c, CountOf(rest, first.key))
  {
    var alerts := [first] + rest;
    var clock :| Timely(events, clock);
    TrimsInvisible(c, map[], map[], clock, events);
    var m := AfterAlert(c, map[], first, false);
    assert alerts[1..] == rest;
    assert Verdicts(c, map[], alerts, false)[1..] == Verdicts(c, m, rest, false);
    BurstDelivers(c, m, rest, first.key);
    EscalationsClosedForm(c, CountOf(rest, first.key));
  }

  // ---------- The alert store, changed in place ----------

  class Alerts {
    var dedup: DedupMap
    var buffer: seq<Verdict>
    const config: Config

    constructor (config: Config)
      ensures this.config == config && dedup == map[] && buffer == []
    {
      this.config := config;
      dedup, buffer := map[], [];
    }

    /** `evaluateDedup`. */
    method EvaluateDedup(a: Alert) returns (v: Verdict)
      modifies this`dedup
      ensures v == VerdictOf(config, Lookup(old(dedup), a.key), a.severity, a.now)
      ensures dedup == AfterAlert(config, old(dedup), a, false)
    {
      var existing := Lookup(dedup, a.key);
      if existing.None? || a.now - existing.value.lastSeenAt > config.windowMs {
        dedup := dedup[a.key := DedupState(a.now, a.now, 0)];
        return Verdict(false, 0, a.now, a.now, false, a.severity);
      }
      var count := existing.value.duplicateCount + 1;
      dedup := dedup[a.key := DedupState(existing.value.firstSeenAt, a.now, count)];
      var escalated := ShouldEscalate(config, count);
      return Verdict(true, count, existing.value.firstSeenAt, a.now, escalated,
                     if escalated then Escalate(a.severity) else a.severity);
    }

    /** `trimBuffers`: keeps the newest entries of the buffer and deletes stale map entries one by one. */
    method TrimBuffers(now: int)
      modifies this
      ensures dedup == Prune(config, old(dedup), now)
      ensures buffer == old(buffer)[Max(0, |old(buffer)| - config.maxBuffer)..]
    {
      if |buffer| > config.maxBuffer {
        buffer := buffer[|buffer| - config.maxBuffer..];
      }
      ghost var before := dedup;
      var todo := dedup.Keys;
      while todo != {}
        invariant buffer == old(buffer)[Max(0, |old(buffer)| - config.maxBuffer)..]
        invariant todo <= before.Keys
        invariant dedup == map key | key in before && (key in todo || !Stale(config, before[key], now)) :: before[key]
        decreases |todo|
      {
        var key :| key in todo;
        if Stale(config, dedup[key], now) {
          dedup := dedup - {key};
        }
        todo := todo - {key};
      }
    }

    /** `emitSecurityAlert`: verdict, whether it is delivered, record, trim. */
    method Emit(a: Alert) returns (v: Verdict, delivered: bool)
      modifies this
      ensures delivered == ShouldDeliver(config, v)
      ensures v == VerdictOf(config, Lookup(old(dedup), a.key), a.severity, a.now)
      ensures dedup == AfterAlert(config, old(dedup), a, true)
      ensures buffer == (old(buffer) + [v])[Max(0, |old(buffer)| + 1 - config.maxBuffer)..]
    {
      v := EvaluateDedup(a);
      delivered := ShouldDeliver(config, v);
      buffer := buffer + [v];
      TrimBuffers(a.now);
    }
  }
}
