/**
 The producer gate of the signal queue: services/security-anomaly.service.ts:889-900, 934-980.

 The gate keeps one bit. What it decides is stated over the whole history of queue loads it has seen.
 */
module BackpressureGate {
  import opened Prelude

  /** Watermarks as read from the configuration: the low one is cut to the high one. */
  datatype Marks = Marks(high: int, low: int)

  predicate ValidMarks(m: Marks) { 0 <= m.low <= m.high && m.high >= 1 }

  /** The bit after a look at the load. */
  function NextThrottled(m: Marks, throttled: bool, load: int): bool
  {
    (throttled && load > m.low) || load >= m.high
  }

  predicate Alerts(m: Marks, throttled: bool, load: int)
  {
    load >= m.high && !(throttled && load > m.low)
  }

  /** The bit after all these loads, from a closed start. */
  function Throttled(m: Marks, loads: seq<int>): bool
  {
    loads != [] && NextThrottled(m, Throttled(m, loads[..|loads| - 1]), loads[|loads| - 1])
  }

  function AlertCount(m: Marks, loads: seq<int>): nat
  {
    if loads == [] then 0
    else
      var n := |loads| - 1;
      AlertCount(m, loads[..n]) + if Alerts(m, Throttled(m, loads[..n]), loads[n]) then 1 else 0
  }

  /** The load reached the high mark at some point and has stayed above the low mark since. */
  ghost predicate Overloaded(m: Marks, loads: seq<int>)
  {
    exists i: nat :: OverloadedSince(m, loads, i)
  }

  /** How many times the queue went from not overloaded to overloaded. */
  ghost function Episodes(m: Marks, loads: seq<int>): nat
  {
    if loads == [] then 0
    else
      var n := |loads| - 1;
      Episodes(m, loads[..n]) + if Overloaded(m, loads) && !Overloaded(m, loads[..n]) then 1 else 0
  }

  /** How many looks met a load exactly at the mark, or above it right after one below. */
  ghost function Rises(mark: int, loads: seq<int>): nat
  {
    if loads == [] then 0
    else
      var n := |loads| - 1;
      var rises := loads[n] == mark || (loads[n] > mark && (n == 0 || loads[n - 1] < mark));
      Rises(mark, loads[..n]) + if rises then 1 else 0
  }

  ghost predicate OverloadedSince(m: Marks, loads: seq<int>, i: nat)
  {
    i < |loads| && loads[i] >= m.high && forall j :: i <= j < |loads| ==> loads[j] > m.low
  }

  lemma SinceStep(m: Marks, loads: seq<int>, i: nat)
    requires loads != [] && i < |loads| - 1
    ensures OverloadedSince(m, loads, i) <==>
              OverloadedSince(m, loads[..|loads| - 1], i) && loads[|loads| - 1] > m.low
  {
  }

  lemma OverloadedStep(m: Marks, loads: seq<int>)
    requires loads != []
    ensures var n := |loads| - 1;
            Overloaded(m, loads) <==> loads[n] > m.low && (Overloaded(m, loads[..n]) || loads[n] >= m.high)
  {
    hide OverloadedSince;
    var n := |loads| - 1;
    if i: nat :| OverloadedSince(m, loads, i) {
      SinceLast(m, loads, i);
      if i < n { SinceStep(m, loads, i); }
    }
    if loads[n] > m.low && loads[n] >= m.high {
      SinceNow(m, loads);
    }
    if i: nat :| OverloadedSince(m, loads[..n], i) && loads[n] > m.low {
      SinceLast(m, loads[..n], i);
      SinceStep(m, loads, i);
    }
  }

  lemma SinceLast(m: Marks, loads: seq<int>, i: nat)
    requires OverloadedSince(m, loads, i)
    ensures i < |loads| && loads[|loads| - 1] > m.low && (i == |loads| - 1 ==> loads[i] >= m.high)
  {
  }

  lemma SinceNow(m: Marks, loads: seq<int>)
    requires loads != [] && loads[|loads| - 1] > m.low && loads[|loads| - 1] >= m.high
    ensures OverloadedSince(m, loads, |loads| - 1)
  {
  }

  /** The bit says overloaded, except right after a load exactly at marks that coincide. */
  lemma {:induction false} ThrottledIff(m: Marks, loads: seq<int>)
    requires ValidMarks(m)
    ensures Throttled(m, loads) <==>
              Overloaded(m, loads) || (loads != [] && m.low == m.high == loads[|loads| - 1])
  {
    if loads != [] {
      ThrottledIff(m, loads[..|loads| - 1]);
      OverloadedStep(m, loads);
    }
  }

  lemma {:induction false} OverloadedAtOneMark(m: Marks, loads: seq<int>)
    requires ValidMarks(m) && m.low == m.high
    ensures Overloaded(m, loads) <==> loads != [] && loads[|loads| - 1] > m.high
  {
    if loads != [] {
      OverloadedAtOneMark(m, loads[..|loads| - 1]);
      OverloadedStep(m, loads);
    }
  }

  /**
   One alert for each episode of overload when the marks differ. When they coincide, every look at a load exactly
   there raises one, though the gate stays open.
   */
  lemma {:induction false} AlertsCountEpisodes(m: Marks, loads: seq<int>)
    requires ValidMarks(m)
    ensures AlertCount(m, loads) == if m.low < m.high then Episodes(m, loads) else Rises(m.high, loads)
  {
    if loads != [] {
      var n := |loads| - 1;
      AlertsCountEpisodes(m, loads[..n]);
      ThrottledIff(m, loads[..n]);
      OverloadedStep(m, loads);
      if n > 0 { OverloadedStep(m, loads[..n]); }
      if m.low == m.high { OverloadedAtOneMark(m, loads[..n]); }
    }
  }

  /** Where the marks coincide, n looks at a load exactly there raise n alerts and not one episode begins. */
  lemma {:induction false} StayingAtTheMark(mark: nat, n: nat)
    requires mark >= 1
    ensures var loads := seq(n, _ => mark);
            AlertCount(Marks(mark, mark), loads) == n && Episodes(Marks(mark, mark), loads) == 0
  {
    var m, loads := Marks(mark, mark), seq(n, _ => mark);
    AlertsCountEpisodes(m, loads);
    if n > 0 {
      StayingAtTheMark(mark, n - 1);
      assert loads[..n - 1] == seq(n - 1, _ => mark);
      OverloadedStep(m, loads);
    }
  }

  class Gate {
    const marks: Marks
    var throttled: bool
    var alerts: nat
    ghost var seen: seq<int>

    ghost predicate Valid()
      reads this
    {
      ValidMarks(marks) && throttled == Throttled(marks, seen) && alerts == AlertCount(marks, seen)
    }

    constructor (marks: Marks)
      requires ValidMarks(marks)
      ensures Valid() && seen == []
    {
      this.marks := marks;
      throttled, alerts, seen := false, 0, [];
      new;
      assert !Throttled(marks, []) && AlertCount(marks, []) == 0;
    }

    /** `applyQueueBackpressureGate`: closed exactly while the queue is overloaded. */
    method Admit(load: int) returns (allowed: bool)
      requires Valid()
      modifies this
      ensures Valid() && seen == old(seen) + [load]
      ensures allowed <==> !Overloaded(marks, seen)
      ensures alerts == if marks.low < marks.high then Episodes(marks, seen) else Rises(marks.high, seen)
    {
      ghost var after := seen + [load];
      assert after[..|seen|] == seen;
      ThrottledIff(marks, seen);
      OverloadedStep(marks, after);
      AlertsCountEpisodes(marks, after);
      if throttled && load <= marks.low {
        throttled := false;
      }
      if !throttled && load >= marks.high {
        throttled := true;
        alerts := alerts + 1;
      }
      seen := after;
      return !(throttled && load > marks.low);
    }
  }
}
