/**
 Several workers on one intent table: services/signing-intent.service.ts:689-727 and
 services/signing-intent.worker.ts:112-243, one database operation or one broadcast at a time.

 A claim reads the oldest queued intent and then updates it where it is still queued. Between any two steps of a
 worker the others, the sync and the send route may act, and a worker may stop for good.
 */
module IntentClaims {
  import opened Prelude
  import Chain = ChainStatus
  import Text = Decimals
  import Nonces = NonceReservations
  import Intents = SigningIntents

  const CLAIM_ATTEMPTS: nat := 5

  /** Where a worker stands; `k` is the intent it holds. From `Blaming` it goes on to fail the reservation. */
  datatype Place =
    | Idle
    | Reading(attempt: nat)
    | Selected(attempt: nat, k: nat)
    | Claimed(k: nat)
    | SignedBy(k: nat)
    | SentBy(k: nat, hash: string)
    | ReservationMarked(k: nat, hash: string)
    | Blaming(k: nat)
    | Failing(k: nat)

  /** The last three fields are history: intents claimed, intents broadcast, and reservations a worker released. */
  datatype World = World(
    intents: seq<Intents.Intent>,
    reservations: seq<Nonces.Reservation>,
    workers: seq<Place>,
    claims: seq<nat>,
    broadcasts: seq<nat>,
    releases: seq<string>)

  datatype Step =
    | Begin(w: nat)
    | ReadQueued(w: nat)
    | CompareAndSet(w: nat)
    | ProviderFails(w: nat)
    | SignFails(w: nat)
    | Sign(w: nat, derived: Option<string>)
      /** The node took the transaction and answered with its hash. */
    | Broadcast(w: nat, hash: string)
      /** An error came back; the transaction may be out all the same. */
    | BroadcastFails(w: nat)
    | MarkReservationSubmitted(w: nat)
    | MarkIntentSubmitted(w: nat)
    | MarkReservationFailed(w: nat)
    | MarkIntentFailed(w: nat)
    | Stop(w: nat)
    | Enqueue(n: Intents.Intent)
    | Reserve(x: Nonces.Reservation)
    | Refuse(reservationId: string)
    | SyncIntents(hash: string, status: Intents.IntentStatus, error: Option<string>)
    | SyncReservations(hashes: seq<string>, outcome: Nonces.Status)

  function Move(s: World, w: nat, p: Place): World
    requires w < |s.workers|
  {
    s.(workers := s.workers[w := p])
  }

  function SetIntent(s: World, k: nat, status: Intents.IntentStatus, txHash: Option<Option<string>>,
                     error: Option<string>): World
    requires k < |s.intents|
  {
    s.(intents := Intents.SetIntentAt(s.intents, k, status, txHash, error))
  }

  function SetReservation(s: World, id: string, status: Nonces.Status, txHash: Option<string>): World
  {
    s.(reservations := Nonces.SetById(s.reservations, id, status, txHash))
  }

  /** The worker a step belongs to stands where the step starts. */
  ghost predicate Enabled(s: World, step: Step)
  {
    match step
    case Begin(w) => w < |s.workers| && s.workers[w].Idle?
    case ReadQueued(w) => w < |s.workers| && s.workers[w].Reading?
    case CompareAndSet(w) => w < |s.workers| && s.workers[w].Selected? && s.workers[w].k < |s.intents|
    case ProviderFails(w) => w < |s.workers| && s.workers[w].Claimed? && s.workers[w].k < |s.intents|
    case SignFails(w) => w < |s.workers| && s.workers[w].Claimed? && s.workers[w].k < |s.intents|
    case Sign(w, _) => w < |s.workers| && s.workers[w].Claimed? && s.workers[w].k < |s.intents|
    case Broadcast(w, _) => w < |s.workers| && s.workers[w].SignedBy? && s.workers[w].k < |s.intents|
    case BroadcastFails(w) => w < |s.workers| && s.workers[w].SignedBy? && s.workers[w].k < |s.intents|
    case MarkReservationSubmitted(w) => w < |s.workers| && s.workers[w].SentBy? && s.workers[w].k < |s.intents|
    case MarkIntentSubmitted(w) => w < |s.workers| && s.workers[w].ReservationMarked? && s.workers[w].k < |s.intents|
    case MarkReservationFailed(w) => w < |s.workers| && s.workers[w].Blaming? && s.workers[w].k < |s.intents|
    case MarkIntentFailed(w) => w < |s.workers| && s.workers[w].Failing? && s.workers[w].k < |s.intents|
    case Stop(w) => w < |s.workers|
    case Enqueue(n) => n.status.Queued?
    case Reserve(x) => x.status == Nonces.Reserved
    case Refuse(_) => true
    case SyncIntents(_, status, _) => status.SubmittedIntent? || status.ConfirmedIntent? || status.FailedIntent?
    case SyncReservations(_, status) => status == Nonces.Submitted || status == Nonces.Confirmed || status == Nonces.Failed
  }

  function Apply(s: World, step: Step): World
    requires Enabled(s, step)
  {
    match step
    case Begin(w) => Move(s, w, Reading(0))
    case ReadQueued(w) =>
      var k := Intents.OldestQueued(s.intents);
      Move(s, w, if k == |s.intents| then Idle else Selected(s.workers[w].attempt, k))
    case CompareAndSet(w) =>
      var k, attempt := s.workers[w].k, s.workers[w].attempt;
      if s.intents[k].status.Queued? then
        Move(s, w, Claimed(k)).(intents := Intents.ClaimAt(s.intents, k), claims := s.claims + [k])
      else Move(s, w, if attempt + 1 < CLAIM_ATTEMPTS then Reading(attempt + 1) else Idle)
    case ProviderFails(w) => Move(s, w, Failing(s.workers[w].k))
    case SignFails(w) =>
      var k := s.workers[w].k;
      SetReservation(Move(s, w, Failing(k)), s.intents[k].reservationId, Nonces.Released, None)
        .(releases := s.releases + [s.intents[k].reservationId])
    case Sign(w, derived) =>
      var k := s.workers[w].k;
      SetIntent(Move(s, w, SignedBy(k)), k, Intents.Signed, Some(derived), None)
    case Broadcast(w, hash) =>
      var k := s.workers[w].k;
      Move(s, w, SentBy(k, hash)).(broadcasts := s.broadcasts + [k])
    case BroadcastFails(w) =>
      var k := s.workers[w].k;
      Move(s, w, Blaming(k)).(broadcasts := s.broadcasts + [k])
    case MarkReservationSubmitted(w) =>
      var k, hash := s.workers[w].k, s.workers[w].hash;
      if Text.Trim(hash) == "" then Move(s, w, Blaming(k))
      else
        SetReservation(Move(s, w, ReservationMarked(k, hash)), s.intents[k].reservationId, Nonces.Submitted,
                       Some(Text.Trim(hash)))
    case MarkIntentSubmitted(w) =>
      var k, hash := s.workers[w].k, s.workers[w].hash;
      SetIntent(Move(s, w, Idle), k, Intents.SubmittedIntent, Some(Some(hash)), None)
    case MarkReservationFailed(w) =>
      var k := s.workers[w].k;
      SetReservation(Move(s, w, Failing(k)), s.intents[k].reservationId, Nonces.Failed, None)
    case MarkIntentFailed(w) => SetIntent(Move(s, w, Idle), s.workers[w].k, Intents.FailedIntent, Some(None), None)
    case Stop(w) => Move(s, w, Idle)
    case Enqueue(n) => s.(intents := s.intents + [n])
    case Reserve(x) => s.(reservations := s.reservations + [x])
    case Refuse(id) => SetReservation(s, id, Nonces.Released, None)
    case SyncIntents(hash, status, error) =>
      if Text.Trim(hash) == "" then s
      else s.(intents := Intents.SetIntentsByHash(s.intents, Text.Trim(hash), status, error))
    case SyncReservations(hashes, status) =>
      s.(reservations := Nonces.SetByHashes(s.reservations, Chain.CleanHashes(hashes), status))
  }

  predicate IsWorkerStep(step: Step)
  {
    !(step.Enqueue? || step.Reserve? || step.Refuse? || step.SyncIntents? || step.SyncReservations?)
  }

  /**
   What a step writes into one reservation and one intent: a worker its own intent and the reservation that intent names,
   each with the status the step is for, and nobody else's.
   */
  lemma StepWrites(s: World, step: Step, j: nat, m: nat)
    requires Enabled(s, step) && IsWorkerStep(step) && j < |s.reservations| && m < |s.intents|
    ensures |Apply(s, step).reservations| == |s.reservations| && |Apply(s, step).intents| == |s.intents|
    ensures var x, y, n, o := s.reservations[j], Apply(s, step).reservations[j], s.intents[m], Apply(s, step).intents[m];
            match step
            case CompareAndSet(w) =>
              y == x && o == if m == s.workers[w].k && n.status == Intents.Queued then n.(status := Intents.Approved) else n
            case SignFails(w) =>
              o == n && y == if x.id == s.intents[s.workers[w].k].reservationId then x.(status := Nonces.Released) else x
            case Sign(w, derived) =>
              && y == x && (m != s.workers[w].k ==> o == n)
              && (m == s.workers[w].k ==>
                    o == n.(status := Intents.Signed, txHash := Chain.NormalizeNullable(derived), errorCode := None))
            case MarkReservationSubmitted(w) =>
              && o == n
              && y == if x.id == s.intents[s.workers[w].k].reservationId && Text.Trim(s.workers[w].hash) != ""
                      then x.(status := Nonces.Submitted, txHash := Some(Text.Trim(s.workers[w].hash))) else x
            case MarkIntentSubmitted(w) =>
              && y == x && (m != s.workers[w].k ==> o == n)
              && (m == s.workers[w].k ==> o.status == Intents.SubmittedIntent && o.errorCode == None
                                          && o.txHash == Chain.NormalizeNullable(Some(s.workers[w].hash)))
            case MarkReservationFailed(w) =>
              o == n && y == if x.id == s.intents[s.workers[w].k].reservationId then x.(status := Nonces.Failed) else x
            case MarkIntentFailed(w) =>
              && y == x && (m != s.workers[w].k ==> o == n)
              && (m == s.workers[w].k ==> o.status == Intents.FailedIntent && o.txHash == None)
            case _ => y == x && o == n
  {
    hide Text.Trim;
  }

  /** What the send route and the sync write beside the workers, whom they leave where they stand. */
  lemma OthersWrite(s: World, step: Step, j: nat, m: nat)
    requires Enabled(s, step) && !IsWorkerStep(step) && j < |s.reservations| && m < |s.intents|
    ensures var t := Apply(s, step);
            && t.workers == s.workers
            && t.reservations == (if step.Reserve? then s.reservations + [step.x] else t.reservations[..|s.reservations|])
            && t.intents == (if step.Enqueue? then s.intents + [step.n] else t.intents[..|s.intents|])
            && |t.reservations| >= |s.reservations| && |t.intents| >= |s.intents|
            && var x, y, n, o := s.reservations[j], t.reservations[j], s.intents[m], t.intents[m];
               match step
               case Refuse(id) => o == n && y == if x.id == id then x.(status := Nonces.Released) else x
               case SyncIntents(hash, status, error) =>
                 y == x && o == if n.txHash == Some(Text.Trim(hash)) && Text.Trim(hash) != ""
                                then n.(status := status, errorCode := error) else n
               case SyncReservations(hashes, status) =>
                 o == n && y == if Nonces.Named(x, hashes) then x.(status := status) else x
               case _ => y == x && o == n
  {
    hide Text.Trim;
    if step.SyncReservations? && s.reservations[j].txHash.Some? {
      Nonces.CleanedOrNot(step.hashes, s.reservations[j].txHash.value);
    }
  }

  /** The histories: a claim that wins, a broadcast tried or done, a release by a worker. */
  lemma StepRemembers(s: World, step: Step)
    requires Enabled(s, step)
    ensures var t := Apply(s, step);
            && t.claims == s.claims + (if step.CompareAndSet? && s.intents[s.workers[step.w].k].status == Intents.Queued
                                       then [s.workers[step.w].k] else [])
            && t.broadcasts == s.broadcasts + (if step.Broadcast? || step.BroadcastFails?
                                               then [s.workers[step.w].k] else [])
            && t.releases == s.releases + (if step.SignFails? then [s.intents[s.workers[step.w].k].reservationId] else [])
  {
    hide Text.Trim, Nonces.SetById, Nonces.SetByHashes, Chain.CleanHashes;
  }

  // ---------- At most once ----------

  ghost predicate NoDuplicates(s: seq<nat>)
  {
    forall i, j :: 0 <= i < j < |s| ==> s[i] != s[j]
  }

  predicate Holds(p: Place, k: nat)
  {
    match p
    case Claimed(m) => m == k
    case SignedBy(m) => m == k
    case SentBy(m, _) => m == k
    case ReservationMarked(m, _) => m == k
    case Blaming(m) => m == k
    case Failing(m) => m == k
    case _ => false
  }

  /** The intent is held and its broadcast is still to come. */
  predicate BeforeBroadcast(p: Place, k: nat)
  {
    p == Claimed(k) || p == SignedBy(k)
  }

  /** A place names an intent that exists, and is held only once claimed. */
  ghost predicate PlaceFits(s: World, p: Place)
  {
    match p
    case Idle => true
    case Reading(attempt) => attempt < CLAIM_ATTEMPTS
    case Selected(attempt, k) => attempt < CLAIM_ATTEMPTS && k < |s.intents|
    case Claimed(k) => k in s.claims && k !in s.broadcasts
    case SignedBy(k) => k in s.claims && k !in s.broadcasts
    case SentBy(k, _) => k in s.claims
    case ReservationMarked(k, _) => k in s.claims
    case Blaming(k) => k in s.claims
    case Failing(k) => k in s.claims
  }

  ghost predicate Places(s: World)
  {
    && (forall w :: 0 <= w < |s.workers| ==> PlaceFits(s, s.workers[w]))
    && (forall v, w, k: nat :: 0 <= v < w < |s.workers| ==> !(Holds(s.workers[v], k) && Holds(s.workers[w], k)))
  }

  /** Claims and broadcasts so far: no intent twice, and no claimed intent queued again. */
  ghost predicate History(s: World)
  {
    && NoDuplicates(s.claims) && NoDuplicates(s.broadcasts)
    && (forall k :: k in s.claims ==> k < |s.intents| && !s.intents[k].status.Queued?)
    && (forall k :: k in s.broadcasts ==> k in s.claims)
  }

  /** The intent will not be broadcast any more, and never was. */
  ghost predicate NeverSent(s: World, k: nat)
    requires k < |s.intents|
  {
    && !s.intents[k].status.Queued? && k !in s.broadcasts
    && forall w :: 0 <= w < |s.workers| ==> !BeforeBroadcast(s.workers[w], k)
  }

  ghost predicate Inv(s: World)
  {
    Places(s) && History(s)
  }

  /** A worker moves on with the intent it holds, or lets it go. */
  lemma MoveKeepsPlaces(s: World, t: World, w: nat, p: Place)
    requires Places(s) && w < |s.workers| && t.workers == s.workers[w := p] && |t.intents| == |s.intents|
    requires t.claims == s.claims && PlaceFits(t, p)
    requires forall k: nat :: Holds(p, k) ==> Holds(s.workers[w], k)
    requires t.broadcasts == s.broadcasts
             || exists k: nat :: BeforeBroadcast(s.workers[w], k) && t.broadcasts == s.broadcasts + [k]
    ensures Places(t)
  {
    forall v | 0 <= v < |t.workers| ensures PlaceFits(t, t.workers[v]) {
      if v != w {
        assert PlaceFits(s, s.workers[v]);
        if t.broadcasts != s.broadcasts {
          var k: nat :| BeforeBroadcast(s.workers[w], k) && t.broadcasts == s.broadcasts + [k];
          assert Holds(s.workers[w], k) && !Holds(s.workers[v], k);
        }
      }
    }
  }

  lemma ClaimKeepsPlaces(s: World, w: nat)
    requires Places(s) && History(s) && Enabled(s, CompareAndSet(w)) && s.intents[s.workers[w].k].status.Queued?
    ensures Places(Apply(s, CompareAndSet(w)))
  {
  }

  lemma OthersKeepPlaces(s: World, t: World)
    requires Places(s) && t.workers == s.workers && |t.intents| >= |s.intents|
    requires t.claims == s.claims && t.broadcasts == s.broadcasts
    ensures Places(t)
  {
  }

  lemma StepKeepsPlaces(s: World, step: Step)
    requires Inv(s) && Enabled(s, step)
    ensures Places(Apply(s, step))
  {
    hide Nonces.SetById, Nonces.SetByHashes, Text.Trim, Intents.SetIntent;
    hide Chain.CleanHashes, History, Places;
    var t := Apply(s, step);
    if !IsWorkerStep(step) {
      OthersKeepPlaces(s, t);
    } else if step.CompareAndSet? && s.intents[s.workers[step.w].k].status.Queued? {
      ClaimKeepsPlaces(s, step.w);
    } else {
      PlaceOf(s, step.w);
      MoveKeepsPlaces(s, t, step.w, t.workers[step.w]);
    }
  }

  lemma PlaceOf(s: World, w: nat)
    requires Places(s) && w < |s.workers|
    ensures PlaceFits(s, s.workers[w])
  {
  }

  lemma StepKeepsHistory(s: World, step: Step)
    requires Inv(s) && Enabled(s, step)
    ensures History(Apply(s, step))
  {
    hide Nonces.SetById, Nonces.SetByHashes, Chain.CleanHashes, Text.Trim;
  }

  lemma NeverSentStays(s: World, step: Step, k: nat)
    requires Places(s) && Enabled(s, step) && k < |s.intents| && NeverSent(s, k)
    ensures k < |Apply(s, step).intents| && NeverSent(Apply(s, step), k)
  {
    hide Nonces.SetById, Nonces.SetByHashes, Chain.CleanHashes, Text.Trim;
    if IsWorkerStep(step) {
      PlaceOf(s, step.w);
    }
  }

  ghost predicate EnabledRun(s: World, steps: seq<Step>)
    decreases |steps|
  {
    steps == [] || (Enabled(s, steps[0]) && EnabledRun(Apply(s, steps[0]), steps[1..]))
  }

  function Run(s: World, steps: seq<Step>): World
    requires EnabledRun(s, steps)
    decreases |steps|
  {
    if steps == [] then s else Run(Apply(s, steps[0]), steps[1..])
  }

  /** However the workers interleave: no intent is claimed or broadcast twice, and no two workers hold one intent. */
  lemma {:induction false} RunClaimsOnce(s: World, steps: seq<Step>)
    requires Inv(s) && EnabledRun(s, steps)
    ensures Inv(Run(s, steps))
    decreases |steps|
  {
    hide Apply, Enabled, Places, History;
    if steps != [] {
      StepKeepsPlaces(s, steps[0]);
      StepKeepsHistory(s, steps[0]);
      RunClaimsOnce(Apply(s, steps[0]), steps[1..]);
    }
  }

  // ---------- Reservations a worker released ----------

  /** What a worker released belongs to intents that were never broadcast and never will be. */
  ghost predicate WorkerReleased(s: World)
  {
    forall k :: 0 <= k < |s.intents| && s.intents[k].reservationId in s.releases ==> NeverSent(s, k)
  }

  /** Another intent of the same reservation was or may yet be broadcast. */
  ghost predicate SharedWithSender(s: World, m: nat)
    requires m < |s.intents|
  {
    exists k :: 0 <= k < |s.intents| && k != m && s.intents[k].reservationId == s.intents[m].reservationId && !NeverSent(s, k)
  }

  /** An intent is queued on a released reservation, or a signature fails on one that another intent uses. */
  ghost predicate SpoilsRelease(s: World, step: Step)
    requires Enabled(s, step)
  {
    match step
    case Enqueue(n) => n.reservationId in s.releases
    case SignFails(w) => SharedWithSender(s, s.workers[w].k)
    case _ => false
  }

  /** After a failed signature the intent is out of every worker's hands; the others are as before. */
  lemma AfterSignFails(s: World, w: nat, k: nat)
    requires Inv(s) && Enabled(s, SignFails(w)) && k < |s.intents|
    ensures NeverSent(Apply(s, SignFails(w)), k) <==> k == s.workers[w].k || NeverSent(s, k)
  {
    hide Nonces.SetById;
    var t, m := Apply(s, SignFails(w)), s.workers[w].k;
    PlaceOf(s, w);
    if k == m {
      forall v | 0 <= v < |s.workers| ensures !BeforeBroadcast(t.workers[v], k) {
        if v != w { assert Holds(s.workers[w], k); }
      }
    } else {
      forall v | 0 <= v < |s.workers| ensures BeforeBroadcast(t.workers[v], k) <==> BeforeBroadcast(s.workers[v], k) {}
    }
  }

  lemma QueuedIsNotSettled(s: World, n: Intents.Intent)
    requires Enabled(s, Enqueue(n))
    ensures var t := Apply(s, Enqueue(n));
            |t.intents| == |s.intents| + 1 && t.intents[|s.intents|] == n && !NeverSent(t, |s.intents|)
  {
  }

  lemma SignFailsKeepsIff(s: World, w: nat)
    requires Inv(s) && WorkerReleased(s) && Enabled(s, SignFails(w))
    ensures WorkerReleased(Apply(s, SignFails(w))) <==> !SharedWithSender(s, s.workers[w].k)
  {
    hide NeverSent, Places, History, Nonces.SetById;
    var t, m := Apply(s, SignFails(w)), s.workers[w].k;
    forall k | 0 <= k < |s.intents|
      ensures NeverSent(t, k) <==> k == m || NeverSent(s, k)
    {
      AfterSignFails(s, w, k);
    }
    if SharedWithSender(s, m) {
      var k :| 0 <= k < |s.intents| && k != m && s.intents[k].reservationId == s.intents[m].reservationId && !NeverSent(s, k);
      assert t.intents[k].reservationId in t.releases && !NeverSent(t, k);
    }
  }

  /** A step keeps every worker-released reservation unsent exactly when it does not spoil one. */
  lemma StepReleasesIff(s: World, step: Step)
    requires Inv(s) && WorkerReleased(s) && Enabled(s, step)
    ensures WorkerReleased(Apply(s, step)) <==> !SpoilsRelease(s, step)
  {
    hide NeverSent, Places, History, SharedWithSender;
    var t := Apply(s, step);
    match step {
      case SignFails(w) => SignFailsKeepsIff(s, w);
      case Enqueue(n) =>
        QueuedIsNotSettled(s, n);
        if n.reservationId !in s.releases {
          forall k | 0 <= k < |t.intents| && t.intents[k].reservationId in t.releases ensures NeverSent(t, k) {
            NeverSentStays(s, step, k);
          }
        }
      case _ =>
        SameNames(s, step);
        forall k | 0 <= k < |t.intents| && t.intents[k].reservationId in t.releases ensures NeverSent(t, k) {
          NeverSentStays(s, step, k);
        }
    }
  }

  lemma SameNames(s: World, step: Step)
    requires Enabled(s, step) && !step.Enqueue? && !step.SignFails?
    ensures var t := Apply(s, step);
            && t.releases == s.releases && |t.intents| == |s.intents|
            && forall k :: 0 <= k < |s.intents| ==> t.intents[k].reservationId == s.intents[k].reservationId
  {
    hide Nonces.SetById, Nonces.SetByHashes, Chain.CleanHashes, Text.Trim;
  }

  ghost predicate ReleasedThroughout(s: World, steps: seq<Step>)
    requires EnabledRun(s, steps)
    decreases |steps|
  {
    WorkerReleased(s) && (steps == [] || ReleasedThroughout(Apply(s, steps[0]), steps[1..]))
  }

  ghost predicate NeverSpoils(s: World, steps: seq<Step>)
    requires EnabledRun(s, steps)
    decreases |steps|
  {
    steps == [] || (!SpoilsRelease(s, steps[0]) && NeverSpoils(Apply(s, steps[0]), steps[1..]))
  }

  lemma NotAtOnce(s: World, steps: seq<Step>)
    requires EnabledRun(s, steps) && !WorkerReleased(s)
    ensures !ReleasedThroughout(s, steps)
  {
  }

  lemma {:induction false} RunReleasesIff(s: World, steps: seq<Step>)
    requires Inv(s) && WorkerReleased(s) && EnabledRun(s, steps)
    ensures ReleasedThroughout(s, steps) <==> NeverSpoils(s, steps)
    decreases |steps|
  {
    hide Inv, Apply, Enabled, WorkerReleased, SpoilsRelease;
    if steps != [] {
      StepReleasesIff(s, steps[0]);
      RunClaimsOnce(s, [steps[0]]);
      if WorkerReleased(Apply(s, steps[0])) {
        RunReleasesIff(Apply(s, steps[0]), steps[1..]);
      } else {
        NotAtOnce(Apply(s, steps[0]), steps[1..]);
      }
    }
  }

  // ---------- One reservation for each intent ----------

  ghost predicate OwnReservations(ns: seq<Intents.Intent>)
  {
    forall i, j :: 0 <= i < j < |ns| ==> ns[i].reservationId != ns[j].reservationId
  }

  ghost predicate Own(s: World)
  {
    && OwnReservations(s.intents)
    && forall id :: id in s.releases ==> exists k :: 0 <= k < |s.intents| && s.intents[k].reservationId == id
  }

  /** An intent is queued on a reservation that no intent names. */
  predicate OwnStep(s: World, step: Step)
  {
    step.Enqueue? ==> forall k :: 0 <= k < |s.intents| ==> s.intents[k].reservationId != step.n.reservationId
  }

  lemma OwnStepSpoilsNothing(s: World, step: Step)
    requires Own(s) && Enabled(s, step) && OwnStep(s, step)
    ensures !SpoilsRelease(s, step) && Own(Apply(s, step))
  {
    hide NeverSent;
    var t := Apply(s, step);
    if !step.Enqueue? && !step.SignFails? { SameNames(s, step); }
    forall id | id in t.releases ensures exists k :: 0 <= k < |t.intents| && t.intents[k].reservationId == id {
      if id in s.releases {
        var k :| 0 <= k < |s.intents| && s.intents[k].reservationId == id;
        assert t.intents[k].reservationId == id;
      } else {
        assert t.intents[s.workers[step.w].k].reservationId == id;
      }
    }
  }

  ghost predicate OwnRun(s: World, steps: seq<Step>)
    requires EnabledRun(s, steps)
    decreases |steps|
  {
    steps == [] || (OwnStep(s, steps[0]) && OwnRun(Apply(s, steps[0]), steps[1..]))
  }

  /** With one reservation for each intent, no run broadcasts on a reservation a worker released. */
  lemma {:induction false} OwnRunReleases(s: World, steps: seq<Step>)
    requires Inv(s) && WorkerReleased(s) && Own(s) && EnabledRun(s, steps) && OwnRun(s, steps)
    ensures WorkerReleased(Run(s, steps))
    decreases |steps|
  {
    hide Inv, Apply, Enabled, WorkerReleased, SpoilsRelease, Own, OwnStep;
    if steps != [] {
      OwnStepSpoilsNothing(s, steps[0]);
      StepReleasesIff(s, steps[0]);
      RunClaimsOnce(s, [steps[0]]);
      OwnRunReleases(Apply(s, steps[0]), steps[1..]);
    }
  }

  function Start(workers: nat): World
  {
    World([], [], seq(workers, _ => Idle), [], [], [])
  }

  /**
   From empty tables and any number of workers: claims and broadcasts are without repetition, and with one reservation
   for each intent a reservation that a worker released was never broadcast.
   */
  lemma AtMostOnce(workers: nat, steps: seq<Step>)
    requires EnabledRun(Start(workers), steps)
    ensures var t := Run(Start(workers), steps);
            && NoDuplicates(t.claims) && NoDuplicates(t.broadcasts)
            && (forall k :: k in t.broadcasts ==> k in t.claims)
            && (forall k :: k in t.claims ==> k < |t.intents|)
            && (OwnRun(Start(workers), steps) ==>
                  forall k :: k in t.broadcasts ==> t.intents[k].reservationId !in t.releases)
  {
    hide Run, EnabledRun, OwnRun;
    RunClaimsOnce(Start(workers), steps);
    if OwnRun(Start(workers), steps) {
      OwnRunReleases(Start(workers), steps);
    }
  }

  // ---------- Reservations released by anyone ----------

  predicate IsReleased(xs: seq<Nonces.Reservation>, id: string)
  {
    exists j :: 0 <= j < |xs| && xs[j].id == id && xs[j].status == Nonces.Released
  }

  predicate Exists(xs: seq<Nonces.Reservation>, id: string)
  {
    exists j :: 0 <= j < |xs| && xs[j].id == id
  }

  /** Whoever released it, a released reservation belongs to intents that were never broadcast and never will be. */
  ghost predicate AllReleased(s: World)
  {
    forall k :: 0 <= k < |s.intents| && IsReleased(s.reservations, s.intents[k].reservationId) ==> NeverSent(s, k)
  }

  ghost predicate NamedBySender(s: World, id: string)
  {
    exists k :: 0 <= k < |s.intents| && s.intents[k].reservationId == id && !NeverSent(s, k)
  }

  /**
   A retry is queued on the reservation its refused request released; or a reservation is released that an intent uses
   which was or may yet be broadcast.
   */
  ghost predicate SpoilsAny(s: World, step: Step)
    requires Enabled(s, step)
  {
    match step
    case Enqueue(n) => IsReleased(s.reservations, n.reservationId)
    case SignFails(w) =>
      Exists(s.reservations, s.intents[s.workers[w].k].reservationId) && SharedWithSender(s, s.workers[w].k)
    case Refuse(id) => Exists(s.reservations, id) && NamedBySender(s, id)
    case _ => false
  }

  lemma ReleasedAfterRelease(xs: seq<Nonces.Reservation>, id: string, other: string)
    ensures IsReleased(Nonces.SetById(xs, id, Nonces.Released, None), other) <==>
              IsReleased(xs, other) || (other == id && Exists(xs, id))
  {
    var ys := Nonces.SetById(xs, id, Nonces.Released, None);
    if IsReleased(xs, other) {
      var j :| 0 <= j < |xs| && xs[j].id == other && xs[j].status == Nonces.Released;
      assert ys[j].id == other && ys[j].status == Nonces.Released;
    }
    if other == id && Exists(xs, id) {
      var j :| 0 <= j < |xs| && xs[j].id == id;
      assert ys[j].id == id && ys[j].status == Nonces.Released;
    }
  }

  /** Every other step releases nothing. */
  lemma NothingReleased(s: World, step: Step, id: string)
    requires Enabled(s, step) && !step.SignFails? && !step.Refuse?
    ensures IsReleased(Apply(s, step).reservations, id) ==> IsReleased(s.reservations, id)
  {
    hide Text.Trim, Chain.CleanHashes;
  }

  lemma RefuseIff(s: World, id: string)
    requires AllReleased(s)
    ensures AllReleased(Apply(s, Refuse(id))) <==> !SpoilsAny(s, Refuse(id))
  {
    hide IsReleased, Exists, Nonces.SetById;
    var t := Apply(s, Refuse(id));
    forall k | 0 <= k < |s.intents| ensures NeverSent(t, k) <==> NeverSent(s, k) {}
    forall other ensures IsReleased(t.reservations, other) <==>
                           IsReleased(s.reservations, other) || (other == id && Exists(s.reservations, id)) {
      ReleasedAfterRelease(s.reservations, id, other);
    }
    if SpoilsAny(s, Refuse(id)) {
      var k :| 0 <= k < |s.intents| && s.intents[k].reservationId == id && !NeverSent(s, k);
      assert !NeverSent(t, k);
    }
  }

  lemma SignFailsAnyIff(s: World, w: nat)
    requires Inv(s) && AllReleased(s) && Enabled(s, SignFails(w))
    ensures AllReleased(Apply(s, SignFails(w))) <==> !SpoilsAny(s, SignFails(w))
  {
    hide IsReleased, Exists, Nonces.SetById, NeverSent, Places, History;
    var t, m := Apply(s, SignFails(w)), s.workers[w].k;
    var id := s.intents[m].reservationId;
    forall k | 0 <= k < |s.intents| ensures NeverSent(t, k) <==> k == m || NeverSent(s, k) {
      AfterSignFails(s, w, k);
    }
    forall other ensures IsReleased(t.reservations, other) <==>
                           IsReleased(s.reservations, other) || (other == id && Exists(s.reservations, id)) {
      ReleasedAfterRelease(s.reservations, id, other);
    }
    if SpoilsAny(s, SignFails(w)) {
      var k :| 0 <= k < |s.intents| && k != m && s.intents[k].reservationId == id && !NeverSent(s, k);
      assert !NeverSent(t, k);
    }
  }

  /** A step keeps every released reservation unsent exactly when it does not spoil one. */
  lemma StepAnyIff(s: World, step: Step)
    requires Inv(s) && AllReleased(s) && Enabled(s, step)
    ensures AllReleased(Apply(s, step)) <==> !SpoilsAny(s, step)
  {
    hide IsReleased, Exists, NeverSent, Places, History, NamedBySender, SharedWithSender;
    match step {
      case SignFails(w) => SignFailsAnyIff(s, w);
      case Refuse(id) => RefuseIff(s, id);
      case _ => QuietStepIff(s, step);
    }
  }

  lemma QuietStepIff(s: World, step: Step)
    requires Inv(s) && AllReleased(s) && Enabled(s, step) && !step.SignFails? && !step.Refuse?
    ensures AllReleased(Apply(s, step)) <==> !SpoilsAny(s, step)
  {
    hide IsReleased, NeverSent, Places, History, Apply;
    var t := Apply(s, step);
    if step.Enqueue? {
      QueuedIsNotSettled(s, step.n);
      SameReservations(s, step.n);
    } else {
      SameNames(s, step);
    }
    forall k: nat | k < |s.intents| && k < |t.intents| && IsReleased(t.reservations, t.intents[k].reservationId)
      ensures NeverSent(t, k)
    {
      NothingReleased(s, step, t.intents[k].reservationId);
      OldNames(s, step, k);
      NeverSentStays(s, step, k);
    }
  }

  lemma SameReservations(s: World, n: Intents.Intent)
    requires Enabled(s, Enqueue(n))
    ensures Apply(s, Enqueue(n)).reservations == s.reservations
  {
  }

  lemma OldNames(s: World, step: Step, k: nat)
    requires Enabled(s, step) && k < |s.intents|
    ensures k < |Apply(s, step).intents| && Apply(s, step).intents[k].reservationId == s.intents[k].reservationId
  {
    hide Nonces.SetById, Nonces.SetByHashes, Chain.CleanHashes, Text.Trim;
  }

  ghost predicate AllReleasedThroughout(s: World, steps: seq<Step>)
    requires EnabledRun(s, steps)
    decreases |steps|
  {
    AllReleased(s) && (steps == [] || AllReleasedThroughout(Apply(s, steps[0]), steps[1..]))
  }

  ghost predicate NeverSpoilsAny(s: World, steps: seq<Step>)
    requires EnabledRun(s, steps)
    decreases |steps|
  {
    steps == [] || (!SpoilsAny(s, steps[0]) && NeverSpoilsAny(Apply(s, steps[0]), steps[1..]))
  }

  lemma NotAllAtOnce(s: World, steps: seq<Step>)
    requires EnabledRun(s, steps) && !AllReleased(s)
    ensures !AllReleasedThroughout(s, steps)
  {
  }

  lemma {:induction false} RunAnyIff(s: World, steps: seq<Step>)
    requires Inv(s) && AllReleased(s) && EnabledRun(s, steps)
    ensures AllReleasedThroughout(s, steps) <==> NeverSpoilsAny(s, steps)
    decreases |steps|
  {
    hide Inv, Apply, Enabled, AllReleased, SpoilsAny;
    if steps != [] {
      StepAnyIff(s, steps[0]);
      RunClaimsOnce(s, [steps[0]]);
      if AllReleased(Apply(s, steps[0])) {
        RunAnyIff(Apply(s, steps[0]), steps[1..]);
      } else {
        NotAllAtOnce(Apply(s, steps[0]), steps[1..]);
      }
    }
  }

  // ---------- The input that spoils it ----------

  /** Steps that leave reservations and their names alone, from one place of worker w to another. */
  ghost predicate Leads(s: World, step: Step, w: nat, k: nat, p: Place)
  {
    && Enabled(s, step)
    && var t := Apply(s, step);
       && w < |t.workers| && t.workers[w] == p
       && t.reservations == s.reservations && t.releases == s.releases && |t.intents| == |s.intents|
       && k < |s.intents| && t.intents[k].reservationId == s.intents[k].reservationId
  }

  lemma WorkerAdvances(s: World, w: nat, k: nat, hash: string)
    requires w < |s.workers| && k < |s.intents|
    ensures s.workers[w] == Idle ==> Leads(s, Begin(w), w, k, Reading(0)) && Apply(s, Begin(w)).intents == s.intents
    ensures s.workers[w] == Reading(0) && Intents.OldestQueued(s.intents) == k ==>
              Leads(s, ReadQueued(w), w, k, Selected(0, k)) && Apply(s, ReadQueued(w)).intents == s.intents
    ensures s.workers[w] == Selected(0, k) && s.intents[k].status.Queued? ==> Leads(s, CompareAndSet(w), w, k, Claimed(k))
    ensures s.workers[w] == Claimed(k) ==> Leads(s, Sign(w, None), w, k, SignedBy(k))
    ensures s.workers[w] == SignedBy(k) ==>
              Leads(s, Broadcast(w, hash), w, k, SentBy(k, hash)) && k in Apply(s, Broadcast(w, hash)).broadcasts
  {
  }

  lemma OneStep(s: World, step: Step, rest: seq<Step>)
    requires Enabled(s, step) && EnabledRun(Apply(s, step), rest)
    ensures EnabledRun(s, [step] + rest) && Run(s, [step] + rest) == Run(Apply(s, step), rest)
  {
    hide Apply, Enabled;
    assert ([step] + rest)[1..] == rest;
  }

  lemma NoSteps(s: World)
    ensures EnabledRun(s, []) && Run(s, []) == s
  {
  }

  /** An intent queued on a released reservation is broadcast on it by an idle worker, if no other intent waits. */
  lemma ReleasedIsBroadcast(s: World, n: Intents.Intent, w: nat, hash: string)
    requires w < |s.workers| && s.workers[w].Idle? && n.status.Queued?
    requires IsReleased(s.reservations, n.reservationId)
    requires forall k :: 0 <= k < |s.intents| ==> !s.intents[k].status.Queued?
    ensures var steps := [Enqueue(n), Begin(w), ReadQueued(w), CompareAndSet(w), Sign(w, None), Broadcast(w, hash)];
            && EnabledRun(s, steps)
            && var t := Run(s, steps);
               |s.intents| in t.broadcasts && |s.intents| < |t.intents|
               && t.intents[|s.intents|].reservationId == n.reservationId
               && IsReleased(t.reservations, n.reservationId) && t.releases == s.releases
  {
    hide IsReleased, Apply, Enabled;
    var k := |s.intents|;
    EnqueueLeads(s, n, w);
    var t1 := Apply(s, Enqueue(n));
    WorkerAdvances(t1, w, k, hash);
    var t2 := Apply(t1, Begin(w));
    WorkerAdvances(t2, w, k, hash);
    var t3 := Apply(t2, ReadQueued(w));
    WorkerAdvances(t3, w, k, hash);
    var t4 := Apply(t3, CompareAndSet(w));
    WorkerAdvances(t4, w, k, hash);
    var t5 := Apply(t4, Sign(w, None));
    WorkerAdvances(t5, w, k, hash);
    OneStep(t5, Broadcast(w, hash), []);
    OneStep(t4, Sign(w, None), [Broadcast(w, hash)] + []);
    OneStep(t3, CompareAndSet(w), [Sign(w, None)] + ([Broadcast(w, hash)] + []));
    OneStep(t2, ReadQueued(w), [CompareAndSet(w)] + ([Sign(w, None)] + ([Broadcast(w, hash)] + [])));
    OneStep(t1, Begin(w), [ReadQueued(w)] + ([CompareAndSet(w)] + ([Sign(w, None)] + ([Broadcast(w, hash)] + []))));
    OneStep(s, Enqueue(n),
            [Begin(w)] + ([ReadQueued(w)] + ([CompareAndSet(w)] + ([Sign(w, None)] + ([Broadcast(w, hash)] + [])))));
    assert [Enqueue(n), Begin(w), ReadQueued(w), CompareAndSet(w), Sign(w, None), Broadcast(w, hash)] ==
           [Enqueue(n)] + ([Begin(w)] + ([ReadQueued(w)] + ([CompareAndSet(w)]
             + ([Sign(w, None)] + ([Broadcast(w, hash)] + [])))));
  }

  lemma EnqueueLeads(s: World, n: Intents.Intent, w: nat)
    requires w < |s.workers| && n.status.Queued? && forall k :: 0 <= k < |s.intents| ==> !s.intents[k].status.Queued?
    ensures Enabled(s, Enqueue(n))
    ensures var t := Apply(s, Enqueue(n));
            && t.workers == s.workers && t.reservations == s.reservations && t.intents == s.intents + [n]
            && t.releases == s.releases
            && Intents.OldestQueued(t.intents) == |s.intents|
  {
  }

  /** The failing input: a request is refused, its retry is queued on the same reservation and broadcast. */
  lemma RetryAfterRefusal(x: Nonces.Reservation, n: Intents.Intent, hash: string)
    requires x.status == Nonces.Reserved && n.status.Queued? && n.reservationId == x.id
    ensures var steps := [Reserve(x), Refuse(x.id)] +
              [Enqueue(n), Begin(0), ReadQueued(0), CompareAndSet(0), Sign(0, None), Broadcast(0, hash)];
            && EnabledRun(Start(1), steps)
            && var t := Run(Start(1), steps);
               t.broadcasts != [] && !AllReleased(t)
  {
    hide Apply, Enabled, Run, EnabledRun;
    RefusalReleases(x);
    var s := Apply(Apply(Start(1), Reserve(x)), Refuse(x.id));
    ReleasedIsBroadcast(s, n, 0, hash);
    var rest := [Enqueue(n), Begin(0), ReadQueued(0), CompareAndSet(0), Sign(0, None), Broadcast(0, hash)];
    OneStep(Apply(Start(1), Reserve(x)), Refuse(x.id), rest);
    OneStep(Start(1), Reserve(x), [Refuse(x.id)] + rest);
    assert [Reserve(x), Refuse(x.id)] + rest == [Reserve(x)] + ([Refuse(x.id)] + rest);
  }

  lemma RefusalReleases(x: Nonces.Reservation)
    requires x.status == Nonces.Reserved
    ensures Enabled(Start(1), Reserve(x)) && Enabled(Apply(Start(1), Reserve(x)), Refuse(x.id))
    ensures var s := Apply(Apply(Start(1), Reserve(x)), Refuse(x.id));
            && s.intents == [] && s.workers == [Idle] && IsReleased(s.reservations, x.id)
  {
    var s := Apply(Apply(Start(1), Reserve(x)), Refuse(x.id));
    assert s.reservations[0].id == x.id && s.reservations[0].status == Nonces.Released;
  }

  /** A worker takes intent `n` from the queue, cannot sign it, and releases its reservation. */
  function Failed(x: Nonces.Reservation, n: Intents.Intent): seq<Step>
  {
    [Reserve(x), Enqueue(n), Begin(0), ReadQueued(0), CompareAndSet(0), SignFails(0), MarkIntentFailed(0)]
  }

  lemma {:induction false} RunOfPrefix(s: World, first: seq<Step>, rest: seq<Step>)
    requires EnabledRun(s, first) && EnabledRun(Run(s, first), rest)
    ensures EnabledRun(s, first + rest) && Run(s, first + rest) == Run(Run(s, first), rest)
    decreases |first|
  {
    hide Apply, Enabled;
    if first == [] {
      assert first + rest == rest;
    } else {
      RunOfPrefix(Apply(s, first[0]), first[1..], rest);
      assert first + rest == [first[0]] + (first[1..] + rest);
      OneStep(s, first[0], first[1..] + rest);
    }
  }

  lemma QueueOne(x: Nonces.Reservation, n: Intents.Intent)
    requires x.status == Nonces.Reserved && n.status.Queued?
    ensures var reserved, queued := World([], [x], [Idle], [], [], []), World([n], [x], [Idle], [], [], []);
            && Enabled(Start(1), Reserve(x)) && Apply(Start(1), Reserve(x)) == reserved
            && Enabled(reserved, Enqueue(n)) && Apply(reserved, Enqueue(n)) == queued
            && Intents.OldestQueued(queued.intents) == 0
  {
    hide Intents.OldestQueued, Nonces.SetById, Text.Trim;
    OnlyOneIsOldest(n);
  }

  lemma OnlyOneIsOldest(n: Intents.Intent)
    requires n.status.Queued?
    ensures Intents.OldestQueued([n]) == 0
  {
  }

  lemma CannotSign(s: World)
    requires |s.intents| == 1 && |s.reservations| == 1 && s.releases == []
    requires 0 < |s.workers| && s.workers[0] == Claimed(0)
    requires s.intents[0].reservationId == s.reservations[0].id
    ensures Enabled(s, SignFails(0)) && Enabled(Apply(s, SignFails(0)), MarkIntentFailed(0))
    ensures var t := Apply(Apply(s, SignFails(0)), MarkIntentFailed(0));
            && |t.intents| == 1 && t.intents[0].status.FailedIntent? && 0 < |t.workers| && t.workers[0] == Idle
            && IsReleased(t.reservations, s.reservations[0].id) && t.releases == [s.reservations[0].id]
  {
    var t := Apply(Apply(s, SignFails(0)), MarkIntentFailed(0));
    assert t.reservations[0].id == s.reservations[0].id && t.reservations[0].status == Nonces.Released;
  }

  lemma FailedReleases(x: Nonces.Reservation, n: Intents.Intent)
    requires x.status == Nonces.Reserved && n.status.Queued? && n.reservationId == x.id
    ensures EnabledRun(Start(1), Failed(x, n))
    ensures var s := Run(Start(1), Failed(x, n));
            && |s.intents| == 1 && !s.intents[0].status.Queued? && 0 < |s.workers| && s.workers[0] == Idle
            && IsReleased(s.reservations, x.id) && s.releases == [x.id]
  {
    hide EnabledRun, Run, Apply, Enabled, IsReleased;
    var queued := World([n], [x], [Idle], [], [], []);
    QueueOne(x, n);
    WorkerAdvances(queued, 0, 0, "");
    var t1 := Apply(queued, Begin(0));
    WorkerAdvances(t1, 0, 0, "");
    var t2 := Apply(t1, ReadQueued(0));
    WorkerAdvances(t2, 0, 0, "");
    var t3 := Apply(t2, CompareAndSet(0));
    CannotSign(t3);
    var t4 := Apply(t3, SignFails(0));
    var t5 := Apply(t4, MarkIntentFailed(0));
    var last := [MarkIntentFailed(0)] + [];
    NoSteps(t5);
    OneStep(t4, MarkIntentFailed(0), []);
    OneStep(t3, SignFails(0), last);
    OneStep(t2, CompareAndSet(0), [SignFails(0)] + last);
    OneStep(t1, ReadQueued(0), [CompareAndSet(0)] + ([SignFails(0)] + last));
    var rest := [Begin(0)] + ([ReadQueued(0)] + ([CompareAndSet(0)] + ([SignFails(0)] + last)));
    OneStep(queued, Begin(0), [ReadQueued(0)] + ([CompareAndSet(0)] + ([SignFails(0)] + last)));
    OneStep(World([], [x], [Idle], [], [], []), Enqueue(n), rest);
    OneStep(Start(1), Reserve(x), [Enqueue(n)] + rest);
    assert Failed(x, n) == [Reserve(x)] + ([Enqueue(n)] + rest);
  }

  /** The failing input: a worker releases a reservation, the retry is queued on it and broadcast. */
  lemma RetryAfterWorkerRelease(x: Nonces.Reservation, n: Intents.Intent, again: Intents.Intent, hash: string)
    requires x.status == Nonces.Reserved && n.status.Queued? && n.reservationId == x.id
    requires again.status.Queued? && again.reservationId == x.id
    ensures var steps := Failed(x, n) +
              [Enqueue(again), Begin(0), ReadQueued(0), CompareAndSet(0), Sign(0, None), Broadcast(0, hash)];
            && EnabledRun(Start(1), steps) && !WorkerReleased(Run(Start(1), steps))
  {
    hide Apply, Enabled, Run, EnabledRun, IsReleased, Failed;
    FailedReleases(x, n);
    var s := Run(Start(1), Failed(x, n));
    ReleasedIsBroadcast(s, again, 0, hash);
    var rest := [Enqueue(again), Begin(0), ReadQueued(0), CompareAndSet(0), Sign(0, None), Broadcast(0, hash)];
    RunOfPrefix(Start(1), Failed(x, n), rest);
    assert !NeverSent(Run(s, rest), 1);
  }
}
