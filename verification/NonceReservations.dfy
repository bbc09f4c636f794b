/**
 Wallet nonces: services/nonce-reservation.service.ts.

 `MemoryNonces` is the in-memory store, changed in place. `ReserveInMemory` and
 `ReserveInPostgres` say what one reservation does on each of the two paths. The pending
 nonce is whatever the RPC node answers, and a fresh record id comes from the caller.
 */
module NonceReservations {
  import opened Prelude
  import Chain = ChainStatus
  import Text = Decimals

  datatype Status = Reserved | Submitted | Confirmed | Failed | Released

  datatype Reservation = Reservation(
    id: string,
    walletId: string,
    chainId: nat,
    nonce: nat,
    actionId: string,
    status: Status,
    txHash: Option<string>)

  /** `reservations` is in insertion order, as a JavaScript map iterates. */
  datatype NonceState = NonceState(next: map<(string, nat), nat>, reservations: seq<Reservation>)

  datatype Request = Request(walletId: string, chainId: nat, actionId: string, requestedNonce: Option<int>)

  datatype NonceError =
    | InvalidRequestedNonce
    | InvalidChainNonce
    | NonceTooLow
    | NonceAlreadyReserved
    | InvalidTxHash
    | IntegerOutOfRange

  const MAX_SAFE_INTEGER: nat := 9_007_199_254_740_991
  const TWO_POW_53: nat := MAX_SAFE_INTEGER + 1
  const INT4_MAX: nat := 2_147_483_647

  /** n + 1 on doubles: at 2^53 the exact sum is not representable and rounds back to 2^53. */
  function Increment(n: nat): nat
  {
    if n <= MAX_SAFE_INTEGER then n + 1 else n
  }

  predicate IsNonce(n: int) { 0 <= n <= MAX_SAFE_INTEGER }

  predicate ValidInput(req: Request, pending: int)
  {
    IsNonce(pending) && (req.requestedNonce.Some? ==> IsNonce(req.requestedNonce.value))
  }

  // ---------- Keys ----------

  function StateKey(walletId: string, chainId: nat): string
  {
    walletId + ":" + Text.NatToText(chainId)
  }

  function ActionKey(walletId: string, chainId: nat, actionId: string): string
  {
    walletId + ":" + Text.NatToText(chainId) + ":" + actionId
  }

  /** The key of a request names its triple. */
  predicate SameAction(r: Reservation, req: Request)
  {
    r.walletId == req.walletId && r.chainId == req.chainId && r.actionId == req.actionId
  }

  predicate SameKey(r: Reservation, req: Request)
  {
    ActionKey(r.walletId, r.chainId, r.actionId) == ActionKey(req.walletId, req.chainId, req.actionId)
  }

  lemma {:induction false} FirstColonSplits(a: string, x: string, b: string, y: string)
    requires ':' !in a && ':' !in b && a + ":" + x == b + ":" + y
    ensures a == b && x == y
    decreases |a|
  {
    var s, t := a + ":" + x, b + ":" + y;
    assert s[0] == (if a == "" then ':' else a[0]) && t[0] == (if b == "" then ':' else b[0]);
    assert s[1..] == if a == "" then x else a[1..] + ":" + x;
    assert t[1..] == if b == "" then y else b[1..] + ":" + y;
    if a != "" && b != "" {
      FirstColonSplits(a[1..], x, b[1..], y);
    }
  }

  lemma NumberTextInjective(m: nat, n: nat)
    ensures ':' !in Text.NatToText(m)
    ensures Text.NatToText(m) == Text.NatToText(n) ==> m == n
  {
  }

  /** Without a colon in the wallet ids, equal action keys mean equal triples. */
  lemma ActionKeyInjective(w1: string, c1: nat, a1: string, w2: string, c2: nat, a2: string)
    requires ':' !in w1 && ':' !in w2
    requires ActionKey(w1, c1, a1) == ActionKey(w2, c2, a2)
    ensures w1 == w2 && c1 == c2 && a1 == a2
  {
    var n1, n2 := Text.NatToText(c1), Text.NatToText(c2);
    NumberTextInjective(c1, c2);
    NumberTextInjective(c2, c1);
    assert ActionKey(w1, c1, a1) == w1 + ":" + (n1 + ":" + a1);
    assert ActionKey(w2, c2, a2) == w2 + ":" + (n2 + ":" + a2);
    FirstColonSplits(w1, n1 + ":" + a1, w2, n2 + ":" + a2);
    FirstColonSplits(n1, a1, n2, a2);
  }

  /** With a colon they may not: two different triples with one key. */
  lemma ActionKeysMayCollide()
    ensures ActionKey("w", 1, "2:a") == ActionKey("w:1", 2, "a")
  {
  }

  lemma {:induction false} LastColonSplits(a: string, x: string, b: string, y: string)
    requires ':' !in x && ':' !in y && a + ":" + x == b + ":" + y
    ensures a == b && x == y
    decreases |x|
  {
    var s, t := a + ":" + x, b + ":" + y;
    var m, n := |x| - 1, |y| - 1;
    assert s[|s| - 1] == (if x == "" then ':' else x[m]) && t[|t| - 1] == (if y == "" then ':' else y[n]);
    assert s[..|s| - 1] == if x == "" then a else a + ":" + x[..m];
    assert t[..|t| - 1] == if y == "" then b else b + ":" + y[..n];
    if x != "" && y != "" {
      LastColonSplits(a, x[..m], b, y[..n]);
    }
  }

  /** State keys never collide, so the state map may be indexed by the pair itself. */
  lemma StateKeyInjective(w1: string, c1: nat, w2: string, c2: nat)
    requires StateKey(w1, c1) == StateKey(w2, c2)
    ensures w1 == w2 && c1 == c2
  {
    NumberTextInjective(c1, c2);
    NumberTextInjective(c2, c1);
    LastColonSplits(w1, Text.NatToText(c1), w2, Text.NatToText(c2));
  }

  // ---------- One reservation on each path ----------

  /** First position of a record with the request's key, or the length. */
  function FindByKey(rs: seq<Reservation>, req: Request): (k: nat)
    ensures k <= |rs|
    ensures k < |rs| ==> SameKey(rs[k], req)
    ensures forall i :: 0 <= i < k ==> !SameKey(rs[i], req)
  {
    if rs == [] || SameKey(rs[0], req) then 0 else 1 + FindByKey(rs[1..], req)
  }

  function FindByAction(rs: seq<Reservation>, req: Request): (k: nat)
    ensures k <= |rs|
    ensures k < |rs| ==> SameAction(rs[k], req)
    ensures forall i :: 0 <= i < k ==> !SameAction(rs[i], req)
  {
    if rs == [] || SameAction(rs[0], req) then 0 else 1 + FindByAction(rs[1..], req)
  }

  predicate NonceTaken(rs: seq<Reservation>, walletId: string, chainId: nat, nonce: nat)
  {
    exists i :: 0 <= i < |rs| && rs[i].walletId == walletId && rs[i].chainId == chainId && rs[i].nonce == nonce
  }

  function Baseline(s: NonceState, req: Request, pending: nat): nat
  {
    var key := (req.walletId, req.chainId);
    if key in s.next then Max(s.next[key], pending) else pending
  }

  /** The nonce a fresh action gets, or the refusal of a requested nonce that is too low. */
  function ChooseNonce(s: NonceState, req: Request, pending: nat): Result<nat, NonceError>
    requires ValidInput(req, pending)
  {
    var baseline := Baseline(s, req, pending);
    match req.requestedNonce
    case None => Ok(baseline)
    case Some(n) => if n < baseline then Err(NonceTooLow) else Ok(n)
  }

  function NewReservation(req: Request, nonce: nat, freshId: string): Reservation
  {
    Reservation(freshId, req.walletId, req.chainId, nonce, req.actionId, Reserved, None)
  }

  function Record(s: NonceState, req: Request, nonce: nat, freshId: string): NonceState
  {
    NonceState(s.next[(req.walletId, req.chainId) := Increment(nonce)],
               s.reservations + [NewReservation(req, nonce, freshId)])
  }

  function ReserveInMemory(s: NonceState, req: Request, pending: int, freshId: string)
    : (NonceState, Result<Reservation, NonceError>)
  {
    if req.requestedNonce.Some? && !IsNonce(req.requestedNonce.value) then (s, Err(InvalidRequestedNonce))
    else if !IsNonce(pending) then (s, Err(InvalidChainNonce))
    else
      var existing := FindByKey(s.reservations, req);
      if existing < |s.reservations| then (s, Ok(s.reservations[existing]))
      else
        match ChooseNonce(s, req, pending)
        case Err(e) => (s, Err(e))
        case Ok(nonce) =>
          if NonceTaken(s.reservations, req.walletId, req.chainId, nonce) then (s, Err(NonceAlreadyReserved))
          else (Record(s, req, nonce, freshId), Ok(NewReservation(req, nonce, freshId)))
  }

  /**
   The transaction on the Postgres path. Both columns are 32-bit integers. Any error rolls the
   transaction back; a unique-index conflict is answered with the existing row of the action.
   */
  function ReserveInPostgres(s: NonceState, req: Request, pending: int, freshId: string)
    : (NonceState, Result<Reservation, NonceError>)
  {
    if req.requestedNonce.Some? && !IsNonce(req.requestedNonce.value) then (s, Err(InvalidRequestedNonce))
    else if !IsNonce(pending) then (s, Err(InvalidChainNonce))
    else if pending > INT4_MAX then (s, Err(IntegerOutOfRange))
    else
      match ChooseNonce(s, req, pending)
      case Err(e) => (s, Err(e))
      case Ok(nonce) =>
        if nonce + 1 > INT4_MAX then (s, Err(IntegerOutOfRange))
        else
          var existing := FindByAction(s.reservations, req);
          if NonceTaken(s.reservations, req.walletId, req.chainId, nonce) || existing < |s.reservations| then
            if existing < |s.reservations| then (s, Ok(s.reservations[existing]))
            else (s, Err(NonceAlreadyReserved))
          else (Record(s, req, nonce, freshId), Ok(NewReservation(req, nonce, freshId)))
  }

  /** The store a deployment is configured with. */
  datatype Path = InMemory | InPostgres

  function ReserveOn(path: Path, s: NonceState, req: Request, pending: int, freshId: string)
    : (NonceState, Result<Reservation, NonceError>)
  {
    if path.InMemory? then ReserveInMemory(s, req, pending, freshId) else ReserveInPostgres(s, req, pending, freshId)
  }

  // ---------- Updates ----------

  function SetById(rs: seq<Reservation>, id: string, status: Status, txHash: Option<string>): seq<Reservation>
  {
    seq(|rs|, i requires 0 <= i < |rs| =>
      if rs[i].id == id then rs[i].(status := status, txHash := if txHash.Some? then txHash else rs[i].txHash)
      else rs[i])
  }

  predicate HasHash(r: Reservation, hashes: seq<string>)
  {
    r.txHash.Some? && r.txHash.value in hashes
  }

  function SetByHashes(rs: seq<Reservation>, hashes: seq<string>, status: Status): seq<Reservation>
  {
    seq(|rs|, i requires 0 <= i < |rs| => if HasHash(rs[i], hashes) then rs[i].(status := status) else rs[i])
  }

  /** How many records carry one of the hashes. */
  ghost function CountByHashes(rs: seq<Reservation>, hashes: seq<string>): nat
  {
    if rs == [] then 0
    else CountByHashes(rs[..|rs| - 1], hashes) + if HasHash(rs[|rs| - 1], hashes) then 1 else 0
  }

  // ---------- The invariant ----------

  /** The wallet's counter lies above the nonce, or both have stuck at 2^53. */
  ghost predicate BelowNext(s: NonceState, r: Reservation)
  {
    var key := (r.walletId, r.chainId);
    && key in s.next
    && (r.nonce < s.next[key] || r.nonce == s.next[key] == TWO_POW_53)
  }

  ghost predicate SameWallet(a: Reservation, b: Reservation)
  {
    a.walletId == b.walletId && a.chainId == b.chainId
  }

  ghost predicate Inv(s: NonceState)
  {
    && (forall key :: key in s.next ==> s.next[key] <= TWO_POW_53)
    && (forall i :: 0 <= i < |s.reservations| ==> BelowNext(s, s.reservations[i]))
    && (forall i, j :: 0 <= i < j < |s.reservations| ==>
          var a, b := s.reservations[i], s.reservations[j];
          && a.id != b.id
          && (SameWallet(a, b) ==> a.nonce != b.nonce && a.actionId != b.actionId))
  }

  ghost predicate FreshId(s: NonceState, id: string)
  {
    forall i :: 0 <= i < |s.reservations| ==> s.reservations[i].id != id
  }

  ghost predicate SameIdentity(a: Reservation, b: Reservation)
  {
    a.id == b.id && a.walletId == b.walletId && a.chainId == b.chainId && a.nonce == b.nonce && a.actionId == b.actionId
  }

  /** Later states keep every reservation under its nonce, and counters only grow. */
  ghost predicate Grows(s: NonceState, t: NonceState)
  {
    && |s.reservations| <= |t.reservations|
    && (forall i :: 0 <= i < |s.reservations| ==> SameIdentity(s.reservations[i], t.reservations[i]))
    && (forall key :: key in s.next ==> key in t.next && s.next[key] <= t.next[key])
  }

  lemma InvIgnoresStatus(s: NonceState, rs: seq<Reservation>)
    requires Inv(s) && |rs| == |s.reservations|
    requires forall i :: 0 <= i < |rs| ==> SameIdentity(s.reservations[i], rs[i])
    ensures Inv(s.(reservations := rs)) && Grows(s, s.(reservations := rs))
  {
  }

  lemma RecordKeepsInv(s: NonceState, req: Request, pending: nat, freshId: string)
    requires Inv(s) && FreshId(s, freshId) && ValidInput(req, pending)
    requires FindByAction(s.reservations, req) == |s.reservations|
    requires ChooseNonce(s, req, pending).Ok?
    requires !NonceTaken(s.reservations, req.walletId, req.chainId, ChooseNonce(s, req, pending).value)
    ensures var t := Record(s, req, ChooseNonce(s, req, pending).value, freshId);
            Inv(t) && Grows(s, t)
  {
  }

  /** A reservation keeps the invariant and every earlier reservation; a failed one changes nothing. */
  lemma ReserveKeepsInv(s: NonceState, req: Request, pending: int, freshId: string)
    requires Inv(s) && FreshId(s, freshId)
    ensures Inv(ReserveInMemory(s, req, pending, freshId).0)
    ensures Grows(s, ReserveInMemory(s, req, pending, freshId).0)
    ensures ReserveInMemory(s, req, pending, freshId).1.Err? ==> ReserveInMemory(s, req, pending, freshId).0 == s
    ensures Inv(ReserveInPostgres(s, req, pending, freshId).0)
    ensures Grows(s, ReserveInPostgres(s, req, pending, freshId).0)
  {
    hide Inv, Grows, Record, FreshId, NonceTaken, ActionKey, Baseline, FindByKey, FindByAction;
    GrowsItself(s);
    if ValidInput(req, pending) && ChooseNonce(s, req, pending).Ok? {
      if FindByKey(s.reservations, req) == |s.reservations| {
        NoKeyNoAction(s.reservations, req);
      }
      if FindByAction(s.reservations, req) == |s.reservations|
         && !NonceTaken(s.reservations, req.walletId, req.chainId, ChooseNonce(s, req, pending).value) {
        RecordKeepsInv(s, req, pending, freshId);
      }
    }
  }

  lemma GrowsItself(s: NonceState)
    ensures Grows(s, s)
  {
  }

  lemma NoKeyNoAction(rs: seq<Reservation>, req: Request)
    requires FindByKey(rs, req) == |rs|
    ensures FindByAction(rs, req) == |rs|
  {
  }

  /**
   The in-memory scan for a taken nonce can fire only when the wallet's counter has stuck at 2^53
   and that nonce is already out; for every smaller counter it never fires.
   */
  lemma ScanFiresIff(s: NonceState, req: Request, pending: int, freshId: string)
    requires Inv(s)
    ensures ReserveInMemory(s, req, pending, freshId).1 == Err(NonceAlreadyReserved) <==>
              && ValidInput(req, pending)
              && FindByKey(s.reservations, req) == |s.reservations|
              && req.requestedNonce.None? && Baseline(s, req, pending) == TWO_POW_53
              && NonceTaken(s.reservations, req.walletId, req.chainId, TWO_POW_53)
  {
  }

  const EMPTY := NonceState(map[], [])

  function Ask(actionId: string, requestedNonce: Option<int>): Request { Request("w", 1, actionId, requestedNonce) }

  /** The stuck counter is reached from the empty store: the largest safe nonce, the next one, and the scan fires. */
  lemma ScanCanFire()
    ensures var one := ReserveInMemory(EMPTY, Ask("a", Some(MAX_SAFE_INTEGER)), 0, "r1");
            var two := ReserveInMemory(one.0, Ask("b", None), 0, "r2");
            var three := ReserveInMemory(two.0, Ask("c", None), 0, "r3");
            && one.1.Ok? && two.1.Ok? && two.1.value.nonce == TWO_POW_53
            && three.1 == Err(NonceAlreadyReserved)
  {
    var one := ReserveInMemory(EMPTY, Ask("a", Some(MAX_SAFE_INTEGER)), 0, "r1");
    assert one == (Record(EMPTY, Ask("a", Some(MAX_SAFE_INTEGER)), MAX_SAFE_INTEGER, "r1"),
                   Ok(NewReservation(Ask("a", Some(MAX_SAFE_INTEGER)), MAX_SAFE_INTEGER, "r1")));
    KeysByAction("a", "b");
    KeysByAction("a", "c");
    KeysByAction("b", "c");
    assert FindByKey(one.0.reservations, Ask("b", None)) == 1;
    var two := ReserveInMemory(one.0, Ask("b", None), 0, "r2");
    assert two.0.reservations == one.0.reservations + [NewReservation(Ask("b", None), TWO_POW_53, "r2")];
    assert FindByKey(two.0.reservations, Ask("c", None)) == 2;
    assert two.0.reservations[1].nonce == TWO_POW_53;
  }

  lemma KeysByAction(a: string, b: string)
    requires a != b
    ensures ActionKey("w", 1, a) != ActionKey("w", 1, b)
  {
    if ActionKey("w", 1, a) == ActionKey("w", 1, b) {
      ActionKeyInjective("w", 1, a, "w", 1, b);
    }
  }

  // ---------- The two paths agree ----------

  /** The in-memory lookup meets a record of another action first. */
  ghost predicate KeyCollision(s: NonceState, req: Request)
  {
    var k := FindByKey(s.reservations, req);
    k < |s.reservations| && !SameAction(s.reservations[k], req)
  }

  /** A repeated action asks for a nonce that is by now too low. */
  ghost predicate StaleRetry(s: NonceState, req: Request, pending: nat)
  {
    && FindByAction(s.reservations, req) < |s.reservations|
    && req.requestedNonce.Some? && req.requestedNonce.value < Baseline(s, req, pending)
  }

  /** The node's answer, or the counter after this reservation, does not fit the database column. */
  ghost predicate ColumnOverflow(s: NonceState, req: Request, pending: nat)
    requires ValidInput(req, pending)
  {
    || pending > INT4_MAX
    || (ChooseNonce(s, req, pending).Ok? && ChooseNonce(s, req, pending).value + 1 > INT4_MAX)
  }

  /**
   Same new state and same answer on both paths, except exactly when an action key collides, a retry
   asks for a nonce that is now too low, or a number does not fit the 32-bit column.
   */
  lemma PathsAgreeIff(s: NonceState, req: Request, pending: int, freshId: string)
    requires Inv(s) && FreshId(s, freshId)
    ensures ReserveInMemory(s, req, pending, freshId) == ReserveInPostgres(s, req, pending, freshId) <==>
              !(ValidInput(req, pending)
                && (KeyCollision(s, req) || StaleRetry(s, req, pending) || ColumnOverflow(s, req, pending)))
  {
  }

  /** One reservation of the first nonce. */
  function OneTaken(walletId: string, chainId: nat, actionId: string): NonceState
  {
    NonceState(map[(walletId, chainId) := 1], [Reservation("r1", walletId, chainId, 0, actionId, Reserved, None)])
  }

  /** The state after the first reservation of all, on either path. */
  ghost predicate ReachedFrom(s: NonceState, req: Request)
  {
    forall path :: ReserveOn(path, EMPTY, req, 0, "r1").0 == s
  }

  lemma FirstReservation(req: Request)
    requires req.requestedNonce == None || req.requestedNonce == Some(0)
    ensures ReachedFrom(OneTaken(req.walletId, req.chainId, req.actionId), req)
  {
  }

  predicate SameOnBoth(s: NonceState, req: Request, pending: int)
  {
    ReserveInMemory(s, req, pending, "r2") == ReserveInPostgres(s, req, pending, "r2")
  }

  /** The second request's key text is the first one's: in memory it is handed another wallet's reservation. */
  lemma CollisionDiffers()
    ensures var s, req := OneTaken("w:1", 2, "a"), Request("w", 1, "2:a", None);
            && Inv(s) && FreshId(s, "r2") && ReachedFrom(s, Request("w:1", 2, "a", None))
            && KeyCollision(s, req) && !StaleRetry(s, req, 0) && !ColumnOverflow(s, req, 0)
            && ReserveInMemory(s, req, 0, "r2").1 == Ok(s.reservations[0])
            && !SameOnBoth(s, req, 0)
  {
    ActionKeysMayCollide();
    var s, req := OneTaken("w:1", 2, "a"), Request("w", 1, "2:a", None);
    hide ActionKey;
    assert FindByKey(s.reservations, req) == 0;
    FirstReservation(Request("w:1", 2, "a", None));
  }

  /** A client retries an action with the nonce it asked for: in memory it gets its reservation, in Postgres an error. */
  lemma StaleRetryDiffers()
    ensures var s, req := OneTaken("w", 1, "a"), Request("w", 1, "a", Some(0));
            && Inv(s) && FreshId(s, "r2") && ReachedFrom(s, req)
            && StaleRetry(s, req, 0) && !KeyCollision(s, req) && !ColumnOverflow(s, req, 0)
            && ReserveInMemory(s, req, 0, "r2").1 == Ok(s.reservations[0])
            && ReserveInPostgres(s, req, 0, "r2").1 == Err(NonceTooLow)
            && !SameOnBoth(s, req, 0)
  {
    FirstReservation(Request("w", 1, "a", Some(0)));
  }

  /** The node counts further than the column: only the memory reserves. */
  lemma OverflowDiffers()
    ensures var s, req := OneTaken("w", 1, "a"), Request("w", 1, "b", None);
            && Inv(s) && FreshId(s, "r2") && ReachedFrom(s, Request("w", 1, "a", None))
            && ColumnOverflow(s, req, INT4_MAX + 1) && !KeyCollision(s, req) && !StaleRetry(s, req, INT4_MAX + 1)
            && ReserveInMemory(s, req, INT4_MAX + 1, "r2").1.Ok?
            && ReserveInPostgres(s, req, INT4_MAX + 1, "r2").1 == Err(IntegerOutOfRange)
            && !SameOnBoth(s, req, INT4_MAX + 1)
  {
    KeysByAction("a", "b");
    FirstReservation(Request("w", 1, "a", None));
  }

  /** Wallet ids without a colon rule collisions out. */
  lemma NoCollisionWithoutColons(s: NonceState, req: Request)
    requires ':' !in req.walletId
    requires forall i :: 0 <= i < |s.reservations| ==> ':' !in s.reservations[i].walletId
    ensures !KeyCollision(s, req)
  {
    var k := FindByKey(s.reservations, req);
    if k < |s.reservations| {
      var r := s.reservations[k];
      ActionKeyInjective(r.walletId, r.chainId, r.actionId, req.walletId, req.chainId, req.actionId);
    }
  }

  // ---------- Which nonce an action gets ----------

  /** No reservation is kept under the action's key text; then there is none of the action either. */
  ghost predicate FirstOfItsAction(s: NonceState, req: Request)
  {
    forall i :: 0 <= i < |s.reservations| ==> !SameKey(s.reservations[i], req)
  }

  /** The request asks for a nonce that the chain has used, or that this wallet has given out or passed over. */
  predicate AsksTooLow(s: NonceState, req: Request, pending: int)
  {
    req.requestedNonce.Some?
    && (req.requestedNonce.value < pending
        || ((req.walletId, req.chainId) in s.next && req.requestedNonce.value < s.next[(req.walletId, req.chainId)]))
  }

  /**
   On either path a first reservation of an action gets the nonce it asks for, and without a request the larger of the
   chain's pending nonce and the wallet's counter; what is asked for too low is refused. The reservation is stored last,
   under a counter that has moved past it.
   */
  lemma FreshNonce(path: Path, s: NonceState, req: Request, pending: int, freshId: string)
    requires Inv(s) && ValidInput(req, pending) && FirstOfItsAction(s, req)
    ensures var key, (t, r) := (req.walletId, req.chainId), ReserveOn(path, s, req, pending, freshId);
            && (path.InMemory? || pending <= INT4_MAX ==> (r == Err(NonceTooLow) <==> AsksTooLow(s, req, pending)))
            && (r.Ok? ==>
                  var x := r.value;
                  && (req.requestedNonce.Some? ==> x.nonce == req.requestedNonce.value)
                  && x.nonce >= pending && (key in s.next ==> x.nonce >= s.next[key])
                  && (req.requestedNonce.None? ==> x.nonce == pending || (key in s.next && x.nonce == s.next[key]))
                  && (x.id, x.walletId, x.chainId, x.actionId) == (freshId, req.walletId, req.chainId, req.actionId)
                  && x.status == Reserved && x.txHash == None
                  && t.reservations == s.reservations + [x]
                  && t.next.Keys == s.next.Keys + {key}
                  && (t.next[key] == x.nonce + 1 || t.next[key] == x.nonce == TWO_POW_53)
                  && forall other :: other in s.next && other != key ==> t.next[other] == s.next[other])
            && (r.Err? ==> t == s)
  {
  }

  /**
   It is granted unless it is asked too low, the wallet's counter has stuck at 2^53 with that nonce out (in memory), or
   a number does not fit the 32-bit column (in Postgres).
   */
  lemma FreshNonceIsGrantedIff(path: Path, s: NonceState, req: Request, pending: int, freshId: string)
    requires Inv(s) && ValidInput(req, pending) && FirstOfItsAction(s, req)
    ensures var key := (req.walletId, req.chainId);
            ReserveOn(path, s, req, pending, freshId).1.Ok? <==>
              && !AsksTooLow(s, req, pending)
              && match path
                 case InMemory =>
                   !(req.requestedNonce.None? && key in s.next && s.next[key] == 9_007_199_254_740_992
                     && exists i :: 0 <= i < |s.reservations| && s.reservations[i].nonce == 9_007_199_254_740_992
                                    && (s.reservations[i].walletId, s.reservations[i].chainId) == key)
                 case InPostgres =>
                   && pending < 2_147_483_647
                   && (if req.requestedNonce.Some? then req.requestedNonce.value < 2_147_483_647
                       else key in s.next ==> s.next[key] < 2_147_483_647)
  {
  }

  /** A repeated action gets the reservation it has, whatever became of it, and nothing changes. */
  lemma RepeatedAction(path: Path, s: NonceState, req: Request, pending: int, freshId: string, k: nat)
    requires Inv(s) && ValidInput(req, pending) && k < |s.reservations|
    requires s.reservations[k].walletId == req.walletId && s.reservations[k].chainId == req.chainId
    requires s.reservations[k].actionId == req.actionId
    requires !KeyCollision(s, req) && !StaleRetry(s, req, pending) && !ColumnOverflow(s, req, pending)
    ensures ReserveOn(path, s, req, pending, freshId) == (s, Ok(s.reservations[k]))
  {
  }

  /** Numbers that JavaScript cannot hold exactly, or below zero, are refused, the requested one first. */
  lemma BadNumbersAreRefused(path: Path, s: NonceState, req: Request, pending: int, freshId: string)
    ensures var r := ReserveOn(path, s, req, pending, freshId).1;
            && (r == Err(InvalidRequestedNonce) <==>
                  req.requestedNonce.Some? && !(0 <= req.requestedNonce.value < 0x20_0000_0000_0000))
            && (r == Err(InvalidChainNonce) ==> !(0 <= pending < 0x20_0000_0000_0000))
            && (!(0 <= pending < 0x20_0000_0000_0000) ==> r.Err?)
  {
  }

  // ---------- Whole runs ----------

  datatype Step =
    | Reserve(path: Path, req: Request, pending: int, freshId: string)
    | MarkSubmitted(id: string, txHash: string)
    | MarkFailed(id: string)
    | Release(id: string)
    | MarkByHashes(hashes: seq<string>, status: Status)

  ghost predicate Enabled(s: NonceState, step: Step)
  {
    match step
    case Reserve(_, _, _, freshId) => FreshId(s, freshId)
    case _ => true
  }

  function Apply(s: NonceState, step: Step): NonceState
  {
    match step
    case Reserve(path, req, pending, freshId) => ReserveOn(path, s, req, pending, freshId).0
    case MarkSubmitted(id, txHash) =>
      var hash := Text.Trim(txHash);
      if hash == "" then s else s.(reservations := SetById(s.reservations, id, Submitted, Some(hash)))
    case MarkFailed(id) => s.(reservations := SetById(s.reservations, id, Failed, None))
    case Release(id) => s.(reservations := SetById(s.reservations, id, Released, None))
    case MarkByHashes(hashes, status) =>
      s.(reservations := SetByHashes(s.reservations, Chain.CleanHashes(hashes), status))
  }

  ghost predicate EnabledRun(s: NonceState, steps: seq<Step>)
    decreases |steps|
  {
    steps == [] || (Enabled(s, steps[0]) && EnabledRun(Apply(s, steps[0]), steps[1..]))
  }

  function Run(s: NonceState, steps: seq<Step>): NonceState
    decreases |steps|
  {
    if steps == [] then s else Run(Apply(s, steps[0]), steps[1..])
  }

  /** One of the hashes, trimmed, is the reservation's. */
  ghost predicate Named(x: Reservation, hashes: seq<string>)
  {
    exists h :: h in hashes && Text.Trim(h) != "" && x.txHash == Some(Text.Trim(h))
  }

  lemma {:induction false} CleanedOrNot(hashes: seq<string>, hash: string)
    ensures hash in Chain.CleanHashes(hashes) <==> hash != "" && exists h :: h in hashes && Text.Trim(h) == hash
  {
    if hashes != [] {
      CleanedOrNot(hashes[1..], hash);
      assert hashes == [hashes[0]] + hashes[1..];
    }
  }

  /** Every mark and release writes one status, to exactly the reservations it names, and moves no counter. */
  lemma MarksWrite(s: NonceState, step: Step, j: nat)
    requires !step.Reserve? && j < |s.reservations|
    ensures var t, x := Apply(s, step), s.reservations[j];
            && t.next == s.next && |t.reservations| == |s.reservations|
            && match step
               case MarkSubmitted(id, hash) =>
                 t.reservations[j] == if x.id == id && Text.Trim(hash) != ""
                                      then x.(status := Submitted, txHash := Some(Text.Trim(hash))) else x
               case MarkFailed(id) => t.reservations[j] == if x.id == id then x.(status := Failed) else x
               case Release(id) => t.reservations[j] == if x.id == id then x.(status := Released) else x
               case MarkByHashes(hashes, status) =>
                 t.reservations[j] == if Named(x, hashes) then x.(status := status) else x
  {
    if step.MarkByHashes? && s.reservations[j].txHash.Some? {
      CleanedOrNot(step.hashes, s.reservations[j].txHash.value);
    }
  }

  lemma StepKeepsInv(s: NonceState, step: Step)
    requires Inv(s) && Enabled(s, step)
    ensures Inv(Apply(s, step)) && Grows(s, Apply(s, step))
  {
    match step
    case Reserve(_, req, pending, freshId) => ReserveKeepsInv(s, req, pending, freshId);
    case MarkSubmitted(id, txHash) =>
      InvIgnoresStatus(s, SetById(s.reservations, id, Submitted, Some(Text.Trim(txHash))));
    case MarkFailed(id) => InvIgnoresStatus(s, SetById(s.reservations, id, Failed, None));
    case Release(id) => InvIgnoresStatus(s, SetById(s.reservations, id, Released, None));
    case MarkByHashes(hashes, status) =>
      InvIgnoresStatus(s, SetByHashes(s.reservations, Chain.CleanHashes(hashes), status));
  }

  /**
   In every run on either path, from any state that satisfies the invariant and whatever the node answers: nonces of one
   wallet and chain stay pairwise distinct, each action keeps one reservation, no reservation is lost or
   renumbered, and no counter goes back.
   */
  lemma {:induction false} RunIsSafe(s: NonceState, steps: seq<Step>)
    requires Inv(s) && EnabledRun(s, steps)
    ensures Inv(Run(s, steps)) && Grows(s, Run(s, steps))
    decreases |steps|
  {
    if steps != [] {
      StepKeepsInv(s, steps[0]);
      RunIsSafe(Apply(s, steps[0]), steps[1..]);
    }
  }

  // ---------- The store, changed in place ----------

  class MemoryNonces {
    var states: map<(string, nat), nat>
    var reservations: seq<Reservation>

    function State(): NonceState
      reads this
    {
      NonceState(states, reservations)
    }

    constructor ()
      ensures State() == NonceState(map[], [])
      ensures Inv(State())
    {
      states := map[];
      reservations := [];
    }

    /** `findMemoryReservationByAction`. */
    method FindReservation(req: Request) returns (r: Option<Reservation>)
      ensures var k := FindByKey(reservations, req);
              r == if k < |reservations| then Some(reservations[k]) else None
    {
      for i := 0 to |reservations|
        invariant forall j :: 0 <= j < i ==> !SameKey(reservations[j], req)
      {
        if SameKey(reservations[i], req) {
          return Some(reservations[i]);
        }
      }
      return None;
    }

    /** `reserveWalletNonce` without a database. */
    method ReserveNonce(req: Request, pending: int, freshId: string) returns (r: Result<Reservation, NonceError>)
      modifies this
      ensures (State(), r) == ReserveInMemory(old(State()), req, pending, freshId)
    {
      if req.requestedNonce.Some? && !IsNonce(req.requestedNonce.value) { return Err(InvalidRequestedNonce); }
      if !IsNonce(pending) { return Err(InvalidChainNonce); }

      var existing := FindReservation(req);
      if existing.Some? { return Ok(existing.value); }

      var key := (req.walletId, req.chainId);
      var nonce: nat := if key in states then Max(states[key], pending) else pending;
      if req.requestedNonce.Some? {
        if req.requestedNonce.value < nonce { return Err(NonceTooLow); }
        nonce := req.requestedNonce.value;
      }

      for i := 0 to |reservations|
        invariant forall j :: 0 <= j < i ==>
                    !(reservations[j].walletId == req.walletId && reservations[j].chainId == req.chainId
                      && reservations[j].nonce == nonce)
        invariant State() == old(State())
      {
        var other := reservations[i];
        if other.walletId == req.walletId && other.chainId == req.chainId && other.nonce == nonce {
          assert NonceTaken(reservations, req.walletId, req.chainId, nonce);
          return Err(NonceAlreadyReserved);
        }
      }

      states := states[key := Increment(nonce)];
      var reservation := NewReservation(req, nonce, freshId);
      reservations := reservations + [reservation];
      return Ok(reservation);
    }

    /** `updateMemoryReservation`. */
    method UpdateById(id: string, status: Status, txHash: Option<string>) returns (found: bool)
      modifies this
      ensures State() == old(State()).(reservations := SetById(old(reservations), id, status, txHash))
      ensures found <==> exists i :: 0 <= i < |old(reservations)| && old(reservations)[i].id == id
    {
      found := false;
      ghost var before := reservations;
      for i := 0 to |reservations|
        invariant states == old(states) && |reservations| == |before|
        invariant forall j :: 0 <= j < i ==> reservations[j] == SetById(before, id, status, txHash)[j]
        invariant forall j :: i <= j < |before| ==> reservations[j] == before[j]
        invariant found <==> exists j :: 0 <= j < i && before[j].id == id
      {
        if reservations[i].id == id {
          var hash := if txHash.Some? then txHash else reservations[i].txHash;
          reservations := reservations[i := reservations[i].(status := status, txHash := hash)];
          found := true;
        }
      }
      assert reservations == SetById(before, id, status, txHash);
    }

    method MarkSubmittedById(id: string, txHash: string) returns (r: Result<bool, NonceError>)
      modifies this
      ensures State() == Apply(old(State()), MarkSubmitted(id, txHash))
      ensures r.Err? <==> Text.Trim(txHash) == ""
    {
      var hash := Text.Trim(txHash);
      if hash == "" { return Err(InvalidTxHash); }
      var found := UpdateById(id, Submitted, Some(hash));
      return Ok(found);
    }

    /** `updateNonceReservationsByTxHashes`. */
    method UpdateByTxHashes(hashes: seq<string>, status: Status) returns (updated: nat)
      modifies this
      ensures State() == Apply(old(State()), MarkByHashes(hashes, status))
      ensures updated == CountByHashes(old(reservations), Chain.CleanHashes(hashes))
    {
      var normalized := Chain.CleanHashes(hashes);
      updated := 0;
      ghost var before := reservations;
      for i := 0 to |reservations|
        invariant states == old(states) && |reservations| == |before|
        invariant forall j :: 0 <= j < i ==> reservations[j] == SetByHashes(before, normalized, status)[j]
        invariant forall j :: i <= j < |before| ==> reservations[j] == before[j]
        invariant updated == CountByHashes(before[..i], normalized)
      {
        assert before[..i + 1][..i] == before[..i];
        if HasHash(reservations[i], normalized) {
          reservations := reservations[i := reservations[i].(status := status)];
          updated := updated + 1;
        }
      }
      assert before[..|before|] == before;
      assert reservations == SetByHashes(before, normalized, status);
    }
  }
}
