/** Creating, cancelling, claiming and requeueing tickets, with creation under advisory locks.

A creating transaction locks its members one by one in sorted order; after each lock it checks, as of the
time it began, that the member has no active ticket. Locks last until the transaction ends. */
module TicketLocks {
  import opened Ordering
  import Roster

  /** `Gone` is a ticket that was matched or has run out of allocation attempts. */
  datatype Status = Queued | Matching | Cancelled | Gone

  datatype Row = Row(players: seq<string>, status: Status, expires: int)

  /** A creating transaction: `locked` members are locked and the first `passed` of them checked. */
  datatype Tx = Tx(ticketId: string, players: seq<string>, expires: int, start: int, locked: nat, passed: nat, inserted: bool)

  datatype World = World(tickets: map<string, Row>, flight: map<nat, Tx>, now: int)

  const EMPTY := World(map[], map[], 0)

  type LockKey = string -> int

  // ---------------------------------------------------------------- requests

  datatype Request = Request(gameId: string, environment: string, modeId: string, build: string, region: string, revision: int,
                             capacity: int, players: seq<string>, expires: int)

  const HALF_HOUR := 1800

  predicate Listed(players: seq<string>) {
    && players != []
    && (forall i :: 0 <= i < |players| ==> !Roster.Blank(players[i]))
    && (forall i, j :: 0 <= i < j < |players| ==> players[i] != players[j])
  }

  /** What a request must satisfy; an expiry of zero stands for none. */
  predicate Acceptable(r: Request, actor: string, now: int) {
    && !Roster.Blank(r.gameId) && !Roster.Blank(r.environment) && !Roster.Blank(r.modeId) && !Roster.Blank(r.build) && !Roster.Blank(r.region)
    && r.revision >= 1 && r.capacity >= 1 && |r.players| <= r.capacity && Listed(r.players) && actor in r.players
    && r.expires != 0 && now < r.expires <= now + HALF_HOUR
  }

  method Validate(r: Request, actor: string, now: int) returns (ok: bool)
    ensures ok == Acceptable(r, actor, now)
  {
    if Roster.Blank(r.gameId) || Roster.Blank(r.environment) || Roster.Blank(r.modeId) || Roster.Blank(r.build) || Roster.Blank(r.region) {
      return false;
    }
    if r.revision < 1 || r.capacity < 1 || |r.players| == 0 || |r.players| > r.capacity { return false; }
    var seen: set<string> := {};
    var i := 0;
    while i < |r.players|
      invariant 0 <= i <= |r.players|
      invariant forall p :: p in seen <==> p in r.players[..i]
      invariant i > 0 ==> Listed(r.players[..i])
    {
      if Roster.Blank(r.players[i]) { return false; }
      if r.players[i] in seen {
        var k :| 0 <= k < i && r.players[..i][k] == r.players[i];
        return false;
      }
      seen := seen + {r.players[i]};
      i := i + 1;
    }
    assert r.players[..i] == r.players;
    if actor !in seen { return false; }
    if r.expires == 0 { return false; }
    ok := r.expires > now && r.expires <= now + HALF_HOUR;
  }

  // ---------------------------------------------------------------- statements

  datatype Step = Tick(later: int) | Begin(id: nat, ticketId: string, request: Request, actor: string) | Lock(id: nat) | Check(id: nat)
                | Insert(id: nat) | End(id: nat) | Crash(id: nat) | Cancel(ticketId: string, actor: string) | Claim(ticketId: string)
                | Requeue(ticketId: string) | Finish(ticketId: string)

  predicate Active(tickets: map<string, Row>, player: string, at: int) {
    exists id :: id in tickets && tickets[id].status.Queued? && tickets[id].expires > at && player in tickets[id].players
  }

  predicate Holds(tx: Tx, key: LockKey, k: int) {
    exists a :: 0 <= a < tx.locked && a < |tx.players| && key(tx.players[a]) == k
  }

  predicate Free(w: World, id: nat, key: LockKey, k: int) {
    forall j :: j in w.flight && j != id ==> !Holds(w.flight[j], key, k)
  }

  predicate WantsLock(tx: Tx) { tx.locked == tx.passed && tx.locked < |tx.players| }

  function Put(w: World, id: nat, tx: Tx): World { w.(flight := w.flight[id := tx]) }

  function Drop(w: World, id: nat): World { w.(flight := w.flight - {id}) }

  function LockStep(w: World, id: nat, tx: Tx, key: LockKey): World {
    if WantsLock(tx) && Free(w, id, key, key(tx.players[tx.locked])) then Put(w, id, tx.(locked := tx.locked + 1)) else w
  }

  /** The check uses the time the transaction began. */
  function CheckStep(w: World, id: nat, tx: Tx): World {
    if tx.passed < tx.locked <= |tx.players| then
      if Active(w.tickets, tx.players[tx.passed], tx.start) then Drop(w, id) else Put(w, id, tx.(passed := tx.passed + 1))
    else w
  }

  predicate IdPending(w: World, id: nat, ticketId: string) {
    exists j :: j in w.flight && j != id && w.flight[j].inserted && w.flight[j].ticketId == ticketId
  }

  function InsertStep(w: World, id: nat, tx: Tx): World {
    if tx.inserted || tx.passed != |tx.players| || IdPending(w, id, tx.ticketId) then w
    else if tx.ticketId in w.tickets then Drop(w, id)
    else Put(w, id, tx.(inserted := true))
  }

  function EndStep(w: World, id: nat, tx: Tx): World {
    if !tx.inserted then w
    else World(w.tickets[tx.ticketId := Row(tx.players, Queued, tx.expires)], w.flight - {id}, w.now)
  }

  function Move(w: World, ticketId: string, from: Status, to: Status): World {
    if ticketId in w.tickets && w.tickets[ticketId].status == from
    then w.(tickets := w.tickets[ticketId := w.tickets[ticketId].(status := to)]) else w
  }

  function Apply(w: World, step: Step, key: LockKey): World {
    match step
    case Tick(later) => if later >= w.now then w.(now := later) else w
    case Begin(id, ticketId, request, actor) =>
      if id in w.flight || !Acceptable(request, actor, w.now) then w
      else Put(w, id, Tx(ticketId, Sorted(StringLess, request.players), request.expires, w.now, 0, 0, false))
    case Lock(id) => if id in w.flight then LockStep(w, id, w.flight[id], key) else w
    case Check(id) => if id in w.flight then CheckStep(w, id, w.flight[id]) else w
    case Insert(id) => if id in w.flight then InsertStep(w, id, w.flight[id]) else w
    case End(id) => if id in w.flight then EndStep(w, id, w.flight[id]) else w
    case Crash(id) => Drop(w, id)
    case Cancel(ticketId, actor) =>
      if ticketId in w.tickets && actor in w.tickets[ticketId].players then Move(w, ticketId, Queued, Cancelled) else w
    case Claim(ticketId) => if ticketId in w.tickets && w.tickets[ticketId].expires > w.now then Move(w, ticketId, Queued, Matching) else w
    case Requeue(ticketId) => Move(w, ticketId, Matching, Queued)
    case Finish(ticketId) => Move(w, ticketId, Matching, Gone)
  }

  datatype Run = Nil | Then(past: Run, step: Step)

  function After(run: Run, key: LockKey): World {
    match run
    case Nil => EMPTY
    case Then(past, step) => Apply(After(past, key), step, key)
  }

  // ---------------------------------------------------------------- the invariant

  predicate Rising(players: seq<string>) {
    forall a, b :: 0 <= a < b < |players| ==> StringLess(players[a], players[b])
  }

  predicate AllNamed(players: seq<string>) {
    forall a :: 0 <= a < |players| ==> !Roster.Blank(players[a])
  }

  predicate TxOk(now: int, tx: Tx) {
    && Rising(tx.players) && tx.players != [] && AllNamed(tx.players) && tx.start <= now
    && tx.passed <= tx.locked <= |tx.players| && tx.locked <= tx.passed + 1
    && (tx.inserted ==> tx.passed == |tx.players|)
  }

  predicate Apart(a: Tx, b: Tx, key: LockKey) {
    && (forall i, j :: 0 <= i < a.locked && i < |a.players| && 0 <= j < b.locked && j < |b.players| ==> key(a.players[i]) != key(b.players[j]))
    && (a.inserted && b.inserted ==> a.ticketId != b.ticketId)
  }

  predicate InQueue(tickets: map<string, Row>, id: string, player: string) {
    id in tickets && tickets[id].status.Queued? && player in tickets[id].players
  }

  /** No player has two queued tickets that are both unexpired. */
  ghost predicate OneActive(tickets: map<string, Row>, now: int) {
    forall s, t, p :: InQueue(tickets, s, p) && InQueue(tickets, t, p) && s != t ==> tickets[s].expires <= now || tickets[t].expires <= now
  }

  ghost predicate Inv(w: World, key: LockKey) {
    && (forall i :: i in w.flight ==> TxOk(w.now, w.flight[i]))
    && (forall i, j :: i in w.flight && j in w.flight && i != j ==> Apart(w.flight[i], w.flight[j], key))
    && (forall i :: i in w.flight && w.flight[i].inserted ==> w.flight[i].ticketId !in w.tickets)
    && (forall t :: t in w.tickets ==> w.tickets[t].players != [])
  }

  // ---------------------------------------------------------------- each statement keeps it

  /** The lock order of a valid request is strictly rising and names the same players. */
  lemma SortedRises(players: seq<string>)
    requires Listed(players)
    ensures Rising(Sorted(StringLess, players)) && Sorted(StringLess, players) != [] && AllNamed(Sorted(StringLess, players))
    ensures forall p :: p in Sorted(StringLess, players) <==> p in players
  {
    var s := Sorted(StringLess, players);
    SortedMembers(StringLess, players);
    StringOrderIsWeak();
    SortedOrdered(StringLess, players);
    assert Distinct(players);
    forall a, b | 0 <= a < b < |s| ensures StringLess(s[a], s[b]) {
      StringLessTotal(s[a], s[b]);
    }
    forall a | 0 <= a < |s| ensures !Roster.Blank(s[a]) {
      assert s[a] in players;
    }
  }

  lemma PutKeeps(w: World, id: nat, tx: Tx, key: LockKey)
    requires Inv(w, key) && TxOk(w.now, tx) && (tx.inserted ==> tx.ticketId !in w.tickets)
    requires forall j :: j in w.flight && j != id ==> Apart(tx, w.flight[j], key) && Apart(w.flight[j], tx, key)
    ensures Inv(Put(w, id, tx), key)
  {}

  lemma BeginKeeps(w: World, step: Step, key: LockKey)
    requires Inv(w, key) && step.Begin?
    ensures Inv(Apply(w, step, key), key)
  {
    if step.id !in w.flight && Acceptable(step.request, step.actor, w.now) {
      SortedRises(step.request.players);
      PutKeeps(w, step.id, Tx(step.ticketId, Sorted(StringLess, step.request.players), step.request.expires, w.now, 0, 0, false), key);
    }
  }

  /** A newly locked member is nobody else's. */
  lemma LockApart(tx: Tx, other: Tx, key: LockKey)
    requires Apart(tx, other, key) && WantsLock(tx) && !Holds(other, key, key(tx.players[tx.locked]))
    ensures Apart(tx.(locked := tx.locked + 1), other, key)
  {}

  lemma ApartSymmetric(a: Tx, b: Tx, key: LockKey)
    requires Apart(a, b, key)
    ensures Apart(b, a, key)
  {}

  lemma LockKeeps(w: World, id: nat, key: LockKey)
    requires Inv(w, key) && id in w.flight
    ensures Inv(LockStep(w, id, w.flight[id], key), key)
  {
    var tx := w.flight[id];
    if WantsLock(tx) && Free(w, id, key, key(tx.players[tx.locked])) {
      var tx' := tx.(locked := tx.locked + 1);
      forall j | j in w.flight && j != id ensures Apart(tx', w.flight[j], key) && Apart(w.flight[j], tx', key) {
        LockApart(tx, w.flight[j], key);
        ApartSymmetric(tx', w.flight[j], key);
      }
      PutKeeps(w, id, tx', key);
    }
  }

  lemma CheckKeeps(w: World, id: nat, key: LockKey)
    requires Inv(w, key) && id in w.flight
    ensures Inv(CheckStep(w, id, w.flight[id]), key)
  {
    var tx := w.flight[id];
    if tx.passed < tx.locked <= |tx.players| {
      if !Active(w.tickets, tx.players[tx.passed], tx.start) {
        PutKeeps(w, id, tx.(passed := tx.passed + 1), key);
      } else {
        DropKeeps(w, id, key);
      }
    }
  }

  lemma DropKeeps(w: World, id: nat, key: LockKey)
    requires Inv(w, key)
    ensures Inv(Drop(w, id), key)
  {}

  lemma InsertKeeps(w: World, id: nat, key: LockKey)
    requires Inv(w, key) && id in w.flight
    ensures Inv(InsertStep(w, id, w.flight[id]), key)
  {
    var tx := w.flight[id];
    if !tx.inserted && tx.passed == |tx.players| && !IdPending(w, id, tx.ticketId) {
      if tx.ticketId !in w.tickets {
        PutKeeps(w, id, tx.(inserted := true), key);
      } else {
        DropKeeps(w, id, key);
      }
    }
  }

  lemma EndKeeps(w: World, id: nat, key: LockKey)
    requires Inv(w, key) && id in w.flight
    ensures Inv(EndStep(w, id, w.flight[id]), key)
  {
    var tx := w.flight[id];
    if tx.inserted {
      var w' := EndStep(w, id, tx);
      forall j | j in w'.flight && w'.flight[j].inserted ensures w'.flight[j].ticketId !in w'.tickets {
        assert Apart(tx, w.flight[j], key);
      }
    }
  }

  lemma MoveKeeps(w: World, ticketId: string, from: Status, to: Status, key: LockKey)
    requires Inv(w, key)
    ensures Inv(Move(w, ticketId, from, to), key)
  {}

  lemma TickKeeps(w: World, later: int, key: LockKey)
    requires Inv(w, key)
    ensures Inv(Apply(w, Tick(later), key), key)
  {}

  lemma StepKeeps(w: World, step: Step, key: LockKey)
    requires Inv(w, key)
    ensures Inv(Apply(w, step, key), key)
  {
    match step
    case Begin(_, _, _, _) => BeginKeeps(w, step, key);
    case Lock(id) => if id in w.flight { LockKeeps(w, id, key); }
    case Check(id) => if id in w.flight { CheckKeeps(w, id, key); }
    case Insert(id) => if id in w.flight { InsertKeeps(w, id, key); }
    case End(id) => if id in w.flight { EndKeeps(w, id, key); }
    case Cancel(ticketId, _) => MoveKeeps(w, ticketId, Queued, Cancelled, key);
    case Claim(ticketId) => MoveKeeps(w, ticketId, Queued, Matching, key);
    case Requeue(ticketId) => MoveKeeps(w, ticketId, Matching, Queued, key);
    case Finish(ticketId) => MoveKeeps(w, ticketId, Matching, Gone, key);
    case Tick(later) => TickKeeps(w, later, key);
    case Crash(id) => DropKeeps(w, id, key);
  }

  lemma {:induction false} RunKeeps(run: Run, key: LockKey)
    ensures Inv(After(run, key), key)
  {
    if run.Then? {
      RunKeeps(run.past, key);
      StepKeeps(After(run.past, key), run.step, key);
    }
  }

  // ---------------------------------------------------------------- waiting for locks

  /** A player of some transaction in flight. */
  predicate Playing(w: World, player: string) {
    exists i :: i in w.flight && player in w.flight[i].players
  }

  /** Players with one lock key have nobody of another key between them. */
  predicate Together(key: LockKey, p: string, q: string, r: string) {
    StringLess(p, q) && StringLess(q, r) && key(p) == key(r) ==> key(q) == key(p)
  }

  ghost predicate TogetherInFlight(w: World, key: LockKey) {
    forall p, q, r :: Playing(w, p) && Playing(w, q) && Playing(w, r) ==> Together(key, p, q, r)
  }

  /** Transaction i is stopped at a lock that j holds. */
  predicate WaitsFor(w: World, key: LockKey, i: nat, j: nat) {
    && i in w.flight && j in w.flight && i != j && WantsLock(w.flight[i])
    && Holds(w.flight[j], key, key(w.flight[i].players[w.flight[i].locked]))
  }

  function Wanted(w: World, i: nat): string
    requires i in w.flight && WantsLock(w.flight[i])
  {
    w.flight[i].players[w.flight[i].locked]
  }

  lemma WantedPlays(w: World, i: nat)
    requires i in w.flight && WantsLock(w.flight[i])
    ensures Playing(w, Wanted(w, i))
  {}

  /** Earlier, and not locked by the same key. */
  predicate Below(key: LockKey, p: string, q: string) { StringLess(p, q) && key(p) != key(q) }

  lemma BelowTransitive(key: LockKey, p: string, q: string, r: string)
    requires Below(key, p, q) && Below(key, q, r) && Together(key, p, q, r)
    ensures Below(key, p, r)
  {
    StringLessTransitive(p, q, r);
  }

  lemma BelowSameKey(key: LockKey, p: string, p': string, q: string)
    requires Below(key, p, q) && key(p') == key(p) && Together(key, p, q, p')
    ensures Below(key, p', q)
  {
    StringLessTotal(p', q);
  }

  /** A waiting transaction that itself waits wants a later lock than the one waiting for it. */
  lemma WaitRises(w: World, key: LockKey, i: nat, j: nat, k: nat)
    requires Inv(w, key) && TogetherInFlight(w, key) && WaitsFor(w, key, i, j) && WaitsFor(w, key, j, k)
    ensures Below(key, Wanted(w, i), Wanted(w, j))
  {
    var a :| 0 <= a < w.flight[j].locked && a < |w.flight[j].players| && key(w.flight[j].players[a]) == key(Wanted(w, i));
    var held := w.flight[j].players[a];
    HeldIsNotWanted(w, key, j, k, a);
    WantedPlays(w, i);
    WantedPlays(w, j);
    assert held in w.flight[j].players && Playing(w, held);
    BelowSameKey(key, held, Wanted(w, i), Wanted(w, j));
  }

  lemma HeldIsNotWanted(w: World, key: LockKey, j: nat, k: nat, a: nat)
    requires Inv(w, key) && WaitsFor(w, key, j, k) && a < w.flight[j].locked
    ensures Below(key, w.flight[j].players[a], Wanted(w, j))
  {
    assert Apart(w.flight[j], w.flight[k], key);
  }

  predicate Link(w: World, key: LockKey, chain: seq<nat>, k: int) {
    0 <= k < |chain| - 1 ==> WaitsFor(w, key, chain[k], chain[k + 1])
  }

  ghost predicate WaitChain(w: World, key: LockKey, chain: seq<nat>) {
    forall k :: Link(w, key, chain, k)
  }

  ghost predicate WaitsRise(w: World, key: LockKey) {
    forall i, j, k :: WaitsFor(w, key, i, j) && WaitsFor(w, key, j, k) ==> Below(key, Wanted(w, i), Wanted(w, j))
  }

  lemma {:induction false} ChainRises(w: World, key: LockKey, chain: seq<nat>, next: nat)
    requires WaitsRise(w, key) && TogetherInFlight(w, key) && |chain| >= 2 && WaitChain(w, key, chain)
    requires WaitsFor(w, key, chain[|chain| - 1], next)
    ensures WaitsFor(w, key, chain[0], chain[1])
    ensures Below(key, Wanted(w, chain[0]), Wanted(w, chain[|chain| - 1]))
  {
    var n := |chain| - 1;
    assert Link(w, key, chain, n - 1) && Link(w, key, chain, 0);
    if n > 1 {
      forall k ensures Link(w, key, chain[..n], k) {
        assert Link(w, key, chain, k);
      }
      ChainRises(w, key, chain[..n], chain[n]);
      ThreeWanted(w, key, chain[0], chain[n - 1], chain[n]);
    }
  }

  lemma ThreeWanted(w: World, key: LockKey, i: nat, j: nat, k: nat)
    requires TogetherInFlight(w, key) && i in w.flight && j in w.flight && k in w.flight
    requires WantsLock(w.flight[i]) && WantsLock(w.flight[j]) && WantsLock(w.flight[k])
    requires Below(key, Wanted(w, i), Wanted(w, j)) && Below(key, Wanted(w, j), Wanted(w, k))
    ensures Below(key, Wanted(w, i), Wanted(w, k))
  {
    WantedPlays(w, i);
    WantedPlays(w, j);
    WantedPlays(w, k);
    BelowTransitive(key, Wanted(w, i), Wanted(w, j), Wanted(w, k));
  }

  /** A chain of waits that returns to its start. */
  ghost predicate WaitCycle(w: World, key: LockKey, chain: seq<nat>) {
    |chain| >= 2 && WaitChain(w, key, chain) && chain[0] == chain[|chain| - 1]
  }

  /** While players in flight with one key stand together in the order, waits never close a cycle. */
  lemma NoWaitCycle(run: Run, key: LockKey, chain: seq<nat>)
    requires TogetherInFlight(After(run, key), key)
    ensures !WaitCycle(After(run, key), key, chain)
  {
    var w := After(run, key);
    RunKeeps(run, key);
    forall i, j, k | WaitsFor(w, key, i, j) && WaitsFor(w, key, j, k) ensures Below(key, Wanted(w, i), Wanted(w, j)) {
      WaitRises(w, key, i, j, k);
    }
    if WaitCycle(w, key, chain) {
      assert Link(w, key, chain, 0);
      ChainRises(w, key, chain, chain[1]);
      assert false;
    }
  }

  /** A transaction that is not waiting for a lock can move, unless its ticket id is being inserted by another. */
  lemma FreeTxMoves(w: World, key: LockKey, i: nat) returns (step: Step)
    requires Inv(w, key) && i in w.flight && !WantsLock(w.flight[i])
    requires w.flight[i].inserted || !IdPending(w, i, w.flight[i].ticketId)
    ensures step in {End(i), Check(i), Insert(i)} && Apply(w, step, key) != w
  {
    var tx := w.flight[i];
    step := if tx.inserted then End(i) else if tx.passed < tx.locked then Check(i) else Insert(i);
    var after := Apply(w, step, key).flight;
    assert i !in after || after[i] != tx;
  }

  /** Everybody wants a lock: whoever is stopped wants an earlier player than the one who stops him. */
  lemma BlockedIsBelow(w: World, key: LockKey, i: nat)
    requires Inv(w, key) && TogetherInFlight(w, key) && i in w.flight
    requires forall j :: j in w.flight ==> WantsLock(w.flight[j])
    requires forall j :: j in w.flight ==> !Free(w, j, key, key(Wanted(w, j)))
    ensures exists j :: j in w.flight && StringLess(Wanted(w, i), Wanted(w, j))
  {
    var j :| j in w.flight && j != i && Holds(w.flight[j], key, key(Wanted(w, i)));
    assert !Free(w, j, key, key(Wanted(w, j)));
    var k :| k in w.flight && k != j && Holds(w.flight[k], key, key(Wanted(w, j)));
    WaitRises(w, key, i, j, k);
  }

  function WantedBy(w: World): map<nat, string>
    requires forall j :: j in w.flight ==> WantsLock(w.flight[j])
  {
    map j | j in w.flight :: Wanted(w, j)
  }

  /** Then the one who wants the last player waits for nobody, or else nobody is stopped. */
  lemma LastWaiterMoves(w: World, key: LockKey) returns (i: nat)
    requires Inv(w, key) && TogetherInFlight(w, key) && w.flight != map[]
    requires forall j :: j in w.flight ==> WantsLock(w.flight[j])
    ensures i in w.flight && Free(w, i, key, key(Wanted(w, i)))
  {
    assert WantedBy(w).Keys == w.flight.Keys;
    i := LastText(WantedBy(w));
    if !Free(w, i, key, key(Wanted(w, i))) {
      if forall j :: j in w.flight ==> !Free(w, j, key, key(Wanted(w, j))) {
        BlockedIsBelow(w, key, i);
        assert false;
      }
      i :| i in w.flight && Free(w, i, key, key(Wanted(w, i)));
    }
  }

  /** MAIN RESULT. Then some creating transaction in flight can also always take its next statement. */
  lemma SomeoneMoves(run: Run, key: LockKey) returns (step: Step)
    requires After(run, key).flight != map[] && TogetherInFlight(After(run, key), key)
    ensures step.Lock? || step.Check? || step.Insert? || step.End?
    ensures Apply(After(run, key), step, key) != After(run, key)
  {
    RunKeeps(run, key);
    var w := After(run, key);
    if i :| i in w.flight && w.flight[i].inserted {
      assert !WantsLock(w.flight[i]);
      step := FreeTxMoves(w, key, i);
    } else if i :| i in w.flight && !WantsLock(w.flight[i]) {
      step := FreeTxMoves(w, key, i);
    } else {
      var i := LastWaiterMoves(w, key);
      step := Lock(i);
      assert Apply(w, step, key).flight[i].locked == w.flight[i].locked + 1;
    }
  }

  // ---------------------------------------------------------------- players that come between

  function Pair(a: string, b: string): Request { Request("g", "e", "m", "b", "r", 1, 2, [a, b], 10) }

  function First(p: string, q: string): Tx { Tx("s", [p, q], 10, 0, 0, 0, false) }

  function Second(q: string, r: string): Tx { Tx("t", [q, r], 10, 0, 0, 0, false) }

  function BegunRun(p: string, q: string, r: string): Run {
    Then(Then(Nil, Begin(1, "s", Pair(p, q), p)), Begin(2, "t", Pair(q, r), q))
  }

  /** Two tickets that share a player; the first transaction locks its first member, and so does the second. */
  function CollidingRun(p: string, q: string, r: string): Run {
    Then(Then(Then(Then(BegunRun(p, q, r), Lock(1)), Check(1)), Lock(2)), Check(2))
  }

  lemma LettersNotBlank()
    ensures forall s: string :: |s| == 1 && 'a' <= s[0] <= 'z' ==> !Roster.Blank(s)
  {
    assert forall c :: 'a' <= c <= 'z' ==> !Roster.IsSpace(c);
  }

  lemma PairIsFine(a: string, b: string)
    requires a != b && !Roster.Blank(a) && !Roster.Blank(b)
    ensures Acceptable(Pair(a, b), a, 0)
  {
    LettersNotBlank();
    assert [a, b][0] == a;
  }

  lemma PairIsSorted(a: string, b: string)
    requires StringLess(a, b)
    ensures Sorted(StringLess, [a, b]) == [a, b]
  {
    StringLessAsymmetric(a, b);
    assert Ordered(StringLess, [a, b]);
    SortedFixed(StringLess, [a, b]);
  }

  lemma BeginAlone(w: World, id: nat, ticketId: string, a: string, b: string, key: LockKey)
    requires StringLess(a, b) && !Roster.Blank(a) && !Roster.Blank(b) && w.now == 0 && id !in w.flight
    ensures Apply(w, Begin(id, ticketId, Pair(a, b), a), key) == Put(w, id, Tx(ticketId, [a, b], 10, 0, 0, 0, false))
  {
    StringLessIrreflexive(a);
    PairIsFine(a, b);
    PairIsSorted(a, b);
  }

  lemma LockAndCheck(w: World, id: nat, key: LockKey)
    requires id in w.flight && WantsLock(w.flight[id]) && w.tickets == map[]
    requires Free(w, id, key, key(Wanted(w, id)))
    ensures var tx := w.flight[id];
            Apply(Apply(w, Lock(id), key), Check(id), key) == Put(w, id, tx.(locked := tx.locked + 1, passed := tx.passed + 1))
  {
    var tx := w.flight[id];
    var w1 := Apply(w, Lock(id), key);
    assert w1.flight[id] == tx.(locked := tx.locked + 1);
    assert !Active(w1.tickets, tx.players[tx.passed], tx.start);
    var tx' := tx.(locked := tx.locked + 1, passed := tx.passed + 1);
    assert w1.flight[id := tx'] == w.flight[id := tx'];
  }

  lemma AfterTwo(run: Run, first: Step, second: Step, key: LockKey)
    ensures After(Then(Then(run, first), second), key) == Apply(Apply(After(run, key), first, key), second, key)
  {}

  /** Names p < q < r such that p and r have one key and q another. */
  predicate Splits(key: LockKey, p: string, q: string, r: string) {
    && !Roster.Blank(p) && !Roster.Blank(q) && !Roster.Blank(r)
    && StringLess(p, q) && StringLess(q, r) && key(p) == key(r) != key(q)
  }

  lemma AfterBegun(p: string, q: string, r: string, key: LockKey)
    requires Splits(key, p, q, r)
    ensures After(BegunRun(p, q, r), key) == Put(Put(EMPTY, 1, First(p, q)), 2, Second(q, r))
  {
    AfterTwo(Nil, Begin(1, "s", Pair(p, q), p), Begin(2, "t", Pair(q, r), q), key);
    BeginAlone(EMPTY, 1, "s", p, q, key);
    BeginAlone(Put(EMPTY, 1, First(p, q)), 2, "t", q, r, key);
  }

  lemma Collide(w: World, p: string, q: string, r: string, key: LockKey)
    requires w == Put(Put(EMPTY, 1, First(p, q)), 2, Second(q, r)) && key(p) != key(q)
    ensures Apply(Apply(Apply(Apply(w, Lock(1), key), Check(1), key), Lock(2), key), Check(2), key)
         == Put(Put(w, 1, First(p, q).(locked := 1, passed := 1)), 2, Second(q, r).(locked := 1, passed := 1))
  {
    LockAndCheck(w, 1, key);
    var w4 := Put(w, 1, First(p, q).(locked := 1, passed := 1));
    assert w4.flight.Keys == {1, 2} && Wanted(w4, 2) == q && w4.flight[1].players[0] == p;
    LockAndCheck(w4, 2, key);
  }

  /** Two transactions for tickets [p, q] and [q, r] end up waiting for each other. */
  lemma SplitDeadlocks(p: string, q: string, r: string, key: LockKey)
    requires Splits(key, p, q, r)
    ensures WaitsFor(After(CollidingRun(p, q, r), key), key, 1, 2) && WaitsFor(After(CollidingRun(p, q, r), key), key, 2, 1)
  {
    var begun := BegunRun(p, q, r);
    AfterBegun(p, q, r, key);
    AfterTwo(begun, Lock(1), Check(1), key);
    AfterTwo(Then(Then(begun, Lock(1)), Check(1)), Lock(2), Check(2), key);
    Collide(After(begun, key), p, q, r, key);
    StuckTogether(After(CollidingRun(p, q, r), key), p, q, r, key);
  }

  lemma StuckTogether(w: World, p: string, q: string, r: string, key: LockKey)
    requires 1 in w.flight && w.flight[1] == First(p, q).(locked := 1, passed := 1)
    requires 2 in w.flight && w.flight[2] == Second(q, r).(locked := 1, passed := 1)
    requires key(p) == key(r)
    ensures WaitsFor(w, key, 1, 2) && WaitsFor(w, key, 2, 1)
  {
    assert w.flight[1].players[0] == p && w.flight[1].players[1] == q;
    assert w.flight[2].players[0] == q && w.flight[2].players[1] == r;
  }

  ghost predicate NeverCycles(key: LockKey) {
    forall run, chain :: !WaitCycle(After(run, key), key, chain)
  }

  lemma NamesInFlight(w: World, key: LockKey)
    requires Inv(w, key) && forall p, q, r :: !Splits(key, p, q, r)
    ensures TogetherInFlight(w, key)
  {
    forall p | Playing(w, p) ensures !Roster.Blank(p) {
      var i :| i in w.flight && p in w.flight[i].players;
      var a :| 0 <= a < |w.flight[i].players| && w.flight[i].players[a] == p;
    }
    forall p, q, r | Playing(w, p) && Playing(w, q) && Playing(w, r) ensures Together(key, p, q, r) {
      assert !Splits(key, p, q, r);
    }
  }

  /** MAIN RESULT. Taking the locks in sorted order excludes every cycle of waits, in every run, exactly when
      names that share a lock key have no name of another key between them. */
  lemma NeverCyclesIff(key: LockKey)
    ensures NeverCycles(key) <==> forall p, q, r :: !Splits(key, p, q, r)
  {
    if p, q, r :| Splits(key, p, q, r) {
      SplitDeadlocks(p, q, r, key);
      var w, chain := After(CollidingRun(p, q, r), key), [1, 2, 1];
      forall k ensures Link(w, key, chain, k) {}
      assert WaitCycle(w, key, chain);
    } else {
      forall run, chain ensures !WaitCycle(After(run, key), key, chain) {
        RunKeeps(run, key);
        NamesInFlight(After(run, key), key);
        NoWaitCycle(run, key, chain);
      }
    }
  }

  // ---------------------------------------------------------------- the store, one transaction at a time

  predicate NoneActive(tickets: map<string, Row>, players: seq<string>, at: int) {
    forall a :: 0 <= a < |players| ==> !Active(tickets, players[a], at)
  }

  lemma SortedNoneActive(tickets: map<string, Row>, players: seq<string>, at: int)
    ensures NoneActive(tickets, Sorted(StringLess, players), at) <==> NoneActive(tickets, players, at)
  {
    var s := Sorted(StringLess, players);
    SortedMembers(StringLess, players);
    forall a | 0 <= a < |s| ensures exists i :: 0 <= i < |players| && players[i] == s[a] { assert s[a] in players; }
    forall i | 0 <= i < |players| ensures exists a :: 0 <= a < |s| && s[a] == players[i] { assert players[i] in s; }
  }

  /** A ticket of players without an active one. */
  lemma QueueOneMore(tickets: map<string, Row>, now: int, ticketId: string, players: seq<string>, expires: int)
    requires ticketId !in tickets && NoneActive(tickets, players, now)
    ensures OneActive(tickets, now) ==> OneActive(tickets[ticketId := Row(players, Queued, expires)], now)
  {
    var after := tickets[ticketId := Row(players, Queued, expires)];
    forall s, t, p | OneActive(tickets, now) && InQueue(after, s, p) && InQueue(after, t, p) && s != t
      ensures after[s].expires <= now || after[t].expires <= now
    {
      assert s != ticketId ==> InQueue(tickets, s, p);
      assert t != ticketId ==> InQueue(tickets, t, p);
      assert s == ticketId || t == ticketId ==> !Active(tickets, p, now);
    }
  }

  class TicketStore {
    var tickets: map<string, Row>
    var now: int

    constructor ()
      ensures tickets == map[] && now == 0
    {
      tickets, now := map[], 0;
    }

    /** Refuses a bad request, a used id, or a member with an active ticket; otherwise queues the ticket. */
    method Create(ticketId: string, r: Request, actor: string) returns (ok: bool)
      modifies this`tickets
      ensures ok == (Acceptable(r, actor, now) && ticketId !in old(tickets) && NoneActive(old(tickets), r.players, now))
      ensures tickets == if ok then old(tickets)[ticketId := Row(Sorted(StringLess, r.players), Queued, r.expires)] else old(tickets)
      ensures OneActive(old(tickets), now) ==> OneActive(tickets, now)
    {
      ok := Validate(r, actor, now);
      if !ok { return; }
      var players := Roster.SortedCopy(r.players);
      SortedNoneActive(tickets, r.players, now);
      var k := 0;
      while k < |players|
        invariant 0 <= k <= |players| && forall a :: 0 <= a < k ==> !Active(tickets, players[a], now)
      {
        if Active(tickets, players[k], now) { return false; }
        k := k + 1;
      }
      if ticketId in tickets { return false; }
      QueueOneMore(tickets, now, ticketId, players, r.expires);
      tickets := tickets[ticketId := Row(players, Queued, r.expires)];
    }

    /** Only a member may cancel, and only while the ticket is queued. */
    method Cancel(ticketId: string, actor: string) returns (ok: bool)
      modifies this`tickets
      ensures ok == (ticketId in old(tickets) && old(tickets)[ticketId].status.Queued? && actor in old(tickets)[ticketId].players)
      ensures tickets == if ok then old(tickets)[ticketId := old(tickets)[ticketId].(status := Cancelled)] else old(tickets)
    {
      if ticketId !in tickets || !tickets[ticketId].status.Queued? || actor !in tickets[ticketId].players { return false; }
      tickets := tickets[ticketId := tickets[ticketId].(status := Cancelled)];
      ok := true;
    }
  }
}
