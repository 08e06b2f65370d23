/** One matchmaking worker as a program over the ticket and match tables, each statement and the whole of
one pass proved to be what `MatchWorker` specifies. */
module WorkerService {
  import opened Matcher
  import opened MatchWorker
  import opened Ordering
  import M = Matches
  import Roster

  /** What the outside world answers during one pass: whether ids, selector and token could be made, whether
      a server was allocated, and whether the two match statements went through. */
  datatype Answers = Answers(matchId: string, prepared: bool, gotServer: bool, stored: bool, marked: bool)

  /** The last three statements on the match and its tickets. */
  function Marking(w: World, worker: nat, a: Answers): World {
    var w' := MarkStep(w, worker, Phases(w, worker), a.marked);
    FinishStep(w', worker, Phases(w', worker))
  }

  function Storing(w: World, worker: nat, a: Answers, c: Config): World {
    Marking(StoreStep(w, worker, Phases(w, worker), a.stored, c.policy.teamSize), worker, a)
  }

  function Allocating(w: World, worker: nat, a: Answers, c: Config): World {
    Storing(AllocateStep(w, worker, Phases(w, worker), a.matchId, a.gotServer, Limit(c.maxAttempts)), worker, a, c)
  }

  /** One pass from a claimed batch on, as a sequence of the protocol's steps. */
  function Served(w: World, worker: nat, a: Answers, c: Config): World {
    Allocating(if a.prepared then w else RequeueStep(w, worker, Phases(w, worker)), worker, a, c)
  }

  /** One pass from a picked batch on. */
  function Passed(w: World, worker: nat, a: Answers, c: Config): World
    requires worker in w.workers
  {
    var w1 := ClaimStep(w, worker, w.workers[worker]);
    if w1.workers[worker].Holding? then Served(w1, worker, a, c) else w1
  }

  function View(tickets: map<string, Row>, matches: map<string, Match>, now: int, p: Phase): World {
    World(tickets, matches, map[0 := p], now)
  }

  /** Created first, ties by id. */
  predicate Older(a: Row, b: Row) {
    a.created < b.created || (a.created == b.created && StringLess(a.ticket.id, b.ticket.id))
  }

  ghost predicate InCreationOrder(w: World, snapshot: seq<Ticket>)
    requires Snapshot(w, snapshot)
  {
    forall i, j :: 0 <= i < j < |snapshot| ==> Older(w.tickets[snapshot[i].id], w.tickets[snapshot[j].id])
  }

  /** The oldest tickets of the unexpired queue in order of creation, as many as `limit` allows. */
  ghost predicate IsQueue(w: World, snapshot: seq<Ticket>, limit: int) {
    && Snapshot(w, snapshot) && InCreationOrder(w, snapshot) && |snapshot| <= limit
    && (|snapshot| < limit ==> forall id :: Claimable(w, id) ==> w.tickets[id].ticket in snapshot)
    && forall id, k :: Claimable(w, id) && w.tickets[id].ticket !in snapshot && 0 <= k < |snapshot| ==> Older(w.tickets[snapshot[k].id], w.tickets[id])
  }

  predicate Waits(w: World, id: string) { id in w.tickets && w.tickets[id].status == Queued && w.tickets[id].expires > w.now }

  /** Told by creation times: the queue holds waiting tickets, no later one before an earlier one, and a waiting
      ticket it leaves out is there only when the queue is full, and is not older than any in it. */
  lemma QueueIsOldest(w: World, snapshot: seq<Ticket>, limit: int)
    requires IsQueue(w, snapshot, limit)
    ensures |snapshot| <= limit && forall k :: 0 <= k < |snapshot| ==> Waits(w, snapshot[k].id) && w.tickets[snapshot[k].id].ticket == snapshot[k]
    ensures forall i, j :: 0 <= i < j < |snapshot| ==>
              var (a, b) := (w.tickets[snapshot[i].id].created, w.tickets[snapshot[j].id].created);
              a < b || (a == b && StringLess(w.tickets[snapshot[i].id].ticket.id, w.tickets[snapshot[j].id].ticket.id))
    ensures forall id :: Waits(w, id) && w.tickets[id].ticket !in snapshot ==>
              |snapshot| == limit && forall k :: 0 <= k < |snapshot| ==> w.tickets[snapshot[k].id].created <= w.tickets[id].created
  {
    assert forall id :: Waits(w, id) ==> Claimable(w, id);
    forall k | 0 <= k < |snapshot| ensures Waits(w, snapshot[k].id) { assert Claimable(w, snapshot[k].id); }
  }

  function TicketsOf(rows: seq<Row>): (r: seq<Ticket>)
    ensures |r| == |rows| && forall k :: 0 <= k < |rows| ==> r[k] == rows[k].ticket
  {
    seq(|rows|, k requires 0 <= k < |rows| => rows[k].ticket)
  }

  /** Rows of the unexpired queue, each once. */
  ghost predicate QueueRows(w: World, rows: seq<Row>) {
    && (forall k :: 0 <= k < |rows| ==> Claimable(w, rows[k].ticket.id) && w.tickets[rows[k].ticket.id] == rows[k])
    && forall i, j :: 0 <= i < j < |rows| ==> rows[i].ticket.id != rows[j].ticket.id
  }

  ghost predicate AllRows(w: World, rows: seq<Row>) {
    QueueRows(w, rows) && forall id :: Claimable(w, id) ==> w.tickets[id] in rows
  }

  predicate Hit(tickets: map<string, Row>, ids: set<string>, guard: Row -> bool, id: string) {
    id in tickets && id in ids && guard(tickets[id])
  }

  function HitIds(tickets: map<string, Row>, ids: set<string>, guard: Row -> bool): set<string> {
    set id | id in tickets && Hit(tickets, ids, guard, id)
  }

  predicate Held(r: Row) { r.status.Matching? }

  lemma IdsOfBatch(batch: seq<Ticket>)
    ensures forall id :: id in IdsOf(batch) <==> InBatch(batch, id)
  {}

  /** Every ticket is hit exactly when the count says so. */
  lemma AllHitIff(tickets: map<string, Row>, batch: seq<Ticket>, guard: Row -> bool)
    requires DistinctIds(batch)
    ensures |HitIds(tickets, IdsOf(batch), guard)| == |batch| <==>
              forall k :: 0 <= k < |batch| ==> batch[k].id in tickets && guard(tickets[batch[k].id])
  {
    IdsCount(batch);
    var hit, ids := HitIds(tickets, IdsOf(batch), guard), IdsOf(batch);
    assert hit <= ids;
    if forall k :: 0 <= k < |batch| ==> batch[k].id in tickets && guard(tickets[batch[k].id]) {
      assert hit == ids;
    }
    if |hit| == |batch| {
      SameSizeSubset(hit, ids);
      forall k | 0 <= k < |batch| ensures batch[k].id in tickets && guard(tickets[batch[k].id]) {
        assert batch[k].id in ids;
      }
    }
  }

  lemma SameSizeSubset(a: set<string>, b: set<string>)
    requires a <= b && |a| == |b|
    ensures a == b
  {
    assert b == a + (b - a);
  }

  /** A worker that gave up does nothing more. */
  lemma NothingMore(w: World, worker: nat, a: Answers, c: Config)
    requires Phases(w, worker) == Idle
    ensures Marking(w, worker, a) == w && Storing(w, worker, a, c) == w && Allocating(w, worker, a, c) == w
  {
    assert Marking(w, worker, a) == w;
    assert Storing(w, worker, a, c) == w;
  }

  function PutBack(w: World, worker: nat, batch: seq<Ticket>): World {
    With(w, worker, Idle).(tickets := RequeueRows(w.tickets, batch))
  }

  lemma ServedUnprepared(w: World, worker: nat, batch: seq<Ticket>, a: Answers, c: Config)
    requires Phases(w, worker) == Holding(batch) && !a.prepared
    ensures Served(w, worker, a, c) == PutBack(w, worker, batch)
  {
    NothingMore(PutBack(w, worker, batch), worker, a, c);
  }

  lemma ServedNoServer(w: World, worker: nat, batch: seq<Ticket>, a: Answers, c: Config)
    requires Phases(w, worker) == Holding(batch) && a.prepared && !a.gotServer
    ensures Served(w, worker, a, c) == With(w, worker, Idle).(tickets := FailRows(w.tickets, batch, Limit(c.maxAttempts)))
  {
    NothingMore(With(w, worker, Idle).(tickets := FailRows(w.tickets, batch, Limit(c.maxAttempts))), worker, a, c);
  }

  /** The match can be created. */
  predicate Creatable(matches: map<string, Match>, batch: seq<Ticket>, a: Answers, c: Config) {
    var roster := Roster.RosterOf(batch, c.policy.teamSize);
    a.stored && a.matchId !in matches && roster != [] && M.Insertable(roster)
  }

  lemma ServedUnstored(w: World, worker: nat, batch: seq<Ticket>, a: Answers, c: Config)
    requires Phases(w, worker) == Holding(batch) && a.prepared && a.gotServer && !Creatable(w.matches, batch, a, c)
    ensures Served(w, worker, a, c).tickets == RequeueRows(w.tickets, batch) && Served(w, worker, a, c).matches == w.matches
  {
    var w1 := With(w, worker, Allocated(batch, a.matchId));
    var w2 := PutBack(w1, worker, batch);
    assert StoreStep(w1, worker, Phases(w1, worker), a.stored, c.policy.teamSize) == w2;
    NothingMore(w2, worker, a, c);
  }

  function Created(matches: map<string, Match>, batch: seq<Ticket>, a: Answers, c: Config): map<string, Match> {
    matches[a.matchId := Match(M.Status(M.Matched, 1), Roster.RosterOf(batch, c.policy.teamSize))]
  }

  lemma ServedStored(w: World, worker: nat, batch: seq<Ticket>, a: Answers, c: Config) returns (w2: World)
    requires Phases(w, worker) == Holding(batch) && a.prepared && a.gotServer && Creatable(w.matches, batch, a, c)
    ensures w2.tickets == w.tickets && w2.matches == Created(w.matches, batch, a, c) && Phases(w2, worker) == Stored(batch, a.matchId)
    ensures Served(w, worker, a, c) == Marking(w2, worker, a)
  {
    var w1 := With(w, worker, Allocated(batch, a.matchId));
    w2 := With(w1, worker, Stored(batch, a.matchId)).(matches := Created(w.matches, batch, a, c));
    assert StoreStep(w1, worker, Phases(w1, worker), a.stored, c.policy.teamSize) == w2;
  }

  lemma ServedUnmarked(w: World, worker: nat, batch: seq<Ticket>, a: Answers, c: Config)
    requires Phases(w, worker) == Holding(batch) && a.prepared && a.gotServer && Creatable(w.matches, batch, a, c) && !a.marked
    ensures Served(w, worker, a, c).tickets == RequeueRows(w.tickets, batch)
    ensures Served(w, worker, a, c).matches == Created(w.matches, batch, a, c)
  {
    var w2 := ServedStored(w, worker, batch, a, c);
    NothingMore(PutBack(w2, worker, batch), worker, a, c);
  }

  lemma ServedMarked(w: World, worker: nat, batch: seq<Ticket>, a: Answers, c: Config)
    requires Phases(w, worker) == Holding(batch) && a.prepared && a.gotServer && Creatable(w.matches, batch, a, c) && a.marked
    ensures Served(w, worker, a, c).tickets == TakeRows(w.tickets, batch, a.matchId)
    ensures Served(w, worker, a, c).matches == Wrote(Created(w.matches, batch, a, c), a.matchId, M.MarkAllocating)
  {
    var w2 := ServedStored(w, worker, batch, a, c);
    var created := Created(w.matches, batch, a, c);
    var w3 := With(w2, worker, Marked(batch, a.matchId)).(matches := Wrote(created, a.matchId, M.MarkAllocating));
    assert M.Enabled(created[a.matchId].status, M.MarkAllocating);
    assert MarkStep(w2, worker, Phases(w2, worker), a.marked) == w3;
  }

  lemma PassedUnclaimed(w: World, worker: nat, batch: seq<Ticket>, a: Answers, c: Config)
    requires worker in w.workers && w.workers[worker] == Picked(batch) && !AllClaimable(w, batch)
    ensures Passed(w, worker, a, c).tickets == w.tickets && Passed(w, worker, a, c).matches == w.matches
  {}

  lemma PassedClaimed(tickets: map<string, Row>, matches: map<string, Match>, now: int, batch: seq<Ticket>, a: Answers, c: Config)
    requires AllClaimable(View(tickets, matches, now, Idle), batch)
    ensures Passed(View(tickets, matches, now, Picked(batch)), 0, a, c)
         == Served(View(ClaimRows(tickets, batch), matches, now, Holding(batch)), 0, a, c)
  {
    var before := View(tickets, matches, now, Picked(batch));
    assert AllClaimable(before, batch);
    var claimed := With(before, 0, Holding(batch)).(tickets := ClaimRows(tickets, batch));
    assert claimed.workers == map[0 := Holding(batch)];
    assert ClaimStep(before, 0, Picked(batch)) == claimed;
  }

  class Worker {
    const config: Config
    const batchSize: int
    var tickets: map<string, Row>
    var matches: map<string, Match>
    var now: int

    constructor (config: Config, batchSize: int, w: World)
      ensures this.config == config && this.batchSize == batchSize
      ensures tickets == w.tickets && matches == w.matches && now == w.now
    {
      this.config, this.batchSize, tickets, matches, now := config, batchSize, w.tickets, w.matches, w.now;
    }

    /** All claimable rows, in no particular order. */
    method Collect() returns (found: seq<Row>)
      requires forall id :: id in tickets ==> tickets[id].ticket.id == id
      ensures AllRows(View(tickets, matches, now, Idle), found)
    {
      found := [];
      var todo := tickets.Keys;
      while todo != {}
        invariant todo <= tickets.Keys && QueueRows(View(tickets, matches, now, Idle), found)
        invariant forall k :: 0 <= k < |found| ==> found[k].ticket.id !in todo
        invariant forall id :: Claimable(View(tickets, matches, now, Idle), id) && id !in todo ==> tickets[id] in found
        decreases todo
      {
        var id :| id in todo;
        todo := todo - {id};
        if tickets[id].status.Queued? && tickets[id].expires > now {
          found := found + [tickets[id]];
        }
      }
    }

    method ReadQueue() returns (snapshot: seq<Ticket>)
      requires forall id :: id in tickets ==> tickets[id].ticket.id == id
      ensures IsQueue(View(tickets, matches, now, Idle), snapshot, if batchSize < 1 then 100 else batchSize)
    {
      var limit := if batchSize < 1 then 100 else batchSize;
      var found := Collect();
      var copy := new Row[|found|](i requires 0 <= i < |found| => found[i]);
      assert copy[..] == found;
      SortInPlace(Older, copy);
      var rows := copy[..];
      SortedRows(View(tickets, matches, now, Idle), found, rows);
      var size := if |rows| > limit then limit else |rows|;
      CutQueue(View(tickets, matches, now, Idle), rows, size, limit);
      snapshot := TicketsOf(rows[..size]);
    }

    /** UPDATE ... WHERE ticket_id = ANY(ids) AND guard: rewrites the rows it hits and counts them. */
    method Update(ids: set<string>, guard: Row -> bool, change: Row -> Row) returns (hits: nat)
      modifies this`tickets
      ensures tickets.Keys == old(tickets).Keys
      ensures forall id :: id in tickets ==>
                tickets[id] == if Hit(old(tickets), ids, guard, id) then change(old(tickets)[id]) else old(tickets)[id]
      ensures hits == |HitIds(old(tickets), ids, guard)|
    {
      var saved := tickets;
      var hit := HitIds(saved, ids, guard);
      hits := |hit|;
      var todo := hit;
      while todo != {}
        invariant todo <= hit && tickets.Keys == saved.Keys
        invariant forall id :: id in saved ==> tickets[id] == if id in hit && id !in todo then change(saved[id]) else saved[id]
        decreases todo
      {
        var id :| id in todo;
        tickets := tickets[id := change(saved[id])];
        todo := todo - {id};
      }
    }

    /** The claim is kept only when the number of rows hit is the size of the batch. */
    method Claim(batch: seq<Ticket>) returns (ok: bool)
      requires DistinctIds(batch)
      modifies this`tickets
      ensures ok == AllClaimable(View(old(tickets), matches, now, Idle), batch)
      ensures tickets == if ok then ClaimRows(old(tickets), batch) else old(tickets)
    {
      var saved := tickets;
      var time := now;
      var free := (r: Row) => r.status.Queued? && r.expires > time;
      var hits := Update(IdsOf(batch), free, (r: Row) => r.(status := Matching));
      AllHitIff(saved, batch, free);
      IdsOfBatch(batch);
      if hits != |batch| {
        tickets := saved; // rollback
        return false;
      }
      assert forall id :: InBatch(batch, id) ==> Hit(saved, IdsOf(batch), free, id);
      ok := true;
    }

    method Requeue(batch: seq<Ticket>)
      modifies this`tickets
      ensures tickets == RequeueRows(old(tickets), batch)
    {
      IdsOfBatch(batch);
      var _ := Update(IdsOf(batch), Held, (r: Row) => r.(status := Queued));
    }

    method RecordAllocationFailure(batch: seq<Ticket>)
      modifies this`tickets
      ensures tickets == FailRows(old(tickets), batch, Limit(config.maxAttempts))
    {
      var limit := if config.maxAttempts < 1 then 3 else config.maxAttempts;
      IdsOfBatch(batch);
      var _ := Update(IdsOf(batch), Held, (r: Row) => r.(attempts := r.attempts + 1, status := if r.attempts + 1 >= limit then Expired else Queued));
    }

    /** Everything after the claim. The batch is matched exactly when all answers are good and the match can
        be stored; otherwise its tickets are put back or charged with a failed allocation. */
    method Serve(batch: seq<Ticket>, a: Answers) returns (matched: bool)
      requires DistinctIds(batch) && AllMatching(tickets, batch)
      modifies this`tickets, this`matches
      ensures var w := Served(View(old(tickets), old(matches), now, Holding(batch)), 0, a, config);
              tickets == w.tickets && matches == w.matches
      ensures matched == (a.prepared && a.gotServer && Creatable(old(matches), batch, a, config) && a.marked)
    {
      ghost var before := View(tickets, matches, now, Holding(batch));
      if !a.prepared {
        ServedUnprepared(before, 0, batch, a, config);
        Requeue(batch);
        return false;
      }
      if !a.gotServer {
        ServedNoServer(before, 0, batch, a, config);
        RecordAllocationFailure(batch);
        return false;
      }
      var roster := Roster.BuildRoster(batch, config.policy.teamSize);
      if !a.stored || a.matchId in matches || roster == [] || !M.Insertable(roster) {
        ServedUnstored(before, 0, batch, a, config);
        Requeue(batch);
        return false;
      }
      matches := matches[a.matchId := Match(M.Status(M.Matched, 1), roster)];
      matched := MarkAndFinish(batch, a);
      if a.marked { ServedMarked(before, 0, batch, a, config); } else { ServedUnmarked(before, 0, batch, a, config); }
    }

    method MarkAndFinish(batch: seq<Ticket>, a: Answers) returns (matched: bool)
      requires DistinctIds(batch) && AllMatching(tickets, batch)
      requires a.matchId in matches && M.Enabled(matches[a.matchId].status, M.MarkAllocating)
      modifies this`tickets, this`matches
      ensures matched == a.marked
      ensures tickets == if a.marked then TakeRows(old(tickets), batch, a.matchId) else RequeueRows(old(tickets), batch)
      ensures matches == if a.marked then Wrote(old(matches), a.matchId, M.MarkAllocating) else old(matches)
    {
      if !a.marked {
        Requeue(batch);
        return false;
      }
      matches := Wrote(matches, a.matchId, M.MarkAllocating);
      AllRowsHit(tickets, batch);
      IdsOfBatch(batch);
      assert HitIds(tickets, IdsOf(batch), Held) == TouchedIds(tickets, batch);
      var id := a.matchId;
      var hits := Update(IdsOf(batch), Held, (r: Row) => r.(status := Taken, matchId := id));
      matched := hits == |batch|;
    }

    /** One pass: the queue is read, the matcher picks a batch, and the rest follows the protocol. */
    method RunOnce(a: Answers) returns (matched: bool, ghost batch: seq<Ticket>)
      requires forall id :: id in tickets ==> tickets[id].ticket.id == id
      modifies this`tickets, this`matches
      ensures exists snapshot :: IsQueue(View(old(tickets), old(matches), now, Idle), snapshot, if batchSize < 1 then 100 else batchSize)
                                 && IsBatch(snapshot, config.policy, batch)
      ensures if batch == [] then !matched && tickets == old(tickets) && matches == old(matches)
              else var w := Passed(View(old(tickets), old(matches), now, Picked(batch)), 0, a, config);
                   tickets == w.tickets && matches == w.matches
      ensures matched == (batch != [] && a.prepared && a.gotServer && Creatable(old(matches), batch, a, config) && a.marked)
    {
      var snapshot := ReadQueue();
      var picked := Matcher.Batch(snapshot, config.policy);
      batch := picked;
      if picked == [] { return false, picked; }
      BatchMembers(snapshot, config.policy, picked);
      BatchIsClaimable(View(tickets, matches, now, Idle), snapshot, picked);
      matched := ClaimAndServe(picked, a);
    }

    method ClaimAndServe(batch: seq<Ticket>, a: Answers) returns (matched: bool)
      requires DistinctIds(batch)
      modifies this`tickets, this`matches
      ensures var w := Passed(View(old(tickets), old(matches), now, Picked(batch)), 0, a, config);
              tickets == w.tickets && matches == w.matches
      ensures matched == (AllClaimable(View(old(tickets), old(matches), now, Idle), batch)
                          && a.prepared && a.gotServer && Creatable(old(matches), batch, a, config) && a.marked)
    {
      ghost var before := View(tickets, matches, now, Idle);
      var claimed := Claim(batch);
      if !claimed {
        PassedUnclaimed(View(tickets, matches, now, Picked(batch)), 0, batch, a, config);
        return false;
      }
      PassedClaimed(before.tickets, matches, now, batch, a, config);
      ClaimedAreMatching(before, batch);
      matched := Serve(batch, a);
    }
  }

  lemma BatchIsClaimable(w: World, snapshot: seq<Ticket>, batch: seq<Ticket>)
    requires Snapshot(w, snapshot) && forall t :: t in batch ==> t in snapshot
    ensures AllClaimable(w, batch)
  {
    forall k | 0 <= k < |batch| ensures Claimable(w, batch[k].id) {
      assert batch[k] in batch;
      var i :| 0 <= i < |snapshot| && snapshot[i] == batch[k];
    }
  }

  lemma ClaimedAreMatching(w: World, batch: seq<Ticket>)
    requires AllClaimable(w, batch)
    ensures AllMatching(ClaimRows(w.tickets, batch), batch)
  {
    forall k | 0 <= k < |batch| ensures batch[k].id in w.tickets && InBatch(batch, batch[k].id) {
      assert Claimable(w, batch[k].id);
    }
  }

  lemma OlderIsWeak()
    ensures WeakOrder(Older)
  {
    StringOrderIsWeak();
  }

  lemma SortedRows(w: World, found: seq<Row>, rows: seq<Row>)
    requires AllRows(w, found) && rows == Sorted(Older, found)
    ensures AllRows(w, rows) && Ordered(Older, rows)
  {
    SortedPermutes(Older, found);
    OlderIsWeak();
    SortedOrdered(Older, found);
    SortedMembers(Older, found);
    assert Distinct(found);
    forall k | 0 <= k < |rows| ensures Claimable(w, rows[k].ticket.id) && w.tickets[rows[k].ticket.id] == rows[k] {
      assert rows[k] in rows;
      var i :| 0 <= i < |found| && found[i] == rows[k];
    }
  }

  lemma CutQueue(w: World, rows: seq<Row>, size: nat, limit: nat)
    requires AllRows(w, rows) && Ordered(Older, rows) && size <= |rows| && size <= limit && (size < limit ==> size == |rows|)
    ensures IsQueue(w, TicketsOf(rows[..size]), limit)
  {
    var snapshot := TicketsOf(rows[..size]);
    forall i, j | 0 <= i < j < |rows| ensures Older(rows[i], rows[j]) {
      StringLessTotal(rows[i].ticket.id, rows[j].ticket.id);
    }
    assert forall k :: 0 <= k < size ==> snapshot[k] == rows[k].ticket && rows[k].ticket in snapshot;
    forall id | Claimable(w, id) && w.tickets[id].ticket !in snapshot
      ensures exists i :: size <= i < |rows| && rows[i] == w.tickets[id]
    {
      var i :| 0 <= i < |rows| && rows[i] == w.tickets[id];
    }
  }
}
