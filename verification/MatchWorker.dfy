/** The matchmaking workers: any number of them read the queue, claim a batch all or nothing, allocate a
server outside any transaction, store the match and finally mark their tickets, each of them failing or
crashing anywhere. */
module MatchWorker {
  import opened Matcher
  import MatcherCliques
  import M = Matches
  import Roster

  datatype TicketStatus = Queued | Matching | Taken | Expired | Cancelled

  /** A ticket row; `matchId` is empty until the ticket is matched. Times are in microseconds. */
  datatype Row = Row(ticket: Ticket, status: TicketStatus, attempts: int, expires: int, matchId: string, created: int)

  /** A time cast to whole seconds, halves away from zero: what the matcher gets to see of `created`. */
  function Seconds(time: int): int {
    if time >= 0 then (time + 500_000) / 1_000_000 else -((500_000 - time) / 1_000_000)
  }

  datatype Match = Match(status: M.Status, roster: seq<Roster.Member>)

  /** Where a worker stands. From `Holding` on its batch is claimed; from `Stored` on its match exists. */
  datatype Phase = Idle | Picked(batch: seq<Ticket>) | Holding(batch: seq<Ticket>) | Allocated(batch: seq<Ticket>, matchId: string)
                 | Stored(batch: seq<Ticket>, matchId: string) | Marked(batch: seq<Ticket>, matchId: string)

  datatype World = World(tickets: map<string, Row>, matches: map<string, Match>, workers: map<nat, Phase>, now: int)

  const EMPTY := World(map[], map[], map[], 0)

  /** The attempts at which a ticket expires. */
  function Limit(maxAttempts: int): int { if maxAttempts < 1 then 3 else maxAttempts }

  datatype Config = Config(policy: Policy, maxAttempts: int)

  predicate Claimed(p: Phase) { !p.Idle? && !p.Picked? }

  predicate InBatch(batch: seq<Ticket>, id: string) {
    exists k :: 0 <= k < |batch| && batch[k].id == id
  }

  /** The tickets a worker holds. */
  predicate Holds(p: Phase, id: string) { Claimed(p) && InBatch(p.batch, id) }

  // ---------------------------------------------------------------- the statements on tickets

  predicate Claimable(w: World, id: string) {
    id in w.tickets && w.tickets[id].status.Queued? && w.tickets[id].expires > w.now
  }

  predicate AllClaimable(w: World, batch: seq<Ticket>) {
    forall k :: 0 <= k < |batch| ==> Claimable(w, batch[k].id)
  }

  /** Touched by an UPDATE ... WHERE ticket_id = ANY(ids) AND status = 'matching'. */
  predicate Touched(tickets: map<string, Row>, batch: seq<Ticket>, id: string) {
    id in tickets && InBatch(batch, id) && tickets[id].status.Matching?
  }

  function ClaimRows(tickets: map<string, Row>, batch: seq<Ticket>): map<string, Row> {
    map id | id in tickets :: if InBatch(batch, id) then tickets[id].(status := Matching) else tickets[id]
  }

  function RequeueRows(tickets: map<string, Row>, batch: seq<Ticket>): map<string, Row> {
    map id | id in tickets :: if Touched(tickets, batch, id) then tickets[id].(status := Queued) else tickets[id]
  }

  function FailedRow(r: Row, limit: int): Row {
    r.(attempts := r.attempts + 1, status := if r.attempts + 1 >= limit then Expired else Queued)
  }

  function FailRows(tickets: map<string, Row>, batch: seq<Ticket>, limit: int): map<string, Row> {
    map id | id in tickets :: if Touched(tickets, batch, id) then FailedRow(tickets[id], limit) else tickets[id]
  }

  function TakeRows(tickets: map<string, Row>, batch: seq<Ticket>, matchId: string): map<string, Row> {
    map id | id in tickets :: if Touched(tickets, batch, id) then tickets[id].(status := Taken, matchId := matchId) else tickets[id]
  }

  function ExpireRows(tickets: map<string, Row>, matchId: string): map<string, Row> {
    map id | id in tickets ::
      if tickets[id].status.Taken? && tickets[id].matchId == matchId then tickets[id].(status := Expired) else tickets[id]
  }

  // ---------------------------------------------------------------- steps

  /** `Pick` reads the queue into `snapshot` and runs the matcher; the members of a ticket never change. A worker
      abandons its batch when it crashes, and also when the update that would put the tickets back, or the
      final one, fails: its error is not looked at, or ends the pass. */
  datatype Step = Tick(later: int) | Submit(ticket: Ticket, expires: int, created: int) | Cancel(id: string) | Hire(worker: nat)
                | Pick(worker: nat, snapshot: seq<Ticket>, batch: seq<Ticket>) | Claim(worker: nat) | Requeue(worker: nat)
                | Allocate(worker: nat, matchId: string, ok: bool) | Store(worker: nat, ok: bool) | Mark(worker: nat, ok: bool)
                | Finish(worker: nat) | Abandon(worker: nat) | Recover(matchId: string, writer: M.Writer) | Play(matchId: string, writer: M.Writer)

  ghost predicate Snapshot(w: World, snapshot: seq<Ticket>) {
    && DistinctIds(snapshot)
    && forall k :: 0 <= k < |snapshot| ==> Claimable(w, snapshot[k].id) && w.tickets[snapshot[k].id].ticket == snapshot[k]
  }

  function With(w: World, worker: nat, p: Phase): World { w.(workers := w.workers[worker := p]) }

  function Phases(w: World, worker: nat): Phase { if worker in w.workers then w.workers[worker] else Idle }

  /** BEGIN; UPDATE to matching; COMMIT only if every ticket of the batch was hit. */
  function ClaimStep(w: World, worker: nat, p: Phase): World {
    if !p.Picked? then w
    else if AllClaimable(w, p.batch) then With(w, worker, Holding(p.batch)).(tickets := ClaimRows(w.tickets, p.batch))
    else With(w, worker, Idle)
  }

  /** Anything that fails between claim and allocation puts the tickets back. */
  function RequeueStep(w: World, worker: nat, p: Phase): World {
    if !p.Holding? then w else With(w, worker, Idle).(tickets := RequeueRows(w.tickets, p.batch))
  }

  function AllocateStep(w: World, worker: nat, p: Phase, matchId: string, ok: bool, limit: int): World {
    if !p.Holding? then w
    else if ok then With(w, worker, Allocated(p.batch, matchId))
    else With(w, worker, Idle).(tickets := FailRows(w.tickets, p.batch, limit))
  }

  /** Creating the match fails on a used match id, on a roster its table refuses, or for any other reason. */
  function StoreStep(w: World, worker: nat, p: Phase, ok: bool, teamSize: int): World {
    if !p.Allocated? then w
    else
      var roster := Roster.RosterOf(p.batch, teamSize);
      if ok && p.matchId !in w.matches && roster != [] && M.Insertable(roster)
      then With(w, worker, Stored(p.batch, p.matchId)).(matches := w.matches[p.matchId := Match(M.Status(M.Matched, 1), roster)])
      else With(w, worker, Idle).(tickets := RequeueRows(w.tickets, p.batch))
  }

  function MarkStep(w: World, worker: nat, p: Phase, ok: bool): World {
    if !p.Stored? then w
    else if ok && p.matchId in w.matches && M.Enabled(w.matches[p.matchId].status, M.MarkAllocating)
    then With(w, worker, Marked(p.batch, p.matchId)).(matches := Wrote(w.matches, p.matchId, M.MarkAllocating))
    else With(w, worker, Idle).(tickets := RequeueRows(w.tickets, p.batch))
  }

  function Wrote(matches: map<string, Match>, id: string, writer: M.Writer): map<string, Match>
    requires id in matches
  {
    matches[id := matches[id].(status := M.Written(matches[id].status, writer))]
  }

  /** The final update; the worker compares the number of rows it hit with the size of its batch. */
  function FinishStep(w: World, worker: nat, p: Phase): World {
    if !p.Marked? then w else With(w, worker, Idle).(tickets := TakeRows(w.tickets, p.batch, p.matchId))
  }

  /** The queue carries no ratings: what workers read has rating zero. */
  function SubmitStep(w: World, ticket: Ticket, expires: int, created: int): World {
    if ticket.id in w.tickets then w
    else w.(tickets := w.tickets[ticket.id := Row(ticket.(rating := 0, queuedAt := Seconds(created)), Queued, 0, expires, "", created)])
  }

  function CancelStep(w: World, id: string): World {
    if id in w.tickets && w.tickets[id].status.Queued? then w.(tickets := w.tickets[id := w.tickets[id].(status := Cancelled)]) else w
  }

  /** A stale match fails or is abandoned, and its tickets expire. */
  function RecoverStep(w: World, id: string, writer: M.Writer): World {
    if (writer.FailStale? || writer.AbandonStale?) && id in w.matches && M.Enabled(w.matches[id].status, writer)
    then w.(matches := Wrote(w.matches, id, writer), tickets := ExpireRows(w.tickets, id)) else w
  }

  function PlayStep(w: World, id: string, writer: M.Writer): World {
    if !writer.MarkAllocating? && id in w.matches && M.Enabled(w.matches[id].status, writer)
    then w.(matches := Wrote(w.matches, id, writer)) else w
  }

  ghost function Apply(w: World, step: Step, c: Config): World {
    match step
    case Tick(later) => if later >= w.now then w.(now := later) else w
    case Submit(ticket, expires, created) => SubmitStep(w, ticket, expires, created)
    case Cancel(id) => CancelStep(w, id)
    case Hire(worker) => if worker in w.workers then w else With(w, worker, Idle)
    case Pick(worker, snapshot, batch) =>
      if worker in w.workers && w.workers[worker].Idle? && Snapshot(w, snapshot) && batch != [] && IsBatch(snapshot, c.policy, batch)
      then With(w, worker, Picked(batch)) else w
    case Claim(worker) => ClaimStep(w, worker, Phases(w, worker))
    case Requeue(worker) => RequeueStep(w, worker, Phases(w, worker))
    case Allocate(worker, matchId, ok) => AllocateStep(w, worker, Phases(w, worker), matchId, ok, Limit(c.maxAttempts))
    case Store(worker, ok) => StoreStep(w, worker, Phases(w, worker), ok, c.policy.teamSize)
    case Mark(worker, ok) => MarkStep(w, worker, Phases(w, worker), ok)
    case Finish(worker) => FinishStep(w, worker, Phases(w, worker))
    case Abandon(worker) => With(w, worker, Idle)
    case Recover(matchId, writer) => RecoverStep(w, matchId, writer)
    case Play(matchId, writer) => PlayStep(w, matchId, writer)
  }

  datatype Run = Nil | Then(past: Run, step: Step)

  ghost function After(run: Run, c: Config): World {
    match run
    case Nil => EMPTY
    case Then(past, step) => Apply(After(past, c), step, c)
  }

  // ---------------------------------------------------------------- the invariant

  /** Row by row: the limit bounds the attempts of a live ticket, and a taken ticket's match seats its members. */
  predicate RowOk(r: Row, matches: map<string, Match>, limit: int) {
    && (r.status.Queued? || r.status.Matching? ==> r.attempts < limit)
    && (r.status.Taken? ==> r.matchId in matches && Seats(matches[r.matchId].roster, r.ticket))
    && r.ticket.rating == 0 && r.ticket.queuedAt == Seconds(r.created)
  }

  predicate Seats(roster: seq<Roster.Member>, t: Ticket) {
    forall k :: 0 <= k < |t.playerIds| ==> Roster.Holds(roster, t.playerIds[k])
  }

  ghost predicate RowsOk(w: World, limit: int) {
    forall id :: id in w.tickets ==> w.tickets[id].ticket.id == id && RowOk(w.tickets[id], w.matches, limit)
  }

  predicate BatchKnown(tickets: map<string, Row>, batch: seq<Ticket>) {
    && DistinctIds(batch)
    && forall k :: 0 <= k < |batch| ==> batch[k].id in tickets && tickets[batch[k].id].ticket == batch[k]
  }

  predicate AllMatching(tickets: map<string, Row>, batch: seq<Ticket>) {
    forall k :: 0 <= k < |batch| ==> batch[k].id in tickets && tickets[batch[k].id].status.Matching?
  }

  predicate PhaseOk(w: World, p: Phase, teamSize: int) {
    && (!p.Idle? ==> BatchKnown(w.tickets, p.batch))
    && (Claimed(p) ==> AllMatching(w.tickets, p.batch))
    && (p.Stored? || p.Marked? ==> p.matchId in w.matches && w.matches[p.matchId].roster == Roster.RosterOf(p.batch, teamSize))
  }

  ghost predicate PhasesOk(w: World, teamSize: int) {
    forall i :: i in w.workers ==> PhaseOk(w, w.workers[i], teamSize)
  }

  ghost predicate Apart(w: World) {
    forall i, j, id :: i in w.workers && j in w.workers && Holds(w.workers[i], id) && Holds(w.workers[j], id) ==> i == j
  }

  ghost predicate Inv(w: World, c: Config) {
    RowsOk(w, Limit(c.maxAttempts)) && PhasesOk(w, c.policy.teamSize) && Apart(w)
  }

  // ---------------------------------------------------------------- each step keeps it

  /** Rows and matches only grow, and tickets and rosters never change. */
  predicate Grows(w: World, w': World) {
    && (forall id :: id in w.tickets ==> id in w'.tickets && w'.tickets[id].ticket == w.tickets[id].ticket)
    && (forall m :: m in w.matches ==> m in w'.matches && w'.matches[m].roster == w.matches[m].roster)
  }

  predicate StatusKept(w: World, w': World, p: Phase) {
    forall id :: Holds(p, id) && id in w.tickets && id in w'.tickets ==> w'.tickets[id].status == w.tickets[id].status
  }

  lemma PhaseStays(w: World, w': World, p: Phase, teamSize: int)
    requires PhaseOk(w, p, teamSize) && Grows(w, w') && StatusKept(w, w', p)
    ensures PhaseOk(w', p, teamSize)
  {
    if Claimed(p) {
      forall k | 0 <= k < |p.batch| ensures p.batch[k].id in w'.tickets && w'.tickets[p.batch[k].id].status.Matching? {
        assert Holds(p, p.batch[k].id);
      }
    }
  }

  /** Putting one worker into a new phase, when no other worker's tickets are touched. */
  lemma WorkerMoves(w: World, w': World, worker: nat, p: Phase, c: Config)
    requires Inv(w, c) && w'.workers == w.workers[worker := p] && Grows(w, w')
    requires RowsOk(w', Limit(c.maxAttempts)) && PhaseOk(w', p, c.policy.teamSize)
    requires forall j :: j in w.workers && j != worker ==> StatusKept(w, w', w.workers[j])
    requires forall j, id :: j in w.workers && j != worker && Holds(w.workers[j], id) ==> !Holds(p, id)
    ensures Inv(w', c)
  {
    forall j | j in w'.workers ensures PhaseOk(w', w'.workers[j], c.policy.teamSize) {
      if j != worker { PhaseStays(w, w', w.workers[j], c.policy.teamSize); }
    }
  }

  /** A change that touches no worker and no ticket a worker holds. */
  lemma WorldMoves(w: World, w': World, c: Config)
    requires Inv(w, c) && w'.workers == w.workers && Grows(w, w') && RowsOk(w', Limit(c.maxAttempts))
    requires forall j :: j in w.workers ==> StatusKept(w, w', w.workers[j])
    ensures Inv(w', c)
  {
    forall j | j in w'.workers ensures PhaseOk(w', w'.workers[j], c.policy.teamSize) {
      PhaseStays(w, w', w.workers[j], c.policy.teamSize);
    }
  }

  lemma HeldIsMatching(w: World, worker: nat, id: string, c: Config)
    requires Inv(w, c) && worker in w.workers && Holds(w.workers[worker], id)
    ensures id in w.tickets && w.tickets[id].status.Matching?
  {
    var p := w.workers[worker];
    var k :| 0 <= k < |p.batch| && p.batch[k].id == id;
  }

  lemma ClaimKeeps(w: World, worker: nat, c: Config)
    requires Inv(w, c) && worker in w.workers
    ensures Inv(ClaimStep(w, worker, w.workers[worker]), c)
  {
    var p := w.workers[worker];
    if p.Picked? {
      if AllClaimable(w, p.batch) {
        var w' := ClaimStep(w, worker, p);
        forall j, id | j in w.workers && j != worker && Holds(w.workers[j], id) ensures !InBatch(p.batch, id) {
          HeldIsMatching(w, j, id, c);
        }
        forall k | 0 <= k < |p.batch| ensures InBatch(p.batch, p.batch[k].id) {}
        WorkerMoves(w, w', worker, Holding(p.batch), c);
      } else {
        WorkerMoves(w, With(w, worker, Idle), worker, Idle, c);
      }
    }
  }

  /** A worker lets go of its batch: only its own tickets may change. */
  lemma LetGo(w: World, w': World, worker: nat, c: Config)
    requires Inv(w, c) && worker in w.workers && w'.workers == w.workers[worker := Idle] && Grows(w, w')
    requires RowsOk(w', Limit(c.maxAttempts)) && w'.tickets.Keys == w.tickets.Keys
    requires forall id :: id in w.tickets && !Holds(w.workers[worker], id) ==> w'.tickets[id] == w.tickets[id]
    ensures Inv(w', c)
  {
    forall j, id | j in w.workers && j != worker && Holds(w.workers[j], id) ensures !Holds(w.workers[worker], id) {}
    WorkerMoves(w, w', worker, Idle, c);
  }

  lemma RequeueKeeps(w: World, worker: nat, c: Config)
    requires Inv(w, c) && worker in w.workers && Claimed(w.workers[worker])
    ensures Inv(With(w, worker, Idle).(tickets := RequeueRows(w.tickets, w.workers[worker].batch)), c)
  {
    LetGo(w, With(w, worker, Idle).(tickets := RequeueRows(w.tickets, w.workers[worker].batch)), worker, c);
  }

  lemma AllocateKeeps(w: World, worker: nat, matchId: string, ok: bool, c: Config)
    requires Inv(w, c) && worker in w.workers
    ensures Inv(AllocateStep(w, worker, w.workers[worker], matchId, ok, Limit(c.maxAttempts)), c)
  {
    var p := w.workers[worker];
    if p.Holding? {
      if ok {
        WorkerMoves(w, With(w, worker, Allocated(p.batch, matchId)), worker, Allocated(p.batch, matchId), c);
      } else {
        LetGo(w, AllocateStep(w, worker, p, matchId, ok, Limit(c.maxAttempts)), worker, c);
      }
    }
  }

  lemma StoreKeeps(w: World, worker: nat, ok: bool, c: Config)
    requires Inv(w, c) && worker in w.workers
    ensures Inv(StoreStep(w, worker, w.workers[worker], ok, c.policy.teamSize), c)
  {
    var p := w.workers[worker];
    if p.Allocated? {
      var w' := StoreStep(w, worker, p, ok, c.policy.teamSize);
      if w'.workers[worker].Stored? {
        WorkerMoves(w, w', worker, Stored(p.batch, p.matchId), c);
      } else {
        RequeueKeeps(w, worker, c);
      }
    }
  }

  lemma MarkKeeps(w: World, worker: nat, ok: bool, c: Config)
    requires Inv(w, c) && worker in w.workers
    ensures Inv(MarkStep(w, worker, w.workers[worker], ok), c)
  {
    var p := w.workers[worker];
    if p.Stored? {
      var w' := MarkStep(w, worker, p, ok);
      if w'.workers[worker].Marked? {
        WorkerMoves(w, w', worker, Marked(p.batch, p.matchId), c);
      } else {
        RequeueKeeps(w, worker, c);
      }
    }
  }

  /** A match's roster, built from the batch, seats the members of each of its tickets. */
  lemma RosterSeatsBatch(batch: seq<Ticket>, teamSize: int, k: nat)
    requires k < |batch|
    ensures Seats(Roster.RosterOf(batch, teamSize), batch[k])
  {
    forall i | 0 <= i < |batch[k].playerIds| ensures Roster.Holds(Roster.RosterOf(batch, teamSize), batch[k].playerIds[i]) {
      Roster.RosterHoldsBatch(batch, teamSize, batch[k].playerIds[i]);
      assert batch[k].playerIds[i] in batch[k].playerIds;
    }
  }

  lemma FinishKeeps(w: World, worker: nat, c: Config)
    requires Inv(w, c) && worker in w.workers
    ensures Inv(FinishStep(w, worker, w.workers[worker]), c)
  {
    var p := w.workers[worker];
    if p.Marked? {
      var w' := FinishStep(w, worker, p);
      forall id | id in w'.tickets && Touched(w.tickets, p.batch, id) ensures Seats(w.matches[p.matchId].roster, w.tickets[id].ticket) {
        var k :| 0 <= k < |p.batch| && p.batch[k].id == id;
        RosterSeatsBatch(p.batch, c.policy.teamSize, k);
      }
      LetGo(w, w', worker, c);
    }
  }

  lemma PickKeeps(w: World, worker: nat, snapshot: seq<Ticket>, batch: seq<Ticket>, c: Config)
    requires Inv(w, c) && worker in w.workers && Snapshot(w, snapshot) && batch != [] && IsBatch(snapshot, c.policy, batch)
    ensures Inv(With(w, worker, Picked(batch)), c)
  {
    BatchMembers(snapshot, c.policy, batch);
    forall k | 0 <= k < |batch| ensures batch[k].id in w.tickets && w.tickets[batch[k].id].ticket == batch[k] {
      assert batch[k] in batch;
      var i :| 0 <= i < |snapshot| && snapshot[i] == batch[k];
    }
    WorkerMoves(w, With(w, worker, Picked(batch)), worker, Picked(batch), c);
  }

  lemma HeldAreMatching(w: World, c: Config)
    requires Inv(w, c)
    ensures forall j, id :: j in w.workers && Holds(w.workers[j], id) ==> id in w.tickets && w.tickets[id].status.Matching?
  {
    forall j, id | j in w.workers && Holds(w.workers[j], id) ensures id in w.tickets && w.tickets[id].status.Matching? {
      HeldIsMatching(w, j, id, c);
    }
  }

  lemma SubmitKeeps(w: World, ticket: Ticket, expires: int, created: int, c: Config)
    requires Inv(w, c)
    ensures Inv(SubmitStep(w, ticket, expires, created), c)
  {
    HeldAreMatching(w, c);
    WorldMoves(w, SubmitStep(w, ticket, expires, created), c);
  }

  lemma CancelKeeps(w: World, id: string, c: Config)
    requires Inv(w, c)
    ensures Inv(CancelStep(w, id), c)
  {
    HeldAreMatching(w, c);
    WorldMoves(w, CancelStep(w, id), c);
  }

  lemma RecoverKeeps(w: World, id: string, writer: M.Writer, c: Config)
    requires Inv(w, c)
    ensures Inv(RecoverStep(w, id, writer), c)
  {
    HeldAreMatching(w, c);
    WorldMoves(w, RecoverStep(w, id, writer), c);
  }

  lemma PlayKeeps(w: World, id: string, writer: M.Writer, c: Config)
    requires Inv(w, c)
    ensures Inv(PlayStep(w, id, writer), c)
  {
    WorldMoves(w, PlayStep(w, id, writer), c);
  }

  lemma WorkerStepKeeps(w: World, step: Step, worker: nat, c: Config)
    requires Inv(w, c) && worker in w.workers
    requires step in {Claim(worker), Requeue(worker), Finish(worker)} || ((step.Store? || step.Mark? || step.Allocate?) && step.worker == worker)
    ensures Inv(Apply(w, step, c), c)
  {
    match step
    case Claim(_) => ClaimKeeps(w, worker, c);
    case Requeue(_) => if w.workers[worker].Holding? { RequeueKeeps(w, worker, c); }
    case Allocate(_, matchId, ok) => AllocateKeeps(w, worker, matchId, ok, c);
    case Store(_, ok) => StoreKeeps(w, worker, ok, c);
    case Mark(_, ok) => MarkKeeps(w, worker, ok, c);
    case Finish(_) => FinishKeeps(w, worker, c);
  }

  lemma NoWorkerNoStep(w: World, step: Step, c: Config)
    requires step.Claim? || step.Requeue? || step.Finish? || step.Store? || step.Mark? || step.Allocate?
    requires step.worker !in w.workers
    ensures Apply(w, step, c) == w
  {}

  lemma StepKeeps(w: World, step: Step, c: Config)
    requires Inv(w, c)
    ensures Inv(Apply(w, step, c), c)
  {
    match step
    case Tick(later) => if later >= w.now { WorldMoves(w, w.(now := later), c); }
    case Submit(ticket, expires, created) => SubmitKeeps(w, ticket, expires, created, c);
    case Cancel(id) => CancelKeeps(w, id, c);
    case Recover(matchId, writer) => RecoverKeeps(w, matchId, writer, c);
    case Play(matchId, writer) => PlayKeeps(w, matchId, writer, c);
    case Hire(worker) => if worker !in w.workers { WorkerMoves(w, With(w, worker, Idle), worker, Idle, c); }
    case Abandon(worker) => WorkerMoves(w, With(w, worker, Idle), worker, Idle, c);
    case Pick(worker, snapshot, batch) =>
      if worker in w.workers && Snapshot(w, snapshot) && batch != [] && IsBatch(snapshot, c.policy, batch) {
        PickKeeps(w, worker, snapshot, batch, c);
      }
    case _ =>
      if step.worker in w.workers { WorkerStepKeeps(w, step, step.worker, c); } else { NoWorkerNoStep(w, step, c); }
  }

  lemma {:induction false} RunKeeps(run: Run, c: Config)
    ensures Inv(After(run, c), c)
  {
    if run.Then? {
      RunKeeps(run.past, c);
      StepKeeps(After(run.past, c), run.step, c);
    }
  }

  // ---------------------------------------------------------------- results

  /** MAIN RESULT. With any number of workers, failing and crashing anywhere, no ticket is held by two of
      them, and every held ticket is `matching`: a cancel, another claim or a recovery never gets at it. */
  lemma HeldByOne(run: Run, c: Config, i: nat, j: nat, id: string)
    requires i in After(run, c).workers && j in After(run, c).workers
    requires Holds(After(run, c).workers[i], id) && Holds(After(run, c).workers[j], id)
    ensures i == j
    ensures id in After(run, c).tickets && After(run, c).tickets[id].status.Matching?
  {
    RunKeeps(run, c);
    HeldIsMatching(After(run, c), i, id, c);
  }

  function TouchedIds(tickets: map<string, Row>, batch: seq<Ticket>): set<string> {
    set id | id in tickets && Touched(tickets, batch, id)
  }

  function IdsOf(batch: seq<Ticket>): set<string> { set k | 0 <= k < |batch| :: batch[k].id }

  lemma {:induction false} IdsCount(batch: seq<Ticket>)
    requires DistinctIds(batch)
    ensures |IdsOf(batch)| == |batch|
  {
    if batch != [] {
      var rest, last := batch[..|batch| - 1], batch[|batch| - 1];
      IdsCount(rest);
      assert IdsOf(batch) == IdsOf(rest) + {last.id};
      assert last.id !in IdsOf(rest);
    }
  }

  lemma AllRowsHit(tickets: map<string, Row>, batch: seq<Ticket>)
    requires AllMatching(tickets, batch) && DistinctIds(batch)
    ensures |TouchedIds(tickets, batch)| == |batch|
  {
    IdsCount(batch);
    forall id ensures id in TouchedIds(tickets, batch) <==> id in IdsOf(batch) {}
    assert TouchedIds(tickets, batch) == IdsOf(batch);
  }

  /** MAIN RESULT. The final update always hits every claimed ticket, so its mismatch branch is dead; it
      leaves each of them taken by the worker's match. */
  lemma FinishHitsAll(run: Run, c: Config, worker: nat)
    requires worker in After(run, c).workers && After(run, c).workers[worker].Marked?
    ensures var w, p := After(run, c), After(run, c).workers[worker];
            && |TouchedIds(w.tickets, p.batch)| == |p.batch| == c.policy.teams
            && var tickets := After(Then(run, Finish(worker)), c).tickets;
               forall k :: 0 <= k < |p.batch| ==>
                 p.batch[k].id in tickets && tickets[p.batch[k].id].status.Taken? && tickets[p.batch[k].id].matchId == p.matchId
  {
    RunKeeps(run, c);
    BatchesAreFull(run, c);
    var w := After(run, c);
    var batch := w.workers[worker].batch;
    AllRowsHit(w.tickets, batch);
    forall k | 0 <= k < |batch| ensures Touched(w.tickets, batch, batch[k].id) {
      assert InBatch(batch, batch[k].id);
    }
  }

  ghost predicate FullBatches(w: World, teams: int) {
    forall i :: i in w.workers && !w.workers[i].Idle? ==> |w.workers[i].batch| == teams
  }

  lemma StepKeepsFull(w: World, step: Step, c: Config)
    requires FullBatches(w, c.policy.teams)
    ensures FullBatches(Apply(w, step, c), c.policy.teams)
  {
    if step.Pick? && Snapshot(w, step.snapshot) && step.batch != [] && IsBatch(step.snapshot, c.policy, step.batch) {
      BatchMembers(step.snapshot, c.policy, step.batch);
    }
  }

  /** A worker's batch is always a full group. */
  lemma {:induction false} BatchesAreFull(run: Run, c: Config)
    ensures FullBatches(After(run, c), c.policy.teams)
  {
    if run.Then? {
      BatchesAreFull(run.past, c);
      StepKeepsFull(After(run.past, c), run.step, c);
    }
  }

  ghost predicate MutualBatches(w: World, p: Policy) {
    forall i :: i in w.workers && !w.workers[i].Idle? ==> MatcherCliques.Mutual(w.workers[i].batch, p)
  }

  lemma PickIsMutual(w: World, snapshot: seq<Ticket>, batch: seq<Ticket>, c: Config)
    requires RowsOk(w, Limit(c.maxAttempts)) && Snapshot(w, snapshot) && IsBatch(snapshot, c.policy, batch)
    ensures MatcherCliques.Mutual(batch, c.policy)
  {
    forall t | t in snapshot ensures t.rating == 0 {
      var k :| 0 <= k < |snapshot| && snapshot[k] == t;
      assert Claimable(w, snapshot[k].id);
    }
    assert EqualRatings(snapshot);
    MatcherCliques.EqualRatingsAreMutual(snapshot, c.policy, batch);
  }

  lemma StepKeepsMutual(w: World, step: Step, c: Config)
    requires RowsOk(w, Limit(c.maxAttempts)) && MutualBatches(w, c.policy)
    ensures MutualBatches(Apply(w, step, c), c.policy)
  {
    if step.Pick? && Snapshot(w, step.snapshot) && step.batch != [] && IsBatch(step.snapshot, c.policy, step.batch) {
      PickIsMutual(w, step.snapshot, step.batch, c);
    }
  }

  /** Since workers see no ratings, the members of a worker's batch are all compatible with each other. */
  lemma {:induction false} WorkerBatchesAreMutual(run: Run, c: Config)
    ensures MutualBatches(After(run, c), c.policy)
  {
    if run.Then? {
      RunKeeps(run.past, c);
      WorkerBatchesAreMutual(run.past, c);
      StepKeepsMutual(After(run.past, c), run.step, c);
    }
  }

  /** MAIN RESULT. A matched ticket names a match that exists and whose roster seats every member of the
      ticket. A queued or matching ticket has used fewer allocation attempts than the limit. */
  lemma MatchedTicketsAreSeated(run: Run, c: Config, id: string)
    requires id in After(run, c).tickets
    ensures var w, row := After(run, c), After(run, c).tickets[id];
            && (row.status.Taken? ==> row.matchId in w.matches && Seats(w.matches[row.matchId].roster, row.ticket))
            && (row.status.Queued? || row.status.Matching? ==> row.attempts < Limit(c.maxAttempts))
  {
    RunKeeps(run, c);
  }

  /** A `matching` ticket no worker holds: its worker abandoned it after the claim. */
  ghost predicate Stranded(w: World, id: string) {
    && id in w.tickets && w.tickets[id].status.Matching?
    && forall i :: i in w.workers ==> !Holds(w.workers[i], id)
  }

  lemma ClaimLeavesStranded(w: World, worker: nat, id: string)
    requires Stranded(w, id)
    ensures Stranded(ClaimStep(w, worker, Phases(w, worker)), id)
  {
    var p := Phases(w, worker);
    if p.Picked? && AllClaimable(w, p.batch) {
      forall k | 0 <= k < |p.batch| ensures p.batch[k].id != id {
        assert Claimable(w, p.batch[k].id);
      }
    }
  }

  lemma WorkerLeavesStranded(w: World, worker: nat, id: string, matchId: string, ok: bool, limit: int, teamSize: int)
    requires Stranded(w, id)
    ensures Stranded(RequeueStep(w, worker, Phases(w, worker)), id)
    ensures Stranded(AllocateStep(w, worker, Phases(w, worker), matchId, ok, limit), id)
    ensures Stranded(StoreStep(w, worker, Phases(w, worker), ok, teamSize), id)
    ensures Stranded(MarkStep(w, worker, Phases(w, worker), ok), id)
    ensures Stranded(FinishStep(w, worker, Phases(w, worker)), id)
  {
    var p := Phases(w, worker);
    assert !Holds(p, id);
    assert Claimed(p) ==> !InBatch(p.batch, id);
  }

  lemma StepLeavesStranded(w: World, step: Step, c: Config, id: string)
    requires Stranded(w, id)
    ensures Stranded(Apply(w, step, c), id)
  {
    match step
    case Claim(worker) => ClaimLeavesStranded(w, worker, id);
    case Requeue(worker) => WorkerLeavesStranded(w, worker, id, "", true, 0, 0);
    case Allocate(worker, matchId, ok) => WorkerLeavesStranded(w, worker, id, matchId, ok, Limit(c.maxAttempts), 0);
    case Store(worker, ok) => WorkerLeavesStranded(w, worker, id, "", ok, 0, c.policy.teamSize);
    case Mark(worker, ok) => WorkerLeavesStranded(w, worker, id, "", ok, 0, 0);
    case Finish(worker) => WorkerLeavesStranded(w, worker, id, "", true, 0, 0);
    case _ =>
  }

  predicate Extends(later: Run, earlier: Run) {
    later == earlier || (later.Then? && Extends(later.past, earlier))
  }

  /** Nothing rescues abandoned tickets: no cancel, recovery, expiry or other worker ever takes
      a stranded ticket out of `matching`. */
  lemma {:induction false} StrandedForever(earlier: Run, later: Run, c: Config, id: string)
    requires Extends(later, earlier) && Stranded(After(earlier, c), id)
    ensures Stranded(After(later, c), id)
  {
    if later != earlier {
      StrandedForever(earlier, later.past, c, id);
      StepLeavesStranded(After(later.past, c), later.step, c, id);
    }
  }

  ghost predicate HeldBySome(w: World, id: string) {
    exists i :: i in w.workers && Holds(w.workers[i], id)
  }

  /** What the worker in this phase can do next to let its tickets go. */
  function WayOut(worker: nat, p: Phase): Step
    requires Claimed(p)
  {
    match p
    case Holding(_) => Requeue(worker)
    case Allocated(_, _) => Store(worker, false)
    case Stored(_, _) => Mark(worker, false)
    case Marked(_, _) => Finish(worker)
  }

  lemma WayOutFrees(w: World, worker: nat, c: Config, id: string)
    requires worker in w.workers && Holds(w.workers[worker], id) && id in w.tickets
    ensures id in Apply(w, WayOut(worker, w.workers[worker]), c).tickets
    ensures !Apply(w, WayOut(worker, w.workers[worker]), c).tickets[id].status.Matching?
  {}

  ghost predicate CanLeave(run: Run, c: Config, id: string) {
    exists later :: Extends(later, run) && id in After(later, c).tickets && !After(later, c).tickets[id].status.Matching?
  }

  /** MAIN RESULT. A `matching` ticket can still leave that state exactly when some worker holds it. */
  lemma LeavesIffHeld(run: Run, c: Config, id: string)
    requires id in After(run, c).tickets && After(run, c).tickets[id].status.Matching?
    ensures CanLeave(run, c, id) <==> HeldBySome(After(run, c), id)
  {
    var w := After(run, c);
    if i :| i in w.workers && Holds(w.workers[i], id) {
      WayOutFrees(w, i, c, id);
      var later := Then(run, WayOut(i, w.workers[i]));
      assert Extends(later.past, run);
      assert Extends(later, run) && id in After(later, c).tickets && !After(later, c).tickets[id].status.Matching?;
    } else {
      forall later | Extends(later, run) ensures Stranded(After(later, c), id) {
        StrandedForever(run, later, c, id);
      }
    }
  }

  predicate AbandonedByHolder(w: World, step: Step, id: string) {
    step.Abandon? && step.worker in w.workers && Holds(w.workers[step.worker], id)
  }

  /** Other steps of a worker keep what it holds or take it out of `matching`. */
  lemma MoveFreesOrHolds(w: World, step: Step, c: Config, i: nat, id: string)
    requires id in w.tickets && i in w.workers && Holds(w.workers[i], id) && !AbandonedByHolder(w, step, id)
    ensures var w' := Apply(w, step, c);
            id in w'.tickets && (w'.tickets[id].status.Matching? ==> i in w'.workers && Holds(w'.workers[i], id))
  {}

  /** A ticket that starts matching is in the claiming worker's batch. */
  lemma NewlyMatchingIsHeld(w: World, step: Step, c: Config, id: string)
    requires id in w.tickets ==> !w.tickets[id].status.Matching?
    ensures !Stranded(Apply(w, step, c), id)
  {
    if step.Claim? {
      var p, w' := Phases(w, step.worker), ClaimStep(w, step.worker, Phases(w, step.worker));
      assert p.Picked? && AllClaimable(w, p.batch) ==> w'.workers[step.worker] == Holding(p.batch);
      assert id in w'.tickets && w'.tickets[id].status.Matching? ==> p.Picked? && AllClaimable(w, p.batch) && InBatch(p.batch, id);
    }
  }

  /** MAIN RESULT. A step strands a ticket exactly when the worker that holds it abandons it, by a
      crash or by an update that fails. */
  lemma AbandonStrandsIff(run: Run, step: Step, c: Config, id: string)
    ensures Stranded(After(Then(run, step), c), id) <==> Stranded(After(run, c), id) || AbandonedByHolder(After(run, c), step, id)
  {
    RunKeeps(run, c);
    var w := After(run, c);
    if Stranded(w, id) {
      StepLeavesStranded(w, step, c, id);
    } else if AbandonedByHolder(w, step, id) {
      AbandonStrands(w, c, step.worker, id);
    } else if id in w.tickets && w.tickets[id].status.Matching? {
      var i :| i in w.workers && Holds(w.workers[i], id);
      MoveFreesOrHolds(w, step, c, i, id);
    } else {
      NewlyMatchingIsHeld(w, step, c, id);
    }
  }

  lemma AbandonStrands(w: World, c: Config, worker: nat, id: string)
    requires Inv(w, c) && worker in w.workers && Holds(w.workers[worker], id)
    ensures Stranded(Apply(w, Abandon(worker), c), id)
  {
    HeldIsMatching(w, worker, id, c);
    var w' := Apply(w, Abandon(worker), c);
    forall i | i in w'.workers ensures !Holds(w'.workers[i], id) {
      if i != worker {
        assert w'.workers[i] == w.workers[i];
      }
    }
  }
}
