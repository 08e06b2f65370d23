/** How a ticket of the matchmaking workers comes by its status and by its attempts. */
module TicketHistory {
  import opened Matcher
  import opened MatchWorker
  import M = Matches
  import Roster

  /** The matcher sees a time rounded to the nearest second, halves away from zero, which keeps the order of creation. */
  lemma SecondsRound(time: int, later: int)
    ensures var s := Seconds(time);
            -500_000 <= 1_000_000 * s - time <= 500_000 && (1_000_000 * s - time == 500_000 ==> time >= 0) && (1_000_000 * s - time == -500_000 ==> time < 0)
    ensures time <= later ==> Seconds(time) <= Seconds(later)
  {}

  predicate Among(batch: seq<Ticket>, id: string) { exists k :: 0 <= k < |batch| && batch[k].id == id }

  /** The worker of the step holds the ticket and stands in a phase of this kind. */
  predicate HolderStep(w: World, worker: nat, id: string) {
    worker in w.workers && !w.workers[worker].Idle? && !w.workers[worker].Picked? && Among(w.workers[worker].batch, id)
  }

  /** The step writes down a failed allocation of the batch the ticket is in. */
  predicate Charges(w: World, step: Step, id: string) {
    step.Allocate? && !step.ok && HolderStep(w, step.worker, id) && w.workers[step.worker].Holding?
  }

  /** The only ways for a ticket to change its status. */
  predicate Allowed(w: World, step: Step, id: string, before: Row, after: Row, limit: int) {
    match (before.status, after.status)
    case (Queued, Cancelled) => step == Cancel(id)
    case (Queued, Matching) =>
      step.Claim? && step.worker in w.workers && w.workers[step.worker].Picked? && Among(w.workers[step.worker].batch, id) && before.expires > w.now
    case (Matching, Queued) =>
      (Charges(w, step, id) && before.attempts + 1 < limit)
      || (step.Requeue? && HolderStep(w, step.worker, id) && w.workers[step.worker].Holding?)
      || (step.Store? && HolderStep(w, step.worker, id) && w.workers[step.worker].Allocated?)
      || (step.Mark? && HolderStep(w, step.worker, id) && w.workers[step.worker].Stored?)
    case (Matching, Expired) => Charges(w, step, id) && before.attempts + 1 >= limit
    case (Matching, Taken) =>
      step.Finish? && HolderStep(w, step.worker, id) && w.workers[step.worker].Marked? && after.matchId == w.workers[step.worker].matchId
    case (Taken, Expired) =>
      step.Recover? && step.matchId == before.matchId && before.matchId in w.matches
      && (w.matches[before.matchId].status.state == M.Allocating || w.matches[before.matchId].status.state == M.Running)
    case _ => before.status == after.status
  }

  /** What a step does to one row. */
  predicate Told(w: World, step: Step, id: string, before: Row, after: Row, limit: int) {
    && Allowed(w, step, id, before, after, limit)
    && after.attempts == before.attempts + (if Charges(w, step, id) then 1 else 0)
    && after.ticket == before.ticket && after.expires == before.expires && after.created == before.created
    && (before.status == after.status ==> after.matchId == before.matchId)
  }

  /** A new row is a submitted ticket that waits, unrated, with no attempt made. */
  predicate New(step: Step, id: string, r: Row) {
    && step.Submit? && step.ticket.id == id && r.status == Queued && r.attempts == 0 && r.matchId == ""
    && r.expires == step.expires && r.created == step.created
    && r.ticket.playerIds == step.ticket.playerIds && r.ticket.id == id && r.ticket.modeId == step.ticket.modeId
  }

  lemma HeldIsTouched(w: World, worker: nat, id: string, c: Config)
    requires Inv(w, c) && HolderStep(w, worker, id)
    ensures Touched(w.tickets, w.workers[worker].batch, id)
  {
    assert Holds(w.workers[worker], id);
    HeldIsMatching(w, worker, id, c);
  }

  lemma ClaimTold(w: World, worker: nat, id: string, c: Config)
    requires Inv(w, c) && id in w.tickets
    ensures id in Apply(w, Claim(worker), c).tickets
    ensures Told(w, Claim(worker), id, w.tickets[id], Apply(w, Claim(worker), c).tickets[id], Limit(c.maxAttempts))
  {
    var p := Phases(w, worker);
    if p.Picked? && AllClaimable(w, p.batch) && InBatch(p.batch, id) {
      var k :| 0 <= k < |p.batch| && p.batch[k].id == id;
      assert Claimable(w, p.batch[k].id);
    }
  }

  lemma AllocateTold(w: World, worker: nat, matchId: string, ok: bool, id: string, c: Config)
    requires Inv(w, c) && id in w.tickets
    ensures id in Apply(w, Allocate(worker, matchId, ok), c).tickets
    ensures Told(w, Allocate(worker, matchId, ok), id, w.tickets[id], Apply(w, Allocate(worker, matchId, ok), c).tickets[id], Limit(c.maxAttempts))
  {
    if HolderStep(w, worker, id) { HeldIsTouched(w, worker, id, c); }
  }

  lemma LetGoTold(w: World, step: Step, id: string, c: Config)
    requires Inv(w, c) && id in w.tickets && (step.Requeue? || step.Finish?)
    ensures id in Apply(w, step, c).tickets
    ensures Told(w, step, id, w.tickets[id], Apply(w, step, c).tickets[id], Limit(c.maxAttempts))
  {
    if HolderStep(w, step.worker, id) { HeldIsTouched(w, step.worker, id, c); }
  }

  lemma StoreTold(w: World, worker: nat, ok: bool, id: string, c: Config)
    requires Inv(w, c) && id in w.tickets
    ensures id in Apply(w, Store(worker, ok), c).tickets
    ensures Told(w, Store(worker, ok), id, w.tickets[id], Apply(w, Store(worker, ok), c).tickets[id], Limit(c.maxAttempts))
  {
    if HolderStep(w, worker, id) { HeldIsTouched(w, worker, id, c); }
  }

  lemma MarkTold(w: World, worker: nat, ok: bool, id: string, c: Config)
    requires Inv(w, c) && id in w.tickets
    ensures id in Apply(w, Mark(worker, ok), c).tickets
    ensures Told(w, Mark(worker, ok), id, w.tickets[id], Apply(w, Mark(worker, ok), c).tickets[id], Limit(c.maxAttempts))
  {
    if HolderStep(w, worker, id) { HeldIsTouched(w, worker, id, c); }
  }

  lemma RecoverTold(w: World, matchId: string, writer: M.Writer, id: string, c: Config)
    requires id in w.tickets
    ensures id in Apply(w, Recover(matchId, writer), c).tickets
    ensures Told(w, Recover(matchId, writer), id, w.tickets[id], Apply(w, Recover(matchId, writer), c).tickets[id], Limit(c.maxAttempts))
  {}

  lemma OthersTold(w: World, step: Step, id: string, c: Config)
    requires id in w.tickets && (step.Tick? || step.Submit? || step.Cancel? || step.Hire? || step.Pick? || step.Abandon? || step.Play?)
    ensures id in Apply(w, step, c).tickets
    ensures Told(w, step, id, w.tickets[id], Apply(w, step, c).tickets[id], Limit(c.maxAttempts))
  {}

  /** MAIN RESULT. Along any run a ticket changes its status only in these ways: its member cancels it, a worker claims
      it unexpired, its holder puts it back, charges it or has it matched, or its match is recovered; a failed
      allocation charges exactly one attempt, and nothing else does. */
  lemma StatusChanges(run: Run, step: Step, c: Config, id: string)
    requires id in After(run, c).tickets
    ensures var w, w' := After(run, c), After(Then(run, step), c);
            id in w'.tickets && Told(w, step, id, w.tickets[id], w'.tickets[id], Limit(c.maxAttempts))
  {
    RunKeeps(run, c);
    var w := After(run, c);
    match step
    case Claim(worker) => ClaimTold(w, worker, id, c);
    case Allocate(worker, matchId, ok) => AllocateTold(w, worker, matchId, ok, id, c);
    case Requeue(_) => LetGoTold(w, step, id, c);
    case Store(worker, ok) => StoreTold(w, worker, ok, id, c);
    case Mark(worker, ok) => MarkTold(w, worker, ok, id, c);
    case Finish(_) => LetGoTold(w, step, id, c);
    case Recover(matchId, writer) => RecoverTold(w, matchId, writer, id, c);
    case _ => OthersTold(w, step, id, c);
  }

  lemma NewTickets(run: Run, step: Step, c: Config, id: string)
    requires id !in After(run, c).tickets && id in After(Then(run, step), c).tickets
    ensures New(step, id, After(Then(run, step), c).tickets[id])
  {}

  // ---------------------------------------------------------------- attempts

  /** Failed allocations of the batches the ticket was in. */
  ghost function Failures(run: Run, c: Config, id: string): nat {
    if run.Nil? then 0
    else Failures(run.past, c, id) + if id in After(run.past, c).tickets && Charges(After(run.past, c), run.step, id) then 1 else 0
  }

  lemma {:induction false} NoTicketNoFailure(run: Run, c: Config, id: string)
    requires id !in After(run, c).tickets
    ensures Failures(run, c, id) == 0
  {
    if run.Then? {
      if id in After(run.past, c).tickets { StatusChanges(run.past, run.step, c, id); }
      NoTicketNoFailure(run.past, c, id);
    }
  }

  /** MAIN RESULT. A ticket's attempts are the failed allocations of the batches it was in; they never pass the limit,
      and a ticket that reaches it has expired. */
  lemma {:induction false} AttemptsAreFailures(run: Run, c: Config, id: string)
    requires id in After(run, c).tickets
    ensures var r := After(run, c).tickets[id];
            r.attempts == Failures(run, c, id) <= Limit(c.maxAttempts) && (r.attempts == Limit(c.maxAttempts) ==> r.status == Expired)
  {
    if id in After(run.past, c).tickets {
      AttemptsAreFailures(run.past, c, id);
      StatusChanges(run.past, run.step, c, id);
      RunKeeps(run.past, c);
    } else {
      NewTickets(run.past, run.step, c, id);
      NoTicketNoFailure(run.past, c, id);
    }
  }

  // ---------------------------------------------------------------- claims and recoveries

  predicate Free(w: World, id: string) { id in w.tickets && w.tickets[id].status == Queued && w.tickets[id].expires > w.now }

  /** A claim goes through exactly when every ticket of the batch is queued and unexpired; then exactly those
      tickets are matching, and otherwise nothing is written. */
  lemma ClaimIff(w: World, worker: nat, c: Config, batch: seq<Ticket>)
    requires worker in w.workers && w.workers[worker] == Picked(batch)
    ensures var w' := Apply(w, Claim(worker), c);
            var all := forall k :: 0 <= k < |batch| ==> Free(w, batch[k].id);
            && worker in w'.workers && w'.workers[worker] == (if all then Holding(batch) else Idle)
            && w'.tickets.Keys == w.tickets.Keys
            && forall id :: id in w.tickets ==>
                 w'.tickets[id] == if all && Among(batch, id) then w.tickets[id].(status := Matching) else w.tickets[id]
  {
    assert AllClaimable(w, batch) <==> forall k :: 0 <= k < |batch| ==> Free(w, batch[k].id);
  }

  /** A recovery that closes its match expires exactly the tickets taken by it. */
  lemma RecoveryExpires(w: World, matchId: string, writer: M.Writer, c: Config)
    requires matchId in w.matches
    requires (writer.FailStale? && w.matches[matchId].status.state == M.Allocating) || (writer.AbandonStale? && w.matches[matchId].status.state == M.Running)
    ensures var w' := Apply(w, Recover(matchId, writer), c);
            && matchId in w'.matches
            && w'.matches[matchId].status == M.Status(if writer.FailStale? then M.Failed else M.Abandoned, w.matches[matchId].status.version + 1)
            && w'.tickets.Keys == w.tickets.Keys
            && forall id :: id in w.tickets ==>
                 var r := w.tickets[id];
                 w'.tickets[id] == if r.status == Taken && r.matchId == matchId then r.(status := Expired) else r
  {}

  // ---------------------------------------------------------------- matches

  /** A roster the match tables take: somebody plays, everybody named and once, on slots of their own. */
  predicate Seatable(roster: seq<Roster.Member>) {
    && |roster| >= 1 && (forall i :: 0 <= i < |roster| ==> roster[i].playerId != "" && roster[i].slot >= 0)
    && (forall i, j :: 0 <= i < j < |roster| ==> roster[i].playerId != roster[j].playerId && roster[i].slot != roster[j].slot)
  }

  /** A match is stored exactly when the statement goes through, its id is new, and its roster can be seated; it then
      seats the batch, and otherwise the tickets of the batch are put back. */
  lemma StoresIff(w: World, worker: nat, ok: bool, c: Config, batch: seq<Ticket>, matchId: string)
    requires worker in w.workers && w.workers[worker] == Allocated(batch, matchId)
    ensures var w', roster := Apply(w, Store(worker, ok), c), Roster.RosterOf(batch, c.policy.teamSize);
            && worker in w'.workers
            && if ok && matchId !in w.matches && Seatable(roster)
               then w'.workers[worker] == Stored(batch, matchId) && w'.tickets == w.tickets
                    && w'.matches == w.matches[matchId := Match(M.Status(M.Matched, 1), roster)]
               else w'.workers[worker] == Idle && w'.matches == w.matches
                    && w'.tickets.Keys == w.tickets.Keys
                    && forall id :: id in w.tickets ==>
                         var r := w.tickets[id];
                         w'.tickets[id] == if Among(batch, id) && r.status == Matching then r.(status := Queued) else r
  {
    var roster := Roster.RosterOf(batch, c.policy.teamSize);
    assert Seatable(roster) <==> roster != [] && M.Insertable(roster);
  }

  ghost predicate AllSeatable(w: World) {
    forall m :: m in w.matches ==> Seatable(w.matches[m].roster)
  }

  lemma StoreSeats(w: World, worker: nat, ok: bool, c: Config)
    requires AllSeatable(w)
    ensures AllSeatable(Apply(w, Store(worker, ok), c))
  {
    if Phases(w, worker).Allocated? {
      StoresIff(w, worker, ok, c, w.workers[worker].batch, w.workers[worker].matchId);
    }
  }

  lemma OthersSeat(w: World, step: Step, c: Config)
    requires AllSeatable(w) && !step.Store?
    ensures AllSeatable(Apply(w, step, c))
  {}

  /** In every run each match was given a roster its tables take. */
  lemma {:induction false} MatchesAreSeatable(run: Run, c: Config)
    ensures AllSeatable(After(run, c))
  {
    if run.Then? {
      MatchesAreSeatable(run.past, c);
      if run.step.Store? { StoreSeats(After(run.past, c), run.step.worker, run.step.ok, c); } else { OthersSeat(After(run.past, c), run.step, c); }
    }
  }
}
