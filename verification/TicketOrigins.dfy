/** Where the tickets of the queue come from: whose requests put them there, and who took them out. */
module TicketOrigins {
  import opened TicketLocks
  import opened Ordering
  import Roster

  ghost predicate SamePlayers(a: seq<string>, b: seq<string>) { forall p :: p in a <==> p in b }

  /** What a request has to bring. */
  predicate Sound(r: Request, actor: string, now: int) {
    && !Roster.Blank(r.gameId) && !Roster.Blank(r.environment) && !Roster.Blank(r.modeId) && !Roster.Blank(r.build) && !Roster.Blank(r.region)
    && r.revision >= 1 && 1 <= |r.players| <= r.capacity && (forall i :: 0 <= i < |r.players| ==> !Roster.Blank(r.players[i]))
    && (forall i, j :: 0 <= i < j < |r.players| ==> r.players[i] != r.players[j]) && actor in r.players
    && r.expires != 0 && now < r.expires <= now + 1800
  }

  /** Some step of the run asks for this ticket, soundly as of its time. */
  ghost predicate Asked(run: Run, key: LockKey, ticketId: string, players: seq<string>, expires: int) {
    run.Then? &&
    (Asked(run.past, key, ticketId, players, expires) ||
     (run.step.Begin? && run.step.ticketId == ticketId && Sound(run.step.request, run.step.actor, After(run.past, key).now)
      && SamePlayers(run.step.request.players, players) && run.step.request.expires == expires))
  }

  /** Some member of the ticket cancelled it. */
  ghost predicate Withdrawn(run: Run, ticketId: string, players: seq<string>) {
    run.Then? && (Withdrawn(run.past, ticketId, players) || (run.step.Cancel? && run.step.ticketId == ticketId && run.step.actor in players))
  }

  ghost predicate TxAsked(run: Run, key: LockKey, tx: Tx) { Asked(run, key, tx.ticketId, tx.players, tx.expires) }

  ghost predicate RowAsked(run: Run, key: LockKey, id: string, r: Row) {
    Asked(run, key, id, r.players, r.expires) && (r.status == Cancelled ==> Withdrawn(run, id, r.players))
  }

  ghost predicate AllAsked(run: Run, key: LockKey) {
    var w := After(run, key);
    && (forall i :: i in w.flight ==> TxAsked(run, key, w.flight[i]))
    && (forall id :: id in w.tickets ==> RowAsked(run, key, id, w.tickets[id]))
  }

  lemma BeginAsks(run: Run, key: LockKey)
    requires run.Then? && run.step.Begin? && AllAsked(run.past, key)
    ensures AllAsked(run, key)
  {
    if Acceptable(run.step.request, run.step.actor, After(run.past, key).now) {
      SortedRises(run.step.request.players);
    }
  }

  lemma EndAsks(run: Run, key: LockKey)
    requires run.Then? && run.step.End? && AllAsked(run.past, key)
    ensures AllAsked(run, key)
  {
    var w, w' := After(run.past, key), After(run, key);
    forall i | i in w'.flight ensures TxAsked(run, key, w'.flight[i]) {
      assert TxAsked(run.past, key, w.flight[i]);
    }
    if run.step.id in w.flight { assert TxAsked(run.past, key, w.flight[run.step.id]); }
    forall id | id in w'.tickets ensures RowAsked(run, key, id, w'.tickets[id]) {
      if id in w.tickets { assert RowAsked(run.past, key, id, w.tickets[id]); }
    }
  }

  /** Steps of a creation before its end leave the tickets alone. */
  lemma TxStepAsks(run: Run, key: LockKey)
    requires run.Then? && (run.step.Lock? || run.step.Check? || run.step.Insert? || run.step.Crash?) && AllAsked(run.past, key)
    ensures AllAsked(run, key)
  {
    var w, w' := After(run.past, key), After(run, key);
    forall i | i in w'.flight ensures TxAsked(run, key, w'.flight[i]) {
      assert i in w.flight && TxAsked(run.past, key, w.flight[i]);
    }
    forall id | id in w'.tickets ensures RowAsked(run, key, id, w'.tickets[id]) {
      assert RowAsked(run.past, key, id, w.tickets[id]);
    }
  }

  predicate OfTicket(step: Step) { step.Tick? || step.Cancel? || step.Claim? || step.Requeue? || step.Finish? }

  lemma OthersAsk(run: Run, key: LockKey)
    requires run.Then? && OfTicket(run.step) && AllAsked(run.past, key)
    ensures AllAsked(run, key)
  {
    var w, w' := After(run.past, key), After(run, key);
    forall i | i in w'.flight ensures TxAsked(run, key, w'.flight[i]) {
      assert i in w.flight && TxAsked(run.past, key, w.flight[i]);
    }
    forall id | id in w'.tickets ensures RowAsked(run, key, id, w'.tickets[id]) {
      if id in w.tickets { assert RowAsked(run.past, key, id, w.tickets[id]); }
    }
  }

  lemma {:induction false} RunAsks(run: Run, key: LockKey)
    ensures AllAsked(run, key)
  {
    if run.Then? {
      RunAsks(run.past, key);
      if run.step.Begin? { BeginAsks(run, key); } else if run.step.End? { EndAsks(run, key); } else if OfTicket(run.step) { OthersAsk(run, key); } else { TxStepAsks(run, key); }
    }
  }

  /** MAIN RESULT. Under every interleaving a stored ticket was asked for by one of its own players, with a sound
      request for exactly these players and this expiry, within half an hour of it; and a cancelled
      ticket was withdrawn by one of its players. */
  lemma TicketsAreAskedFor(run: Run, key: LockKey, id: string)
    requires id in After(run, key).tickets
    ensures var r := After(run, key).tickets[id];
            Asked(run, key, id, r.players, r.expires) && (r.status == Cancelled ==> Withdrawn(run, id, r.players))
  {
    RunAsks(run, key);
  }

  /** A member is checked against the tickets that were unexpired as the transaction began: with one of them in the queue
      the creation ends, and otherwise it goes on. */
  lemma ChecksAsOfStart(w: World, id: nat, key: LockKey)
    requires id in w.flight && w.flight[id].passed < w.flight[id].locked <= |w.flight[id].players|
    ensures var w', tx := Apply(w, Check(id), key), w.flight[id];
            var taken := exists t :: t in w.tickets && w.tickets[t].status == Queued && w.tickets[t].expires > tx.start && tx.players[tx.passed] in w.tickets[t].players;
            && w'.tickets == w.tickets && w'.now == w.now
            && (if taken then w'.flight == w.flight - {id} else w'.flight == w.flight[id := tx.(passed := tx.passed + 1)])
  {}
}
