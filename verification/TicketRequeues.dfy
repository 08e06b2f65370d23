/** When a player can have two active tickets: a worker that puts a claimed ticket back into the queue does not
look for a newer one of the same player. */
module TicketRequeues {
  import opened TicketLocks
  import opened Ordering
  import Roster

  predicate Live(w: World, s: string) { s in w.tickets && w.tickets[s].status.Queued? && w.tickets[s].expires > w.now }

  /** The tickets have a member in common. */
  predicate Meet(a: seq<string>, b: seq<string>) {
    exists i :: 0 <= i < |a| && a[i] in b
  }

  // ---------------------------------------------------------------- one requeue

  /** The ticket is put back, unexpired, while a member of it has another live ticket. */
  predicate MeetsLive(w: World, t: string) {
    && t in w.tickets && w.tickets[t].status.Matching? && w.tickets[t].expires > w.now
    && exists s :: s in w.tickets && s != t && Live(w, s) && Meet(w.tickets[s].players, w.tickets[t].players)
  }

  /** MAIN RESULT. After a requeue no player has two live tickets exactly when none had before, and the ticket
      was not matching, has expired, or has no member with another live ticket. */
  lemma RequeueKeepsIff(w: World, t: string, key: LockKey)
    ensures var w' := Apply(w, Requeue(t), key);
            OneActive(w'.tickets, w'.now) <==> OneActive(w.tickets, w.now) && !MeetsLive(w, t)
  {
    var w' := Apply(w, Requeue(t), key);
    if OneActive(w'.tickets, w'.now) {
      RequeueKept(w, w', t);
    } else {
      RequeueBroke(w, w', t);
    }
  }

  lemma RequeueKept(w: World, w': World, t: string)
    requires w' == Move(w, t, Matching, Queued) && OneActive(w'.tickets, w'.now)
    ensures OneActive(w.tickets, w.now) && !MeetsLive(w, t)
  {
    forall s, u, p | InQueue(w.tickets, s, p) && InQueue(w.tickets, u, p) && s != u
      ensures w.tickets[s].expires <= w.now || w.tickets[u].expires <= w.now
    {
      assert InQueue(w'.tickets, s, p) && InQueue(w'.tickets, u, p);
    }
    if t in w.tickets && w.tickets[t].status.Matching? && w.tickets[t].expires > w.now {
      forall s | s in w.tickets && s != t && Live(w, s) ensures !Meet(w.tickets[s].players, w.tickets[t].players) {
        forall i | 0 <= i < |w.tickets[s].players| ensures w.tickets[s].players[i] !in w.tickets[t].players {
          var p := w.tickets[s].players[i];
          assert InQueue(w'.tickets, s, p);
          assert p in w.tickets[t].players ==> InQueue(w'.tickets, t, p);
        }
      }
    }
  }

  lemma RequeueBroke(w: World, w': World, t: string)
    requires w' == Move(w, t, Matching, Queued) && !OneActive(w'.tickets, w'.now)
    ensures !OneActive(w.tickets, w.now) || MeetsLive(w, t)
  {
    var s, u, p :| InQueue(w'.tickets, s, p) && InQueue(w'.tickets, u, p) && s != u
                   && w'.tickets[s].expires > w.now && w'.tickets[u].expires > w.now;
    if OneActive(w.tickets, w.now) {
      assert s != t ==> InQueue(w.tickets, s, p);
      assert u != t ==> InQueue(w.tickets, u, p);
      assert s == t || u == t;
      var other := if s == t then u else s;
      assert InQueue(w.tickets, other, p) && Live(w, other);
      var i :| 0 <= i < |w.tickets[other].players| && w.tickets[other].players[i] == p;
      assert Meet(w.tickets[other].players, w.tickets[t].players);
    }
  }

  // ---------------------------------------------------------------- creations that are already past their check

  /** The creation will queue an unexpired ticket, it has found no active ticket for a member of these players,
      and it has no member left to check that would find theirs. */
  predicate Checked(w: World, tx: Tx, players: seq<string>) {
    && tx.expires > w.now && tx.ticketId !in w.tickets
    && (exists a :: 0 <= a < tx.passed && a < |tx.players| && tx.players[a] in players)
    && (forall a :: tx.passed <= a < |tx.players| && 0 <= a ==> tx.players[a] !in players)
  }

  predicate Overtaken(w: World, tx: Tx, s: string) { s in w.tickets && Live(w, s) && Checked(w, tx, w.tickets[s].players) }

  /** No creation has been overtaken by a ticket that came back after the check. */
  ghost predicate Clear(w: World) {
    forall i, s :: i in w.flight ==> !Overtaken(w, w.flight[i], s)
  }

  ghost predicate Quiet(w: World) { OneActive(w.tickets, w.now) && Clear(w) }

  /** The ticket may go back: it will not be live, or it meets neither a live ticket nor a checked creation. */
  predicate MayReturn(w: World, t: string) {
    t in w.tickets && w.tickets[t].status.Matching? && w.tickets[t].expires > w.now ==>
      !MeetsLive(w, t) && forall i :: i in w.flight ==> !Checked(w, w.flight[i], w.tickets[t].players)
  }

  predicate SafeRun(run: Run, key: LockKey) {
    run.Then? ==> SafeRun(run.past, key) && (run.step.Requeue? ==> MayReturn(After(run.past, key), run.step.ticketId))
  }

  lemma MoveKeepsQuiet(w: World, t: string, from: Status, to: Status)
    requires Quiet(w) && !to.Queued?
    ensures Quiet(Move(w, t, from, to))
  {
    var w' := Move(w, t, from, to);
    assert forall s, p :: InQueue(w'.tickets, s, p) ==> InQueue(w.tickets, s, p) && w'.tickets[s] == w.tickets[s];
    forall i, s | i in w'.flight ensures !Overtaken(w', w'.flight[i], s) {
      assert !Overtaken(w, w.flight[i], s);
    }
  }

  lemma RequeueKeepsQuiet(w: World, t: string, key: LockKey)
    requires Quiet(w) && MayReturn(w, t)
    ensures Quiet(Apply(w, Requeue(t), key))
  {
    RequeueKeepsIff(w, t, key);
    var w' := Apply(w, Requeue(t), key);
    forall i, s | i in w'.flight ensures !Overtaken(w', w'.flight[i], s) {
      assert !Overtaken(w, w.flight[i], s);
      assert Checked(w', w.flight[i], if t in w.tickets then w.tickets[t].players else [])
          == Checked(w, w.flight[i], if t in w.tickets then w.tickets[t].players else []);
    }
  }

  /** A creation that moves on to its next member, who has no active ticket, is as clear as before. */
  lemma CheckKeepsQuiet(w: World, id: nat, key: LockKey)
    requires Inv(w, key) && Quiet(w) && id in w.flight
    ensures Quiet(CheckStep(w, id, w.flight[id]))
  {
    var tx, w' := w.flight[id], CheckStep(w, id, w.flight[id]);
    assert TxOk(w.now, tx);
    forall i, s | i in w'.flight ensures !Overtaken(w', w'.flight[i], s) {
      assert !Overtaken(w, w.flight[i], s);
      if i == id && Live(w, s) && tx.passed < tx.locked {
        assert Active(w.tickets, tx.players[tx.passed], tx.start) || tx.players[tx.passed] !in w.tickets[s].players;
      }
    }
  }

  /** Nobody else has locked, let alone checked, a player of a transaction that is about to commit. */
  lemma OthersHaveNot(w: World, id: nat, j: nat, a: nat, key: LockKey)
    requires Inv(w, key) && id in w.flight && j in w.flight && j != id && w.flight[id].inserted && a < w.flight[j].passed
    ensures w.flight[j].players[a] !in w.flight[id].players
  {
    assert Apart(w.flight[id], w.flight[j], key) && TxOk(w.now, w.flight[id]) && TxOk(w.now, w.flight[j]);
  }

  lemma EndKeepsClear(w: World, id: nat, key: LockKey)
    requires Inv(w, key) && Quiet(w) && id in w.flight && w.flight[id].inserted
    ensures Clear(EndStep(w, id, w.flight[id]))
  {
    var tx, w' := w.flight[id], EndStep(w, id, w.flight[id]);
    forall i, s | i in w'.flight ensures !Overtaken(w', w'.flight[i], s) {
      assert !Overtaken(w, w.flight[i], s);
      if s == tx.ticketId {
        forall a | 0 <= a < w.flight[i].passed && a < |w.flight[i].players| ensures w.flight[i].players[a] !in tx.players {
          OthersHaveNot(w, id, i, a, key);
        }
      }
    }
  }

  /** A creation that is not overtaken adds no second live ticket. */
  lemma EndKeepsOne(w: World, id: nat, key: LockKey)
    requires Inv(w, key) && Quiet(w) && id in w.flight && w.flight[id].inserted
    ensures OneActive(EndStep(w, id, w.flight[id]).tickets, w.now)
  {
    var tx, after := w.flight[id], EndStep(w, id, w.flight[id]).tickets;
    assert TxOk(w.now, tx);
    forall s, t, p | InQueue(after, s, p) && InQueue(after, t, p) && s != t ensures after[s].expires <= w.now || after[t].expires <= w.now {
      assert s != tx.ticketId ==> InQueue(w.tickets, s, p);
      assert t != tx.ticketId ==> InQueue(w.tickets, t, p);
      var other := if s == tx.ticketId then t else s;
      assert !Overtaken(w, tx, other);
      assert p in tx.players ==> exists a :: 0 <= a < |tx.players| && tx.players[a] == p;
    }
  }

  /** Neither time, nor locks and inserts, nor creations that begin or crash let a ticket overtake one. */
  lemma OtherKeepsQuiet(w: World, step: Step, key: LockKey)
    requires Inv(w, key) && Quiet(w) && (step.Tick? || step.Begin? || step.Lock? || step.Insert? || step.Crash?)
    ensures Quiet(Apply(w, step, key))
  {
    var w' := Apply(w, step, key);
    assert w'.tickets == w.tickets && w'.now >= w.now;
    forall i, s | i in w'.flight ensures !Overtaken(w', w'.flight[i], s) {
      OtherKeepsTx(w, step, key, i);
      if i in w.flight && SameClaims(w.flight[i], w'.flight[i]) {
        assert !Overtaken(w, w.flight[i], s);
        SameOvertaken(w, w', w.flight[i], w'.flight[i], s);
      }
    }
  }

  predicate SameClaims(a: Tx, b: Tx) { a.players == b.players && a.passed == b.passed && a.expires == b.expires && a.ticketId == b.ticketId }

  lemma OtherKeepsTx(w: World, step: Step, key: LockKey, i: nat)
    requires i in Apply(w, step, key).flight && (step.Tick? || step.Begin? || step.Lock? || step.Insert? || step.Crash?)
    ensures var tx := Apply(w, step, key).flight[i]; if i in w.flight then SameClaims(w.flight[i], tx) else tx.passed == 0
  {}

  lemma SameOvertaken(w: World, w': World, a: Tx, b: Tx, s: string)
    requires w'.tickets == w.tickets && w'.now >= w.now && SameClaims(a, b)
    ensures Overtaken(w', b, s) ==> Overtaken(w, a, s)
  {}

  lemma StepKeepsQuiet(w: World, step: Step, key: LockKey)
    requires Inv(w, key) && Quiet(w) && (step.Requeue? ==> MayReturn(w, step.ticketId))
    ensures Quiet(Apply(w, step, key))
  {
    match step
    case Check(id) => if id in w.flight { CheckKeepsQuiet(w, id, key); }
    case End(id) => if id in w.flight && w.flight[id].inserted { EndKeepsClear(w, id, key); EndKeepsOne(w, id, key); }
    case Cancel(t, _) => MoveKeepsQuiet(w, t, Queued, Cancelled);
    case Claim(t) => MoveKeepsQuiet(w, t, Queued, Matching);
    case Finish(t) => MoveKeepsQuiet(w, t, Matching, Gone);
    case Requeue(t) => RequeueKeepsQuiet(w, t, key);
    case _ => OtherKeepsQuiet(w, step, key);
  }

  lemma {:induction false} SafeIsQuiet(run: Run, key: LockKey)
    requires SafeRun(run, key)
    ensures Quiet(After(run, key))
  {
    if run.Then? {
      SafeIsQuiet(run.past, key);
      RunKeeps(run.past, key);
      StepKeepsQuiet(After(run.past, key), run.step, key);
    }
  }

  /** However creations, cancellations and claims interleave with safe requeues, and even if lock keys collide,
      no player is ever a member of two live tickets. */
  lemma OneActiveTicket(run: Run, key: LockKey)
    requires SafeRun(run, key)
    ensures OneActive(After(run, key).tickets, After(run, key).now)
  {
    SafeIsQuiet(run, key);
  }

  // ---------------------------------------------------------------- what an unsafe requeue leads to

  predicate Extends(later: Run, earlier: Run) {
    later == earlier || (later.Then? && Extends(later.past, earlier))
  }

  /** How a run may go on without another requeue. */
  predicate Continues(later: Run, earlier: Run) {
    later == earlier || (later.Then? && !later.step.Requeue? && Continues(later.past, earlier))
  }

  lemma {:induction false} ContinuesOn(later: Run, middle: Run, earlier: Run)
    requires Continues(later, middle) && Continues(middle, earlier)
    ensures Continues(later, earlier)
  {
    if later != middle {
      ContinuesOn(later.past, middle, earlier);
    }
  }

  lemma ContinuesOne(run: Run, step: Step)
    requires !step.Requeue?
    ensures Continues(Then(run, step), run)
  {
    assert Continues(run, run);
  }

  /** All other creations end. */
  lemma {:induction false} CrashOthers(run: Run, id: nat, key: LockKey) returns (later: Run)
    requires id in After(run, key).flight
    ensures Continues(later, run) && After(later, key) == After(run, key).(flight := map[id := After(run, key).flight[id]])
    decreases |After(run, key).flight|
  {
    var w := After(run, key);
    if j :| j in w.flight && j != id {
      var next := Then(run, Crash(j));
      assert |w.flight| == |(w.flight - {j}).Keys| + 1 by { assert w.flight.Keys == (w.flight - {j}).Keys + {j}; }
      later := CrashOthers(next, id, key);
      ContinuesOne(run, Crash(j));
      ContinuesOn(later, next, run);
    } else {
      assert w.flight == map[id := w.flight[id]];
      later := run;
    }
  }

  function QueuedIds(tickets: map<string, Row>): set<string> { set t | t in tickets && tickets[t].status.Queued? }

  predicate OnlyQueued(tickets: map<string, Row>, s: string) {
    forall t :: t in tickets && tickets[t].status.Queued? ==> t == s
  }

  /** All tickets but one leave the queue. */
  lemma {:induction false} CancelOthers(run: Run, s: string, key: LockKey) returns (later: Run)
    requires s in After(run, key).tickets
    ensures Continues(later, run)
    ensures var w, w' := After(run, key), After(later, key);
            && w'.flight == w.flight && w'.now == w.now && w'.tickets.Keys == w.tickets.Keys && w'.tickets[s] == w.tickets[s]
            && OnlyQueued(w'.tickets, s)
    decreases |QueuedIds(After(run, key).tickets)|
  {
    var w := After(run, key);
    RunKeeps(run, key);
    if t :| t in w.tickets && w.tickets[t].status.Queued? && t != s {
      var step := Cancel(t, w.tickets[t].players[0]);
      var next := Then(run, step);
      assert w.tickets[t].players[0] in w.tickets[t].players;
      assert After(next, key) == Move(w, t, Queued, Cancelled);
      FewerQueued(w.tickets, t);
      later := CancelOthers(next, s, key);
      ContinuesOne(run, step);
      ContinuesOn(later, next, run);
    } else {
      later := run;
    }
  }

  lemma FewerQueued(tickets: map<string, Row>, t: string)
    requires t in tickets && tickets[t].status.Queued?
    ensures |QueuedIds(tickets[t := tickets[t].(status := Cancelled)])| < |QueuedIds(tickets)|
  {
    assert QueuedIds(tickets) == QueuedIds(tickets[t := tickets[t].(status := Cancelled)]) + {t};
  }

  // ---------------------------------------------------------------- a creation that runs alone

  /** The only transaction in flight. */
  predicate Lone(w: World, id: nat, tx: Tx) { w.flight == map[id := tx] && id in w.flight && w.flight[id] == tx }

  function Through(tx: Tx): Tx { tx.(locked := |tx.players|, passed := |tx.players|) }

  predicate Hindered(w: World, tx: Tx) {
    exists a :: tx.passed <= a < |tx.players| && 0 <= a && Active(w.tickets, tx.players[a], tx.start)
  }

  lemma LockNext(run: Run, id: nat, tx: Tx, key: LockKey) returns (later: Run)
    requires Lone(After(run, key), id, tx) && tx.passed < |tx.players|
    ensures Continues(later, run) && After(later, key) == Put(After(run, key), id, tx.(locked := tx.passed + 1))
  {
    RunKeeps(run, key);
    assert TxOk(After(run, key).now, tx);
    if tx.locked == tx.passed {
      later := Then(run, Lock(id));
      ContinuesOne(run, Lock(id));
    } else {
      later := run;
      assert After(run, key).flight[id := tx] == After(run, key).flight;
    }
  }

  function Onward(tx: Tx): Tx { tx.(locked := tx.passed + 1, passed := tx.passed + 1) }

  lemma CheckNext(run: Run, id: nat, tx: Tx, key: LockKey) returns (later: Run)
    requires Lone(After(run, key), id, tx) && tx.passed < |tx.players|
    ensures Continues(later, run)
    ensures var w := After(run, key);
            After(later, key) == w.(flight := if Active(w.tickets, tx.players[tx.passed], tx.start) then map[] else map[id := Onward(tx)])
  {
    var w := After(run, key);
    var locked := LockNext(run, id, tx, key);
    later := Then(locked, Check(id));
    ContinuesOne(locked, Check(id));
    ContinuesOn(later, locked, run);
    assert After(locked, key) == w.(flight := map[id := tx.(locked := tx.passed + 1)]);
  }

  /** It locks and checks its remaining members: all of them, or up to the first active one. */
  lemma {:induction false} ChecksAll(run: Run, id: nat, tx: Tx, key: LockKey) returns (later: Run)
    requires Lone(After(run, key), id, tx)
    ensures Continues(later, run)
    ensures After(later, key) == After(run, key).(flight := if Hindered(After(run, key), tx) then map[] else map[id := Through(tx)])
    decreases |tx.players| - tx.passed
  {
    RunKeeps(run, key);
    var w := After(run, key);
    assert TxOk(w.now, tx);
    if tx.passed == |tx.players| {
      later := run;
    } else {
      var next := CheckNext(run, id, tx, key);
      if Active(w.tickets, tx.players[tx.passed], tx.start) {
        later := next;
      } else {
        assert Hindered(w, tx) == Hindered(w, Onward(tx)) && Hindered(After(next, key), Onward(tx)) == Hindered(w, Onward(tx));
        later := ChecksAll(next, id, Onward(tx), key);
        ContinuesOn(later, next, run);
      }
    }
  }

  /** It then queues its ticket, unless the id is taken. */
  lemma CommitsLast(run: Run, id: nat, tx: Tx, key: LockKey) returns (later: Run)
    requires Lone(After(run, key), id, tx) && tx.passed == |tx.players| && tx.locked == |tx.players|
    ensures Continues(later, run)
    ensures var w := After(run, key);
            After(later, key) == World(if tx.ticketId in w.tickets then w.tickets else w.tickets[tx.ticketId := Row(tx.players, Queued, tx.expires)],
                                       map[], w.now)
  {
    RunKeeps(run, key);
    var w := After(run, key);
    var inserted := Then(run, Insert(id));
    later := Then(inserted, End(id));
    ContinuesOne(run, Insert(id));
    ContinuesOne(inserted, End(id));
    ContinuesOn(later, inserted, run);
    assert !IdPending(w, id, tx.ticketId);
    if tx.ticketId in w.tickets {
      assert !tx.inserted && After(inserted, key) == w.(flight := map[]);
    } else {
      assert After(inserted, key) == w.(flight := map[id := tx.(inserted := true)]);
    }
  }

  /** MAIN RESULT. A creation that runs alone ends as the store's `Create` does. */
  lemma CreatesAlone(run: Run, id: nat, ticketId: string, r: Request, actor: string, key: LockKey) returns (later: Run)
    requires After(run, key).flight == map[]
    ensures Continues(later, run)
    ensures var w := After(run, key);
            var ok := Acceptable(r, actor, w.now) && ticketId !in w.tickets && NoneActive(w.tickets, r.players, w.now);
            After(later, key) == World(if ok then w.tickets[ticketId := Row(Sorted(StringLess, r.players), Queued, r.expires)] else w.tickets,
                                       map[], w.now)
  {
    var w := After(run, key);
    var begun := Then(run, Begin(id, ticketId, r, actor));
    ContinuesOne(run, Begin(id, ticketId, r, actor));
    if !Acceptable(r, actor, w.now) {
      later := begun;
    } else {
      var tx := Tx(ticketId, Sorted(StringLess, r.players), r.expires, w.now, 0, 0, false);
      assert Lone(After(begun, key), id, tx);
      var checked := ChecksAll(begun, id, tx, key);
      ContinuesOn(checked, begun, run);
      SortedNoneActive(w.tickets, r.players, w.now);
      assert Hindered(w, tx) <==> !NoneActive(w.tickets, tx.players, w.now);
      assert Hindered(After(begun, key), tx) == Hindered(w, tx);
      if Hindered(w, tx) {
        later := checked;
      } else {
        later := CommitsLast(checked, id, Through(tx), key);
        ContinuesOn(later, checked, run);
      }
    }
  }

  // ---------------------------------------------------------------- the exact condition over runs

  /** A creation that an unexpired ticket has overtaken can go on to give a player a second live ticket. */
  lemma OvertakenBreaks(run: Run, id: nat, s: string, key: LockKey) returns (later: Run)
    requires id in After(run, key).flight && Overtaken(After(run, key), After(run, key).flight[id], s)
    ensures Continues(later, run) && !OneActive(After(later, key).tickets, After(later, key).now)
  {
    var w := After(run, key);
    var tx := w.flight[id];
    RunKeeps(run, key);
    assert TxOk(w.now, tx);
    var alone := CrashOthers(run, id, key);
    var calm := CancelOthers(alone, s, key);
    ContinuesOn(calm, alone, run);
    var w1 := After(calm, key);
    assert !Hindered(w1, tx);
    var checked := ChecksAll(calm, id, tx, key);
    ContinuesOn(checked, calm, run);
    later := CommitsLast(checked, id, Through(tx), key);
    ContinuesOn(later, checked, run);
    var w2 := After(later, key);
    var a :| 0 <= a < tx.passed && a < |tx.players| && tx.players[a] in w.tickets[s].players;
    assert InQueue(w2.tickets, s, tx.players[a]) && InQueue(w2.tickets, tx.ticketId, tx.players[a]) && s != tx.ticketId;
  }

  lemma UnsafeBreaks(run: Run, t: string, key: LockKey) returns (later: Run)
    requires !MayReturn(After(run, key), t)
    ensures Continues(later, Then(run, Requeue(t))) && !OneActive(After(later, key).tickets, After(later, key).now)
  {
    var w := After(run, key);
    var back := Then(run, Requeue(t));
    if MeetsLive(w, t) {
      RequeueKeepsIff(w, t, key);
      later := back;
    } else {
      var i :| i in w.flight && Checked(w, w.flight[i], w.tickets[t].players);
      assert Overtaken(After(back, key), w.flight[i], t);
      later := OvertakenBreaks(back, i, t, key);
    }
  }

  /** At every moment of the run, and however it may go on from there without another requeue, no player has
      two live tickets. */
  ghost predicate AlwaysOneActive(run: Run, key: LockKey) {
    forall earlier, later :: Extends(run, earlier) && Continues(later, earlier) ==> OneActive(After(later, key).tickets, After(later, key).now)
  }

  lemma {:induction false} ContinuesSafely(later: Run, earlier: Run, key: LockKey)
    requires SafeRun(earlier, key) && Continues(later, earlier)
    ensures SafeRun(later, key)
  {
    if later != earlier {
      ContinuesSafely(later.past, earlier, key);
    }
  }

  lemma {:induction false} SafeFromStart(run: Run, earlier: Run, key: LockKey)
    requires SafeRun(run, key) && Extends(run, earlier)
    ensures SafeRun(earlier, key)
  {
    if run != earlier {
      SafeFromStart(run.past, earlier, key);
    }
  }

  lemma {:induction false} UnsafeMoment(run: Run, key: LockKey) returns (earlier: Run, later: Run)
    requires !SafeRun(run, key)
    ensures Extends(run, earlier) && Continues(later, earlier) && !OneActive(After(later, key).tickets, After(later, key).now)
  {
    if SafeRun(run.past, key) {
      earlier := run;
      later := UnsafeBreaks(run.past, run.step.ticketId, key);
    } else {
      earlier, later := UnsafeMoment(run.past, key);
    }
  }

  /** MAIN RESULT. No player ever has two live tickets, in a run and however its moments may go on, exactly when
      every ticket a worker puts back was not matching or has expired, or meets neither a live ticket nor a
      creation that is past its check of a shared member, will be unexpired, has a new id and has no shared
      member left to check. */
  lemma AlwaysOneActiveIff(run: Run, key: LockKey)
    ensures AlwaysOneActive(run, key) <==> SafeRun(run, key)
  {
    if SafeRun(run, key) {
      forall earlier, later | Extends(run, earlier) && Continues(later, earlier)
        ensures OneActive(After(later, key).tickets, After(later, key).now)
      {
        SafeFromStart(run, earlier, key);
        ContinuesSafely(later, earlier, key);
        OneActiveTicket(later, key);
      }
    } else {
      var earlier, later := UnsafeMoment(run, key);
    }
  }

  // ---------------------------------------------------------------- a player with two tickets

  function Solo(p: string): Request { Request("g", "e", "m", "b", "r", 1, 1, [p], 10) }

  lemma SoloIsFine(p: string)
    requires !Roster.Blank(p)
    ensures Acceptable(Solo(p), p, 0) && Sorted(StringLess, [p]) == [p]
  {
    LettersNotBlank();
    SortedFixed(StringLess, [p]);
    assert [p][0] == p;
  }

  lemma CreatesSolo(run: Run, ticketId: string, p: string, key: LockKey) returns (later: Run)
    requires !Roster.Blank(p) && After(run, key).flight == map[] && After(run, key).now == 0
    requires ticketId !in After(run, key).tickets && !Active(After(run, key).tickets, p, 0)
    ensures After(later, key) == After(run, key).(tickets := After(run, key).tickets[ticketId := Row([p], Queued, 10)])
  {
    SoloIsFine(p);
    later := CreatesAlone(run, 0, ticketId, Solo(p), p, key);
    assert forall i :: 0 <= i < |Solo(p).players| ==> Solo(p).players[i] == p;
  }

  /** Any player gets a second live ticket by asking for one while a worker has claimed the first; the worker
      then puts the first one back. */
  lemma RequeueBreaks(p: string, key: LockKey) returns (run: Run)
    requires !Roster.Blank(p)
    ensures !OneActive(After(run, key).tickets, After(run, key).now)
  {
    var first := CreatesSolo(Nil, "s", p, key);
    var claimed := Then(first, Claim("s"));
    assert After(claimed, key) == World(map["s" := Row([p], Matching, 10)], map[], 0);
    var second := CreatesSolo(claimed, "t", p, key);
    run := Then(second, Requeue("s"));
    var tickets := map["s" := Row([p], Queued, 10), "t" := Row([p], Queued, 10)];
    assert After(run, key) == World(tickets, map[], 0);
    assert [p][0] == p && InQueue(tickets, "s", p) && InQueue(tickets, "t", p);
  }
}
