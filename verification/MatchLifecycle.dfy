/** The life of one match under transactions that interleave statement by statement: result finalizers,
conflict reports, starts, abandons and the two stale-match recoveries.

An UPDATE of the match row takes its row lock until the transaction ends and waits for it first; an INSERT
of a result waits for an uncommitted one with the same key; nothing uncommitted is seen by others. */
module MatchLifecycle {
  import opened Matches

  datatype Event = ResultAccepted(sequence: int, digest: string) | MatchCompleted(sequence: int, digest: string)
                 | MatchFailed | MatchAbandoned

  datatype Conflict = Conflict(sequence: int, accepted: string, conflicting: string)

  datatype Task = Submitting(sequence: int, digest: string) | Disputing(conflict: Conflict) | Writing(writer: Writer)

  /** How far a transaction has come. */
  datatype Stage = Begun | Inserted | Marked | Announced | Rewarded | Closed | Finished

  /** `row` is the match row as the transaction has rewritten it; it holds the row lock while there is one. */
  datatype Pending = Unlocked | Locked(row: Status)

  datatype Tx = Tx(task: Task, stage: Stage, row: Pending, events: multiset<Event>)

  datatype Life = Life(row: Status, results: map<int, string>, conflicts: set<Conflict>, events: multiset<Event>,
                       flight: map<nat, Tx>)

  /** A match as the worker creates it. */
  const CREATED := Life(Status(Matched, 1), map[], {}, multiset{}, map[])

  // ---------------------------------------------------------------- statements

  datatype Step = Begin(id: nat, task: Task) | Insert(id: nat) | Mark(id: nat) | Announce(id: nat) | Reward(id: nat, paid: bool)
                | Close(id: nat) | Publish(id: nat) | End(id: nat) | Crash(id: nat)

  predicate RowFree(s: Life, id: nat) {
    forall j :: j in s.flight && j != id ==> s.flight[j].row.Unlocked?
  }

  /** Whether another transaction has inserted a result under this sequence and not ended. */
  predicate ResultPending(s: Life, id: nat, sequence: int) {
    exists j :: j in s.flight && j != id && HoldsResult(s.flight[j], sequence)
  }

  predicate HoldsResult(tx: Tx, sequence: int) {
    tx.task.Submitting? && tx.task.sequence == sequence && tx.stage != Begun
  }

  function Put(s: Life, id: nat, tx: Tx): Life { s.(flight := s.flight[id := tx]) }

  function Drop(s: Life, id: nat): Life { s.(flight := s.flight - {id}) }

  /** INSERT of the result, or of the conflict. A result already stored ends the finalizer: the same digest
      is a duplicate, another one rolls back and opens a conflict report. */
  function InsertStep(s: Life, id: nat, tx: Tx): Life {
    match tx.task
    case Writing(_) => s
    case Disputing(_) => if tx.stage == Begun then Put(s, id, tx.(stage := Inserted)) else s
    case Submitting(q, digest) =>
      if tx.stage != Begun || ResultPending(s, id, q) then s
      else if q !in s.results then Put(s, id, tx.(stage := Inserted))
      else if s.results[q] == digest then Drop(s, id)
      else Put(s, id, Tx(Disputing(Conflict(q, s.results[q], digest)), Begun, Unlocked, multiset{}))
  }

  function EventsOf(w: Writer): multiset<Event> {
    if w.FailStale? then multiset{MatchFailed} else if w.AbandonStale? then multiset{MatchAbandoned} else multiset{}
  }

  /** The guarded UPDATE of the match row. Finding no row is an error for a finalizer and for a writer, but
      not for a conflict report. */
  function MarkStep(s: Life, id: nat, tx: Tx): Life {
    if !RowFree(s, id) then s
    else match tx.task
      case Submitting(_, _) =>
        if tx.stage != Inserted then s
        else if Enabled(s.row, Finalize) then Put(s, id, tx.(stage := Marked, row := Locked(Written(s.row, Finalize))))
        else Drop(s, id)
      case Disputing(_) =>
        if tx.stage != Inserted then s
        else if Enabled(s.row, Dispute) then Put(s, id, tx.(stage := Finished, row := Locked(Written(s.row, Dispute))))
        else Put(s, id, tx.(stage := Finished))
      case Writing(w) =>
        if tx.stage != Begun then s
        else if Enabled(s.row, w) then Put(s, id, Tx(tx.task, Finished, Locked(Written(s.row, w)), EventsOf(w)))
        else Drop(s, id)
  }

  predicate AtStage(tx: Tx, stage: Stage) { tx.task.Submitting? && tx.stage == stage }

  function Announcing(tx: Tx): Tx
    requires tx.task.Submitting?
  {
    tx.(stage := Announced, events := tx.events + multiset{ResultAccepted(tx.task.sequence, tx.task.digest)})
  }

  /** UPDATE to Completed, guarded by Finalizing; its row count is not looked at. */
  function Closing(tx: Tx): Tx
    requires tx.row.Locked?
  {
    tx.(stage := Closed, row := if Enabled(tx.row.row, Complete) then Locked(Written(tx.row.row, Complete)) else tx.row)
  }

  function Publishing(tx: Tx): Tx
    requires tx.task.Submitting?
  {
    tx.(stage := Finished, events := tx.events + multiset{MatchCompleted(tx.task.sequence, tx.task.digest)})
  }

  function EndStep(s: Life, id: nat, tx: Tx): Life {
    if tx.stage != Finished then s
    else
      Life(if tx.row.Locked? then tx.row.row else s.row,
           if tx.task.Submitting? then s.results[tx.task.sequence := tx.task.digest] else s.results,
           if tx.task.Disputing? then s.conflicts + {tx.task.conflict} else s.conflicts,
           s.events + tx.events, s.flight - {id})
  }

  /** The statements a client can open a transaction with; conflict reports start only from a finalizer. */
  predicate CanBegin(task: Task) {
    || (task.Submitting? && task.sequence >= 1)
    || (task.Writing? && !task.writer.Finalize? && !task.writer.Complete? && !task.writer.Dispute?)
  }

  function Apply(s: Life, step: Step): Life {
    if step.Begin? then
      if step.id in s.flight || !CanBegin(step.task) then s else Put(s, step.id, Tx(step.task, Begun, Unlocked, multiset{}))
    else if step.id !in s.flight then s
    else
      var tx := s.flight[step.id];
      match step
      case Insert(id) => InsertStep(s, id, tx)
      case Mark(id) => MarkStep(s, id, tx)
      case Announce(id) => if AtStage(tx, Marked) then Put(s, id, Announcing(tx)) else s
      case Reward(id, paid) => // a refused reward rolls the finalization back
        if !AtStage(tx, Announced) then s else if paid then Put(s, id, tx.(stage := Rewarded)) else Drop(s, id)
      case Close(id) => if AtStage(tx, Rewarded) && tx.row.Locked? then Put(s, id, Closing(tx)) else s
      case Publish(id) => if AtStage(tx, Closed) then Put(s, id, Publishing(tx)) else s
      case End(id) => EndStep(s, id, tx)
      case Crash(id) => Drop(s, id)
  }

  datatype Run = Nil | Then(past: Run, step: Step)

  function After(run: Run): Life {
    match run
    case Nil => CREATED
    case Then(past, step) => Apply(After(past), step)
  }

  // ---------------------------------------------------------------- the invariant

  function Occurs(b: bool): nat { if b then 1 else 0 }

  /** What the committed tables look like between transactions. */
  ghost predicate Consistent(s: Life) {
    && !s.row.state.Finalizing?
    && s.row.state !in {Queued, Cancelled}
    && (s.results != map[] <==> s.row.state in {Completed, Disputed})
    && (forall a, b :: a in s.results && b in s.results ==> a == b)
    && (forall q, d :: s.events[ResultAccepted(q, d)] == Occurs(q in s.results && s.results[q] == d))
    && (forall q, d :: s.events[MatchCompleted(q, d)] == Occurs(q in s.results && s.results[q] == d))
    && (forall c :: c in s.conflicts ==> Genuine(s.results, c))
    && (s.row.state.Disputed? ==> s.conflicts != {})
  }

  predicate Genuine(results: map<int, string>, c: Conflict) {
    c.sequence in results && results[c.sequence] == c.accepted && c.accepted != c.conflicting
  }

  /** What an uncommitted finalizer has done by each stage. */
  predicate FinalizerOk(row: Status, tx: Tx)
    requires tx.task.Submitting?
  {
    var accepted, completed := ResultAccepted(tx.task.sequence, tx.task.digest), MatchCompleted(tx.task.sequence, tx.task.digest);
    var finalizing := Status(State.Finalizing, row.version + 1);
    match tx.stage
    case Begun => tx.row == Unlocked && tx.events == multiset{}
    case Inserted => tx.row == Unlocked && tx.events == multiset{}
    case Marked => row.state.Running? && tx.row == Locked(finalizing) && tx.events == multiset{}
    case Announced => row.state.Running? && tx.row == Locked(finalizing) && tx.events == multiset{accepted}
    case Rewarded => row.state.Running? && tx.row == Locked(finalizing) && tx.events == multiset{accepted}
    case Closed => row.state.Running? && tx.row == Locked(Status(Completed, row.version + 2)) && tx.events == multiset{accepted}
    case Finished => row.state.Running? && tx.row == Locked(Status(Completed, row.version + 2)) && tx.events == multiset{accepted, completed}
  }

  predicate DisputeOk(row: Status, results: map<int, string>, tx: Tx)
    requires tx.task.Disputing?
  {
    && Genuine(results, tx.task.conflict) && tx.events == multiset{} && tx.stage in {Begun, Inserted, Finished}
    && (tx.row.Locked? ==> tx.stage == Finished && row.state.Completed? && tx.row.row == Status(Disputed, row.version + 1))
  }

  predicate WriterOk(row: Status, tx: Tx)
    requires tx.task.Writing?
  {
    && CanBegin(tx.task) && tx.stage in {Begun, Finished}
    && (tx.stage == Begun ==> tx.row.Unlocked? && tx.events == multiset{})
    && (tx.stage == Finished ==> Enabled(row, tx.task.writer) && tx.row == Locked(Written(row, tx.task.writer))
                                 && tx.events == EventsOf(tx.task.writer))
  }

  predicate TxOk(row: Status, results: map<int, string>, tx: Tx) {
    match tx.task
    case Submitting(_, _) => FinalizerOk(row, tx)
    case Disputing(_) => DisputeOk(row, results, tx)
    case Writing(_) => WriterOk(row, tx)
  }

  predicate OneLock(s: Life) {
    forall i, j :: i in s.flight && j in s.flight && i != j ==> s.flight[i].row.Unlocked? || s.flight[j].row.Unlocked?
  }

  predicate AllOk(s: Life) {
    forall i :: i in s.flight ==> TxOk(s.row, s.results, s.flight[i])
  }

  ghost predicate Inv(s: Life) { Consistent(s) && AllOk(s) && OneLock(s) }

  // ---------------------------------------------------------------- each statement keeps it

  lemma PutKeeps(s: Life, id: nat, tx: Tx)
    requires Inv(s) && TxOk(s.row, s.results, tx) && (tx.row.Locked? ==> RowFree(s, id))
    ensures Inv(Put(s, id, tx))
  {}

  lemma DropKeeps(s: Life, id: nat)
    requires Inv(s)
    ensures Inv(Drop(s, id))
  {}

  lemma FinalizerStages(row: Status, tx: Tx)
    requires tx.task.Submitting? && FinalizerOk(row, tx)
    ensures tx.stage == Marked ==> FinalizerOk(row, Announcing(tx))
    ensures tx.stage == Announced ==> FinalizerOk(row, tx.(stage := Rewarded))
    ensures tx.stage == Rewarded ==> FinalizerOk(row, Closing(tx))
    ensures tx.stage == Closed ==> FinalizerOk(row, Publishing(tx))
  {}

  lemma MarkedOk(s: Life, tx: Tx)
    requires Consistent(s) && TxOk(s.row, s.results, tx)
    ensures AtStage(tx, Inserted) && Enabled(s.row, Finalize) ==>
              FinalizerOk(s.row, tx.(stage := Marked, row := Locked(Written(s.row, Finalize))))
    ensures tx.task.Disputing? && tx.stage == Inserted && Enabled(s.row, Dispute) ==>
              DisputeOk(s.row, s.results, tx.(stage := Finished, row := Locked(Written(s.row, Dispute))))
    ensures tx.task.Writing? && tx.stage == Begun && Enabled(s.row, tx.task.writer) ==>
              WriterOk(s.row, Tx(tx.task, Finished, Locked(Written(s.row, tx.task.writer)), EventsOf(tx.task.writer)))
  {}

  lemma InsertKeeps(s: Life, id: nat)
    requires Inv(s) && id in s.flight
    ensures Inv(InsertStep(s, id, s.flight[id]))
  {
    var tx := s.flight[id];
    var s' := InsertStep(s, id, tx);
    if id !in s'.flight {
      DropKeeps(s, id);
    } else if s' != s {
      PutKeeps(s, id, s'.flight[id]);
    }
  }

  lemma MarkKeeps(s: Life, id: nat)
    requires Inv(s) && id in s.flight
    ensures Inv(MarkStep(s, id, s.flight[id]))
  {
    var tx := s.flight[id];
    var s' := MarkStep(s, id, tx);
    MarkedOk(s, tx);
    if id !in s'.flight {
      DropKeeps(s, id);
    } else if s' != s {
      PutKeeps(s, id, s'.flight[id]);
    }
  }

  lemma FinalizerKeeps(s: Life, step: Step)
    requires Inv(s) && (step.Announce? || step.Reward? || step.Close? || step.Publish?)
    ensures Inv(Apply(s, step))
  {
    if step.id in s.flight {
      var tx := s.flight[step.id];
      if tx.task.Submitting? {
        FinalizerStages(s.row, tx);
        var s' := Apply(s, step);
        if step.id !in s'.flight {
          DropKeeps(s, step.id);
        } else if s' != s {
          PutKeeps(s, step.id, s'.flight[step.id]);
        }
      }
    }
  }

  /** A transaction without the row lock does not depend on the row, and results only grow. */
  lemma UnlockedStays(row: Status, results: map<int, string>, row': Status, results': map<int, string>, tx: Tx)
    requires TxOk(row, results, tx) && tx.row.Unlocked?
    requires forall q :: q in results ==> q in results' && results'[q] == results[q]
    ensures TxOk(row', results', tx)
  {}

  lemma OthersStay(s: Life, s': Life, id: nat)
    requires Inv(s) && id in s.flight && s'.flight == s.flight - {id}
    requires s.flight[id].row.Locked? || s'.row == s.row
    requires forall q :: q in s.results ==> q in s'.results && s'.results[q] == s.results[q]
    ensures AllOk(s') && OneLock(s')
  {
    forall j | j in s'.flight ensures TxOk(s'.row, s'.results, s'.flight[j]) {
      if s.flight[j].row.Unlocked? {
        UnlockedStays(s.row, s.results, s'.row, s'.results, s.flight[j]);
      }
    }
  }

  lemma EndFinalizer(s: Life, id: nat)
    requires Inv(s) && id in s.flight && AtStage(s.flight[id], Finished)
    ensures Inv(EndStep(s, id, s.flight[id]))
  {
    OthersStay(s, EndStep(s, id, s.flight[id]), id);
  }

  lemma EndDispute(s: Life, id: nat)
    requires Inv(s) && id in s.flight && s.flight[id].task.Disputing?
    ensures Inv(EndStep(s, id, s.flight[id]))
  {
    if s.flight[id].stage == Finished {
      OthersStay(s, EndStep(s, id, s.flight[id]), id);
    }
  }

  lemma WriterTargets(w: Writer, row: Status)
    requires CanBegin(Writing(w)) && Enabled(row, w)
    ensures Target(w) !in {State.Finalizing, Completed, Disputed, Queued, Cancelled} && row.state !in {Completed, Disputed}
    ensures forall q, d :: EventsOf(w)[ResultAccepted(q, d)] == 0 && EventsOf(w)[MatchCompleted(q, d)] == 0
  {}

  lemma EndWriter(s: Life, id: nat)
    requires Inv(s) && id in s.flight && s.flight[id].task.Writing?
    ensures Inv(EndStep(s, id, s.flight[id]))
  {
    var tx := s.flight[id];
    if tx.stage == Finished {
      var s' := EndStep(s, id, tx);
      OthersStay(s, s', id);
      WriterTargets(tx.task.writer, s.row);
      assert s'.row.state == Target(tx.task.writer) && s'.results == s.results == map[];
      assert s'.events == s.events + EventsOf(tx.task.writer) && s'.conflicts == s.conflicts;
    }
  }

  lemma StepKeeps(s: Life, step: Step)
    requires Inv(s)
    ensures Inv(Apply(s, step))
  {
    match step
    case Begin(id, task) => if id !in s.flight && CanBegin(task) { PutKeeps(s, id, Tx(task, Begun, Unlocked, multiset{})); }
    case Insert(id) => if id in s.flight { InsertKeeps(s, id); }
    case Mark(id) => if id in s.flight { MarkKeeps(s, id); }
    case End(id) =>
      if id in s.flight && s.flight[id].stage == Finished {
        match s.flight[id].task
        case Submitting(_, _) => EndFinalizer(s, id);
        case Disputing(_) => EndDispute(s, id);
        case Writing(_) => EndWriter(s, id);
      }
    case Crash(id) => DropKeeps(s, id);
    case _ => FinalizerKeeps(s, step);
  }

  lemma {:induction false} RunKeeps(run: Run)
    ensures Inv(After(run))
  {
    if run.Then? {
      RunKeeps(run.past);
      StepKeeps(After(run.past), run.step);
    }
  }

  // ---------------------------------------------------------------- results

  /** MAIN RESULT. Under every interleaving, crashes included, a committed match is never Finalizing; it has
      at most one result, and has one exactly when it is Completed or Disputed; there is exactly one
      result-accepted and one match-completed event for that result and none for any other. */
  lemma OneResult(run: Run)
    ensures var s := After(run);
            && !s.row.state.Finalizing?
            && (forall a, b :: a in s.results && b in s.results ==> a == b)
            && (s.results != map[] <==> s.row.state in {Completed, Disputed})
            && (forall q, d :: s.events[ResultAccepted(q, d)] == Occurs(q in s.results && s.results[q] == d))
            && (forall q, d :: s.events[MatchCompleted(q, d)] == Occurs(q in s.results && s.results[q] == d))
  {
    RunKeeps(run);
  }

  /** MAIN RESULT. A Disputed match has a stored conflict, and every stored conflict sets a digest against
      a different one that is the accepted one. */
  lemma DisputedHasConflict(run: Run)
    ensures After(run).row.state.Disputed? ==> After(run).conflicts != {}
    ensures forall c :: c in After(run).conflicts ==> Genuine(After(run).results, c)
  {
    RunKeeps(run);
  }

  /** The committed changes, a finalizer's two writes counted as one. */
  ghost predicate CommittedChange(from: State, to: State) {
    || Declared(from, to)
    || (from == Running && to == Completed && Declared(Running, State.Finalizing) && Declared(State.Finalizing, Completed))
    || (from == Ready && to == Abandoned) || (from == Completed && to == Disputed) || (from == Running && to == Running)
  }

  lemma WriterChange(row: Status, w: Writer)
    requires CanBegin(Writing(w)) && Enabled(row, w)
    ensures CommittedChange(row.state, Target(w)) && Rank(row.state) <= Rank(Target(w)) && !Final(row.state)
  {
    WritersVersusTable(row.state, w);
  }

  /** What a commit may do: leave the row alone, or raise its version, not lower its rank, move it along the
      declared table or one of three further pairs, and not from a final state; Completed is left only for
      Disputed; stored results and conflicts stay. */
  ghost predicate Forward(before: Life, after: Life) {
    && (after.row != before.row ==>
        && after.row.version > before.row.version
        && CommittedChange(before.row.state, after.row.state)
        && Rank(before.row.state) <= Rank(after.row.state)
        && !Final(before.row.state)
        && (before.row.state.Completed? ==> after.row.state.Disputed?))
    && (forall q :: q in before.results ==> q in after.results && after.results[q] == before.results[q])
    && before.conflicts <= after.conflicts
  }

  lemma FinalizerEndsForward(s: Life, id: nat)
    requires Inv(s) && id in s.flight && AtStage(s.flight[id], Finished)
    ensures Forward(s, EndStep(s, id, s.flight[id]))
  {
    assert Transition(Running, "finalize") == To(State.Finalizing) && Transition(State.Finalizing, "complete") == To(Completed);
  }

  lemma OtherEndsForward(s: Life, id: nat)
    requires Inv(s) && id in s.flight && !s.flight[id].task.Submitting?
    ensures Forward(s, EndStep(s, id, s.flight[id]))
  {
    var tx := s.flight[id];
    if tx.task.Writing? && tx.stage == Finished {
      WriterChange(s.row, tx.task.writer);
      WriterTargets(tx.task.writer, s.row);
    }
  }

  /** MAIN RESULT. Every step of every run moves the committed match forward. */
  lemma StepMovesForward(run: Run, step: Step)
    ensures Forward(After(run), After(Then(run, step)))
  {
    RunKeeps(run);
    var s := After(run);
    if step.End? && step.id in s.flight && s.flight[step.id].stage == Finished {
      if s.flight[step.id].task.Submitting? {
        FinalizerEndsForward(s, step.id);
      } else {
        OtherEndsForward(s, step.id);
      }
    } else {
      OnlyEndCommits(s, step);
    }
  }

  lemma OnlyEndCommits(s: Life, step: Step)
    requires step.End? ==> step.id !in s.flight || s.flight[step.id].stage != Finished
    ensures var s' := Apply(s, step);
            s'.row == s.row && s'.results == s.results && s'.conflicts == s.conflicts && s'.events == s.events
  {}

  predicate Extends(later: Run, earlier: Run) {
    later == earlier || (later.Then? && Extends(later.past, earlier))
  }

  /** Over whole runs: rank and version never go back, a final state and an accepted result stay for good. */
  lemma {:induction false} NeverBack(earlier: Run, later: Run)
    requires Extends(later, earlier)
    ensures Rank(After(earlier).row.state) <= Rank(After(later).row.state)
    ensures After(earlier).row.version <= After(later).row.version
    ensures Final(After(earlier).row.state) ==> After(later).row == After(earlier).row
    ensures forall q :: q in After(earlier).results ==> q in After(later).results && After(later).results[q] == After(earlier).results[q]
  {
    if later != earlier {
      NeverBack(earlier, later.past);
      StepMovesForward(later.past, later.step);
    }
  }

  // ---------------------------------------------------------------- what undisturbed transactions achieve

  /** From a mark on, a finalizer that is paid and not interrupted closes the match, whoever else is in flight. */
  lemma MarkedCloses(s: Life, id: nat, tx: Tx)
    requires id in s.flight && s.flight[id] == tx && AtStage(tx, Marked) && tx.events == multiset{}
    requires tx.row == Locked(Status(State.Finalizing, s.row.version + 1))
    ensures var s' := Apply(Apply(Apply(Apply(Apply(s, Announce(id)), Reward(id, true)), Close(id)), Publish(id)), End(id));
            && s'.row == Status(Completed, s.row.version + 2)
            && s'.results == s.results[tx.task.sequence := tx.task.digest]
            && s'.flight == s.flight - {id} && s'.conflicts == s.conflicts
            && s'.events == s.events + multiset{ResultAccepted(tx.task.sequence, tx.task.digest), MatchCompleted(tx.task.sequence, tx.task.digest)}
  {
    PaidAfterMark(s, id, tx);
    var paid := Announcing(tx).(stage := Rewarded);
    var s2 := Put(s, id, paid);
    var s4 := Put(s, id, Publishing(Closing(paid)));
    assert s4 == Put(Put(s2, id, Closing(paid)), id, Publishing(Closing(paid)));
    assert Apply(Apply(s2, Close(id)), Publish(id)) == s4;
    assert s4.flight - {id} == s.flight - {id};
  }

  lemma PaidAfterMark(s: Life, id: nat, tx: Tx)
    requires id in s.flight && s.flight[id] == tx && AtStage(tx, Marked)
    ensures Apply(Apply(s, Announce(id)), Reward(id, true)) == Put(s, id, Announcing(tx).(stage := Rewarded))
  {
    var s1 := Put(s, id, Announcing(tx));
    assert Apply(s, Announce(id)) == s1;
    assert Put(s1, id, Announcing(tx).(stage := Rewarded)) == Put(s, id, Announcing(tx).(stage := Rewarded));
  }

  /** A finalizer can be marked in any state with a free row and no result under its sequence if and only if
      the match is Running. */
  lemma FinalizerMarksIff(s: Life, id: nat, q: int, digest: string)
    requires Inv(s) && id !in s.flight && RowFree(s, id) && q >= 1 && !ResultPending(s, id, q) && q !in s.results
    ensures var s' := Apply(Apply(Apply(s, Begin(id, Submitting(q, digest))), Insert(id)), Mark(id));
            if s.row.state.Running?
            then s' == Put(s, id, Tx(Submitting(q, digest), Marked, Locked(Status(State.Finalizing, s.row.version + 1)), multiset{}))
            else s' == s
  {
    var tx := Tx(Submitting(q, digest), Begun, Unlocked, multiset{});
    var s1 := Apply(s, Begin(id, Submitting(q, digest)));
    assert s1 == Put(s, id, tx);
    assert !ResultPending(s1, id, q);
    var s2 := Apply(s1, Insert(id));
    assert s2 == Put(s, id, tx.(stage := Inserted));
    assert RowFree(s2, id);
    assert s.flight[id := tx.(stage := Inserted)] - {id} == s.flight;
  }

  /** A finalizer that meets a stored result of another digest ends with a filed conflict, and a Completed
      match becomes Disputed. */
  lemma ConflictDisputes(s: Life, id: nat, q: int, digest: string)
    requires id !in s.flight && RowFree(s, id) && q >= 1 && !ResultPending(s, id, q)
    requires q in s.results && s.results[q] != digest && s.row.state.Completed?
    ensures var s' := Apply(Apply(Apply(Apply(Apply(s, Begin(id, Submitting(q, digest))), Insert(id)), Insert(id)), Mark(id)), End(id));
            && s'.row == Status(Disputed, s.row.version + 1) && s'.results == s.results
            && s'.conflicts == s.conflicts + {Conflict(q, s.results[q], digest)} && s'.flight == s.flight && s'.events == s.events
  {
    var c := Conflict(q, s.results[q], digest);
    var s1 := Put(s, id, Tx(Submitting(q, digest), Begun, Unlocked, multiset{}));
    assert Apply(s, Begin(id, Submitting(q, digest))) == s1 && !ResultPending(s1, id, q);
    var s2 := Put(s, id, Tx(Disputing(c), Begun, Unlocked, multiset{}));
    assert s2 == Put(s1, id, Tx(Disputing(c), Begun, Unlocked, multiset{}));
    assert Apply(s1, Insert(id)) == s2;
    DisputeCommits(s, id, c);
  }

  lemma DisputeCommits(s: Life, id: nat, c: Conflict)
    requires id !in s.flight && RowFree(s, id) && s.row.state.Completed?
    ensures var s' := Apply(Apply(Apply(Put(s, id, Tx(Disputing(c), Begun, Unlocked, multiset{})), Insert(id)), Mark(id)), End(id));
            && s'.row == Status(Disputed, s.row.version + 1) && s'.results == s.results
            && s'.conflicts == s.conflicts + {c} && s'.flight == s.flight && s'.events == s.events
  {
    var s2 := Put(s, id, Tx(Disputing(c), Begun, Unlocked, multiset{}));
    var s3 := Put(s, id, Tx(Disputing(c), Inserted, Unlocked, multiset{}));
    assert Put(s2, id, s3.flight[id]) == s3;
    assert Apply(s2, Insert(id)) == s3 && RowFree(s3, id);
    var s4 := Put(s, id, Tx(Disputing(c), Finished, Locked(Status(Disputed, s.row.version + 1)), multiset{}));
    assert Put(s3, id, s4.flight[id]) == s4;
    assert Apply(s3, Mark(id)) == s4 && s4.flight - {id} == s.flight;
  }
}
