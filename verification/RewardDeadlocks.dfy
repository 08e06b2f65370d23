/** Claims never wait for each other in a circle: neither those of commands, whatever they collide on, nor
those of match results, which claim for their players in sorted order. */
module RewardDeadlocks {
  import opened Ordering
  import opened RewardClaims

  // ---------------------------------------------------------------- one claim in a transaction

  /** A command makes one claim in its transaction. */
  predicate RunOfCommands(run: Run) {
    run.Then? ==> RunOfCommands(run.past) && (run.step.Begin? ==> |run.step.claims| == 1)
  }

  predicate CommandTx(tx: Tx) {
    && |tx.todo| <= 1
    && (tx.todo != [] && tx.stage == Fresh ==> tx.held == {})
    && (tx.todo != [] && !tx.stage.Paying? ==> tx.rows == map[])
    && (tx.todo == [] ==> tx.stage == Fresh)
    && (tx.stage == Locked || tx.stage == Checked ==> tx.todo != [])
  }

  ghost predicate AllCommands(s: State) {
    forall i :: i in s.flight ==> CommandTx(s.flight[i])
  }

  lemma CommandStep(s: State, step: Step, key: LockKey)
    requires AllCommands(s) && (step.Begin? ==> |step.claims| == 1)
    ensures AllCommands(Apply(s, step, key))
  {
    if !step.Begin? && step.id in s.flight {
      var tx := s.flight[step.id];
      assert CommandTx(LockStep(s, step.id, tx, key)) && CommandTx(PayStep(tx)) && CommandTx(FinishStep(tx));
      assert CommandTx(CheckStep(s, tx));
      assert CommandTx(InsertStep(s, step.id, tx));
    }
  }

  lemma {:induction false} CommandsStayCommands(run: Run, key: LockKey)
    requires RunOfCommands(run)
    ensures AllCommands(After(run, key))
  {
    if run.Then? {
      CommandsStayCommands(run.past, key);
      CommandStep(After(run.past, key), run.step, key);
    }
  }

  lemma FreshMoves(s: State, i: nat, key: LockKey) returns (step: Step)
    requires AllCommands(s) && i in s.flight && s.flight[i].todo != [] && s.flight[i].stage == Fresh
    requires forall j :: j in s.flight ==> s.flight[j].todo != [] && s.flight[j].stage == Fresh
    ensures !step.Begin? && !step.Rollback? && Apply(s, step, key) != s
  {
    var c := s.flight[i].todo[0];
    assert NobodyInserting(s, i, c) && Free(s, i, key(c.player, c.reward));
    step := if c.once then Lock(i) else Insert(i);
    var tx := Apply(s, step, key).flight[i];
    assert tx.stage != Fresh || |tx.todo| < |s.flight[i].todo|;
  }

  lemma CheckedMoves(s: State, i: nat, key: LockKey)
    requires AllCommands(s) && i in s.flight && s.flight[i].stage == Checked
    requires forall j :: j in s.flight ==> s.flight[j].todo != [] && !s.flight[j].stage.Paying?
    ensures Apply(s, Insert(i), key) != s
  {
    assert NobodyInserting(s, i, s.flight[i].todo[0]);
    assert Apply(s, Insert(i), key).flight[i].stage != Checked;
  }

  /** While any command's claim is in flight, one of them can take its next statement (or commit): the
      advisory lock and the waits for uncommitted rows never form a cycle. */
  lemma CommandsNeverDeadlock(run: Run, key: LockKey) returns (step: Step)
    requires RunOfCommands(run) && After(run, key).flight != map[]
    ensures !step.Begin? && !step.Rollback? && Apply(After(run, key), step, key) != After(run, key)
  {
    CommandsStayCommands(run, key);
    var s := After(run, key);
    if i :| i in s.flight && s.flight[i].todo == [] {
      step := End(i);
      assert i !in Apply(s, step, key).flight;
    } else if i :| i in s.flight && s.flight[i].stage.Paying? {
      step := Finish(i);
      assert Apply(s, step, key).flight[i].stage == Fresh;
    } else if i :| i in s.flight && s.flight[i].stage == Checked {
      step := Insert(i);
      CheckedMoves(s, i, key);
    } else if i :| i in s.flight && s.flight[i].stage == Locked {
      step := Check(i);
      assert Apply(s, step, key).flight[i].stage != Locked;
    } else {
      var i :| i in s.flight;
      step := FreshMoves(s, i, key);
    }
  }

  // ---------------------------------------------------------------- claims in sorted player order

  /** The claims of one match result: for each roster player in order, the same reward. */
  predicate Rising(claims: seq<Claim>) {
    forall i, j :: 0 <= i < j < |claims| ==> StringLess(claims[i].player, claims[j].player)
  }

  function LogClaims(log: Log): set<Claim> {
    if log.Noted? then LogClaims(log.past) + {log.claim} else {}
  }

  function Named(claims: seq<Claim>): set<Claim> { set c | c in claims }

  function ClaimsIn(tx: Tx): set<Claim> { LogClaims(tx.log) + Named(tx.todo) }

  /** The claims decided, and the one being worked on. */
  function Reached(tx: Tx): set<Claim> {
    if tx.todo != [] && tx.stage != Fresh then LogClaims(tx.log) + {tx.todo[0]} else LogClaims(tx.log)
  }

  /** Claims that no key of a claim row brings together. */
  predicate Separate(a: Claim, b: Claim) { a.Key() != b.Key() && a.request != b.request }

  predicate AllSeparate(a: set<Claim>, b: set<Claim>) {
    forall c, d :: c in a && d in b ==> Separate(c, d)
  }

  /** Each transaction's claims rise, and share no source or request id with one in flight: two results of
      one match exclude each other before they get to their claims. */
  predicate RunRises(run: Run, key: LockKey) {
    run.Then? ==> RunRises(run.past, key) && (run.step.Begin? ==> BeginRises(After(run.past, key), run.step.claims))
  }

  predicate BeginRises(s: State, claims: seq<Claim>) {
    Rising(claims) && forall j :: j in s.flight ==> AllSeparate(Named(claims), ClaimsIn(s.flight[j]))
  }

  ghost predicate RowsFrom(rows: Rows, claims: set<Claim>) {
    forall k :: k in rows ==> exists c :: c in claims && c.Key() == k && c.request == rows[k]
  }

  ghost predicate HeldFrom(held: set<int>, claims: set<Claim>, key: LockKey) {
    forall h :: h in held ==> exists c :: c in claims && key(c.player, c.reward) == h
  }

  predicate LogBefore(log: Log, todo: seq<Claim>) {
    forall d, i :: d in LogClaims(log) && 0 <= i < |todo| ==> StringLess(d.player, todo[i].player)
  }

  ghost predicate TxRises(tx: Tx, key: LockKey) {
    && Rising(tx.todo) && LogBefore(tx.log, tx.todo)
    && RowsFrom(tx.rows, ClaimsIn(tx)) && HeldFrom(tx.held, Reached(tx), key)
    && (tx.todo == [] ==> tx.stage == Fresh)
  }

  ghost predicate Rises(s: State, key: LockKey) {
    && (forall i :: i in s.flight ==> TxRises(s.flight[i], key))
    && (forall i, j :: i in s.flight && j in s.flight && i != j ==> AllSeparate(ClaimsIn(s.flight[i]), ClaimsIn(s.flight[j])))
  }

  /** What a step may do to a transaction's claims: nothing, or decide the next one. */
  lemma NextRises(tx: Tx, granted: bool, key: LockKey)
    requires TxRises(tx, key) && tx.todo != []
    ensures TxRises(Next(tx, granted), key) && ClaimsIn(Next(tx, granted)) == ClaimsIn(tx)
  {
    var next, c := Next(tx, granted), tx.todo[0];
    assert forall i :: 0 <= i < |next.todo| ==> next.todo[i] == tx.todo[i + 1];
    assert tx.todo == [c] + next.todo;
    assert LogClaims(next.log) == LogClaims(tx.log) + {c};
    assert forall d :: d in Reached(tx) ==> d in Reached(next);
  }

  lemma LockRises(s: State, id: nat, tx: Tx, key: LockKey)
    requires TxRises(tx, key)
    ensures TxRises(LockStep(s, id, tx, key), key) && ClaimsIn(LockStep(s, id, tx, key)) == ClaimsIn(tx)
  {
    var tx' := LockStep(s, id, tx, key);
    if tx' != tx {
      forall h | h in tx'.held ensures exists c :: c in Reached(tx') && key(c.player, c.reward) == h {
        if h in tx.held {
          var c :| c in Reached(tx) && key(c.player, c.reward) == h;
          assert c in Reached(tx');
        } else {
          assert tx.todo[0] in Reached(tx');
        }
      }
    }
  }

  lemma InsertRises(s: State, id: nat, tx: Tx, key: LockKey)
    requires TxRises(tx, key)
    ensures TxRises(InsertStep(s, id, tx), key) && ClaimsIn(InsertStep(s, id, tx)) == ClaimsIn(tx)
  {
    var tx' := InsertStep(s, id, tx);
    if tx.todo != [] && tx' != tx {
      if tx' == Next(tx, false) {
        NextRises(tx, false, key);
      } else {
        assert tx.todo[0] in ClaimsIn(tx);
        forall k | k in tx'.rows ensures exists c :: c in ClaimsIn(tx) && c.Key() == k && c.request == tx'.rows[k] {
          if k != tx.todo[0].Key() { assert k in tx.rows; }
        }
        assert forall c :: c in Reached(tx) ==> c in Reached(tx');
      }
    }
  }

  lemma MoveRises(s: State, id: nat, tx: Tx, key: LockKey)
    requires TxRises(tx, key)
    ensures TxRises(CheckStep(s, tx), key) && ClaimsIn(CheckStep(s, tx)) == ClaimsIn(tx)
    ensures TxRises(PayStep(tx), key) && ClaimsIn(PayStep(tx)) == ClaimsIn(tx)
    ensures TxRises(FinishStep(tx), key) && ClaimsIn(FinishStep(tx)) == ClaimsIn(tx)
  {
    if tx.todo != [] {
      NextRises(tx, false, key);
      NextRises(tx, true, key);
    }
  }

  lemma ReplaceRises(s: State, id: nat, tx: Tx, key: LockKey)
    requires Rises(s, key) && id in s.flight && TxRises(tx, key) && ClaimsIn(tx) == ClaimsIn(s.flight[id])
    ensures Rises(s.(flight := s.flight[id := tx]), key)
  {}

  lemma SeparateSymmetric(a: set<Claim>, b: set<Claim>)
    requires AllSeparate(a, b)
    ensures AllSeparate(b, a)
  {
    forall d, c | d in b && c in a ensures Separate(d, c) {
      assert Separate(c, d);
    }
  }

  lemma BeginKeepsRising(s: State, id: nat, claims: seq<Claim>, key: LockKey)
    requires Rises(s, key) && BeginRises(s, claims)
    ensures Rises(Apply(s, Begin(id, claims), key), key)
  {
    if id !in s.flight {
      var tx := Tx(claims, Fresh, {}, map[], multiset{}, Empty);
      var s' := Apply(s, Begin(id, claims), key);
      assert ClaimsIn(tx) == Named(claims);
      assert TxRises(tx, key);
      forall i, j | i in s'.flight && j in s'.flight && i != j ensures AllSeparate(ClaimsIn(s'.flight[i]), ClaimsIn(s'.flight[j])) {
        if j == id { SeparateSymmetric(Named(claims), ClaimsIn(s.flight[i])); }
      }
    }
  }

  lemma StepRises(s: State, step: Step, key: LockKey)
    requires Rises(s, key) && (step.Begin? ==> BeginRises(s, step.claims))
    ensures Rises(Apply(s, step, key), key)
  {
    if step.Begin? {
      BeginKeepsRising(s, step.id, step.claims, key);
    } else if step.id in s.flight {
      var tx := s.flight[step.id];
      match step
      case Lock(id) => LockRises(s, id, tx, key); ReplaceRises(s, id, LockStep(s, id, tx, key), key);
      case Check(id) => MoveRises(s, id, tx, key); ReplaceRises(s, id, CheckStep(s, tx), key);
      case Insert(id) => InsertRises(s, id, tx, key); ReplaceRises(s, id, InsertStep(s, id, tx), key);
      case Pay(id) => MoveRises(s, id, tx, key); ReplaceRises(s, id, PayStep(tx), key);
      case Finish(id) => MoveRises(s, id, tx, key); ReplaceRises(s, id, FinishStep(tx), key);
      case End(_) =>
      case Rollback(_) =>
    }
  }

  lemma {:induction false} RunKeepsRising(run: Run, key: LockKey)
    requires RunRises(run, key)
    ensures Rises(After(run, key), key)
  {
    if run.Then? {
      RunKeepsRising(run.past, key);
      StepRises(After(run.past, key), run.step, key);
    }
  }

  predicate SameKey(c: Claim, d: Claim, key: LockKey) { key(c.player, c.reward) == key(d.player, d.reward) }

  /** A key shared by two claims is also that of any claim between their players. */
  predicate Together(c: Claim, d: Claim, e: Claim, key: LockKey) {
    StringLess(c.player, d.player) && !StringLess(e.player, d.player) && SameKey(c, e, key) ==> SameKey(c, d, key)
  }

  predicate InFlight(s: State, c: Claim) {
    exists i :: i in s.flight && c in ClaimsIn(s.flight[i])
  }

  ghost predicate KeysTogether(s: State, key: LockKey) {
    forall c, d, e :: InFlight(s, c) && InFlight(s, d) && InFlight(s, e) ==> Together(c, d, e, key)
  }

  lemma NobodyInTheWay(s: State, i: nat, key: LockKey)
    requires Rises(s, key) && i in s.flight && s.flight[i].todo != []
    ensures NobodyInserting(s, i, s.flight[i].todo[0])
  {
    var c := s.flight[i].todo[0];
    forall j | j in s.flight && j != i ensures !Conflicts(s.flight[j].rows, c) {
      assert AllSeparate(ClaimsIn(s.flight[i]), ClaimsIn(s.flight[j])) && c in ClaimsIn(s.flight[i]);
      forall k | k in s.flight[j].rows ensures k != c.Key() && s.flight[j].rows[k] != c.request {
        var d :| d in ClaimsIn(s.flight[j]) && d.Key() == k && d.request == s.flight[j].rows[k];
        assert Separate(c, d);
      }
    }
  }

  /** A transaction that is not about to take a lock can go on. */
  lemma UnlockedMoves(s: State, i: nat, key: LockKey) returns (step: Step)
    requires Rises(s, key) && i in s.flight
    requires var tx := s.flight[i]; tx.todo == [] || tx.stage != Fresh || !tx.todo[0].once
    ensures step.End? || step.Finish? || step.Insert? || step.Check?
    ensures Apply(s, step, key) != s
  {
    var tx := s.flight[i];
    assert TxRises(tx, key);
    if tx.todo != [] { NobodyInTheWay(s, i, key); }
    step := if tx.todo == [] then End(i) else if tx.stage.Paying? then Finish(i) else if tx.stage == Locked then Check(i) else Insert(i);
    var after := Apply(s, step, key).flight;
    assert i !in after || after[i].stage != tx.stage || |after[i].todo| < |tx.todo|;
  }

  ghost predicate AllAtLocks(s: State) {
    forall j :: j in s.flight ==> s.flight[j].todo != [] && s.flight[j].stage == Fresh && s.flight[j].todo[0].once
  }

  /** When every transaction is about to take a lock and one stops the one for the last player, it has its own. */
  lemma BlockerLocks(s: State, i: nat, j: nat, key: LockKey)
    requires Rises(s, key) && AllApart(s) && KeysTogether(s, key) && i in s.flight && j in s.flight && AllAtLocks(s)
    requires !StringLess(s.flight[i].todo[0].player, s.flight[j].todo[0].player)
    requires key(s.flight[i].todo[0].player, s.flight[i].todo[0].reward) in s.flight[j].held
    ensures Free(s, j, key(s.flight[j].todo[0].player, s.flight[j].todo[0].reward))
  {
    var c, tx := s.flight[i].todo[0], s.flight[j];
    assert TxRises(tx, key);
    var d :| d in Reached(tx) && key(d.player, d.reward) == key(c.player, c.reward);
    assert d in ClaimsIn(tx) && tx.todo[0] in ClaimsIn(tx) && c in ClaimsIn(s.flight[i]);
    assert InFlight(s, d) && InFlight(s, tx.todo[0]) && InFlight(s, c);
    assert StringLess(d.player, tx.todo[0].player);
    assert Together(d, tx.todo[0], c, key);
    forall k | k in s.flight && k != j ensures key(tx.todo[0].player, tx.todo[0].reward) !in s.flight[k].held {
      assert Apart(s.flight[j], s.flight[k]);
    }
  }

  lemma FreeLocks(s: State, i: nat, key: LockKey)
    requires AllAtLocks(s) && i in s.flight && Free(s, i, key(s.flight[i].todo[0].player, s.flight[i].todo[0].reward))
    ensures Apply(s, Lock(i), key) != s
  {
    assert Apply(s, Lock(i), key).flight[i].stage == Locked;
  }

  function Wanted(s: State): map<nat, string>
    requires AllAtLocks(s)
  {
    map j | j in s.flight :: s.flight[j].todo[0].player
  }

  lemma SomeoneLocks(s: State, key: LockKey) returns (i: nat)
    requires Rises(s, key) && AllApart(s) && KeysTogether(s, key) && s.flight != map[] && AllAtLocks(s)
    ensures Apply(s, Lock(i), key) != s
  {
    assert Wanted(s).Keys == s.flight.Keys;
    i := LastText(Wanted(s));
    var c := s.flight[i].todo[0];
    if j :| j in s.flight && j != i && key(c.player, c.reward) in s.flight[j].held {
      BlockerLocks(s, i, j, key);
      i := j;
    }
    FreeLocks(s, i, key);
  }

  /** MAIN RESULT. Match results that claim for their players in sorted order never deadlock while claims in
      flight that share a lock key have none of another key between them: some transaction in flight can
      always take its next statement or commit. */
  lemma SortedClaimsNeverDeadlock(run: Run, key: LockKey) returns (step: Step)
    requires RunRises(run, key) && KeysTogether(After(run, key), key) && After(run, key).flight != map[]
    ensures !step.Begin? && !step.Rollback? && Apply(After(run, key), step, key) != After(run, key)
  {
    RunKeepsRising(run, key);
    NoneLimits(run);
    RunIsSafe(run, key, NoReward());
    var s := After(run, key);
    if i :| i in s.flight && (s.flight[i].todo == [] || s.flight[i].stage != Fresh || !s.flight[i].todo[0].once) {
      step := UnlockedMoves(s, i, key);
    } else {
      var i := SomeoneLocks(s, key);
      step := Lock(i);
    }
  }

  // ---------------------------------------------------------------- players that come between

  /** Nothing but a rollback can get anything in flight further. */
  ghost predicate Stuck(s: State, key: LockKey) {
    s.flight != map[] && forall step: Step :: step.Begin? || step.Rollback? || Apply(s, step, key) == s
  }

  predicate OnlyReward(run: Run, reward: string) {
    run.Then? ==> OnlyReward(run.past, reward) && (run.step.Begin? ==> forall i :: 0 <= i < |run.step.claims| ==> run.step.claims[i].reward == reward)
  }

  ghost predicate NeverStuck(key: LockKey, reward: string) {
    forall run :: RunRises(run, key) && OnlyReward(run, reward) ==> !Stuck(After(run, key), key)
  }

  /** Players p < q < r such that p and r have one lock key for the reward and q another. */
  predicate Splits(key: LockKey, reward: string, p: string, q: string, r: string) {
    StringLess(p, q) && StringLess(q, r) && key(p, reward) == key(r, reward) != key(q, reward)
  }

  ghost predicate AllOf(s: State, reward: string) {
    forall c :: InFlight(s, c) ==> c.reward == reward
  }

  lemma {:induction false} RewardsStay(run: Run, key: LockKey, reward: string)
    requires RunRises(run, key) && OnlyReward(run, reward)
    ensures AllOf(After(run, key), reward)
  {
    if run.Then? {
      RewardsStay(run.past, key, reward);
      RunKeepsRising(run.past, key);
      StepKeepsRewards(After(run.past, key), run.step, key, reward);
    }
  }

  lemma StepKeepsRewards(s: State, step: Step, key: LockKey, reward: string)
    requires AllOf(s, reward) && Rises(s, key)
    requires step.Begin? ==> forall i :: 0 <= i < |step.claims| ==> step.claims[i].reward == reward
    ensures AllOf(Apply(s, step, key), reward)
  {
    var s' := Apply(s, step, key);
    forall c | InFlight(s', c) ensures c.reward == reward {
      var i :| i in s'.flight && c in ClaimsIn(s'.flight[i]);
      if i in s.flight {
        ClaimsStay(s, step, key, i);
        assert InFlight(s, c);
      }
    }
  }

  lemma ClaimsStay(s: State, step: Step, key: LockKey, i: nat)
    requires Rises(s, key) && i in s.flight && i in Apply(s, step, key).flight
    ensures ClaimsIn(Apply(s, step, key).flight[i]) == ClaimsIn(s.flight[i])
  {
    if !step.Begin? && step.id == i {
      var tx := s.flight[i];
      if step.Lock? { LockRises(s, i, tx, key); } else if step.Insert? { InsertRises(s, i, tx, key); } else { MoveRises(s, i, tx, key); }
    }
  }

  /** A result that pays nothing, with a source and request ids of its own. */
  function Bare(player: string, reward: string, source: string): Claim {
    Claim(player, reward, source, source + player, true, 0)
  }

  function StartTx(c: Claim, d: Claim): Tx { Tx([c, d], Fresh, {}, map[], multiset{}, Empty) }

  function HalfTx(c: Claim, d: Claim, key: LockKey): Tx {
    Tx([d], Fresh, {key(c.player, c.reward)}, map[c.Key() := c.request], multiset{}, Noted(Empty, c, true))
  }

  function Claiming(run: Run, id: nat): Run { Then(Then(Then(Then(run, Lock(id)), Check(id)), Insert(id)), Finish(id)) }

  lemma AfterOne(run: Run, step: Step, key: LockKey)
    ensures After(Then(run, step), key) == Apply(After(run, key), step, key)
  {}

  function With(s: State, id: nat, tx: Tx): State { s.(flight := s.flight[id := tx]) }

  /** The first of two claims is made, and its lock kept. */
  lemma ClaimsFirst(run: Run, id: nat, c: Claim, d: Claim, key: LockKey)
    requires var s := After(run, key);
             && id in s.flight && s.flight[id] == StartTx(c, d) && c.once && s.rows == map[]
             && Free(s, id, key(c.player, c.reward)) && NobodyInserting(s, id, c)
    ensures After(Claiming(run, id), key) == With(After(run, key), id, HalfTx(c, d, key))
  {
    var s, tx := After(run, key), StartTx(c, d);
    var locked := tx.(stage := Locked, held := {key(c.player, c.reward)});
    AfterOne(run, Lock(id), key);
    assert {} + {key(c.player, c.reward)} == {key(c.player, c.reward)};
    assert LockStep(s, id, tx, key) == locked;
    var s1 := With(s, id, locked);
    var run1 := Then(run, Lock(id));
    assert After(run1, key) == s1;
    AfterOne(run1, Check(id), key);
    CheckAndInsert(s1, id, c, d, key);
    var s2 := With(s1, id, locked.(stage := Checked));
    var run2 := Then(run1, Check(id));
    AfterOne(run2, Insert(id), key);
    AfterOne(Then(run2, Insert(id)), Finish(id), key);
  }

  lemma CheckAndInsert(s: State, id: nat, c: Claim, d: Claim, key: LockKey)
    requires id in s.flight && s.rows == map[] && NobodyInserting(s, id, c)
    requires s.flight[id] == StartTx(c, d).(stage := Locked, held := {key(c.player, c.reward)})
    ensures Apply(Apply(Apply(s, Check(id), key), Insert(id), key), Finish(id), key) == With(s, id, HalfTx(c, d, key))
  {
    var tx := s.flight[id];
    var s1 := With(s, id, tx.(stage := Checked));
    assert s.rows + tx.rows == map[];
    assert Apply(s, Check(id), key) == s1;
    assert NobodyInserting(s1, id, c);
    var s2 := With(s, id, tx.(stage := Paying(0), rows := map[c.Key() := c.request]));
    assert Apply(s1, Insert(id), key) == With(s1, id, s2.flight[id]) == s2;
    assert [c, d][1..] == [d];
  }

  /** Results for the players [p, q] and [q, r]: each makes its first claim, and waits for the other's lock. */
  function SplitRun(p: string, q: string, r: string, reward: string): Run {
    Claiming(Claiming(Begun(p, q, r, reward), 1), 2)
  }

  function Begun(p: string, q: string, r: string, reward: string): Run {
    Then(Then(Nil, Begin(1, [Bare(p, reward, "s"), Bare(q, reward, "s")])), Begin(2, [Bare(q, reward, "t"), Bare(r, reward, "t")]))
  }

  lemma BareSeparate(player: string, other: string, reward: string)
    ensures Separate(Bare(player, reward, "t"), Bare(other, reward, "s"))
  {
    assert ("t" + player)[0] == 't' && ("s" + other)[0] == 's';
    assert "t"[0] != "s"[0];
  }

  lemma ClaimingRises(run: Run, id: nat, key: LockKey, reward: string)
    requires RunRises(run, key) && OnlyReward(run, reward)
    ensures RunRises(Claiming(run, id), key) && OnlyReward(Claiming(run, id), reward)
  {
    var run2 := Then(Then(run, Lock(id)), Check(id));
    assert RunRises(run2, key) && OnlyReward(run2, reward);
  }

  lemma BegunRises(p: string, q: string, r: string, reward: string, key: LockKey)
    requires StringLess(p, q) && StringLess(q, r)
    ensures var run := Begun(p, q, r, reward);
            && RunRises(run, key) && OnlyReward(run, reward) && After(run, key).rows == map[]
            && After(run, key).flight == map[1 := StartTx(Bare(p, reward, "s"), Bare(q, reward, "s")),
                                             2 := StartTx(Bare(q, reward, "t"), Bare(r, reward, "t"))]
  {
    BareSeparate(q, p, reward);
    BareSeparate(q, q, reward);
    BareSeparate(r, p, reward);
    BareSeparate(r, q, reward);
    BeginTwo(Bare(p, reward, "s"), Bare(q, reward, "s"), Bare(q, reward, "t"), Bare(r, reward, "t"), key);
    var one := Then(Nil, Begin(1, [Bare(p, reward, "s"), Bare(q, reward, "s")]));
    assert OnlyReward(one, reward);
  }

  lemma SplitGetsStuck(p: string, q: string, r: string, reward: string, key: LockKey)
    requires Splits(key, reward, p, q, r)
    ensures RunRises(SplitRun(p, q, r, reward), key) && OnlyReward(SplitRun(p, q, r, reward), reward)
    ensures Stuck(After(SplitRun(p, q, r, reward), key), key)
  {
    var a, b := Bare(p, reward, "s"), Bare(q, reward, "s");
    var c, d := Bare(q, reward, "t"), Bare(r, reward, "t");
    var begun := Begun(p, q, r, reward);
    BegunRises(p, q, r, reward, key);
    ClaimingRises(begun, 1, key, reward);
    ClaimingRises(Claiming(begun, 1), 2, key, reward);
    ClaimBoth(begun, a, b, c, d, key);
    HalfwayStuck(After(SplitRun(p, q, r, reward), key), a, b, c, d, key);
  }

  lemma ClaimBoth(run: Run, a: Claim, b: Claim, c: Claim, d: Claim, key: LockKey)
    requires After(run, key).flight == map[1 := StartTx(a, b), 2 := StartTx(c, d)] && After(run, key).rows == map[]
    requires Separate(c, a) && !SameKey(a, c, key) && a.once && c.once
    ensures After(Claiming(Claiming(run, 1), 2), key).flight == map[1 := HalfTx(a, b, key), 2 := HalfTx(c, d, key)]
  {
    NobodyYet(After(run, key), a, c, d, key);
    ClaimsFirst(run, 1, a, b, key);
    HalfAndWhole(After(run, key), a, b, c, d, key);
    ClaimsSecond(Claiming(run, 1), a, b, c, d, key);
  }

  lemma HalfAndWhole(s: State, a: Claim, b: Claim, c: Claim, d: Claim, key: LockKey)
    requires s.flight == map[1 := StartTx(a, b), 2 := StartTx(c, d)]
    ensures With(s, 1, HalfTx(a, b, key)).flight == map[1 := HalfTx(a, b, key), 2 := StartTx(c, d)]
  {}

  lemma ClaimsSecond(run: Run, a: Claim, b: Claim, c: Claim, d: Claim, key: LockKey)
    requires After(run, key).flight == map[1 := HalfTx(a, b, key), 2 := StartTx(c, d)] && After(run, key).rows == map[]
    requires Separate(c, a) && !SameKey(a, c, key) && c.once
    ensures After(Claiming(run, 2), key).flight == map[1 := HalfTx(a, b, key), 2 := HalfTx(c, d, key)]
  {
    NotInTheWay(After(run, key), a, b, c, key);
    ClaimsFirst(run, 2, c, d, key);
  }

  lemma NobodyYet(s: State, a: Claim, c: Claim, d: Claim, key: LockKey)
    requires s.flight.Keys == {1, 2} && s.flight[2] == StartTx(c, d)
    ensures Free(s, 1, key(a.player, a.reward)) && NobodyInserting(s, 1, a)
  {}

  lemma NotInTheWay(s: State, a: Claim, b: Claim, c: Claim, key: LockKey)
    requires s.flight.Keys == {1, 2} && s.flight[1] == HalfTx(a, b, key) && Separate(c, a) && !SameKey(a, c, key)
    ensures Free(s, 2, key(c.player, c.reward)) && NobodyInserting(s, 2, c)
  {
    assert s.flight[1].rows == map[a.Key() := a.request];
  }

  lemma BeginTwo(a: Claim, b: Claim, c: Claim, d: Claim, key: LockKey)
    requires StringLess(a.player, b.player) && StringLess(c.player, d.player)
    requires AllSeparate({c, d}, {a, b})
    ensures var one := Then(Nil, Begin(1, [a, b]));
            RunRises(Then(one, Begin(2, [c, d])), key) && After(Then(one, Begin(2, [c, d])), key).flight == map[1 := StartTx(a, b), 2 := StartTx(c, d)]
            && After(Then(one, Begin(2, [c, d])), key).rows == map[]
  {
    var one := Then(Nil, Begin(1, [a, b]));
    AfterOne(Nil, Begin(1, [a, b]), key);
    AfterOne(one, Begin(2, [c, d]), key);
    assert Named([a, b]) == {a, b} && Named([c, d]) == {c, d};
    assert ClaimsIn(StartTx(a, b)) == {a, b};
  }

  lemma HalfwayStuck(s: State, a: Claim, b: Claim, c: Claim, d: Claim, key: LockKey)
    requires s.flight == map[1 := HalfTx(a, b, key), 2 := HalfTx(c, d, key)] && b.once && d.once
    requires SameKey(a, d, key) && SameKey(b, c, key)
    ensures Stuck(s, key)
  {
    assert !Free(s, 1, key(b.player, b.reward)) by { assert key(b.player, b.reward) in s.flight[2].held; }
    assert !Free(s, 2, key(d.player, d.reward)) by { assert key(d.player, d.reward) in s.flight[1].held; }
    forall step: Step | !step.Begin? && !step.Rollback? ensures Apply(s, step, key) == s {
      if step.id == 1 || step.id == 2 {
        assert s.flight[step.id := s.flight[step.id]] == s.flight;
      }
    }
  }

  /** MAIN RESULT. Results that claim one reward for sorted rosters never get stuck, in any run, exactly when
      players that share its lock key have no player of another key between them. */
  lemma NeverStuckIff(key: LockKey, reward: string)
    ensures NeverStuck(key, reward) <==> forall p, q, r :: !Splits(key, reward, p, q, r)
  {
    if p, q, r :| Splits(key, reward, p, q, r) {
      SplitGetsStuck(p, q, r, reward, key);
    } else {
      forall run | RunRises(run, key) && OnlyReward(run, reward) ensures !Stuck(After(run, key), key) {
        if After(run, key).flight != map[] {
          RewardsStay(run, key, reward);
          UnsplitTogether(After(run, key), key, reward);
          var step := SortedClaimsNeverDeadlock(run, key);
        }
      }
    }
  }

  lemma UnsplitTogether(s: State, key: LockKey, reward: string)
    requires AllOf(s, reward) && forall p, q, r :: !Splits(key, reward, p, q, r)
    ensures KeysTogether(s, key)
  {
    forall c, d, e | InFlight(s, c) && InFlight(s, d) && InFlight(s, e) ensures Together(c, d, e, key) {
      StringLessTotal(d.player, e.player);
      assert !Splits(key, reward, c.player, d.player, e.player);
    }
  }
}
