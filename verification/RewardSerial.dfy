/** Interleaved reward claims against making them one transaction after the other. */
module RewardSerial {
  import opened RewardClaims
  import Commands
  import Conservation
  import Economy

  // ---------------------------------------------------------------- one at a time

  /** The rows after making the claims of a log one after the other with nobody else around. */
  function Replay(base: Rows, log: Log): Rows {
    match log
    case Empty => base
    case Noted(past, c, _) =>
      var rows := Replay(base, past);
      if Refuses(rows, c) then rows else rows[c.Key() := c.request]
  }

  function SerialRows(order: Order): Rows {
    match order
    case Nothing => map[]
    case Commit(past, log) => Replay(SerialRows(past), log)
  }

  /** The answers in the log are those of the one-at-a-time run. */
  predicate Faithful(base: Rows, log: Log) {
    log.Noted? ==> Faithful(base, log.past) && (log.granted <==> !Refuses(Replay(base, log.past), log.claim))
  }

  predicate SerialAnswers(order: Order) {
    order.Commit? ==> SerialAnswers(order.past) && Faithful(SerialRows(order.past), order.log)
  }

  function RowsOf(log: Log): Rows {
    if log.Empty? then map[]
    else if log.granted then RowsOf(log.past)[log.claim.Key() := log.claim.request] else RowsOf(log.past)
  }

  lemma {:induction false} ReplayAddsRows(base: Rows, log: Log)
    requires Faithful(base, log)
    ensures Replay(base, log) == base + RowsOf(log)
  {
    if log.Noted? {
      ReplayAddsRows(base, log.past);
    }
  }

  // ---------------------------------------------------------------- the invariant

  predicate Follows(claims: seq<Claim>, policy: Policy) {
    forall i :: 0 <= i < |claims| ==> claims[i].once == policy(claims[i].reward)
  }

  predicate LogFollows(log: Log, policy: Policy) {
    log.Noted? ==> LogFollows(log.past, policy) && log.claim.once == policy(log.claim.reward)
  }

  /** Every claim begun in the run is limited as the policy says: all revisions agree. */
  predicate RunFollows(run: Run, policy: Policy) {
    run.Then? ==> RunFollows(run.past, policy) && (run.step.Begin? ==> Follows(run.step.claims, policy))
  }

  predicate OrderFollows(order: Order, policy: Policy) {
    order.Commit? ==> OrderFollows(order.past, policy) && LogFollows(order.log, policy)
  }

  /** Rows decided so far; while the current claim is being paid its row is already in. */
  function Decided(tx: Tx): Log {
    if tx.stage.Paying? && tx.todo != [] then Noted(tx.log, tx.todo[0], true) else tx.log
  }

  predicate TxSerial(rows: Rows, tx: Tx, policy: Policy) {
    && tx.rows == RowsOf(Decided(tx)) && Faithful(rows, Decided(tx))
    && LogFollows(Decided(tx), policy) && Follows(tx.todo, policy)
  }

  ghost predicate AllSerial(s: State, policy: Policy) {
    forall i :: i in s.flight ==> TxSerial(s.rows, s.flight[i], policy)
  }

  ghost predicate Serial(s: State, policy: Policy) {
    && AllSerial(s, policy)
    && s.rows == SerialRows(s.order) && SerialAnswers(s.order) && OrderFollows(s.order, policy)
  }

  lemma HasRequestUnion(a: Rows, b: Rows, request: string)
    requires a.Keys !! b.Keys
    ensures HasRequest(a + b, request) <==> HasRequest(a, request) || HasRequest(b, request)
  {
    if HasRequest(a, request) {
      var k :| k in a && a[k] == request;
      assert k in a + b && k !in b && (a + b)[k] == request;
    }
    if HasRequest(b, request) {
      var k :| k in b && b[k] == request;
      assert k in a + b && (a + b)[k] == request;
    }
  }

  lemma RefusesUnion(a: Rows, b: Rows, c: Claim)
    requires a.Keys !! b.Keys
    ensures Refuses(a + b, c) <==> Refuses(a, c) || Refuses(b, c)
  {
    HasRowUnion(a, b, c.player, c.reward);
    HasRequestUnion(a, b, c.request);
  }

  lemma {:induction false} PastRowsStay(base: Rows, log: Log)
    requires Faithful(base, log) && log.Noted?
    ensures RowsOf(log.past).Keys !! base.Keys ==> RowsOf(log.past).Keys <= RowsOf(log).Keys
    ensures forall k :: k in RowsOf(log.past) ==> RowsOf(log)[k] == RowsOf(log.past)[k]
  {
    ReplayAddsRows(base, log.past);
  }

  /** No row of `r` gets in the way of a row of `own`. */
  predicate NoClash(own: Rows, r: Rows, policy: Policy) {
    && own.Keys !! r.Keys
    && (forall k, m :: k in own && m in r ==> own[k] != r[m])
    && FirstEach(own, r, policy)
  }

  /** Decisions stay right when another transaction commits rows that do not clash. */
  lemma {:induction false} FaithfulLater(base: Rows, r: Rows, log: Log, policy: Policy)
    requires Faithful(base, log) && LogFollows(log, policy) && NoClash(RowsOf(log), r, policy)
    requires base.Keys !! r.Keys && RowsOf(log).Keys !! base.Keys
    ensures Faithful(base + r, log)
  {
    if log.Noted? {
      var past := RowsOf(log.past);
      PastRowsStay(base, log);
      FaithfulLater(base, r, log.past, policy);
      ReplayAddsRows(base, log.past);
      ReplayAddsRows(base + r, log.past);
      RefusesUnion(base, past, log.claim);
      RefusesUnion(base + r, past, log.claim);
      RefusesUnion(base, r, log.claim);
      if log.granted {
        NoClashNoRefusal(RowsOf(log), r, policy, log.claim);
      }
    }
  }

  lemma NoClashNoRefusal(own: Rows, r: Rows, policy: Policy, c: Claim)
    requires NoClash(own, r, policy) && c.Key() in own && own[c.Key()] == c.request && c.once == policy(c.reward)
    ensures !Refuses(r, c)
  {}

  // ---------------------------------------------------------------- each statement keeps it

  lemma SerialNext(rows: Rows, tx: Tx, key: LockKey, policy: Policy)
    requires TxSafe(rows, tx, key, policy) && TxSerial(rows, tx, policy) && tx.todo != [] && !tx.stage.Paying?
    requires Refuses(rows + tx.rows, tx.todo[0])
    ensures TxSerial(rows, Next(tx, false), policy)
  {
    ReplayAddsRows(rows, tx.log);
  }

  lemma SerialInserted(rows: Rows, tx: Tx, key: LockKey, policy: Policy)
    requires TxSafe(rows, tx, key, policy) && TxSerial(rows, tx, policy) && tx.todo != []
    requires tx.stage == Checked || (tx.stage == Fresh && !tx.todo[0].once)
    requires !Conflicts(rows + tx.rows, tx.todo[0])
    ensures TxSerial(rows, tx.(stage := Paying(0), rows := tx.rows[tx.todo[0].Key() := tx.todo[0].request]), policy)
  {
    var c := tx.todo[0];
    ReplayAddsRows(rows, tx.log);
    HasRowUnion(rows, tx.rows, c.player, c.reward);
    assert c.once == policy(c.reward);
  }

  lemma SerialCheck(s: State, tx: Tx, key: LockKey, policy: Policy)
    requires TxSafe(s.rows, tx, key, policy) && TxSerial(s.rows, tx, policy)
    ensures TxSerial(s.rows, CheckStep(s, tx), policy)
  {
    if tx.todo != [] && tx.stage == Locked && HasRow(s.rows + tx.rows, tx.todo[0].player, tx.todo[0].reward) {
      SerialNext(s.rows, tx, key, policy);
    }
  }

  lemma SerialInsert(s: State, id: nat, tx: Tx, key: LockKey, policy: Policy)
    requires TxSafe(s.rows, tx, key, policy) && TxSerial(s.rows, tx, policy)
    ensures TxSerial(s.rows, InsertStep(s, id, tx), policy)
  {
    if tx.todo != [] && (tx.stage == Checked || (tx.stage == Fresh && !tx.todo[0].once)) && NobodyInserting(s, id, tx.todo[0]) {
      if Conflicts(s.rows + tx.rows, tx.todo[0]) {
        SerialNext(s.rows, tx, key, policy);
      } else {
        SerialInserted(s.rows, tx, key, policy);
      }
    }
  }

  lemma SerialRest(s: State, id: nat, tx: Tx, key: LockKey, policy: Policy)
    requires TxSerial(s.rows, tx, policy)
    ensures TxSerial(s.rows, LockStep(s, id, tx, key), policy)
    ensures TxSerial(s.rows, PayStep(tx), policy) && TxSerial(s.rows, FinishStep(tx), policy)
  {
    assert Decided(LockStep(s, id, tx, key)) == Decided(tx) == Decided(PayStep(tx)) == Decided(FinishStep(tx));
  }

  /** A step of one transaction that commits nothing. */
  lemma SerialMoves(s: State, step: Step, key: LockKey, policy: Policy)
    requires Safe(s, key, policy) && Serial(s, policy) && !step.Begin? && !step.End? && step.id in s.flight
    ensures step.id in Apply(s, step, key).flight ==> TxSerial(s.rows, Apply(s, step, key).flight[step.id], policy)
  {
    var tx := s.flight[step.id];
    assert TxSafe(s.rows, tx, key, policy) && TxSerial(s.rows, tx, policy);
    match step
    case Check(_) => SerialCheck(s, tx, key, policy);
    case Insert(id) => SerialInsert(s, id, tx, key, policy);
    case Rollback(_) =>
    case _ => SerialRest(s, step.id, tx, key, policy);
  }

  lemma SerialOther(rows: Rows, a: Tx, b: Tx, key: LockKey, policy: Policy)
    requires TxSafe(rows, a, key, policy) && TxSafe(rows, b, key, policy) && Apart(a, b) && TxSerial(rows, a, policy)
    ensures TxSerial(rows + b.rows, a, policy)
  {
    GuardsApart(a, b, key, policy);
    FaithfulLater(rows, b.rows, Decided(a), policy);
  }

  lemma SerialEnd(s: State, id: nat, key: LockKey, policy: Policy)
    requires Safe(s, key, policy) && Serial(s, policy) && id in s.flight && s.flight[id].todo == []
    ensures Serial(Apply(s, End(id), key), policy)
  {
    var tx, s' := s.flight[id], Apply(s, End(id), key);
    forall j | j in s'.flight ensures TxSerial(s'.rows, s'.flight[j], policy) {
      SerialOther(s.rows, s.flight[j], tx, key, policy);
    }
    ReplayAddsRows(s.rows, tx.log);
  }

  lemma SerialStep(s: State, step: Step, key: LockKey, policy: Policy)
    requires Safe(s, key, policy) && Serial(s, policy) && (step.Begin? ==> Follows(step.claims, policy))
    ensures Serial(Apply(s, step, key), policy)
  {
    if step.End? {
      if step.id in s.flight && s.flight[step.id].todo == [] { SerialEnd(s, step.id, key, policy); }
    } else {
      if !step.Begin? && step.id in s.flight { SerialMoves(s, step, key, policy); }
      OnlyOneMoves(s, step, key);
      var s' := Apply(s, step, key);
      forall j | j in s'.flight ensures TxSerial(s'.rows, s'.flight[j], policy) {
        assert j != step.id ==> s'.flight[j] == s.flight[j];
      }
    }
  }

  lemma OnlyOneMoves(s: State, step: Step, key: LockKey)
    requires !step.End?
    ensures var s' := Apply(s, step, key);
            && s'.rows == s.rows && s'.order == s.order
            && (forall j :: j in s'.flight && j != step.id ==> j in s.flight && s'.flight[j] == s.flight[j])
            && (step.id in s'.flight && step.id !in s.flight ==>
                  step.Begin? && s'.flight[step.id] == Tx(step.claims, Fresh, {}, map[], multiset{}, Empty))
            && (step.Begin? && step.id in s.flight ==> s' == s)
  {}

  lemma {:induction false} RunIsSerial(run: Run, key: LockKey, policy: Policy)
    requires RunFollows(run, policy)
    ensures Safe(After(run, key), key, policy) && Serial(After(run, key), policy)
  {
    if run.Then? {
      RunIsSerial(run.past, key, policy);
      SafeStep(After(run.past, key), run.step, key, policy);
      SerialStep(After(run.past, key), run.step, key, policy);
    }
  }

  /** MAIN RESULT. However the statements interleave, and whatever the lock keys collide on, the committed
      rows and every answer given are those of making the claims one transaction after the other, in the
      order of the commits. */
  lemma ClaimsAreSerial(run: Run, key: LockKey, policy: Policy)
    requires RunFollows(run, policy)
    ensures After(run, key).rows == SerialRows(After(run, key).order)
    ensures SerialAnswers(After(run, key).order)
  {
    RunIsSerial(run, key, policy);
  }

  /** Run alone, the statements do what the command handler's specification says. */
  lemma RewardClaimIsReplay(t: Economy.Tables, d: Economy.Parsed<Economy.Definition>, player: string, e: Commands.Envelope)
    requires Economy.RewardClaim(t, d, player, e).Success?
    ensures var reward := Economy.LoadReward(d, e).reward;
            var source := Economy.TextArg(e.args, "sourceId", "").value;
            var c := Claim(player, reward.id, source, e.requestId, reward.oncePerPlayer, |reward.grants|);
            && Economy.RewardClaim(t, d, player, e).tables.claims == Replay(t.claims, Noted(Empty, c, true))
            && Economy.RewardClaim(t, d, player, e).body["duplicate"] == Commands.Flag(Refuses(t.claims, c))
  {
    var reward := Economy.LoadReward(d, e).reward;
    var source := Economy.TextArg(e.args, "sourceId", "").value;
    var c := Claim(player, reward.id, source, e.requestId, reward.oncePerPlayer, |reward.grants|);
    assert Refuses(t.claims, c) <==> (reward.oncePerPlayer && Economy.HasClaimed(t, player, reward.id))
                                     || Economy.ClaimConflict(t, player, reward.id, source, e.requestId);
    if !Refuses(t.claims, c) {
      var t1 := t.(claims := t.claims[c.Key() := e.requestId]);
      Conservation.GrantsPay(t1, e.requestId, player, reward.grants, |reward.grants|, player, "c", "i");
    }
  }

}
