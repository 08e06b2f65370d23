/** Reward claims interleaved statement by statement.

A transaction makes one claim (a command) or several in a row (a match result). For a reward that is paid
once per player a claim takes an advisory lock, looks for an earlier claim, and only then inserts its row;
every other reward relies on the row's keys alone. Locks and uncommitted rows last until the transaction
ends, and a statement sees what was committed before it. */
module RewardClaims {
  type Row = (string, string, string)
  type Rows = map<Row, string>

  datatype Claim = Claim(player: string, reward: string, source: string, request: string, once: bool, grants: nat) {
    function Key(): Row { (player, reward, source) }
  }

  datatype Payment = Payment(row: Row, index: nat)

  /** Where the current claim stands; `Paying(n)` has inserted its row and applied its first n grants. */
  datatype Stage = Fresh | Locked | Checked | Paying(n: nat)

  /** The claims a transaction has decided: granted, or answered as a duplicate. */
  datatype Log = Empty | Noted(past: Log, claim: Claim, granted: bool)

  datatype Tx = Tx(todo: seq<Claim>, stage: Stage, held: set<int>, rows: Rows, paid: multiset<Payment>, log: Log)

  datatype Order = Nothing | Commit(past: Order, log: Log)

  /** `order` records the committed transactions in the order of their commits. */
  datatype State = State(flight: map<nat, Tx>, rows: Rows, paid: multiset<Payment>, order: Order)

  const START := State(map[], map[], multiset{}, Nothing)

  predicate HasRow(rows: Rows, player: string, reward: string) {
    exists k :: k in rows && k.0 == player && k.1 == reward
  }

  predicate HasRequest(rows: Rows, request: string) {
    exists k :: k in rows && rows[k] == request
  }

  /** Conflict with the primary key or the unique request id. */
  predicate Conflicts(rows: Rows, c: Claim) {
    c.Key() in rows || HasRequest(rows, c.request)
  }

  /** What makes a claim a duplicate when it runs alone. */
  predicate Refuses(rows: Rows, c: Claim) {
    (c.once && HasRow(rows, c.player, c.reward)) || Conflicts(rows, c)
  }

  // ---------------------------------------------------------------- statements

  datatype Step = Begin(id: nat, claims: seq<Claim>) | Lock(id: nat) | Check(id: nat) | Insert(id: nat) | Pay(id: nat)
                | Finish(id: nat) | End(id: nat) | Rollback(id: nat)

  type LockKey = (string, string) -> int

  predicate Free(s: State, id: nat, k: int) {
    forall j :: j in s.flight && j != id ==> k !in s.flight[j].held
  }

  predicate NobodyInserting(s: State, id: nat, c: Claim) {
    forall j :: j in s.flight && j != id ==> !Conflicts(s.flight[j].rows, c)
  }

  function Next(tx: Tx, granted: bool): Tx
    requires tx.todo != []
  {
    tx.(todo := tx.todo[1..], stage := Fresh, log := Noted(tx.log, tx.todo[0], granted))
  }

  /** SELECT pg_advisory_xact_lock: waits while another transaction holds the key. */
  function LockStep(s: State, id: nat, tx: Tx, key: LockKey): Tx {
    if tx.todo != [] && tx.todo[0].once && tx.stage == Fresh && Free(s, id, key(tx.todo[0].player, tx.todo[0].reward))
    then tx.(stage := Locked, held := tx.held + {key(tx.todo[0].player, tx.todo[0].reward)}) else tx
  }

  /** SELECT EXISTS: sees committed rows and the transaction's own. */
  function CheckStep(s: State, tx: Tx): Tx {
    if tx.todo != [] && tx.stage == Locked then
      if HasRow(s.rows + tx.rows, tx.todo[0].player, tx.todo[0].reward) then Next(tx, false) else tx.(stage := Checked)
    else tx
  }

  /** INSERT ... ON CONFLICT DO NOTHING: waits for an uncommitted conflicting row of another transaction. */
  function InsertStep(s: State, id: nat, tx: Tx): Tx {
    if tx.todo != [] && (tx.stage == Checked || (tx.stage == Fresh && !tx.todo[0].once)) && NobodyInserting(s, id, tx.todo[0]) then
      if Conflicts(s.rows + tx.rows, tx.todo[0]) then Next(tx, false)
      else tx.(stage := Paying(0), rows := tx.rows[tx.todo[0].Key() := tx.todo[0].request])
    else tx
  }

  function PayStep(tx: Tx): Tx {
    if tx.todo != [] && tx.stage.Paying? && tx.stage.n < tx.todo[0].grants
    then tx.(stage := Paying(tx.stage.n + 1), paid := tx.paid + multiset{Payment(tx.todo[0].Key(), tx.stage.n)}) else tx
  }

  /** The claim ends after its last grant, or before it when a grant is refused. */
  function FinishStep(tx: Tx): Tx {
    if tx.todo != [] && tx.stage.Paying? then Next(tx, true) else tx
  }

  /** One statement of one transaction; a statement that has to wait changes nothing. */
  function Apply(s: State, step: Step, key: LockKey): State {
    if step.Begin? then
      if step.id in s.flight then s
      else s.(flight := s.flight[step.id := Tx(step.claims, Fresh, {}, map[], multiset{}, Empty)])
    else if step.id !in s.flight then s
    else
      var tx := s.flight[step.id];
      match step
      case Lock(id) => s.(flight := s.flight[id := LockStep(s, id, tx, key)])
      case Check(id) => s.(flight := s.flight[id := CheckStep(s, tx)])
      case Insert(id) => s.(flight := s.flight[id := InsertStep(s, id, tx)])
      case Pay(id) => s.(flight := s.flight[id := PayStep(tx)])
      case Finish(id) => s.(flight := s.flight[id := FinishStep(tx)])
      case End(id) =>
        if tx.todo != [] then s
        else State(s.flight - {id}, s.rows + tx.rows, s.paid + tx.paid, Commit(s.order, tx.log))
      case Rollback(id) => s.(flight := s.flight - {id})
  }

  datatype Run = Nil | Then(past: Run, step: Step)

  function After(run: Run, key: LockKey): State {
    match run
    case Nil => START
    case Then(past, step) => Apply(After(past, key), step, key)
  }

  // ---------------------------------------------------------------- the invariant

  /** A set of rewards, or of limits: for which rewards a claim is limited to once per player. */
  type Policy = string -> bool

  /** Every claim of a reward in `limited` is limited. */
  predicate Limits(claims: seq<Claim>, limited: Policy) {
    forall i :: 0 <= i < |claims| && limited(claims[i].reward) ==> claims[i].once
  }

  predicate RunLimits(run: Run, limited: Policy) {
    run.Then? ==> RunLimits(run.past, limited) && (run.step.Begin? ==> Limits(run.step.claims, limited))
  }

  predicate Guarded(tx: Tx, key: LockKey, limited: Policy) {
    forall k :: k in tx.rows && limited(k.1) ==> key(k.0, k.1) in tx.held
  }

  /** At most one row for each player and limited reward. */
  ghost predicate OneEach(rows: Rows, limited: Policy) {
    forall k, m :: k in rows && m in rows && limited(k.1) && k.0 == m.0 && k.1 == m.1 ==> k == m
  }

  /** No row of `own` for a limited reward meets one of `rows` for the same player. */
  predicate FirstEach(own: Rows, rows: Rows, limited: Policy) {
    forall k, m :: k in own && m in rows && limited(k.1) ==> k.0 != m.0 || k.1 != m.1
  }

  predicate StageOk(rows: Rows, tx: Tx, key: LockKey, limited: Policy) {
    && (tx.stage != Fresh ==> tx.todo != [])
    && (tx.stage == Locked || tx.stage == Checked ==> tx.todo[0].once && key(tx.todo[0].player, tx.todo[0].reward) in tx.held)
    && (tx.stage == Checked ==> !HasRow(tx.rows, tx.todo[0].player, tx.todo[0].reward))
    && (tx.stage == Checked && limited(tx.todo[0].reward) ==> !HasRow(rows, tx.todo[0].player, tx.todo[0].reward))
    && (tx.stage.Paying? ==> tx.todo[0].Key() in tx.rows)
  }

  ghost predicate PaidOnce(paid: multiset<Payment>, rows: Rows) {
    forall p :: paid[p] <= 1 && (p in paid ==> p.row in rows)
  }

  ghost predicate PaidInOrder(tx: Tx) {
    tx.stage.Paying? && tx.todo != [] ==> forall i: nat :: Payment(tx.todo[0].Key(), i) in tx.paid ==> i < tx.stage.n
  }

  ghost predicate TxSafe(rows: Rows, tx: Tx, key: LockKey, limited: Policy) {
    && tx.rows.Keys !! rows.Keys
    && Limits(tx.todo, limited) && Guarded(tx, key, limited) && StageOk(rows, tx, key, limited)
    && OneEach(tx.rows, limited) && FirstEach(tx.rows, rows, limited)
    && PaidOnce(tx.paid, tx.rows) && PaidInOrder(tx)
  }

  predicate Apart(a: Tx, b: Tx) {
    && a.held !! b.held
    && a.rows.Keys !! b.rows.Keys
    && forall k, m :: k in a.rows && m in b.rows ==> a.rows[k] != b.rows[m]
  }

  ghost predicate AllApart(s: State) {
    forall i, j :: i in s.flight && j in s.flight && i != j ==> Apart(s.flight[i], s.flight[j])
  }

  ghost predicate AllSafe(s: State, key: LockKey, limited: Policy) {
    forall i :: i in s.flight ==> TxSafe(s.rows, s.flight[i], key, limited)
  }

  ghost predicate Safe(s: State, key: LockKey, limited: Policy) {
    AllSafe(s, key, limited) && AllApart(s) && PaidOnce(s.paid, s.rows) && OneEach(s.rows, limited)
  }

  lemma HasRowUnion(a: Rows, b: Rows, player: string, reward: string)
    ensures HasRow(a + b, player, reward) <==> HasRow(a, player, reward) || HasRow(b, player, reward)
  {
    if HasRow(a, player, reward) {
      var k :| k in a && k.0 == player && k.1 == reward;
      assert k in a + b;
    }
    if HasRow(b, player, reward) {
      var k :| k in b && k.0 == player && k.1 == reward;
      assert k in a + b;
    }
  }

  /** Guards of different transactions keep their rows for a limited reward apart. */
  lemma GuardsApart(a: Tx, b: Tx, key: LockKey, limited: Policy)
    requires a.held !! b.held && Guarded(a, key, limited) && Guarded(b, key, limited)
    ensures FirstEach(a.rows, b.rows, limited)
  {
    forall k, m | k in a.rows && m in b.rows && limited(k.1) ensures k.0 != m.0 || k.1 != m.1 {
      assert key(k.0, k.1) in a.held && (limited(m.1) ==> key(m.0, m.1) in b.held);
    }
  }

  lemma FirstEachUnion(own: Rows, a: Rows, b: Rows, limited: Policy)
    requires FirstEach(own, a, limited) && FirstEach(own, b, limited)
    ensures FirstEach(own, a + b, limited)
  {}

  lemma OneEachUnion(a: Rows, b: Rows, limited: Policy)
    requires OneEach(a, limited) && OneEach(b, limited) && FirstEach(b, a, limited)
    ensures OneEach(a + b, limited)
  {}

  // ---------------------------------------------------------------- each statement keeps it

  lemma SafeReplace(s: State, id: nat, tx: Tx, key: LockKey, limited: Policy)
    requires Safe(s, key, limited) && TxSafe(s.rows, tx, key, limited)
    requires forall j :: j in s.flight && j != id ==> Apart(tx, s.flight[j])
    ensures Safe(s.(flight := s.flight[id := tx]), key, limited)
  {
    var s' := s.(flight := s.flight[id := tx]);
    forall i, j | i in s'.flight && j in s'.flight && i != j ensures Apart(s'.flight[i], s'.flight[j]) {
      if j == id { assert Apart(tx, s.flight[i]); }
    }
  }

  lemma SafeNext(rows: Rows, tx: Tx, granted: bool, key: LockKey, limited: Policy)
    requires TxSafe(rows, tx, key, limited) && tx.todo != []
    ensures TxSafe(rows, Next(tx, granted), key, limited)
  {}

  lemma SafeLocked(rows: Rows, tx: Tx, key: LockKey, limited: Policy)
    requires TxSafe(rows, tx, key, limited) && tx.todo != [] && tx.todo[0].once && tx.stage == Fresh
    ensures TxSafe(rows, tx.(stage := Locked, held := tx.held + {key(tx.todo[0].player, tx.todo[0].reward)}), key, limited)
  {}

  lemma SafeLock(s: State, id: nat, key: LockKey, limited: Policy)
    requires Safe(s, key, limited) && id in s.flight
    ensures Safe(s.(flight := s.flight[id := LockStep(s, id, s.flight[id], key)]), key, limited)
  {
    var tx := s.flight[id];
    var tx' := LockStep(s, id, tx, key);
    if tx' != tx {
      SafeLocked(s.rows, tx, key, limited);
      forall j | j in s.flight && j != id ensures Apart(tx', s.flight[j]) {
        assert Apart(tx, s.flight[j]);
      }
    }
    SafeReplace(s, id, tx', key, limited);
  }

  lemma SafeCheck(s: State, id: nat, key: LockKey, limited: Policy)
    requires Safe(s, key, limited) && id in s.flight
    ensures Safe(s.(flight := s.flight[id := CheckStep(s, s.flight[id])]), key, limited)
  {
    var tx := s.flight[id];
    if tx.todo != [] && tx.stage == Locked {
      HasRowUnion(s.rows, tx.rows, tx.todo[0].player, tx.todo[0].reward);
      SafeNext(s.rows, tx, false, key, limited);
    }
    SafeReplace(s, id, CheckStep(s, tx), key, limited);
  }

  lemma SafeInserted(rows: Rows, tx: Tx, key: LockKey, limited: Policy)
    requires TxSafe(rows, tx, key, limited) && tx.todo != []
    requires tx.stage == Checked || (tx.stage == Fresh && !tx.todo[0].once)
    requires !Conflicts(rows + tx.rows, tx.todo[0])
    ensures TxSafe(rows, tx.(stage := Paying(0), rows := tx.rows[tx.todo[0].Key() := tx.todo[0].request]), key, limited)
  {
    var c := tx.todo[0];
    assert c.Key() !in tx.rows && c.Key() !in rows;
    assert limited(c.reward) ==> tx.stage == Checked;
  }

  lemma SafeInsert(s: State, id: nat, key: LockKey, limited: Policy)
    requires Safe(s, key, limited) && id in s.flight
    ensures Safe(s.(flight := s.flight[id := InsertStep(s, id, s.flight[id])]), key, limited)
  {
    var tx := s.flight[id];
    if tx.todo != [] && (tx.stage == Checked || (tx.stage == Fresh && !tx.todo[0].once)) && NobodyInserting(s, id, tx.todo[0]) {
      if Conflicts(s.rows + tx.rows, tx.todo[0]) {
        SafeNext(s.rows, tx, false, key, limited);
      } else {
        SafeInserted(s.rows, tx, key, limited);
      }
    }
    SafeReplace(s, id, InsertStep(s, id, tx), key, limited);
  }

  lemma PaidNext(tx: Tx)
    requires tx.todo != [] && tx.stage.Paying? && PaidOnce(tx.paid, tx.rows) && PaidInOrder(tx) && tx.todo[0].Key() in tx.rows
    ensures PaidOnce(PayStep(tx).paid, PayStep(tx).rows) && PaidInOrder(PayStep(tx))
  {
    var p := Payment(tx.todo[0].Key(), tx.stage.n);
    assert p !in tx.paid;
    assert forall q :: (tx.paid + multiset{p})[q] == tx.paid[q] + if q == p then 1 else 0;
  }

  lemma SafePay(s: State, id: nat, key: LockKey, limited: Policy)
    requires Safe(s, key, limited) && id in s.flight
    ensures Safe(s.(flight := s.flight[id := PayStep(s.flight[id])]), key, limited)
  {
    var tx := s.flight[id];
    if tx.todo != [] && tx.stage.Paying? {
      PaidNext(tx);
    }
    SafeReplace(s, id, PayStep(tx), key, limited);
  }

  lemma SafeFinish(s: State, id: nat, key: LockKey, limited: Policy)
    requires Safe(s, key, limited) && id in s.flight
    ensures Safe(s.(flight := s.flight[id := FinishStep(s.flight[id])]), key, limited)
  {
    var tx := s.flight[id];
    if tx.todo != [] {
      SafeNext(s.rows, tx, true, key, limited);
    }
    SafeReplace(s, id, FinishStep(tx), key, limited);
  }

  /** What a commit of `b` leaves for a transaction still in flight. */
  lemma SafeOther(rows: Rows, a: Tx, b: Tx, key: LockKey, limited: Policy)
    requires TxSafe(rows, a, key, limited) && TxSafe(rows, b, key, limited) && Apart(a, b)
    ensures TxSafe(rows + b.rows, a, key, limited)
  {
    GuardsApart(a, b, key, limited);
    FirstEachUnion(a.rows, rows, b.rows, limited);
    if a.stage == Checked {
      HasRowUnion(rows, b.rows, a.todo[0].player, a.todo[0].reward);
      assert forall m :: m in b.rows && limited(m.1) ==> key(m.0, m.1) in b.held;
    }
  }

  lemma PaidUnion(a: multiset<Payment>, rows: Rows, b: multiset<Payment>, own: Rows)
    requires PaidOnce(a, rows) && PaidOnce(b, own) && own.Keys !! rows.Keys
    ensures PaidOnce(a + b, rows + own)
  {
    forall p: Payment ensures (a + b)[p] <= 1 && (p in a + b ==> p.row in rows + own) {
      assert (p in a ==> p.row in rows) && (p in b ==> p.row in own);
    }
  }

  lemma SafeEnd(s: State, id: nat, key: LockKey, limited: Policy)
    requires Safe(s, key, limited) && id in s.flight && s.flight[id].todo == []
    ensures Safe(Apply(s, End(id), key), key, limited)
  {
    var tx, s' := s.flight[id], Apply(s, End(id), key);
    forall j | j in s'.flight ensures TxSafe(s'.rows, s'.flight[j], key, limited) {
      SafeOther(s.rows, s.flight[j], tx, key, limited);
    }
    PaidUnion(s.paid, s.rows, tx.paid, tx.rows);
    OneEachUnion(s.rows, tx.rows, limited);
  }

  lemma SafeBegin(s: State, id: nat, claims: seq<Claim>, key: LockKey, limited: Policy)
    requires Safe(s, key, limited) && Limits(claims, limited)
    ensures Safe(Apply(s, Begin(id, claims), key), key, limited)
  {
    if id !in s.flight {
      SafeReplace(s, id, Tx(claims, Fresh, {}, map[], multiset{}, Empty), key, limited);
    }
  }

  lemma SafeRollback(s: State, id: nat, key: LockKey, limited: Policy)
    requires Safe(s, key, limited)
    ensures Safe(s.(flight := s.flight - {id}), key, limited)
  {}

  lemma SafeStep(s: State, step: Step, key: LockKey, limited: Policy)
    requires Safe(s, key, limited) && (step.Begin? ==> Limits(step.claims, limited))
    ensures Safe(Apply(s, step, key), key, limited)
  {
    if step.Begin? {
      SafeBegin(s, step.id, step.claims, key, limited);
    } else if step.id in s.flight {
      match step
      case Lock(id) => SafeLock(s, id, key, limited);
      case Check(id) => SafeCheck(s, id, key, limited);
      case Insert(id) => SafeInsert(s, id, key, limited);
      case Pay(id) => SafePay(s, id, key, limited);
      case Finish(id) => SafeFinish(s, id, key, limited);
      case End(id) => if s.flight[id].todo == [] { SafeEnd(s, id, key, limited); }
      case Rollback(id) => SafeRollback(s, id, key, limited);
    }
  }

  lemma {:induction false} RunIsSafe(run: Run, key: LockKey, limited: Policy)
    requires RunLimits(run, limited)
    ensures Safe(After(run, key), key, limited)
  {
    if run.Then? {
      RunIsSafe(run.past, key, limited);
      SafeStep(After(run.past, key), run.step, key, limited);
    }
  }

  // ---------------------------------------------------------------- results

  /** Every claim of this one reward is limited, whatever other rewards do. */
  predicate AlwaysLimited(run: Run, reward: string) { RunLimits(run, Only(reward)) }

  function Only(reward: string): Policy { r => r == reward }

  function NoReward(): Policy { _ => false }

  lemma {:induction false} NoneLimits(run: Run)
    ensures RunLimits(run, NoReward())
  {
    if run.Then? {
      NoneLimits(run.past);
    }
  }

  /** MAIN RESULT. A reward that is limited in every revision has at most one committed claim per player,
      and each of its grants is paid to a player at most once, from whatever source; the limits of other
      rewards do not matter, and neither does what lock keys collide on. */
  lemma ClaimedOncePerPlayer(run: Run, key: LockKey, player: string, reward: string)
    requires AlwaysLimited(run, reward)
    ensures var s := After(run, key);
            && (forall a, b :: (player, reward, a) in s.rows && (player, reward, b) in s.rows ==> a == b)
            && (forall p :: s.paid[p] <= 1)
            && (forall a, b, i :: Payment((player, reward, a), i) in s.paid && Payment((player, reward, b), i) in s.paid ==> a == b)
  {
    RunIsSafe(run, key, Only(reward));
  }

  /** MAIN RESULT. Whatever the limits, each grant of a reward is paid at most once per player and source,
      and only together with a committed claim. */
  lemma PaidOncePerSource(run: Run, key: LockKey, p: Payment)
    ensures After(run, key).paid[p] <= 1
    ensures p in After(run, key).paid ==> p.row in After(run, key).rows
  {
    NoneLimits(run);
    RunIsSafe(run, key, NoReward());
  }
}
