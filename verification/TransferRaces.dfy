/** Transfers under read-committed isolation, statement by statement, together with every other writer of
wallets and of the ledger.

A transfer first locks the wallet rows it finds, checks the balances it read, and then writes. A row that is
not there yet cannot be locked, so another transaction may create it in between. */
module TransferRaces {
  import opened Economy
  import opened Ordering
  import Conservation
  import Int64

  /** A player and a currency. */
  type Key = (string, string)

  /** What is stored for each player and currency: balances, or the sums of ledger entries. The system
      account's side of the ledger is left out. */
  type Wallets = map<Key, int>

  function At(wallets: Wallets, k: Key): int { if k in wallets then wallets[k] else 0 }

  /** The bounds of a balance, as the revision of one command has them. */
  datatype Bounds = Bounds(lo: int, hi: int)

  /** What a transfer is asked to do. */
  datatype Order = Order(from: string, to: string, currency: string, amount: int, bounds: Bounds) {
    function Source(): Key { (from, currency) }
    function Target(): Key { (to, currency) }
  }

  /** `Credited` has written both wallets, `Entered` its ledger entries too. */
  datatype Stage = Locking | Debited | Credited | Entered

  /** A transfer in flight: the players whose rows its query found, the ones still to be locked and the ones
      it has locked; `answer` is the target's new balance as it will be reported. */
  datatype Payment = Payment(order: Order, found: set<string>, todo: seq<string>, locks: set<string>, stage: Stage, answer: int)

  /** A wallet write whose ledger entries are still to come. */
  datatype Due = Nothing | Owed(key: Key, amount: int)

  /** Besides transfers there are credits and debits, which check the balance their write returned before they
      write their entries, and the grants of rewards, each followed by its entries. */
  datatype Tx = Fresh
              | Granting(writes: Wallets, entries: Wallets, due: Due)
              | Changing(key: Key, delta: int, bounds: Bounds, seen: int, entered: bool)
              | Paying(pay: Payment)

  /** The committed wallets and ledger sums, and the transactions in flight. */
  datatype World = World(wallets: Wallets, ledger: Wallets, flight: map<nat, Tx>)

  // ---------------------------------------------------------------- statements

  datatype Step = Begin(id: nat) | Add(id: nat, key: Key, amount: int) | Change(id: nat, key: Key, delta: int, bounds: Bounds)
                | Read(id: nat, order: Order) | Lock(id: nat) | Deduct(id: nat) | Deposit(id: nat)
                | Enter(id: nat) | Commit(id: nat) | Rollback(id: nat)

  /** Both wallets of the transfer are written. */
  predicate Paid(p: Payment) { p.stage.Credited? || p.stage.Entered? }

  /** Rows a transaction has locked or written. */
  predicate Holds(tx: Tx, k: Key) {
    match tx
    case Fresh => false
    case Granting(writes, _, _) => k in writes
    case Changing(key, _, _, _, _) => k == key
    case Paying(p) => k.1 == p.order.currency && (k.0 in p.locks || (Paid(p) && k.0 == p.order.to))
  }

  predicate Free(w: World, id: nat, k: Key) {
    forall j :: j in w.flight && j != id ==> !Holds(w.flight[j], k)
  }

  function Put(w: World, id: nat, tx: Tx): World { w.(flight := w.flight[id := tx]) }

  function Drop(w: World, id: nat): World { w.(flight := w.flight - {id}) }

  function Added(tx: Tx, k: Key, amount: int): Tx
    requires tx.Granting?
  {
    tx.(writes := tx.writes[k := At(tx.writes, k) + amount], due := Owed(k, amount))
  }

  /** INSERT ... ON CONFLICT DO UPDATE, of a grant. */
  function AddStep(w: World, id: nat, tx: Tx, k: Key, amount: int): World
    requires tx.Granting?
  {
    if amount < 1 || tx.due != Nothing || !Free(w, id, k) then w
    else if !Storable(At(w.wallets, k) + At(tx.writes, k) + amount) then Drop(w, id)
    else Put(w, id, Added(tx, k, amount))
  }

  /** The write of a credit, or the guarded one of a debit, with the balance it returns. A debit without funds
      ends the transaction, and so does a balance the column cannot hold. */
  function ChangeStep(w: World, id: nat, k: Key, delta: int, b: Bounds): World {
    var balance := At(w.wallets, k) + delta;
    if delta == 0 || delta > MAX_COMMAND_AMOUNT || delta < -MAX_COMMAND_AMOUNT || !Free(w, id, k) then w
    else if (delta < 0 && k !in w.wallets) || !Storable(balance) then Drop(w, id)
    else Put(w, id, Changing(k, delta, b, balance, false))
  }

  predicate Inside(b: Bounds, balance: int) { b.lo <= balance <= b.hi }

  function EntryAdded(entries: Wallets, due: Due): Wallets {
    match due
    case Nothing => entries
    case Owed(k, amount) => entries[k := At(entries, k) + amount]
  }

  /** INSERT INTO the ledger. A change whose balance is out of bounds is refused before it gets there. */
  function EnterStep(w: World, id: nat, tx: Tx): World {
    match tx
    case Fresh => w
    case Granting(_, entries, due) => Put(w, id, tx.(entries := EntryAdded(entries, due), due := Nothing))
    case Changing(_, _, b, seen, _) => if Inside(b, seen) then Put(w, id, tx.(entered := true)) else w
    case Paying(p) => if p.stage.Credited? then Put(w, id, Paying(p.(stage := Entered))) else w
  }

  function RowOf(wallets: Wallets, player: string, currency: string): seq<string> {
    if (player, currency) in wallets then [player] else []
  }

  /** The rows SELECT ... ORDER BY player_id FOR UPDATE finds as it starts; it locks them one by one. */
  function RowsOf(wallets: Wallets, a: string, b: string, currency: string): seq<string> {
    if StringLess(a, b) then RowOf(wallets, a, currency) + RowOf(wallets, b, currency)
    else RowOf(wallets, b, currency) + RowOf(wallets, a, currency)
  }

  function PlayersIn(rows: seq<string>): set<string> { set r | r in rows }

  function Starting(wallets: Wallets, o: Order): Payment {
    var rows := RowsOf(wallets, o.from, o.to, o.currency);
    Payment(o, PlayersIn(rows), rows, {}, Locking, 0)
  }

  function ReadStep(w: World, id: nat, o: Order): World {
    if o.from == o.to || o.amount < 1 || o.amount > MAX_COMMAND_AMOUNT then w else Put(w, id, Paying(Starting(w.wallets, o)))
  }

  function LockNext(p: Payment): Payment
    requires p.todo != []
  {
    p.(todo := p.todo[1..], locks := p.locks + {p.todo[0]})
  }

  function LockStep(w: World, id: nat, p: Payment): World {
    if p.todo == [] || !Free(w, id, (p.todo[0], p.order.currency)) then w else Put(w, id, Paying(LockNext(p)))
  }

  /** The target's new balance as the program computes it. */
  function Answer(wallets: Wallets, p: Payment): int {
    Int64.Wrap((if p.order.to in p.found then At(wallets, p.order.Target()) else 0) + p.order.amount)
  }

  /** Checks the balances, and takes the amount from the sender; a refusal ends the transaction. */
  function DebitStep(w: World, id: nat, p: Payment): World {
    var answer, b := Answer(w.wallets, p), p.order.bounds;
    if !p.stage.Locking? || p.todo != [] then w
    else if p.order.from !in p.found || At(w.wallets, p.order.Source()) < p.order.amount || answer < b.lo || answer > b.hi then Drop(w, id)
    else Put(w, id, Paying(p.(stage := Debited, answer := answer)))
  }

  function CreditStep(w: World, id: nat, p: Payment): World {
    if !p.stage.Debited? || !Free(w, id, p.order.Target()) then w
    else if !Storable(At(w.wallets, p.order.Target()) + p.order.amount) then Drop(w, id)
    else Put(w, id, Paying(p.(stage := Credited)))
  }

  function Merged(wallets: Wallets, writes: Wallets): Wallets {
    map k | k in wallets.Keys + writes.Keys :: At(wallets, k) + At(writes, k)
  }

  function Transferred(wallets: Wallets, o: Order): Wallets { Conservation.Moved(wallets, o.from, o.to, o.currency, o.amount) }

  /** A refused change commits too, without its entries; nothing else commits before all of its entries. */
  predicate MayCommit(tx: Tx) {
    match tx
    case Fresh => true
    case Granting(_, _, due) => due.Nothing?
    case Changing(_, _, b, seen, entered) => entered || !Inside(b, seen)
    case Paying(p) => p.stage.Entered?
  }

  function Written(wallets: Wallets, tx: Tx): Wallets {
    match tx
    case Fresh => wallets
    case Granting(writes, _, _) => Merged(wallets, writes)
    case Changing(k, delta, _, _, _) => wallets[k := At(wallets, k) + delta]
    case Paying(p) => Transferred(wallets, p.order)
  }

  function EntriesIn(ledger: Wallets, tx: Tx): Wallets {
    match tx
    case Fresh => ledger
    case Granting(_, entries, _) => Merged(ledger, entries)
    case Changing(k, delta, _, _, entered) => if entered then ledger[k := At(ledger, k) + delta] else ledger
    case Paying(p) => if p.stage.Entered? then Transferred(ledger, p.order) else ledger
  }

  function CommitStep(w: World, id: nat, tx: Tx): World {
    if MayCommit(tx) then World(Written(w.wallets, tx), EntriesIn(w.ledger, tx), w.flight - {id}) else w
  }

  /** A statement of a transaction that is not there, or not at it, or has to wait, changes nothing. */
  function Apply(w: World, step: Step): World {
    if step.Begin? then if step.id in w.flight then w else Put(w, step.id, Fresh)
    else if step.id !in w.flight then w
    else
      var tx := w.flight[step.id];
      match step
      case Rollback(id) => Drop(w, id)
      case Commit(id) => CommitStep(w, id, tx)
      case Enter(id) => EnterStep(w, id, tx)
      case Add(id, k, amount) =>
        if tx.Fresh? then AddStep(w, id, Granting(map[], map[], Nothing), k, amount)
        else if tx.Granting? then AddStep(w, id, tx, k, amount) else w
      case Change(id, k, delta, b) => if tx.Fresh? then ChangeStep(w, id, k, delta, b) else w
      case Read(id, o) => if tx.Fresh? then ReadStep(w, id, o) else w
      case Lock(id) => if tx.Paying? then LockStep(w, id, tx.pay) else w
      case Deduct(id) => if tx.Paying? then DebitStep(w, id, tx.pay) else w
      case Deposit(id) => if tx.Paying? then CreditStep(w, id, tx.pay) else w
  }

  datatype Run = Nil | Then(past: Run, step: Step)

  /** A run starts with wallets the ledger agrees with. */
  function After(run: Run, start: Wallets): World {
    match run
    case Nil => World(start, start, map[])
    case Then(past, step) => Apply(After(past, start), step)
  }

  // ---------------------------------------------------------------- the invariant

  ghost predicate PaymentOk(wallets: Wallets, p: Payment) {
    var o := p.order;
    && o.from != o.to && 1 <= o.amount <= MAX_COMMAND_AMOUNT
    && (forall q :: q in p.found <==> q in p.locks || q in p.todo)
    && (forall q :: q in p.found ==> (q, o.currency) in wallets)
    && (!p.stage.Locking? ==> p.todo == [] && o.from in p.found && At(wallets, o.Source()) >= o.amount
                              && p.answer == Answer(wallets, p) && o.bounds.lo <= p.answer <= o.bounds.hi)
    && (Paid(p) ==> Storable(At(wallets, o.Target()) + o.amount))
  }

  predicate GrantsOk(wallets: Wallets, writes: Wallets) {
    forall k :: k in writes ==> Storable(At(wallets, k) + writes[k])
  }

  /** Every write has its entries, but for the one that is due. */
  ghost predicate AllDue(writes: Wallets, entries: Wallets, due: Due) {
    forall k :: At(writes, k) == At(EntryAdded(entries, due), k)
  }

  /** What each transaction in flight has done so far; a change still has the balance its write returned. */
  ghost predicate TxOk(wallets: Wallets, tx: Tx) {
    match tx
    case Fresh => true
    case Granting(writes, entries, due) => GrantsOk(wallets, writes) && AllDue(writes, entries, due)
    case Changing(k, delta, b, seen, entered) => seen == At(wallets, k) + delta && Storable(seen) && (entered ==> Inside(b, seen))
    case Paying(p) => PaymentOk(wallets, p)
  }

  ghost predicate Apart(a: Tx, b: Tx) {
    forall k: Key :: !(Holds(a, k) && Holds(b, k))
  }

  predicate AllStorable(wallets: Wallets) {
    forall k :: k in wallets ==> Storable(wallets[k])
  }

  ghost predicate Inv(w: World) {
    && AllStorable(w.wallets)
    && (forall i :: i in w.flight ==> TxOk(w.wallets, w.flight[i]))
    && (forall i, j :: i in w.flight && j in w.flight && i != j ==> Apart(w.flight[i], w.flight[j]))
  }

  // ---------------------------------------------------------------- each statement keeps it

  /** A transaction does not notice commits that leave its rows alone. */
  lemma TxStays(before: Wallets, after: Wallets, tx: Tx)
    requires TxOk(before, tx) && before.Keys <= after.Keys && forall k :: Holds(tx, k) ==> At(after, k) == At(before, k)
    ensures TxOk(after, tx)
  {
    assert tx.Changing? ==> Holds(tx, tx.key);
    if tx.Paying? && !tx.pay.stage.Locking? {
      var p := tx.pay;
      assert Holds(tx, p.order.Source());
      assert p.order.to in p.found ==> Holds(tx, p.order.Target());
      assert Paid(p) ==> Holds(tx, p.order.Target());
    }
  }

  lemma PutKeeps(w: World, id: nat, tx: Tx)
    requires Inv(w) && TxOk(w.wallets, tx) && forall j :: j in w.flight && j != id ==> Apart(tx, w.flight[j])
    ensures Inv(Put(w, id, tx))
  {
    forall i, j | i in Put(w, id, tx).flight && j in Put(w, id, tx).flight && i != j
      ensures Apart(Put(w, id, tx).flight[i], Put(w, id, tx).flight[j])
    {
      assert i != id && j != id ==> Apart(w.flight[i], w.flight[j]);
      if j == id { assert Apart(tx, w.flight[i]); }
    }
  }

  lemma DropKeeps(w: World, id: nat)
    requires Inv(w)
    ensures Inv(Drop(w, id))
  {}

  /** A transaction may take one more free row. */
  lemma OneMoreRow(w: World, id: nat, more: Tx, k: Key)
    requires Inv(w) && id in w.flight && TxOk(w.wallets, more) && Free(w, id, k)
    requires forall q :: Holds(more, q) ==> Holds(w.flight[id], q) || q == k
    ensures Inv(Put(w, id, more))
  {
    forall j | j in w.flight && j != id ensures Apart(more, w.flight[j]) {
      assert Apart(w.flight[id], w.flight[j]);
    }
    PutKeeps(w, id, more);
  }

  /** The same rows, further on. */
  lemma SameRows(w: World, id: nat, more: Tx)
    requires Inv(w) && id in w.flight && TxOk(w.wallets, more) && forall q :: Holds(more, q) ==> Holds(w.flight[id], q)
    ensures Inv(Put(w, id, more))
  {
    forall j | j in w.flight && j != id ensures Apart(more, w.flight[j]) {
      assert Apart(w.flight[id], w.flight[j]);
    }
    PutKeeps(w, id, more);
  }

  lemma AddKeeps(w: World, id: nat, tx: Tx, k: Key, amount: int)
    requires Inv(w) && id in w.flight && tx.Granting? && TxOk(w.wallets, tx) && forall q :: Holds(tx, q) ==> Holds(w.flight[id], q)
    ensures Inv(AddStep(w, id, tx, k, amount))
  {
    DropKeeps(w, id);
    if tx.due == Nothing && Free(w, id, k) && Storable(At(w.wallets, k) + At(tx.writes, k) + amount) {
      AddedOk(w.wallets, tx, k, amount);
      OneMoreRow(w, id, Added(tx, k, amount), k);
    }
  }

  lemma AddedOk(wallets: Wallets, tx: Tx, k: Key, amount: int)
    requires tx.Granting? && TxOk(wallets, tx) && tx.due == Nothing && Storable(At(wallets, k) + At(tx.writes, k) + amount)
    ensures TxOk(wallets, Added(tx, k, amount)) && forall q :: Holds(Added(tx, k, amount), q) ==> Holds(tx, q) || q == k
  {
    var more := Added(tx, k, amount);
    forall q ensures At(more.writes, q) == At(EntryAdded(more.entries, more.due), q) {
      assert At(tx.writes, q) == At(EntryAdded(tx.entries, tx.due), q);
      assert At(tx.writes, k) == At(EntryAdded(tx.entries, tx.due), k);
    }
  }

  lemma ChangeKeeps(w: World, id: nat, k: Key, delta: int, b: Bounds)
    requires Inv(w) && id in w.flight
    ensures Inv(ChangeStep(w, id, k, delta, b))
  {
    DropKeeps(w, id);
    if Free(w, id, k) && Storable(At(w.wallets, k) + delta) {
      OneMoreRow(w, id, Changing(k, delta, b, At(w.wallets, k) + delta, false), k);
    }
  }

  lemma EnterKeeps(w: World, id: nat, tx: Tx)
    requires Inv(w) && id in w.flight && w.flight[id] == tx
    ensures Inv(EnterStep(w, id, tx))
  {
    assert TxOk(w.wallets, tx);
    match tx
    case Fresh =>
    case Granting(writes, entries, due) => SameRows(w, id, tx.(entries := EntryAdded(entries, due), due := Nothing));
    case Changing(_, _, b, seen, _) => if Inside(b, seen) { SameRows(w, id, tx.(entered := true)); }
    case Paying(p) => if p.stage.Credited? { PaymentEnters(w, id, p); }
  }

  lemma PaymentEnters(w: World, id: nat, p: Payment)
    requires Inv(w) && id in w.flight && w.flight[id] == Paying(p) && p.stage.Credited?
    ensures Inv(Put(w, id, Paying(p.(stage := Entered))))
  {
    var more := p.(stage := Entered);
    assert PaymentOk(w.wallets, p);
    assert Answer(w.wallets, more) == Answer(w.wallets, p);
    SameRows(w, id, Paying(more));
  }

  lemma RowsOfAre(wallets: Wallets, a: string, b: string, currency: string)
    ensures forall r :: r in RowsOf(wallets, a, b, currency) <==> (r == a || r == b) && (r, currency) in wallets
  {}

  lemma ReadKeeps(w: World, id: nat, o: Order)
    requires Inv(w) && id in w.flight
    ensures Inv(ReadStep(w, id, o))
  {
    if o.from != o.to && 1 <= o.amount <= MAX_COMMAND_AMOUNT {
      RowsOfAre(w.wallets, o.from, o.to, o.currency);
      SameRows(w, id, Paying(Starting(w.wallets, o)));
    }
  }

  lemma LockKeeps(w: World, id: nat, p: Payment)
    requires Inv(w) && id in w.flight && w.flight[id] == Paying(p)
    ensures Inv(LockStep(w, id, p))
  {
    if p.todo != [] && Free(w, id, (p.todo[0], p.order.currency)) {
      var more := LockNext(p);
      assert p.todo == [p.todo[0]] + p.todo[1..];
      assert forall q :: q in p.todo <==> q == p.todo[0] || q in more.todo;
      assert PaymentOk(w.wallets, p);
      assert PaymentOk(w.wallets, more);
      OneMoreRow(w, id, Paying(more), (p.todo[0], p.order.currency));
    }
  }

  lemma DebitKeeps(w: World, id: nat, p: Payment)
    requires Inv(w) && id in w.flight && w.flight[id] == Paying(p)
    ensures Inv(DebitStep(w, id, p))
  {
    DropKeeps(w, id);
    var more := p.(stage := Debited, answer := Answer(w.wallets, p));
    assert PaymentOk(w.wallets, p);
    assert Answer(w.wallets, more) == Answer(w.wallets, p);
    if p.stage.Locking? && PaymentOk(w.wallets, more) {
      SameRows(w, id, Paying(more));
    }
  }

  lemma CreditKeeps(w: World, id: nat, p: Payment)
    requires Inv(w) && id in w.flight && w.flight[id] == Paying(p)
    ensures Inv(CreditStep(w, id, p))
  {
    DropKeeps(w, id);
    if p.stage.Debited? && Free(w, id, p.order.Target()) && Storable(At(w.wallets, p.order.Target()) + p.order.amount) {
      var more := p.(stage := Credited);
      assert PaymentOk(w.wallets, p);
      assert Answer(w.wallets, more) == Answer(w.wallets, p);
      OneMoreRow(w, id, Paying(more), p.order.Target());
    }
  }

  /** A commit changes only rows its transaction holds. */
  lemma CommitKeeps(w: World, id: nat, tx: Tx)
    requires Inv(w) && id in w.flight && w.flight[id] == tx
    ensures Inv(CommitStep(w, id, tx))
  {
    var w' := CommitStep(w, id, tx);
    if w' != w {
      CommitWrites(w, id, tx);
      forall j | j in w'.flight ensures TxOk(w'.wallets, w'.flight[j]) {
        assert Apart(tx, w.flight[j]);
        TxStays(w.wallets, w'.wallets, w.flight[j]);
      }
    }
  }

  lemma CommitWrites(w: World, id: nat, tx: Tx)
    requires AllStorable(w.wallets) && TxOk(w.wallets, tx) && CommitStep(w, id, tx) != w
    ensures var after := CommitStep(w, id, tx).wallets;
            AllStorable(after) && w.wallets.Keys <= after.Keys && forall k :: !Holds(tx, k) ==> At(after, k) == At(w.wallets, k)
  {
    assert tx.Changing? ==> Holds(tx, tx.key);
    if tx.Paying? {
      assert Holds(tx, tx.pay.order.Source()) && Holds(tx, tx.pay.order.Target());
    }
  }

  lemma StepKeeps(w: World, step: Step)
    requires Inv(w)
    ensures Inv(Apply(w, step))
  {
    if step.Begin? {
      if step.id !in w.flight { PutKeeps(w, step.id, Fresh); }
    } else if step.id in w.flight {
      var tx := w.flight[step.id];
      match step
      case Rollback(id) => DropKeeps(w, id);
      case Commit(id) => CommitKeeps(w, id, tx);
      case Enter(id) => EnterKeeps(w, id, tx);
      case Add(id, k, amount) =>
        if tx.Fresh? { AddKeeps(w, id, Granting(map[], map[], Nothing), k, amount); } else if tx.Granting? { AddKeeps(w, id, tx, k, amount); }
      case Change(id, k, delta, b) => ChangeKeeps(w, id, k, delta, b);
      case Read(id, o) => ReadKeeps(w, id, o);
      case Lock(id) => if tx.Paying? { LockKeeps(w, id, tx.pay); }
      case Deduct(id) => if tx.Paying? { DebitKeeps(w, id, tx.pay); }
      case Deposit(id) => if tx.Paying? { CreditKeeps(w, id, tx.pay); }
    }
  }

  lemma {:induction false} RunKeeps(run: Run, start: Wallets)
    requires AllStorable(start)
    ensures Inv(After(run, start))
  {
    if run.Then? {
      RunKeeps(run.past, start);
      StepKeeps(After(run.past, start), run.step);
    }
  }

  // ---------------------------------------------------------------- what a committed transfer did

  /** MAIN RESULT. However transactions interleave, a transfer that commits takes the amount from the sender
      and gives it to the target, and nothing else. Its answer is the balance it leaves exactly when it found
      and locked the target's row, or the target still has nothing as it commits; and if it found the row,
      that balance is within bounds. */
  lemma CommittedTransfer(run: Run, start: Wallets, id: nat)
    requires AllStorable(start) && id in After(run, start).flight
    requires After(run, start).flight[id].Paying? && After(run, start).flight[id].pay.stage.Entered?
    ensures var w, p := After(run, start), After(run, start).flight[id].pay;
            var after, o := After(Then(run, Commit(id)), start).wallets, p.order;
            && after == Transferred(w.wallets, o)
            && (p.answer == after[o.Target()] <==> o.to in p.found || At(w.wallets, o.Target()) == 0)
            && (o.to in p.found ==> o.bounds.lo <= after[o.Target()] <= o.bounds.hi)
  {
    RunKeeps(run, start);
    AnswerIsRight(After(run, start), id);
  }

  /** A payment whose credit went through reports the right balance exactly when nothing came in between. */
  lemma AnswerIsRight(w: World, id: nat)
    requires Inv(w) && id in w.flight && w.flight[id].Paying? && Paid(w.flight[id].pay)
    ensures var p := w.flight[id].pay;
            && (p.answer == At(w.wallets, p.order.Target()) + p.order.amount <==> p.order.to in p.found || At(w.wallets, p.order.Target()) == 0)
            && (p.order.to !in p.found ==> p.answer == p.order.amount)
            && p.order.bounds.lo <= p.answer <= p.order.bounds.hi
  {
    assert TxOk(w.wallets, w.flight[id]);
  }

  // ---------------------------------------------------------------- money is neither made nor lost

  lemma MergedKeys(wallets: Wallets, writes: Wallets, k: Key)
    requires k in writes
    ensures Merged(wallets, writes).Keys == Merged(wallets, writes - {k}).Keys + {k}
    ensures forall q :: q in Merged(wallets, writes) ==>
              Merged(wallets, writes)[q] == if q == k then At(wallets, k) + writes[k] else At(Merged(wallets, writes - {k}), q)
  {}

  lemma MergedOneMore(wallets: Wallets, writes: Wallets, k: Key)
    requires k in writes
    ensures Merged(wallets, writes) == Merged(wallets, writes - {k})[k := At(wallets, k) + writes[k]]
    ensures At(Merged(wallets, writes - {k}), k) == At(wallets, k)
  {
    MergedKeys(wallets, writes, k);
  }

  lemma MergedTotalStep(wallets: Wallets, writes: Wallets, k: Key, c: string)
    requires k in writes
    requires Conservation.Total(Merged(wallets, writes - {k}), c) == Conservation.Total(wallets, c) + Conservation.Total(writes - {k}, c)
    ensures Conservation.Total(Merged(wallets, writes), c) == Conservation.Total(wallets, c) + Conservation.Total(writes, c)
  {
    var rest := Merged(wallets, writes - {k});
    Conservation.TotalWithout(writes, k, c);
    MergedOneMore(wallets, writes, k);
    Conservation.TotalUpdate(rest, k, At(wallets, k) + writes[k], c);
  }

  lemma {:induction false} MergedTotal(wallets: Wallets, writes: Wallets, c: string)
    ensures Conservation.Total(Merged(wallets, writes), c) == Conservation.Total(wallets, c) + Conservation.Total(writes, c)
    decreases |writes|
  {
    if writes == map[] {
      assert Merged(wallets, writes) == wallets;
    } else {
      var k :| k in writes;
      MergedTotal(wallets, writes - {k}, c);
      MergedTotalStep(wallets, writes, k, c);
    }
  }

  /** What grants, credits and debits have committed, added up. */
  ghost function Issued(run: Run, start: Wallets, c: string): int {
    match run
    case Nil => 0
    case Then(past, step) => Issued(past, start, c) + IssuedBy(After(past, start), step, c)
  }

  ghost function IssuedBy(w: World, step: Step, c: string): int {
    if !step.Commit? || step.id !in w.flight || !MayCommit(w.flight[step.id]) then 0
    else match w.flight[step.id]
      case Granting(writes, _, _) => Conservation.Total(writes, c)
      case Changing(k, delta, _, _, _) => if k.1 == c then delta else 0
      case _ => 0
  }

  /** MAIN RESULT. In every run the money there is in a currency is what there was at the start and what
      credits, debits and grants have committed: transfers, however they race, neither make nor lose any.
      No balance ever becomes negative. */
  lemma {:induction false} MoneyIsConserved(run: Run, start: Wallets, c: string)
    requires AllStorable(start)
    ensures Conservation.Total(After(run, start).wallets, c) == Conservation.Total(start, c) + Issued(run, start, c)
    ensures AllStorable(After(run, start).wallets)
  {
    RunKeeps(run, start);
    if run.Then? {
      RunKeeps(run.past, start);
      MoneyIsConserved(run.past, start, c);
      StepMoney(After(run.past, start), run.step, c);
    }
  }

  /** Only commits change what is stored. */
  lemma OnlyCommitsStore(w: World, step: Step)
    requires !step.Commit?
    ensures Apply(w, step).wallets == w.wallets && Apply(w, step).ledger == w.ledger
  {}

  lemma StepMoney(w: World, step: Step, c: string)
    requires Inv(w)
    ensures Conservation.Total(Apply(w, step).wallets, c) == Conservation.Total(w.wallets, c) + IssuedBy(w, step, c)
  {
    if step.Commit? && step.id in w.flight {
      assert TxOk(w.wallets, w.flight[step.id]);
      match w.flight[step.id]
      case Fresh =>
      case Granting(writes, _, _) => MergedTotal(w.wallets, writes, c);
      case Changing(k, delta, _, _, _) => Conservation.TotalUpdate(w.wallets, k, At(w.wallets, k) + delta, c);
      case Paying(p) => Conservation.MovedKeepsTotal(w.wallets, p.order.from, p.order.to, p.order.currency, p.order.amount, c);
    } else if !step.Commit? {
      OnlyCommitsStore(w, step);
    }
  }

  // ---------------------------------------------------------------- wallets against the ledger

  /** How far a wallet is ahead of its ledger entries. */
  function Gap(w: World, k: Key): int { At(w.wallets, k) - At(w.ledger, k) }

  /** What the committed credits and debits of one wallet sum up to that left it out of their own bounds. */
  function Overruns(run: Run, start: Wallets, k: Key): int {
    match run
    case Nil => 0
    case Then(past, step) => Overruns(past, start, k) + OverrunBy(After(past, start), step, k)
  }

  /** The change is judged by the balance it leaves when it commits. */
  function OverrunBy(w: World, step: Step, k: Key): int {
    if step.Commit? && step.id in w.flight && w.flight[step.id].Changing? && w.flight[step.id].key == k
       && !Inside(w.flight[step.id].bounds, At(w.wallets, k) + w.flight[step.id].delta)
    then w.flight[step.id].delta else 0
  }

  /** MAIN RESULT. In every run each wallet is ahead of its ledger by exactly the committed credits and debits
      that leave a balance outside their bounds as they commit: the balance they checked is still the one they
      leave, because they hold the row. Grants and transfers, however they race, leave no gap. */
  lemma {:induction false} GapIsOverruns(run: Run, start: Wallets, k: Key)
    requires AllStorable(start)
    ensures Gap(After(run, start), k) == Overruns(run, start, k)
  {
    if run.Then? {
      RunKeeps(run.past, start);
      GapIsOverruns(run.past, start, k);
      StepGap(After(run.past, start), run.step, k);
    }
  }

  lemma StepGap(w: World, step: Step, k: Key)
    requires Inv(w)
    ensures Gap(Apply(w, step), k) == Gap(w, k) + OverrunBy(w, step, k)
  {
    if step.Commit? && step.id in w.flight {
      CommitGap(w, step.id, w.flight[step.id], k);
    } else if !step.Commit? {
      OnlyCommitsStore(w, step);
    }
  }

  lemma CommitGap(w: World, id: nat, tx: Tx, k: Key)
    requires TxOk(w.wallets, tx) && id in w.flight && w.flight[id] == tx
    ensures Gap(CommitStep(w, id, tx), k) == Gap(w, k) + OverrunBy(w, Commit(id), k)
  {
    if tx.Granting? && MayCommit(tx) {
      assert At(tx.writes, k) == At(EntryAdded(tx.entries, tx.due), k);
    }
  }

  /** A change that is refused although it is written still commits: the gap it leaves is its amount. */
  lemma CommittedChange(run: Run, start: Wallets, id: nat)
    requires AllStorable(start) && id in After(run, start).flight && After(run, start).flight[id].Changing?
    requires MayCommit(After(run, start).flight[id])
    ensures var w, tx := After(run, start), After(run, start).flight[id];
            var w' := After(Then(run, Commit(id)), start);
            && w'.wallets == w.wallets[tx.key := tx.seen] && Storable(tx.seen)
            && (tx.entered <==> Inside(tx.bounds, w'.wallets[tx.key]))
            && Gap(w', tx.key) == Gap(w, tx.key) + if Inside(tx.bounds, tx.seen) then 0 else tx.delta
  {
    RunKeeps(run, start);
    var tx := After(run, start).flight[id];
    assert TxOk(After(run, start).wallets, tx);
    StepGap(After(run, start), Commit(id), tx.key);
  }
}
