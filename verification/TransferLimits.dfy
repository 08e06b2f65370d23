/** When the answers and the bounds of racing transfers can be trusted, and what a transfer does alone. */
module TransferLimits {
  import opened Commands
  import opened Economy
  import opened TransferRaces
  import BalanceBounds
  import Conservation
  import Int64
  import Ledger

  /** The bounds that transfers into a wallet may have, in one revision or another. */
  type Offer = Bounds -> bool

  /** All transfers of the run into this wallet have offered bounds. */
  predicate Offers(run: Run, k: Key, offered: Offer) {
    run.Then? ==> Offers(run.past, k, offered) && (run.step.Read? && run.step.order.Target() == k ==> offered(run.step.order.bounds))
  }

  predicate PaysInto(w: World, i: nat, k: Key) {
    i in w.flight && w.flight[i].Paying? && Paid(w.flight[i].pay) && w.flight[i].pay.order.Target() == k
  }

  /** What the wallet will hold once this transfer commits. */
  function Leaves(w: World, i: nat, k: Key): int
    requires PaysInto(w, i, k)
  {
    At(w.wallets, k) + w.flight[i].pay.order.amount
  }

  /** Every transfer about to commit into this wallet answers with the balance it will leave. */
  ghost predicate Exact(w: World, k: Key) {
    forall i :: PaysInto(w, i, k) ==> w.flight[i].pay.answer == Leaves(w, i, k)
  }

  /** And leaves a balance within its bounds. */
  ghost predicate Within(w: World, k: Key) {
    forall i :: PaysInto(w, i, k) ==> w.flight[i].pay.order.bounds.lo <= Leaves(w, i, k) <= w.flight[i].pay.order.bounds.hi
  }

  /** An amount that may be transferred to an empty wallet. */
  predicate FirstAmount(x: int, b: Bounds) { 1 <= x <= MAX_COMMAND_AMOUNT && b.lo <= x <= b.hi }

  function LeastAmount(b: Bounds): int { if b.lo < 1 then 1 else b.lo }

  predicate Admits(b: Bounds) { FirstAmount(LeastAmount(b), b) }

  lemma AdmitsIff(b: Bounds, x: int)
    ensures FirstAmount(x, b) ==> Admits(b)
  {}

  /** The wallet has a row, and every transfer to it has found that row. */
  predicate RowKnown(w: World, k: Key) {
    k in w.wallets && forall i :: i in w.flight && w.flight[i].Paying? && w.flight[i].pay.order.Target() == k ==> k.0 in w.flight[i].pay.found
  }

  predicate BoundsOffered(w: World, k: Key, offered: Offer) {
    forall i :: i in w.flight && w.flight[i].Paying? && w.flight[i].pay.order.Target() == k ==> offered(w.flight[i].pay.order.bounds)
  }

  lemma StepKeepsRowKnown(w: World, step: TransferRaces.Step, k: Key)
    requires RowKnown(w, k)
    ensures RowKnown(Apply(w, step), k)
  {
    if step.Read? {
      RowsOfAre(w.wallets, step.order.from, step.order.to, step.order.currency);
    }
  }

  lemma {:induction false} RowStaysKnown(run: Run, start: Wallets, k: Key)
    requires k in start
    ensures RowKnown(After(run, start), k)
  {
    if run.Then? {
      RowStaysKnown(run.past, start, k);
      StepKeepsRowKnown(After(run.past, start), run.step, k);
    }
  }

  lemma StepKeepsOffered(w: World, step: TransferRaces.Step, k: Key, offered: Offer)
    requires BoundsOffered(w, k, offered) && (step.Read? && step.order.Target() == k ==> offered(step.order.bounds))
    ensures BoundsOffered(Apply(w, step), k, offered)
  {}

  lemma {:induction false} BoundsStayOffered(run: Run, start: Wallets, k: Key, offered: Offer)
    requires Offers(run, k, offered)
    ensures BoundsOffered(After(run, start), k, offered)
  {
    if run.Then? {
      BoundsStayOffered(run.past, start, k, offered);
      StepKeepsOffered(After(run.past, start), run.step, k, offered);
    }
  }

  ghost predicate AlwaysExact(start: Wallets, k: Key, offered: Offer) {
    forall run :: Offers(run, k, offered) ==> Exact(After(run, start), k)
  }

  ghost predicate AlwaysWithin(start: Wallets, k: Key, offered: Offer) {
    forall run :: Offers(run, k, offered) ==> Within(After(run, start), k)
  }

  ghost predicate NoneAdmits(offered: Offer) { forall b: Bounds :: offered(b) ==> !Admits(b) }

  /** No offered bounds both admit a first amount and can be passed. */
  ghost predicate NoneBinds(offered: Offer) { forall b: Bounds :: offered(b) ==> !Admits(b) || b.hi >= Int64.LARGEST }

  /** A transfer that found its row, or could not have passed the check without one, is exact. */
  lemma FoundIsExact(w: World, i: nat, k: Key)
    requires Inv(w) && PaysInto(w, i, k) && (RowKnown(w, k) || !Admits(w.flight[i].pay.order.bounds))
    ensures var p := w.flight[i].pay; p.answer == Leaves(w, i, k) && p.order.bounds.lo <= p.answer <= p.order.bounds.hi
  {
    var p := w.flight[i].pay;
    assert TxOk(w.wallets, w.flight[i]);
    AnswerIsRight(w, i);
    AdmitsIff(p.order.bounds, p.order.amount);
  }

  lemma UnboundedIsWithin(w: World, i: nat, k: Key)
    requires Inv(w) && PaysInto(w, i, k) && w.flight[i].pay.order.bounds.hi >= Int64.LARGEST
    ensures var b := w.flight[i].pay.order.bounds; b.lo <= Leaves(w, i, k) <= b.hi
  {
    assert TxOk(w.wallets, w.flight[i]);
    AnswerIsRight(w, i);
    assert k in w.wallets ==> Storable(w.wallets[k]);
  }

  // ---------------------------------------------------------------- a row that comes in between

  lemma AfterOne(run: Run, step: TransferRaces.Step, start: Wallets)
    ensures After(Then(run, step), start) == Apply(After(run, start), step)
  {}

  lemma AfterFour(run: Run, s1: TransferRaces.Step, s2: TransferRaces.Step, s3: TransferRaces.Step, s4: TransferRaces.Step, start: Wallets)
    ensures After(Then(Then(Then(Then(run, s1), s2), s3), s4), start) == Apply(Apply(Apply(Apply(After(run, start), s1), s2), s3), s4)
  {
    AfterOne(run, s1, start);
    AfterOne(Then(run, s1), s2, start);
    AfterOne(Then(Then(run, s1), s2), s3, start);
    AfterOne(Then(Then(Then(run, s1), s2), s3), s4, start);
  }

  function Adding(run: Run, id: nat, k: Key, amount: int): Run {
    Then(Then(Then(Then(run, Begin(id)), Add(id, k, amount)), Enter(id)), Commit(id))
  }

  /** A grant on a row nobody holds. */
  lemma AddAlone(w: World, id: nat, k: Key, amount: int)
    requires id !in w.flight && amount >= 1 && Free(w, id, k) && Storable(At(w.wallets, k) + amount)
    ensures var w' := Apply(Apply(Apply(Apply(w, Begin(id)), Add(id, k, amount)), Enter(id)), Commit(id));
            w'.wallets == w.wallets[k := At(w.wallets, k) + amount] && w'.flight == w.flight
  {
    var w1 := Put(w, id, Fresh);
    assert Apply(w, Begin(id)) == w1 && Free(w1, id, k);
    var w2 := Put(w, id, Granting(map[k := amount], map[], Owed(k, amount)));
    assert Put(w1, id, w2.flight[id]) == w2 && Added(Granting(map[], map[], Nothing), k, amount) == w2.flight[id];
    assert Apply(w1, Add(id, k, amount)) == w2;
    GrantEnters(w, id, k, amount);
  }

  lemma GrantEnters(w: World, id: nat, k: Key, amount: int)
    requires id !in w.flight
    ensures var w' := Apply(Apply(Put(w, id, Granting(map[k := amount], map[], Owed(k, amount))), Enter(id)), Commit(id));
            w'.wallets == w.wallets[k := At(w.wallets, k) + amount] && w'.flight == w.flight
  {
    var w2 := Put(w, id, Granting(map[k := amount], map[], Owed(k, amount)));
    var w3 := Put(w, id, Granting(map[k := amount], map[k := amount], Nothing));
    assert Apply(w2, Enter(id)) == w3;
    assert Merged(w.wallets, map[k := amount]) == w.wallets[k := At(w.wallets, k) + amount];
    assert w3.flight - {id} == w.flight;
  }

  lemma AddTooMuch(w: World, id: nat, k: Key, amount: int)
    requires id !in w.flight && amount >= 1 && Free(w, id, k) && !Storable(At(w.wallets, k) + amount)
    ensures Apply(Apply(Apply(Apply(w, Begin(id)), Add(id, k, amount)), Enter(id)), Commit(id)) == w
  {
    var w1 := Put(w, id, Fresh);
    assert Apply(w, Begin(id)) == w1 && Free(w1, id, k);
    assert Apply(w1, Add(id, k, amount)) == Drop(w1, id) == w;
  }

  function Prepared(run: Run, id: nat, o: Order): Run {
    Then(Then(Then(Then(run, Begin(id)), Read(id, o)), Lock(id)), Deduct(id))
  }

  function Found(o: Order): Payment { Payment(o, {o.from}, [o.from], {}, Locking, 0) }

  function Waiting(o: Order): Payment { Payment(o, {o.from}, [], {o.from}, Debited, o.amount) }

  /** A transfer to a wallet without a row, from one that has enough. */
  predicate ToNewRow(w: World, o: Order) {
    && o.from != o.to && FirstAmount(o.amount, o.bounds) && o.Target() !in w.wallets
    && o.Source() in w.wallets && w.wallets[o.Source()] >= o.amount
  }

  lemma ReadAlone(w: World, id: nat, o: Order)
    requires id !in w.flight && ToNewRow(w, o)
    ensures Apply(Apply(w, Begin(id)), Read(id, o)) == Put(w, id, Paying(Found(o)))
  {
    assert RowsOf(w.wallets, o.from, o.to, o.currency) == [o.from];
    assert PlayersIn([o.from]) == {o.from};
    assert Apply(w, Begin(id)) == Put(w, id, Fresh);
  }

  lemma LockAndDeduct(w: World, id: nat, o: Order)
    requires id in w.flight && w.flight[id] == Paying(Found(o)) && ToNewRow(w, o) && Free(w, id, o.Source())
    ensures Apply(Apply(w, Lock(id)), Deduct(id)) == Put(w, id, Paying(Waiting(o)))
  {
    var locked := Found(o).(todo := [], locks := {o.from});
    assert [o.from][1..] == [] && {} + {o.from} == {o.from};
    assert LockNext(Found(o)) == locked;
    assert Apply(w, Lock(id)) == Put(w, id, Paying(locked));
    assert Answer(w.wallets, locked) == o.amount;
  }

  /** Such a transfer goes up to its credit. */
  lemma PrepareAlone(run: Run, id: nat, o: Order, start: Wallets)
    requires id !in After(run, start).flight && ToNewRow(After(run, start), o) && Free(After(run, start), id, o.Source())
    ensures After(Prepared(run, id, o), start) == Put(After(run, start), id, Paying(Waiting(o)))
  {
    var w := After(run, start);
    var read := Then(Then(run, Begin(id)), Read(id, o));
    AfterOne(run, Begin(id), start);
    AfterOne(Then(run, Begin(id)), Read(id, o), start);
    ReadAlone(w, id, o);
    AfterOne(read, Lock(id), start);
    AfterOne(Then(read, Lock(id)), Deduct(id), start);
    var w2 := Put(w, id, Paying(Found(o)));
    assert Free(w2, id, o.Source());
    LockAndDeduct(w2, id, o);
    assert Put(w2, id, Paying(Waiting(o))) == Put(w, id, Paying(Waiting(o)));
  }

  /** Another player, with enough in his wallet. */
  lemma Fund(start: Wallets, source: Key, x: int) returns (run: Run)
    requires AllStorable(start) && 1 <= x <= MAX_COMMAND_AMOUNT
    ensures run == Adding(Nil, 0, source, x) && After(run, start).flight == map[]
    ensures var rich := After(run, start).wallets; source in rich && rich[source] >= x && forall k :: k != source ==> (k in rich <==> k in start)
  {
    run := Adding(Nil, 0, source, x);
    AfterFour(Nil, Begin(0), Add(0, source, x), Enter(0), Commit(0), start);
    var w := World(start, start, map[]);
    assert source in start ==> Storable(start[source]);
    if Storable(At(start, source) + x) { AddAlone(w, 0, source, x); } else { AddTooMuch(w, 0, source, x); }
  }

  /** The least transfer with these bounds, to a wallet `k`, from a player of another name. */
  function LeastOrder(k: Key, b: Bounds): Order { Order(k.0 + "a", k.0, k.1, LeastAmount(b), b) }

  function LateRun(k: Key, b: Bounds, v: int): Run {
    var o := LeastOrder(k, b);
    Then(Adding(Prepared(Adding(Nil, 0, o.Source(), o.amount), 1, o), 2, k, v), Deposit(1))
  }

  lemma LateRunOffers(k: Key, b: Bounds, v: int, offered: Offer)
    requires offered(b)
    ensures Offers(LateRun(k, b, v), k, offered)
  {
    var o := LeastOrder(k, b);
    var rich := Adding(Nil, 0, o.Source(), o.amount);
    AddingOffers(Nil, 0, o.Source(), o.amount, k, offered);
    var ready := Prepared(rich, 1, o);
    assert Offers(Then(Then(rich, Begin(1)), Read(1, o)), k, offered);
    assert Offers(ready, k, offered);
    AddingOffers(ready, 2, k, v, k, offered);
  }

  lemma AddingOffers(run: Run, id: nat, key: Key, amount: int, k: Key, offered: Offer)
    requires Offers(run, k, offered)
    ensures Offers(Adding(run, id, key, amount), k, offered)
  {
    assert Offers(Then(Then(run, Begin(id)), Add(id, key, amount)), k, offered);
    assert Offers(Then(Then(Then(run, Begin(id)), Add(id, key, amount)), Enter(id)), k, offered);
  }

  /** While a transfer to a wallet without a row waits for its credit, the row is created with balance `v`. */
  lemma RowComesBetween(start: Wallets, k: Key, b: Bounds, v: int)
    requires AllStorable(start) && k !in start && Admits(b) && v >= 1 && Storable(v + LeastAmount(b))
    ensures var w := After(LateRun(k, b, v), start);
            PaysInto(w, 1, k) && w.flight[1].pay.order == LeastOrder(k, b) && w.flight[1].pay.answer == LeastAmount(b)
            && At(w.wallets, k) == v
  {
    var o := LeastOrder(k, b);
    var rich := Fund(start, o.Source(), o.amount);
    var ready := Prepared(rich, 1, o);
    PrepareAlone(rich, 1, o, start);
    AddBehind(ready, o, v, start);
  }

  lemma AddBehind(run: Run, o: Order, v: int, start: Wallets)
    requires After(run, start).flight == map[1 := Paying(Waiting(o))] && o.Target() !in After(run, start).wallets
    requires o.from != o.to && v >= 1 && Storable(v + o.amount) && o.amount >= 1
    ensures var w := After(Then(Adding(run, 2, o.Target(), v), Deposit(1)), start);
            w.flight == map[1 := Paying(Waiting(o).(stage := Credited))] && o.Target() in w.wallets && w.wallets[o.Target()] == v
  {
    var k := o.Target();
    var added := Adding(run, 2, k, v);
    AddedBehind(run, o, v, start);
    AfterOne(added, Deposit(1), start);
    DepositLate(After(added, start), 1, o, v);
  }

  lemma AddedBehind(run: Run, o: Order, v: int, start: Wallets)
    requires After(run, start).flight == map[1 := Paying(Waiting(o))] && o.Target() !in After(run, start).wallets
    requires o.from != o.to && v >= 1 && Storable(v)
    ensures var w, w' := After(run, start), After(Adding(run, 2, o.Target(), v), start);
            w'.flight == w.flight && w'.wallets == w.wallets[o.Target() := v]
  {
    var w, k := After(run, start), o.Target();
    AfterFour(run, Begin(2), Add(2, k, v), Enter(2), Commit(2), start);
    TargetIsFree(w, o);
    AddAlone(w, 2, k, v);
  }

  lemma TargetIsFree(w: World, o: Order)
    requires w.flight == map[1 := Paying(Waiting(o))] && o.from != o.to
    ensures 2 !in w.flight && Free(w, 2, o.Target())
  {
    assert !Holds(w.flight[1], o.Target());
  }

  /** From its check on, a transfer whose target row is free ends. */
  lemma Completes(w: World, id: nat, p: Payment)
    requires id in w.flight && w.flight[id] == Paying(p) && p.stage.Debited?
    requires Free(w, id, p.order.Target()) && Storable(At(w.wallets, p.order.Target()) + p.order.amount)
    ensures Apply(Apply(Apply(w, Deposit(id)), Enter(id)), Commit(id))
         == World(Transferred(w.wallets, p.order), Transferred(w.ledger, p.order), w.flight - {id})
  {
    var w1 := Put(w, id, Paying(p.(stage := Credited)));
    assert Apply(w, Deposit(id)) == w1;
    var w2 := Put(w1, id, Paying(p.(stage := Entered)));
    assert Apply(w1, Enter(id)) == w2;
    assert w2.flight - {id} == w.flight - {id};
  }

  lemma DepositLate(w: World, id: nat, o: Order, v: int)
    requires w.flight == map[id := Paying(Waiting(o))] && o.Target() in w.wallets && w.wallets[o.Target()] == v && Storable(v + o.amount)
    ensures Apply(w, Deposit(id)) == Put(w, id, Paying(Waiting(o).(stage := Credited)))
  {
    assert Free(w, id, o.Target());
  }

  /** MAIN RESULT. Transfers to a wallet answer, in every run, with the balance they leave exactly when the
      wallet has a row from the start, or no offered bounds let any amount into an empty one. */
  lemma ExactIff(start: Wallets, k: Key, offered: Offer)
    requires AllStorable(start)
    ensures AlwaysExact(start, k, offered) <==> k in start || NoneAdmits(offered)
  {
    if k in start || NoneAdmits(offered) {
      forall run, i | Offers(run, k, offered) && PaysInto(After(run, start), i, k)
        ensures After(run, start).flight[i].pay.answer == Leaves(After(run, start), i, k)
      {
        RunKeeps(run, start);
        BoundsStayOffered(run, start, k, offered);
        if k in start { RowStaysKnown(run, start, k); }
        FoundIsExact(After(run, start), i, k);
      }
    } else {
      var b: Bounds :| offered(b) && Admits(b);
      RowComesBetween(start, k, b, 1);
      LateRunOffers(k, b, 1, offered);
      assert PaysInto(After(LateRun(k, b, 1), start), 1, k);
    }
  }

  /** MAIN RESULT. And they leave it within their bounds, in every run, exactly in these cases, or when all
      offered upper bounds that could be passed are no real ones. */
  lemma WithinIff(start: Wallets, k: Key, offered: Offer)
    requires AllStorable(start)
    ensures AlwaysWithin(start, k, offered) <==> k in start || NoneBinds(offered)
  {
    if k in start || NoneBinds(offered) {
      forall run, i | Offers(run, k, offered) && PaysInto(After(run, start), i, k)
        ensures var b := After(run, start).flight[i].pay.order.bounds; b.lo <= Leaves(After(run, start), i, k) <= b.hi
      {
        RunKeeps(run, start);
        BoundsStayOffered(run, start, k, offered);
        if k in start { RowStaysKnown(run, start, k); }
        var b := After(run, start).flight[i].pay.order.bounds;
        if k in start || !Admits(b) { FoundIsExact(After(run, start), i, k); } else { UnboundedIsWithin(After(run, start), i, k); }
      }
    } else {
      var b: Bounds :| offered(b) && Admits(b) && b.hi < Int64.LARGEST;
      var v := b.hi - LeastAmount(b) + 1;
      RowComesBetween(start, k, b, v);
      LateRunOffers(k, b, v, offered);
      assert PaysInto(After(LateRun(k, b, v), start), 1, k);
    }
  }

  // ---------------------------------------------------------------- two transfers to a new wallet

  function TwoTransfers(o: Order, o': Order): Run {
    Then(Then(Then(Then(Prepared(Prepared(Nil, 1, o), 2, o'), Deposit(1)), Enter(1)), Commit(1)), Deposit(2))
  }

  /** Two transfers to a wallet without a row both pass the check; the second leaves the sum of both, whatever
      the bounds, and answers with its own amount. */
  lemma BothPass(start: Wallets, o: Order, o': Order)
    requires AllStorable(start) && o.from != o'.from && o.Target() == o'.Target()
    requires ToNewRow(World(start, start, map[]), o) && ToNewRow(World(start, start, map[]), o')
    ensures var w := After(TwoTransfers(o, o'), start);
            PaysInto(w, 2, o.Target()) && w.flight[2].pay.answer == o'.amount && Leaves(w, 2, o.Target()) == o.amount + o'.amount
  {
    var w := World(start, start, map[]);
    var one, two := Prepared(Nil, 1, o), Prepared(Prepared(Nil, 1, o), 2, o');
    PrepareAlone(Nil, 1, o, start);
    var w1 := Put(w, 1, Paying(Waiting(o)));
    PrepareAlone(one, 2, o', start);
    AfterFour(two, Deposit(1), Enter(1), Commit(1), Deposit(2), start);
    CreditBoth(Put(w1, 2, Paying(Waiting(o'))), o, o');
  }

  lemma CreditBoth(w: World, o: Order, o': Order)
    requires w.flight == map[1 := Paying(Waiting(o)), 2 := Paying(Waiting(o'))] && o.Target() == o'.Target()
    requires ToNewRow(w, o) && ToNewRow(w, o')
    ensures var w' := Apply(Apply(Apply(Apply(w, Deposit(1)), Enter(1)), Commit(1)), Deposit(2));
            PaysInto(w', 2, o.Target()) && w'.flight[2].pay.answer == o'.amount && Leaves(w', 2, o.Target()) == o.amount + o'.amount
  {
    Completes(w, 1, Waiting(o));
    var w2 := World(Transferred(w.wallets, o), Transferred(w.ledger, o), map[2 := Paying(Waiting(o'))]);
    assert w.flight - {1} == w2.flight;
    DepositLate(w2, 2, o', o.amount);
  }

  // ---------------------------------------------------------------- a transfer that runs alone

  function Alone(o: Order): Run {
    var locked := Then(Then(Then(Then(Nil, Begin(0)), Read(0, o)), Lock(0)), Lock(0));
    Then(Then(Then(Then(locked, Deduct(0)), Deposit(0)), Enter(0)), Commit(0))
  }

  function Only(wallets: Wallets, p: Payment): World { World(wallets, wallets, map[0 := Paying(p)]) }

  /** Alone, a transfer locks all the rows it found. */
  lemma LockAll(wallets: Wallets, p: Payment)
    requires |p.todo| <= 2
    ensures Apply(Apply(Only(wallets, p), Lock(0)), Lock(0)) == Only(wallets, p.(todo := [], locks := p.locks + PlayersIn(p.todo)))
  {
    if |p.todo| == 0 {
      assert PlayersIn(p.todo) == {} && p.locks + {} == p.locks;
    } else {
      var one := LockNext(p);
      LockOnly(wallets, p);
      if |p.todo| == 1 {
        assert p.locks + PlayersIn(p.todo) == one.locks;
      } else {
        LockOnly(wallets, one);
        assert one.todo[1..] == [] && PlayersIn(p.todo) == {p.todo[0], one.todo[0]};
        assert p.locks + PlayersIn(p.todo) == one.locks + {one.todo[0]};
      }
    }
  }

  lemma LockOnly(wallets: Wallets, p: Payment)
    requires p.todo != []
    ensures Apply(Only(wallets, p), Lock(0)) == Only(wallets, LockNext(p))
  {}

  predicate Passes(wallets: Wallets, o: Order) {
    o.Source() in wallets && At(wallets, o.Source()) >= o.amount && o.bounds.lo <= Int64.Wrap(At(wallets, o.Target()) + o.amount) <= o.bounds.hi
  }

  predicate Legal(o: Order) { o.from != o.to && 0 <= o.bounds.lo && 1 <= o.amount <= MAX_COMMAND_AMOUNT }

  lemma PayAlone(wallets: Wallets, p: Payment)
    requires p.stage.Locking? && p.todo == [] && Legal(p.order) && AllStorable(wallets)
    requires forall r :: r in p.found <==> (r == p.order.from || r == p.order.to) && (r, p.order.currency) in wallets
    ensures Apply(Apply(Apply(Apply(Only(wallets, p), Deduct(0)), Deposit(0)), Enter(0)), Commit(0)).wallets
         == if Passes(wallets, p.order) then Transferred(wallets, p.order) else wallets
  {
    var o := p.order;
    assert Answer(wallets, p) == Int64.Wrap(At(wallets, o.Target()) + o.amount);
    if Passes(wallets, o) {
      var paid := p.(stage := Debited, answer := Answer(wallets, p));
      assert Apply(Only(wallets, p), Deduct(0)) == Only(wallets, paid);
      assert o.Target() in wallets ==> Storable(wallets[o.Target()]);
      Conservation.WrapRefused(At(wallets, o.Target()), o.amount);
      Completes(Only(wallets, paid), 0, paid);
    } else {
      assert Apply(Only(wallets, p), Deduct(0)) == World(wallets, wallets, map[]);
    }
  }

  /** Run alone, the statements leave the wallets the command handler's specification leaves. */
  lemma AloneIsTheHandler(t: Tables, d: Parsed<Definition>, player: string, e: Envelope, target: string, currency: string,
                          amount: int, spec: Currency)
    requires TransferTarget(e.args, player) == Good(target) && TextArg(e.args, "currency", "") == Good(currency)
    requires AmountArg(e.args, "amount") == Good(amount) && d.Good? && FindCurrency(d.value.currencies, currency) == Good(spec)
    requires 0 <= spec.minBalance <= spec.maxBalance && Int64.InRange(spec.maxBalance)
    requires Conservation.Sound(t) && e.requestId !in t.transactions
    ensures var o := Order(player, target, currency, amount, Bounds(spec.minBalance, spec.maxBalance));
            After(Alone(o), t.wallets).wallets == WalletTransfer(t, d, player, e).tables.wallets
  {
    Conservation.TransferExact(t, d, player, e, target, currency, amount, spec);
    Conservation.WrapRefused(Balance(t, target, currency), amount);
    AloneMoves(t.wallets, Order(player, target, currency, amount, Bounds(spec.minBalance, spec.maxBalance)));
  }

  lemma AloneMoves(wallets: Wallets, o: Order)
    requires Legal(o) && AllStorable(wallets)
    ensures After(Alone(o), wallets).wallets == if Passes(wallets, o) then Transferred(wallets, o) else wallets
  {
    var p := Starting(wallets, o);
    var begun := Then(Then(Nil, Begin(0)), Read(0, o));
    AfterOne(Nil, Begin(0), wallets);
    AfterOne(Then(Nil, Begin(0)), Read(0, o), wallets);
    assert After(begun, wallets) == Only(wallets, p);
    var locked := Then(Then(begun, Lock(0)), Lock(0));
    AfterOne(begun, Lock(0), wallets);
    AfterOne(Then(begun, Lock(0)), Lock(0), wallets);
    LockAll(wallets, p);
    RowsOfAre(wallets, o.from, o.to, o.currency);
    AfterFour(locked, Deduct(0), Deposit(0), Enter(0), Commit(0), wallets);
    PayAlone(wallets, p.(todo := [], locks := {} + p.found));
  }

  // ---------------------------------------------------------------- a credit or debit that runs alone

  function ChangeAlone(k: Key, delta: int, b: Bounds): Run {
    Then(Then(Then(Then(Nil, Begin(0)), Change(0, k, delta, b)), Enter(0)), Commit(0))
  }

  /** The change can be made: the column holds the balance, and a debit has a row. */
  predicate Feasible(wallets: Wallets, k: Key, delta: int) { Storable(At(wallets, k) + delta) && (delta < 0 ==> k in wallets) }

  lemma ChangeMoves(wallets: Wallets, k: Key, delta: int, b: Bounds)
    requires delta != 0 && -MAX_COMMAND_AMOUNT <= delta <= MAX_COMMAND_AMOUNT
    ensures var w := After(ChangeAlone(k, delta, b), wallets);
            var changed := wallets[k := At(wallets, k) + delta];
            && w.wallets == (if Feasible(wallets, k, delta) then changed else wallets)
            && w.ledger == (if Feasible(wallets, k, delta) && Inside(b, At(wallets, k) + delta) then changed else wallets)
  {
    AfterFour(Nil, Begin(0), Change(0, k, delta, b), Enter(0), Commit(0), wallets);
    ChangeWrites(wallets, k, delta, b);
    if Feasible(wallets, k, delta) { ChangeCommits(wallets, k, delta, b); }
  }

  lemma ChangeWrites(wallets: Wallets, k: Key, delta: int, b: Bounds)
    requires delta != 0 && -MAX_COMMAND_AMOUNT <= delta <= MAX_COMMAND_AMOUNT
    ensures Apply(Apply(World(wallets, wallets, map[]), Begin(0)), Change(0, k, delta, b))
         == World(wallets, wallets, if Feasible(wallets, k, delta) then map[0 := Changing(k, delta, b, At(wallets, k) + delta, false)] else map[])
  {
    var w1 := World(wallets, wallets, map[0 := Fresh]);
    assert Apply(World(wallets, wallets, map[]), Begin(0)) == w1 && Free(w1, 0, k);
    assert Drop(w1, 0).flight == map[];
  }

  lemma ChangeCommits(wallets: Wallets, k: Key, delta: int, b: Bounds)
    ensures var change := Changing(k, delta, b, At(wallets, k) + delta, false);
            var w := Apply(Apply(World(wallets, wallets, map[0 := change]), Enter(0)), Commit(0));
            var changed := wallets[k := At(wallets, k) + delta];
            w.wallets == changed && w.ledger == if Inside(b, change.seen) then changed else wallets
  {
    var change := Changing(k, delta, b, At(wallets, k) + delta, false);
    var entered := change.(entered := Inside(b, change.seen));
    assert Apply(World(wallets, wallets, map[0 := change]), Enter(0)) == World(wallets, wallets, map[0 := entered]);
  }

  /** Run alone, its statements leave the wallets and move the gap as the command handler does. */
  lemma ChangeAloneIsTheHandler(t: Tables, spec: Currency, player: string, currency: string, amount: int, e: Envelope, credit: bool)
    requires 1 <= amount <= MAX_COMMAND_AMOUNT && player != SYSTEM && AllStorable(t.wallets)
    requires !ChangeRows(t, spec, player, currency, amount, e, credit).Fault?
    ensures var k, after := (player, currency), ChangeRows(t, spec, player, currency, amount, e, credit).tables;
            var w := After(ChangeAlone(k, BalanceBounds.Signed(amount, credit), Bounds(spec.minBalance, spec.maxBalance)), t.wallets);
            w.wallets == after.wallets && Gap(w, k) == Ledger.Gap(after, player, currency) - Ledger.Gap(t, player, currency)
  {
    var k, delta, b := (player, currency), BalanceBounds.Signed(amount, credit), Bounds(spec.minBalance, spec.maxBalance);
    BalanceBounds.ChangeEnds(t, spec, player, currency, amount, e, credit);
    Ledger.ChangeRowsGap(t, spec, player, currency, amount, e, credit, player, currency);
    assert k in t.wallets ==> Storable(t.wallets[k]);
    assert Feasible(t.wallets, k, delta) <==> BalanceBounds.Funded(t, player, currency, amount, credit);
    ChangeMoves(t.wallets, k, delta, b);
  }
}
