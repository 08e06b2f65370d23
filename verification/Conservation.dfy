/** What economy commands conserve: balanced transactions, non-negative balances, the totals moved by
transfers, and the exact payment of a reward. */
module Conservation {
  import opened Commands
  import opened Economy
  import opened Frames
  import opened CommandStore
  import opened Ledger
  import Int64

  // ---------------------------------------------------------------- balanced transactions, legal rows

  /** Column constraints hold, and the entries of every ledger transaction cancel out in every currency. */
  ghost predicate Sound(t: Tables) {
    && (forall k :: k in t.wallets ==> Storable(t.wallets[k]))
    && (forall k :: k in t.stacks ==> Storable(t.stacks[k].quantity))
    && (forall r, c :: TransactionSum(t.entries, r, c) == 0)
  }

  lemma PairKeepsBalance(entries: seq<Entry>, x: Entry, y: Entry)
    requires x.request == y.request && x.currency == y.currency && x.amount + y.amount == 0
    requires forall r, c :: TransactionSum(entries, r, c) == 0
    ensures forall r, c :: TransactionSum(entries + [x, y], r, c) == 0
  {
    forall r, c ensures TransactionSum(entries + [x, y], r, c) == 0 {
      TransactionSumPair(entries, x, y, r, c);
    }
  }

  lemma ChangeKeepsSound(t: Tables, spec: Currency, player: string, currency: string, amount: int, e: Envelope, credit: bool)
    requires Sound(t) && !ChangeRows(t, spec, player, currency, amount, e, credit).Fault?
    ensures Sound(ChangeRows(t, spec, player, currency, amount, e, credit).tables)
  {
    if ChangeRows(t, spec, player, currency, amount, e, credit).Success? {
      var signed := if credit then amount else -amount;
      PairKeepsBalance(t.entries, Entry(e.requestId, player, currency, signed), Entry(e.requestId, SYSTEM, currency, -signed));
    }
  }

  lemma TransferKeepsSound(t: Tables, player: string, target: string, currency: string, amount: int, toBalance: int, e: Envelope)
    requires Sound(t) && TransferRows(t, player, target, currency, amount, toBalance, e).Success?
    ensures Sound(TransferRows(t, player, target, currency, amount, toBalance, e).tables)
  {
    PairKeepsBalance(t.entries, Entry(e.requestId, player, currency, -amount), Entry(e.requestId, target, currency, amount));
  }

  lemma GrantKeepsSound(t: Tables, request: string, player: string, g: Grant, index: nat)
    requires Sound(t) && !GrantOne(t, request, player, g, index).Fault?
    ensures Sound(GrantOne(t, request, player, g, index).tables)
  {
    if GrantOne(t, request, player, g, index).Success? && g.currency != "" {
      var id := GrantRequest(request, index);
      PairKeepsBalance(t.entries, Entry(id, player, g.currency, g.amount), Entry(id, SYSTEM, g.currency, -g.amount));
    }
  }

  lemma {:induction false} GrantsKeepSound(t: Tables, request: string, player: string, grants: seq<Grant>, n: nat)
    requires Sound(t) && n <= |grants| && !GrantFirst(t, request, player, grants, n).Fault?
    ensures Sound(GrantFirst(t, request, player, grants, n).tables)
  {
    if n > 0 {
      GrantsKeepSound(t, request, player, grants, n - 1);
      var s := GrantFirst(t, request, player, grants, n - 1);
      if s.Success? {
        GrantKeepsSound(s.tables, request, player, grants[n - 1], n - 1);
      }
    }
  }

  lemma ClaimKeepsSound(t: Tables, d: Parsed<Definition>, player: string, e: Envelope)
    requires Sound(t) && !RewardClaim(t, d, player, e).Fault?
    ensures Sound(RewardClaim(t, d, player, e).tables)
  {
    var load := LoadReward(d, e);
    if load.Found? && TextArg(e.args, "sourceId", "").Good? {
      var t1 := t.(claims := t.claims[(player, load.reward.id, TextArg(e.args, "sourceId", "").value) := e.requestId]);
      var grants := load.reward.grants;
      if !GrantFirst(t1, e.requestId, player, grants, |grants|).Fault? {
        GrantsKeepSound(t1, e.requestId, player, grants, |grants|);
      }
    }
  }

  lemma MoneyKeepsSound(t: Tables, d: Parsed<Definition>, player: string, e: Envelope, credit: bool)
    requires Sound(t) && !WalletChange(t, d, player, e, credit).Fault?
    ensures Sound(WalletChange(t, d, player, e, credit).tables)
  {
    if TextArg(e.args, "currency", "").Good? && AmountArg(e.args, "amount").Good? && d.Good? {
      var currency, amount := TextArg(e.args, "currency", "").value, AmountArg(e.args, "amount").value;
      var found := FindCurrency(d.value.currencies, currency);
      if found.Good? {
        ChangeKeepsSound(t, found.value, player, currency, amount, e, credit);
      }
    }
  }

  lemma WalletTransferKeepsSound(t: Tables, d: Parsed<Definition>, player: string, e: Envelope)
    requires Sound(t) && !WalletTransfer(t, d, player, e).Fault?
    ensures Sound(WalletTransfer(t, d, player, e).tables)
  {
    if WalletTransfer(t, d, player, e).Success? {
      var target, currency, amount := TransferTarget(e.args, player).value, TextArg(e.args, "currency", "").value, AmountArg(e.args, "amount").value;
      TransferKeepsSound(t, player, target, currency, amount, Int64.Wrap(Balance(t, target, currency) + amount), e);
    }
  }

  lemma ItemsKeepSound(t: Tables, d: Parsed<Definition>, player: string, e: Envelope, op: Operation)
    requires Sound(t) && MovesItems(op) && !Dispatch(t, d, player, e, op).Fault?
    ensures forall k :: k in Dispatch(t, d, player, e, op).tables.stacks ==>
              Storable(Dispatch(t, d, player, e, op).tables.stacks[k].quantity)
  {}

  lemma CommandKeepsSound(defs: Definitions, t: Tables, e: Envelope)
    requires Sound(t) && Handle(defs, t, e).Done?
    ensures Sound(Handle(defs, t, e).state)
  {
    var op, d := OperationOf(e.operation), DefinitionFor(defs, e);
    if ResolvePlayer(e).Good? && !op.Unsupported? {
      var player := ResolvePlayer(e).value;
      match op
      case Credit => MoneyKeepsSound(t, d, player, e, true);
      case Debit => MoneyKeepsSound(t, d, player, e, false);
      case Transfer => WalletTransferKeepsSound(t, d, player, e);
      case Claim => ClaimKeepsSound(t, d, player, e);
      case _ =>
        OthersKeepMoney(t, d, player, e, op);
        if MovesItems(op) { ItemsKeepSound(t, d, player, e, op); } else { OthersFrame(t, d, player, e, op); }
    }
  }

  /** MAIN RESULT. After any history, rejected and repeated commands included, the entries of every ledger
      transaction sum to zero in every currency, and no balance or item count is negative. */
  lemma {:induction false} EconomyStaysSound(defs: Definitions, h: History)
    ensures Sound(TablesAfter(defs, h))
  {
    if h.Then? {
      EconomyStaysSound(defs, h.past);
      SubmitStep(defs, h);
      if Handle(defs, TablesAfter(defs, h.past), h.command).Done? {
        CommandKeepsSound(defs, TablesAfter(defs, h.past), h.command);
      }
    }
  }

  // ---------------------------------------------------------------- totals

  /** The sum of the amounts held under `second`, over all holders. */
  ghost function Total(m: map<(string, string), int>, second: string): int
    decreases |m|
  {
    if m == map[] then 0
    else
      var k :| k in m;
      (if k.1 == second then m[k] else 0) + Total(m - {k}, second)
  }

  lemma {:induction false} TotalWithout(m: map<(string, string), int>, k: (string, string), second: string)
    requires k in m
    ensures Total(m, second) == (if k.1 == second then m[k] else 0) + Total(m - {k}, second)
    decreases |m|
  {
    var j :| j in m && Total(m, second) == (if j.1 == second then m[j] else 0) + Total(m - {j}, second);
    if j != k {
      TotalWithout(m - {j}, k, second);
      TotalWithout(m - {k}, j, second);
      assert m - {j} - {k} == m - {k} - {j};
    }
  }

  lemma TotalUpdate(m: map<(string, string), int>, k: (string, string), v: int, second: string)
    ensures Total(m[k := v], second)
         == Total(m, second) + (if k.1 == second then v - (if k in m then m[k] else 0) else 0)
  {
    TotalWithout(m[k := v], k, second);
    if k in m {
      TotalWithout(m, k, second);
      assert m[k := v] - {k} == m - {k};
    } else {
      assert m[k := v] - {k} == m;
    }
  }

  function Quantities(t: Tables): map<(string, string), int> {
    map k | k in t.stacks :: t.stacks[k].quantity
  }

  /** A sum that leaves 64 bits comes out negative, so no lower bound of zero or more lets it pass. */
  lemma WrapRefused(balance: int, amount: int)
    requires Storable(balance) && 1 <= amount <= MAX_COMMAND_AMOUNT
    ensures Int64.InRange(balance + amount) ==> Int64.Wrap(balance + amount) == balance + amount
    ensures !Int64.InRange(balance + amount) ==> Int64.Wrap(balance + amount) < 0
  {}

  /** The wallets after moving `amount`. */
  function Moved(w: map<(string, string), int>, player: string, target: string, currency: string, amount: int)
    : map<(string, string), int>
  {
    w[(player, currency) := (if (player, currency) in w then w[(player, currency)] else 0) - amount]
     [(target, currency) := (if (target, currency) in w then w[(target, currency)] else 0) + amount]
  }

  lemma MovedKeepsTotal(w: map<(string, string), int>, player: string, target: string, currency: string, amount: int, c: string)
    requires player != target
    ensures Total(Moved(w, player, target, currency, amount), c) == Total(w, c)
  {
    var from := (if (player, currency) in w then w[(player, currency)] else 0) - amount;
    var to := (if (target, currency) in w then w[(target, currency)] else 0) + amount;
    TotalUpdate(w, (player, currency), from, c);
    TotalUpdate(w[(player, currency) := from], (target, currency), to, c);
  }

  lemma TransferRowsExact(t: Tables, player: string, target: string, currency: string, amount: int, sum: int, e: Envelope)
    requires Sound(t) && e.requestId !in t.transactions && player != target && (player, currency) in t.wallets
    requires 1 <= amount <= Balance(t, player, currency)
    requires sum == Balance(t, target, currency) + amount && Int64.InRange(sum)
    ensures var s := TransferRows(t, player, target, currency, amount, sum, e);
            && s.Success?
            && s.tables.wallets == Moved(t.wallets, player, target, currency, amount)
            && s.body["targetBalance"] == Number(Balance(s.tables, target, currency))
  {}

  /** MAIN RESULT. Run alone, a transfer happens exactly when the sender has the amount and the receiver's true
      sum is within bounds, although the program adds in 64 bits; it then stores that sum, takes the amount
      from the sender, touches no other wallet, and keeps the total of every currency. `TransferRaces` says
      what remains of this when transfers run together. */
  lemma TransferExact(t: Tables, d: Parsed<Definition>, player: string, e: Envelope, target: string, currency: string,
                      amount: int, spec: Currency)
    requires TransferTarget(e.args, player) == Good(target) && TextArg(e.args, "currency", "") == Good(currency)
    requires AmountArg(e.args, "amount") == Good(amount) && d.Good? && FindCurrency(d.value.currencies, currency) == Good(spec)
    requires 0 <= spec.minBalance <= spec.maxBalance && Int64.InRange(spec.maxBalance)
    requires Sound(t) && e.requestId !in t.transactions
    ensures var s := WalletTransfer(t, d, player, e);
            && (s.Success? <==> (player, currency) in t.wallets && Balance(t, player, currency) >= amount
                                && spec.minBalance <= Balance(t, target, currency) + amount <= spec.maxBalance)
            && (s.Success? ==>
                && s.tables.wallets == Moved(t.wallets, player, target, currency, amount)
                && s.body["targetBalance"] == Number(Balance(s.tables, target, currency))
                && forall c :: Total(s.tables.wallets, c) == Total(t.wallets, c))
            && (!s.Success? ==> s.Business? && s.tables == t)
  {
    var sum := Balance(t, target, currency) + amount;
    WrapRefused(Balance(t, target, currency), amount);
    if (player, currency) in t.wallets && Balance(t, player, currency) >= amount && spec.minBalance <= sum <= spec.maxBalance {
      TransferRowsExact(t, player, target, currency, amount, sum, e);
      forall c ensures Total(Moved(t.wallets, player, target, currency, amount), c) == Total(t.wallets, c) {
        MovedKeepsTotal(t.wallets, player, target, currency, amount, c);
      }
    }
  }

  /** Item transfers, too, keep the total of every item and touch only the two players' stacks. */
  lemma ItemTransferConserves(t: Tables, d: Parsed<Definition>, player: string, e: Envelope)
    requires InventoryTransfer(t, d, player, e).Success?
    ensures forall i :: Total(Quantities(InventoryTransfer(t, d, player, e).tables), i) == Total(Quantities(t), i)
  {
    var s := InventoryTransfer(t, d, player, e);
    var target, item, q := TransferTarget(e.args, player).value, TextArg(e.args, "itemId", "").value, AmountArg(e.args, "quantity").value;
    var from, to := Quantity(t, player, item) - q, Quantity(t, target, item) + q;
    var m1 := Quantities(t)[(player, item) := from];
    assert Quantities(s.tables) == m1[(target, item) := to];
    forall i ensures Total(Quantities(s.tables), i) == Total(Quantities(t), i) {
      TotalUpdate(Quantities(t), (player, item), from, i);
      TotalUpdate(m1, (target, item), to, i);
    }
  }

  // ---------------------------------------------------------------- rewards

  /** What one grant adds in a currency: a grant with a currency pays it, and only it. */
  function PaidBy(g: Grant, currency: string): int {
    if g.currency == currency then g.amount else 0
  }

  /** What one grant adds of an item: its item counts only when it names no currency. */
  function GivenBy(g: Grant, item: string): int {
    if g.currency == "" && g.item == item then g.quantity else 0
  }

  /** What the first `n` grants of a reward add in one currency. */
  function Paid(grants: seq<Grant>, n: nat, currency: string): int
    requires n <= |grants|
  {
    if n == 0 then 0 else Paid(grants, n - 1, currency) + PaidBy(grants[n - 1], currency)
  }

  function Given(grants: seq<Grant>, n: nat, item: string): int
    requires n <= |grants|
  {
    if n == 0 then 0 else Given(grants, n - 1, item) + GivenBy(grants[n - 1], item)
  }

  lemma MoneyGrantPays(t: Tables, request: string, player: string, g: Grant, index: nat, p: string, c: string)
    requires g.currency != "" && GrantOne(t, request, player, g, index).Success?
    ensures var t' := GrantOne(t, request, player, g, index).tables;
            && Balance(t', p, c) == Balance(t, p, c) + (if p == player && c == g.currency then g.amount else 0)
            && t'.stacks == t.stacks && t'.claims == t.claims
  {}

  lemma ItemGrantPays(t: Tables, request: string, player: string, g: Grant, index: nat, p: string, i: string)
    requires g.currency == "" && GrantOne(t, request, player, g, index).Success?
    ensures var t' := GrantOne(t, request, player, g, index).tables;
            && Quantity(t', p, i) == Quantity(t, p, i) + (if g.item != "" && p == player && i == g.item then g.quantity else 0)
            && t'.wallets == t.wallets && t'.claims == t.claims
  {}

  lemma GrantPays(t: Tables, request: string, player: string, g: Grant, index: nat, p: string, c: string, i: string, s: Step)
    requires c != "" && i != "" && s == GrantOne(t, request, player, g, index) && s.Success?
    ensures Balance(s.tables, p, c) == Balance(t, p, c) + (if p == player then PaidBy(g, c) else 0)
    ensures Quantity(s.tables, p, i) == Quantity(t, p, i) + (if p == player then GivenBy(g, i) else 0)
    ensures s.tables.claims == t.claims
  {
    if g.currency != "" {
      MoneyGrantPays(t, request, player, g, index, p, c);
    } else {
      ItemGrantPays(t, request, player, g, index, p, i);
    }
  }

  /** Grants pay the player what they list, and nobody else anything. */
  lemma {:induction false} GrantsPay(t: Tables, request: string, player: string, grants: seq<Grant>, n: nat, p: string, c: string, i: string)
    requires n <= |grants| && c != "" && i != "" && GrantFirst(t, request, player, grants, n).Success?
    ensures var t' := GrantFirst(t, request, player, grants, n).tables;
            && Balance(t', p, c) == Balance(t, p, c) + (if p == player then Paid(grants, n, c) else 0)
            && Quantity(t', p, i) == Quantity(t, p, i) + (if p == player then Given(grants, n, i) else 0)
            && t'.claims == t.claims
  {
    if n > 0 {
      GrantsPay(t, request, player, grants, n - 1, p, c, i);
      var before := GrantFirst(t, request, player, grants, n - 1).tables;
      GrantPays(before, request, player, grants[n - 1], n - 1, p, c, i, GrantFirst(t, request, player, grants, n));
    }
  }
}
