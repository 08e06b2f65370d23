/** What each command changes and answers, in terms of balances and quantities. */
module CommandEffects {
  import opened Commands
  import opened CommandArguments
  import opened Economy
  import opened Frames
  import BalanceBounds
  import Conservation
  import Int64
  import Roster

  type Key = (string, string)

  /** How a handler's end becomes an outcome. */
  lemma ConcludedIs(s: Step, e: Envelope)
    ensures s.Fault? ==> Concluded(s, e).Failed?
    ensures s.Success? ==> Answers(Concluded(s, e), e, s.tables) && Concluded(s, e).result.body == s.body
    ensures s.Business? ==> Refuses(Concluded(s, e), e, s.tables, ErrorCode(s.failure))
  {}

  lemma Codes()
    ensures ErrorCode(InsufficientItems) == "INSUFFICIENT_ITEMS" && ErrorCode(InsufficientFunds) == "INSUFFICIENT_FUNDS"
    ensures ErrorCode(StackLimit) == "STACK_LIMIT" && ErrorCode(CurrencyBounds) == "CURRENCY_LIMIT" && ErrorCode(InvalidReward) == "INVALID_REWARD"
    ensures "rejected" != "succeeded"
  {
    assert "rejected"[0] != "succeeded"[0];
  }

  // ---------------------------------------------------------------- items

  predicate StacksLegal(t: Tables) { forall k :: k in t.stacks ==> Storable(t.stacks[k].quantity) }

  function VersionAfter(t: Tables, k: Key): int { if k in t.stacks then t.stacks[k].version + 1 else 1 }

  /** A stack that gains `q`, as it is stored. */
  function Changed(t: Tables, k: Key, q: int): Stack { Stack(Quantity(t, k.0, k.1) + q, VersionAfter(t, k)) }

  predicate CanStore(t: Tables, k: Key, q: int) { Storable(Quantity(t, k.0, k.1) + q) && Storable(VersionAfter(t, k)) }

  /** Quantities move by these amounts, and nothing but stacks changes. */
  ghost predicate Gains(t: Tables, t': Tables, k: Key, q: int) {
    && t' == t.(stacks := t'.stacks) && t'.stacks.Keys == t.stacks.Keys + {k}
    && (forall p, i :: Quantity(t', p, i) == Quantity(t, p, i) + if (p, i) == k then q else 0)
    && (forall j :: j in t.stacks && j != k ==> t'.stacks[j] == t.stacks[j])
    && t'.stacks[k].version == VersionAfter(t, k)
  }

  /** `from` loses what `to` gains. */
  ghost predicate MovesItem(t: Tables, t': Tables, from: Key, to: Key, q: int) {
    && t' == t.(stacks := t'.stacks) && t'.stacks.Keys == t.stacks.Keys + {from, to}
    && (forall p, i :: Quantity(t', p, i) == Quantity(t, p, i) + if (p, i) == from then -q else if (p, i) == to then q else 0)
    && (forall j :: j in t.stacks && j != from && j != to ==> t'.stacks[j] == t.stacks[j])
    && t'.stacks[from].version == VersionAfter(t, from) && t'.stacks[to].version == VersionAfter(t, to)
  }

  lemma AddGains(t: Tables, player: string, item: string, q: int)
    ensures var r := AddToStack(t, player, item, q);
            && (r.Good? <==> CanStore(t, (player, item), q))
            && (r.Good? ==> Gains(t, r.value, (player, item), q))
  {}

  /** The asked item is the first of its id in the definition. */
  predicate AsksItem(defs: Definitions, e: Envelope, player: string, item: string, q: int, d: Definition, k: nat) {
    && ActsFor(e, player) && TextIs(e, "itemId", item) && AmountIs(e, "quantity", q) && Defined(defs, e, d) && FirstItem(d.items, k, item)
  }

  lemma ItemAsked(defs: Definitions, e: Envelope, player: string, item: string, q: int, d: Definition, k: nat)
    requires AsksItem(defs, e, player, item, q, d, k)
    ensures TextArg(e.args, "itemId", "") == Good(item) && AmountArg(e.args, "quantity") == Good(q)
    ensures DefinitionFor(defs, e) == Good(d) && FindItem(d.items, item) == Good(d.items[k])
  {
    TextIsIff(e, "itemId", item);
    AmountIff(e, "quantity", q);
    ItemFound(d.items, k, item);
  }

  /** MAIN RESULT. A grant adds its quantity to the player's stack, and to nothing else, even when it is then refused
      because the stack is over its limit; it fails only when the stack cannot be stored. */
  lemma ItemGrantExact(defs: Definitions, t: Tables, e: Envelope, player: string, item: string, q: int, d: Definition, k: nat)
    requires e.operation == "inventory.grant" && AsksItem(defs, e, player, item, q, d, k)
    ensures var o, s := Handle(defs, t, e), (player, item);
            && (o.Done? <==> CanStore(t, s, q))
            && (o.Done? ==> Gains(t, o.state, s, q))
            && (o.Done? && Quantity(t, player, item) + q <= d.items[k].stackLimit ==>
                  Answers(o, e, o.state) && "newQuantity" in o.result.body
                  && o.result.body["newQuantity"] == Number(Quantity(o.state, player, item)))
            && (o.Done? && Quantity(t, player, item) + q > d.items[k].stackLimit ==> Refuses(o, e, o.state, "STACK_LIMIT"))
  {
    ItemNames();
    HandleIs(defs, t, e, player, ItemGrant);
    ItemAsked(defs, e, player, item, q, d, k);
    AddGains(t, player, item, q);
    assert InventoryChange(t, Good(d), player, e, true) == StackRows(t, d.items[k], player, item, q, true);
  }

  /** A consumption takes its quantity exactly when the player has it; otherwise it is rejected and changes nothing. */
  lemma ItemConsumeExact(defs: Definitions, t: Tables, e: Envelope, player: string, item: string, q: int, d: Definition, k: nat)
    requires e.operation == "inventory.consume" && AsksItem(defs, e, player, item, q, d, k)
    ensures ItemConsumed(t, Handle(defs, t, e), e, player, item, q, d.items[k].stackLimit)
  {
    ItemNames();
    HandleIs(defs, t, e, player, ItemConsume);
    ItemAsked(defs, e, player, item, q, d, k);
    assert InventoryChange(t, Good(d), player, e, false) == StackRows(t, d.items[k], player, item, q, false);
    ConsumeEnds(t, e, player, item, q, d.items[k], StackRows(t, d.items[k], player, item, q, false));
  }

  ghost predicate ItemConsumed(t: Tables, o: Outcome<Tables>, e: Envelope, player: string, item: string, q: int, limit: int) {
    var s, left := (player, item), Quantity(t, player, item) - q;
    var has := s in t.stacks && left >= 0;
    && (!has ==> Refuses(o, e, t, "INSUFFICIENT_ITEMS"))
    && (has ==> (o.Done? <==> CanStore(t, s, -q)))
    && (has && o.Done? ==> Gains(t, o.state, s, -q))
    && (has && o.Done? && left <= limit ==> Answers(o, e, o.state) && "newQuantity" in o.result.body && o.result.body["newQuantity"] == Number(left))
    && (has && o.Done? && left > limit ==> Refuses(o, e, o.state, "STACK_LIMIT"))
  }

  lemma ConsumeEnds(t: Tables, e: Envelope, player: string, item: string, q: int, spec: Item, s: Step)
    requires s == StackRows(t, spec, player, item, q, false)
    ensures ItemConsumed(t, Concluded(s, e), e, player, item, q, spec.stackLimit)
  {
    Codes();
    ConcludedIs(s, e);
    AddGains(t, player, item, -q);
  }

  lemma StackTransferMoves(t: Tables, player: string, target: string, item: string, q: int, sum: int)
    requires player != target
    ensures var s := StackTransferRows(t, player, target, item, q, sum);
            var from, to := (player, item), (target, item);
            && (s.Success? <==> CanStore(t, from, -q) && CanStore(t, to, q)) && (!s.Success? ==> s.Fault?)
            && (s.Success? ==> (from in t.stacks ==> MovesItem(t, s.tables, from, to, q))
                               && "fromQuantity" in s.body && "targetQuantity" in s.body && s.body["fromQuantity"] == Number(Quantity(t, player, item) - q) && s.body["targetQuantity"] == Number(sum))
  {}

  /** MAIN RESULT. An item transfer succeeds exactly when the sender has the quantity, the receiver's true sum is within
      the stack limit, and both rows can be stored. It takes the quantity from the sender, gives it to the receiver,
      touches no other stack, and answers with the quantities it leaves. */
  lemma ItemTransferExact(defs: Definitions, t: Tables, e: Envelope, player: string, target: string, item: string, q: int, d: Definition, k: nat)
    requires e.operation == "inventory.transfer" && AsksItem(defs, e, player, item, q, d, k) && TextIs(e, "targetPlayerId", target)
    requires target != player && StacksLegal(t) && Int64.InRange(d.items[k].stackLimit)
    ensures ItemTransferred(t, Handle(defs, t, e), e, player, target, item, q, d.items[k].stackLimit)
  {
    ItemNames();
    HandleIs(defs, t, e, player, ItemTransfer);
    ItemAsked(defs, e, player, item, q, d, k);
    TextIsIff(e, "targetPlayerId", target);
    TransferGoes(t, d, e, player, target, item, q, d.items[k]);
    ItemTransferEnds(t, e, player, target, item, q, d.items[k].stackLimit, InventoryTransfer(t, Good(d), player, e));
  }

  /** Who ends with what. */
  ghost predicate ItemTransferred(t: Tables, o: Outcome<Tables>, e: Envelope, player: string, target: string, item: string, q: int, limit: int) {
    var from, to, sum := (player, item), (target, item), Quantity(t, target, item) + q;
    var has := from in t.stacks && Quantity(t, player, item) >= q;
    && (!has ==> Refuses(o, e, t, "INSUFFICIENT_ITEMS"))
    && (has && Int64.InRange(sum) && sum > limit ==> Refuses(o, e, t, "STACK_LIMIT"))
    && (o.Done? && o.result.status == "succeeded" <==> has && sum <= limit && CanStore(t, from, -q) && CanStore(t, to, q))
    && (o.Done? && o.result.status == "succeeded" ==>
          && Answers(o, e, o.state) && MovesItem(t, o.state, from, to, q)
          && "fromQuantity" in o.result.body && o.result.body["fromQuantity"] == Number(Quantity(o.state, player, item))
          && "targetQuantity" in o.result.body && o.result.body["targetQuantity"] == Number(Quantity(o.state, target, item)))
    && (o.Done? && o.result.status != "succeeded" ==> o.state == t)
  }

  lemma ItemTransferEnds(t: Tables, e: Envelope, player: string, target: string, item: string, q: int, limit: int, s: Step)
    requires target != player && StacksLegal(t) && Int64.InRange(limit) && 1 <= q <= 1_000_000_000
    requires var sum := Int64.Wrap(Quantity(t, target, item) + q);
             s == if (player, item) !in t.stacks || Quantity(t, player, item) < q then Business(t, InsufficientItems)
                  else if sum > limit then Business(t, StackLimit) else StackTransferRows(t, player, target, item, q, sum)
    ensures ItemTransferred(t, Concluded(s, e), e, player, target, item, q, limit)
  {
    Codes();
    ConcludedIs(s, e);
    StackTransferMoves(t, player, target, item, q, Int64.Wrap(Quantity(t, target, item) + q));
    assert (target, item) in t.stacks ==> Storable(t.stacks[(target, item)].quantity);
    SumWraps(Quantity(t, target, item), q);
  }

  lemma SumWraps(quantity: int, q: int)
    requires Storable(quantity) && 1 <= q <= 1_000_000_000
    ensures Int64.InRange(quantity + q) ==> Int64.Wrap(quantity + q) == quantity + q
    ensures !Int64.InRange(quantity + q) ==> quantity + q > Int64.LARGEST && !Storable(quantity + q)
  {}

  lemma TransferGoes(t: Tables, d: Definition, e: Envelope, player: string, target: string, item: string, q: int, spec: Item)
    requires TransferTarget(e.args, player) == Good(target) && TextArg(e.args, "itemId", "") == Good(item) && AmountArg(e.args, "quantity") == Good(q)
    requires FindItem(d.items, item) == Good(spec)
    ensures var sum := Int64.Wrap(Quantity(t, target, item) + q);
            InventoryTransfer(t, Good(d), player, e)
            == if (player, item) !in t.stacks || Quantity(t, player, item) < q then Business(t, InsufficientItems)
               else if sum > spec.stackLimit then Business(t, StackLimit) else StackTransferRows(t, player, target, item, q, sum)
  {}

  // ---------------------------------------------------------------- wallets

  predicate AsksCurrency(defs: Definitions, e: Envelope, player: string, c: string, d: Definition, k: nat) {
    ActsFor(e, player) && TextIs(e, "currency", c) && Defined(defs, e, d) && FirstCurrency(d.currencies, k, c)
  }

  lemma CurrencyAsked(defs: Definitions, e: Envelope, player: string, c: string, d: Definition, k: nat)
    requires AsksCurrency(defs, e, player, c, d, k)
    ensures TextArg(e.args, "currency", "") == Good(c) && DefinitionFor(defs, e) == Good(d)
    ensures FindCurrency(d.currencies, c) == Good(d.currencies[k])
  {
    TextIsIff(e, "currency", c);
    CurrencyFound(d.currencies, k, c);
  }

  /** A read answers the balance, unless it is out of bounds, and changes nothing. */
  lemma WalletGetExact(defs: Definitions, t: Tables, e: Envelope, player: string, c: string, d: Definition, k: nat)
    requires e.operation == "wallet.get" && AsksCurrency(defs, e, player, c, d, k)
    ensures var o, b := Handle(defs, t, e), Balance(t, player, c);
            && (d.currencies[k].minBalance <= b <= d.currencies[k].maxBalance ==>
                  Answers(o, e, t) && "balance" in o.result.body && o.result.body["balance"] == Number(b))
            && (!(d.currencies[k].minBalance <= b <= d.currencies[k].maxBalance) ==> Refuses(o, e, t, "CURRENCY_LIMIT"))
  {
    MoneyNames();
    HandleIs(defs, t, e, player, WalletRead);
    CurrencyAsked(defs, e, player, c, d, k);
  }

  /** MAIN RESULT. A credit adds its amount to the player's wallet, and a debit takes it when the player has it, even when
      the change is then refused for the bounds; the answer is the balance it leaves. */
  lemma WalletChangeExact(defs: Definitions, t: Tables, e: Envelope, player: string, c: string, amount: int, d: Definition, k: nat)
    requires e.operation in {"wallet.credit", "wallet.debit"} && AsksCurrency(defs, e, player, c, d, k) && AmountIs(e, "amount", amount)
    ensures WalletChanged(t, Handle(defs, t, e), e, player, c, if e.operation == "wallet.credit" then amount else -amount, d.currencies[k])
  {
    MoneyNames();
    var credit := e.operation == "wallet.credit";
    HandleIs(defs, t, e, player, if credit then Credit else Debit);
    CurrencyAsked(defs, e, player, c, d, k);
    AmountIff(e, "amount", amount);
    assert WalletChange(t, Good(d), player, e, credit) == ChangeRows(t, d.currencies[k], player, c, amount, e, credit);
    ChangeRowsEnd(t, d.currencies[k], player, c, amount, e, credit);
  }

  /** How a change by `delta` ends: a debit needs the funds, and the bounds are looked at after the wallet was written. */
  ghost predicate WalletChanged(t: Tables, o: Outcome<Tables>, e: Envelope, player: string, c: string, delta: int, spec: Currency) {
    var balance := Balance(t, player, c) + delta;
    var funded := delta > 0 || ((player, c) in t.wallets && balance >= 0);
    var inside := spec.minBalance <= balance <= spec.maxBalance;
    && (!funded ==> Refuses(o, e, t, "INSUFFICIENT_FUNDS"))
    && (funded ==> (o.Done? <==> Storable(balance) && (inside ==> e.requestId !in t.transactions)))
    && (funded && o.Done? ==> o.state.wallets == t.wallets[(player, c) := balance])
    && (funded && o.Done? && inside ==>
          Answers(o, e, o.state) && "balance" in o.result.body && o.result.body["balance"] == Number(balance)
          && o.state.entries == t.entries + [Entry(e.requestId, player, c, delta), Entry(e.requestId, SYSTEM, c, -delta)])
    && (funded && o.Done? && !inside ==> Refuses(o, e, o.state, "CURRENCY_LIMIT") && o.state.entries == t.entries)
  }

  lemma ChangeRowsEnd(t: Tables, spec: Currency, player: string, c: string, amount: int, e: Envelope, credit: bool)
    requires amount >= 1
    ensures WalletChanged(t, Concluded(ChangeRows(t, spec, player, c, amount, e, credit), e), e, player, c, if credit then amount else -amount, spec)
  {
    Codes();
    ConcludedIs(ChangeRows(t, spec, player, c, amount, e, credit), e);
    BalanceBounds.ChangeEnds(t, spec, player, c, amount, e, credit);
    ChangeRowsAnswer(t, spec, player, c, amount, e, credit);
  }

  lemma ChangeRowsAnswer(t: Tables, spec: Currency, player: string, c: string, amount: int, e: Envelope, credit: bool)
    ensures var s, delta := ChangeRows(t, spec, player, c, amount, e, credit), if credit then amount else -amount;
            && (s.Success? ==> "balance" in s.body)
            && (s.Success? ==> s.body["balance"] == Number(Balance(t, player, c) + delta))
            && (s.Success? ==> s.tables.entries == t.entries + [Entry(e.requestId, player, c, delta), Entry(e.requestId, SYSTEM, c, -delta)])
            && (s.Business? ==> s.tables.entries == t.entries && s.failure in {InsufficientFunds, CurrencyBounds})
  {}

  /** MAIN RESULT. A wallet transfer by name, as `Conservation.TransferExact` has it, with the code of each refusal. */
  lemma WalletTransferExact(defs: Definitions, t: Tables, e: Envelope, player: string, target: string, c: string, amount: int, d: Definition, k: nat)
    requires e.operation == "wallet.transfer" && AsksCurrency(defs, e, player, c, d, k) && AmountIs(e, "amount", amount)
    requires TextIs(e, "targetPlayerId", target) && target != player && Conservation.Sound(t) && e.requestId !in t.transactions
    requires 0 <= d.currencies[k].minBalance <= d.currencies[k].maxBalance && Int64.InRange(d.currencies[k].maxBalance)
    ensures WalletTransferred(t, Handle(defs, t, e), e, player, target, c, amount, d.currencies[k])
  {
    MoneyNames();
    HandleIs(defs, t, e, player, Transfer);
    CurrencyAsked(defs, e, player, c, d, k);
    AmountIff(e, "amount", amount);
    TextIsIff(e, "targetPlayerId", target);
    WalletTransferEnds(t, d, e, player, target, c, amount, d.currencies[k]);
  }

  ghost predicate WalletTransferred(t: Tables, o: Outcome<Tables>, e: Envelope, player: string, target: string, c: string, amount: int, spec: Currency) {
    var has, sum := (player, c) in t.wallets && Balance(t, player, c) >= amount, Balance(t, target, c) + amount;
    && (!has ==> Refuses(o, e, t, "INSUFFICIENT_FUNDS"))
    && (has && !(spec.minBalance <= sum <= spec.maxBalance) ==> Refuses(o, e, t, "CURRENCY_LIMIT"))
    && (has && spec.minBalance <= sum <= spec.maxBalance ==>
          && o.Done? && Answers(o, e, o.state)
          && o.state.wallets == t.wallets[(player, c) := Balance(t, player, c) - amount][(target, c) := sum]
          && o.state.entries == t.entries + [Entry(e.requestId, player, c, -amount), Entry(e.requestId, target, c, amount)]
          && "fromBalance" in o.result.body && o.result.body["fromBalance"] == Number(Balance(o.state, player, c))
          && "targetBalance" in o.result.body && o.result.body["targetBalance"] == Number(Balance(o.state, target, c)))
  }

  lemma WalletTransferEnds(t: Tables, d: Definition, e: Envelope, player: string, target: string, c: string, amount: int, spec: Currency)
    requires TransferTarget(e.args, player) == Good(target) && TextArg(e.args, "currency", "") == Good(c) && AmountArg(e.args, "amount") == Good(amount)
    requires FindCurrency(d.currencies, c) == Good(spec) && Conservation.Sound(t) && e.requestId !in t.transactions
    requires 0 <= spec.minBalance <= spec.maxBalance && Int64.InRange(spec.maxBalance)
    ensures WalletTransferred(t, Concluded(WalletTransfer(t, Good(d), player, e), e), e, player, target, c, amount, spec)
  {
    Codes();
    ConcludedIs(WalletTransfer(t, Good(d), player, e), e);
    Conservation.TransferExact(t, Good(d), player, e, target, c, amount, spec);
    Conservation.WrapRefused(Balance(t, target, c), amount);
    WalletTransferGoes(t, d, e, player, target, c, amount, spec);
  }

  lemma WalletTransferGoes(t: Tables, d: Definition, e: Envelope, player: string, target: string, c: string, amount: int, spec: Currency)
    requires TransferTarget(e.args, player) == Good(target) && TextArg(e.args, "currency", "") == Good(c) && AmountArg(e.args, "amount") == Good(amount)
    requires FindCurrency(d.currencies, c) == Good(spec)
    ensures var sum, s := Int64.Wrap(Balance(t, target, c) + amount), WalletTransfer(t, Good(d), player, e);
            && ((player, c) !in t.wallets || Balance(t, player, c) < amount ==> s == Business(t, InsufficientFunds))
            && ((player, c) in t.wallets && Balance(t, player, c) >= amount && (sum < spec.minBalance || sum > spec.maxBalance) ==>
                  s == Business(t, CurrencyBounds))
            && (s.Success? ==> "fromBalance" in s.body && s.body["fromBalance"] == Number(Balance(t, player, c) - amount) && "targetBalance" in s.body)
            && (s.Success? ==> s.tables.entries == t.entries + [Entry(e.requestId, player, c, -amount), Entry(e.requestId, target, c, amount)])
  {}

  // ---------------------------------------------------------------- rewards

  /** MAIN RESULT. A claim is answered as a duplicate and changes nothing exactly when the player has claimed a limited
      reward before, or this source, or the request id is used. Otherwise it stores its row, and each grant before the
      first that pays no amount of its currency is paid; one like that rejects the claim. */
  lemma ClaimExact(defs: Definitions, t: Tables, e: Envelope, player: string, id: string, source: string, d: Definition, k: nat)
    requires e.operation == "reward.claim" && ActsFor(e, player) && TextIs(e, "rewardId", id) && TextIs(e, "sourceId", source)
    requires Defined(defs, e, d) && FirstReward(d.rewards, k, id)
    ensures RewardClaimed(t, Handle(defs, t, e), e, player, d.rewards[k], source)
  {
    MoneyNames();
    HandleIs(defs, t, e, player, Claim);
    TextIsIff(e, "rewardId", id);
    TextIsIff(e, "sourceId", source);
    RewardFound(d.rewards, k, id);
    assert LoadReward(Good(d), e) == Found(d.rewards[k]);
    ClaimGoes(t, d, e, player, d.rewards[k], source);
    ClaimEnds(t, e, player, d.rewards[k], source, RewardClaim(t, Good(d), player, e));
  }

  predicate AlreadyHeld(t: Tables, e: Envelope, player: string, reward: Reward, source: string) {
    || (reward.oncePerPlayer && exists c :: c in t.claims && c.0 == player && c.1 == reward.id)
    || (player, reward.id, source) in t.claims || exists c :: c in t.claims && t.claims[c] == e.requestId
  }

  ghost predicate RewardClaimed(t: Tables, o: Outcome<Tables>, e: Envelope, player: string, reward: Reward, source: string) {
    var m := BalanceBounds.PayableFirst(reward.grants, |reward.grants|);
    if AlreadyHeld(t, e, player, reward, source)
    then Answers(o, e, t) && "duplicate" in o.result.body && o.result.body["duplicate"] == Flag(true)
    else o.Done? ==>
      && o.state.claims == t.claims[(player, reward.id, source) := e.requestId] && GrantsPaid(t, o.state, player, reward.grants, m)
      && if m == |reward.grants| then Answers(o, e, o.state) && "duplicate" in o.result.body && o.result.body["duplicate"] == Flag(false)
         else Refuses(o, e, o.state, "INVALID_REWARD")
  }

  ghost predicate GrantsPaid(t: Tables, t': Tables, player: string, grants: seq<Grant>, m: nat)
    requires m <= |grants|
  {
    && (forall p, c :: c != "" ==> Balance(t', p, c) == Balance(t, p, c) + if p == player then Conservation.Paid(grants, m, c) else 0)
    && (forall p, i :: i != "" ==> Quantity(t', p, i) == Quantity(t, p, i) + if p == player then Conservation.Given(grants, m, i) else 0)
  }

  ghost predicate ClaimStep(t: Tables, e: Envelope, player: string, reward: Reward, source: string, s: Step) {
    var t1 := t.(claims := t.claims[(player, reward.id, source) := e.requestId]);
    var paid := GrantFirst(t1, e.requestId, player, reward.grants, |reward.grants|);
    if (reward.oncePerPlayer && HasClaimed(t, player, reward.id)) || ClaimConflict(t, player, reward.id, source, e.requestId)
    then s.Success? && s.tables == t && s.body == ClaimBody(player, reward.id, true)
    else if paid.Success? then s.Success? && s.tables == paid.tables && s.body == ClaimBody(player, reward.id, false)
    else s == paid
  }

  lemma ClaimEnds(t: Tables, e: Envelope, player: string, reward: Reward, source: string, s: Step)
    requires ClaimStep(t, e, player, reward, source, s)
    ensures RewardClaimed(t, Concluded(s, e), e, player, reward, source)
  {
    Codes();
    ConcludedIs(s, e);
    var t1 := t.(claims := t.claims[(player, reward.id, source) := e.requestId]);
    if !AlreadyHeld(t, e, player, reward, source) && !s.Fault? {
      GrantsExact(t1, e.requestId, player, reward.grants);
    }
  }

  lemma ClaimGoes(t: Tables, d: Definition, e: Envelope, player: string, reward: Reward, source: string)
    requires LoadReward(Good(d), e) == Found(reward) && TextArg(e.args, "sourceId", "") == Good(source)
    ensures ClaimStep(t, e, player, reward, source, RewardClaim(t, Good(d), player, e))
  {}

  lemma GrantsExact(t: Tables, request: string, player: string, grants: seq<Grant>)
    requires !GrantFirst(t, request, player, grants, |grants|).Fault?
    ensures var s, m := GrantFirst(t, request, player, grants, |grants|), BalanceBounds.PayableFirst(grants, |grants|);
            && (s.Success? <==> m == |grants|) && (s.Business? ==> s.failure == InvalidReward) && s.tables.claims == t.claims
            && GrantsPaid(t, s.tables, player, grants, m)
  {
    var s, m := GrantFirst(t, request, player, grants, |grants|), BalanceBounds.PayableFirst(grants, |grants|);
    BalanceBounds.PaidUpTo(t, request, player, grants, |grants|);
    BusinessIsInvalid(t, request, player, grants, |grants|);
    Conservation.GrantsPay(t, request, player, grants, m, player, "c", "i");
    forall p, c | c != "" ensures Balance(s.tables, p, c) == Balance(t, p, c) + if p == player then Conservation.Paid(grants, m, c) else 0 {
      Conservation.GrantsPay(t, request, player, grants, m, p, c, "i");
    }
    forall p, i | i != "" ensures Quantity(s.tables, p, i) == Quantity(t, p, i) + if p == player then Conservation.Given(grants, m, i) else 0 {
      Conservation.GrantsPay(t, request, player, grants, m, p, "c", i);
    }
  }

  lemma {:induction false} BusinessIsInvalid(t: Tables, request: string, player: string, grants: seq<Grant>, n: nat)
    requires n <= |grants|
    ensures GrantFirst(t, request, player, grants, n).Business? ==> GrantFirst(t, request, player, grants, n).failure == InvalidReward
  {
    if n > 0 {
      BusinessIsInvalid(t, request, player, grants, n - 1);
    }
  }

  /** A preview names the reward and its limit, and changes nothing. */
  lemma PreviewExact(defs: Definitions, t: Tables, e: Envelope, player: string, id: string, d: Definition, k: nat)
    requires e.operation == "reward.preview" && ActsFor(e, player) && TextIs(e, "rewardId", id) && Defined(defs, e, d) && FirstReward(d.rewards, k, id)
    ensures var o := Handle(defs, t, e);
            && Answers(o, e, t)
            && o.result.body == map["playerId" := Text(player), "rewardId" := Text(id), "oncePerPlayer" := Flag(d.rewards[k].oncePerPlayer)]
  {
    MoneyNames();
    HandleIs(defs, t, e, player, Preview);
    TextIsIff(e, "rewardId", id);
    RewardFound(d.rewards, k, id);
  }

  // ---------------------------------------------------------------- names no definition knows

  predicate StandsAt(s: string, part: string, i: nat) { i <= |s| && part <= s[i..] }

  predicate Holds(s: string, part: string) { exists i: nat :: i <= |s| && StandsAt(s, part, i) }

  lemma {:induction false} ContainsIff(s: string, part: string)
    ensures Contains(s, part) <==> Holds(s, part)
  {
    assert s[0..] == s;
    if part <= s { assert StandsAt(s, part, 0); }
    if s != "" {
      ContainsIff(s[1..], part);
      forall i: nat | i < |s| ensures StandsAt(s[1..], part, i) <==> StandsAt(s, part, i + 1) { assert s[1..][i..] == s[i + 1..]; }
      if Holds(s[1..], part) {
        var i: nat :| i <= |s[1..]| && StandsAt(s[1..], part, i);
        assert StandsAt(s, part, i + 1);
      }
      if i: nat :| i <= |s| && StandsAt(s, part, i) {
        if i > 0 { assert StandsAt(s[1..], part, i - 1); }
      }
    }
  }

  /** The code of a name that is unknown: the plain one, unless the name itself reads like another error. */
  predicate CodedBy(code: string, name: string, plain: string) {
    if Holds(name, "INSUFFICIENT_FUNDS") then code == "INSUFFICIENT_FUNDS"
    else if Holds(name, "INSUFFICIENT_ITEMS") then code == "INSUFFICIENT_ITEMS"
    else code == plain
  }

  lemma CodeOfName(name: string, plain: string)
    ensures CodedBy(CodeWithId(name, plain), name, plain)
  {
    ContainsIff(name, "INSUFFICIENT_FUNDS");
    ContainsIff(name, "INSUFFICIENT_ITEMS");
  }

  ghost predicate RefusesName(o: Outcome<Tables>, e: Envelope, t: Tables, name: string, plain: string) {
    exists code :: CodedBy(code, name, plain) && Refuses(o, e, t, code)
  }

  lemma {:induction false} NoCurrency(cs: seq<Currency>, id: string)
    requires forall k :: 0 <= k < |cs| ==> cs[k].id != id
    ensures FindCurrency(cs, id).Bad?
  {
    if cs != [] { NoCurrency(cs[1..], id); }
  }

  lemma {:induction false} NoItem(items: seq<Item>, id: string)
    requires forall k :: 0 <= k < |items| ==> items[k].id != id
    ensures FindItem(items, id).Bad?
  {
    if items != [] { NoItem(items[1..], id); }
  }

  lemma {:induction false} NoReward(rewards: seq<Reward>, id: string)
    requires forall k :: 0 <= k < |rewards| ==> rewards[k].id != id
    ensures FindReward(rewards, id).Bad?
  {
    if rewards != [] { NoReward(rewards[1..], id); }
  }

  /** The operation a well-formed command fails in for a name its definition does not know. */
  lemma UnknownIsBusiness(t: Tables, d: Definition, player: string, e: Envelope, op: Operation)
    requires op == OperationOf(e.operation) && !op.Unsupported? && WellFormed(e, player)
    ensures op in {WalletRead, Credit, Debit, Transfer} && (forall k :: 0 <= k < |d.currencies| ==> d.currencies[k].id != e.args["currency"].text) ==>
              Dispatch(t, Good(d), player, e, op) == Business(t, UnknownCurrency(e.args["currency"].text))
    ensures op in {ItemGrant, ItemConsume, ItemTransfer} && (forall k :: 0 <= k < |d.items| ==> d.items[k].id != e.args["itemId"].text) ==>
              Dispatch(t, Good(d), player, e, op) == Business(t, UnknownItem(e.args["itemId"].text))
    ensures op in {Preview, Claim} && (forall k :: 0 <= k < |d.rewards| ==> d.rewards[k].id != e.args["rewardId"].text) ==>
              Dispatch(t, Good(d), player, e, op) == Business(t, RewardNotFound(e.args["rewardId"].text))
  {
    if op in {WalletRead, Credit, Debit, Transfer} {
      if forall k :: 0 <= k < |d.currencies| ==> d.currencies[k].id != e.args["currency"].text { NoCurrency(d.currencies, e.args["currency"].text); }
    } else if op in {ItemGrant, ItemConsume, ItemTransfer} {
      if forall k :: 0 <= k < |d.items| ==> d.items[k].id != e.args["itemId"].text { NoItem(d.items, e.args["itemId"].text); }
    } else if op in {Preview, Claim} {
      if forall k :: 0 <= k < |d.rewards| ==> d.rewards[k].id != e.args["rewardId"].text { NoReward(d.rewards, e.args["rewardId"].text); }
    }
    HasTargetIff(e, player);
    HasAmountIff(e, "amount");
    HasAmountIff(e, "quantity");
  }

  /** The name of a currency, item or reward a command asks for, and the code for one that is unknown. */
  function NameAsked(e: Envelope): (string, string) {
    match OperationOf(e.operation)
    case WalletRead => ("currency", "UNKNOWN_CURRENCY")
    case Credit => ("currency", "UNKNOWN_CURRENCY")
    case Debit => ("currency", "UNKNOWN_CURRENCY")
    case Transfer => ("currency", "UNKNOWN_CURRENCY")
    case ItemGrant => ("itemId", "UNKNOWN_ITEM")
    case ItemConsume => ("itemId", "UNKNOWN_ITEM")
    case ItemTransfer => ("itemId", "UNKNOWN_ITEM")
    case Preview => ("rewardId", "REWARD_NOT_FOUND")
    case Claim => ("rewardId", "REWARD_NOT_FOUND")
    case _ => ("", "")
  }

  predicate Knows(d: Definition, key: string, name: string) {
    || (key == "currency" && exists k :: 0 <= k < |d.currencies| && d.currencies[k].id == name)
    || (key == "itemId" && exists k :: 0 <= k < |d.items| && d.items[k].id == name)
    || (key == "rewardId" && exists k :: 0 <= k < |d.rewards| && d.rewards[k].id == name)
  }

  /** A well-formed command for a currency, item or reward its definition does not know is refused with the code of
      that kind, unless the name itself contains another code, and changes nothing. */
  lemma UnknownIsRefused(defs: Definitions, t: Tables, e: Envelope, player: string, d: Definition, name: string)
    requires ActsFor(e, player) && WellFormed(e, player) && e.operation in NAMES && Defined(defs, e, d)
    requires NameAsked(e).0 != "" && TextIs(e, NameAsked(e).0, name) && !Knows(d, NameAsked(e).0, name)
    ensures RefusesName(Handle(defs, t, e), e, t, name, NameAsked(e).1)
  {
    UnsupportedIff(defs, t, e, player);
    var op := OperationOf(e.operation);
    HandleIs(defs, t, e, player, op);
    UnknownIsBusiness(t, d, player, e, op);
    CodeOfName(name, NameAsked(e).1);
    ConcludedIs(Dispatch(t, Good(d), player, e, op), e);
    assert Refuses(Handle(defs, t, e), e, t, CodeWithId(name, NameAsked(e).1));
  }
}
