/** The command handlers as the service runs them: statement by statement on the tables of one open
transaction, each proved to do exactly what its specification in `Economy` says. */
module EconomyService {
  import opened Commands
  import opened Economy
  import Int64

  /** How a handler returns: a result, a business error, or a database error that aborts the transaction. */
  datatype Return = Answer(body: map<string, Value>, event: string) | Refusal(failure: Failure) | Abort

  method LookUpCurrency(cs: seq<Currency>, id: string) returns (found: Parsed<Currency>)
    ensures found == FindCurrency(cs, id)
  {
    var i := 0;
    while i < |cs|
      invariant 0 <= i <= |cs| && FindCurrency(cs, id) == FindCurrency(cs[i..], id)
    {
      if cs[i].id == id { return Good(cs[i]); }
      i := i + 1;
    }
    found := Bad;
  }

  method LookUpItem(items: seq<Item>, id: string) returns (found: Parsed<Item>)
    ensures found == FindItem(items, id)
  {
    var i := 0;
    while i < |items|
      invariant 0 <= i <= |items| && FindItem(items, id) == FindItem(items[i..], id)
    {
      if items[i].id == id { return Good(items[i]); }
      i := i + 1;
    }
    found := Bad;
  }

  method LookUpReward(rewards: seq<Reward>, id: string) returns (found: Parsed<Reward>)
    ensures found == FindReward(rewards, id)
  {
    var i := 0;
    while i < |rewards|
      invariant 0 <= i <= |rewards| && FindReward(rewards, id) == FindReward(rewards[i..], id)
    {
      if rewards[i].id == id { return Good(rewards[i]); }
      i := i + 1;
    }
    found := Bad;
  }

  class Transaction {
    var wallets: map<(string, string), int>
    var transactions: map<string, string>
    var entries: seq<Entry>
    var stacks: map<(string, string), Stack>
    var claims: map<(string, string, string), string>
    var entitlements: map<(string, string), bool>
    var progress: map<(string, string), Progress>
    var objectives: set<(string, string, string)>

    function View(): Tables
      reads this
    {
      Tables(wallets, transactions, entries, stacks, claims, entitlements, progress, objectives)
    }

    constructor (t: Tables)
      ensures View() == t
    {
      wallets, transactions, entries, stacks := t.wallets, t.transactions, t.entries, t.stacks;
      claims, entitlements, progress, objectives := t.claims, t.entitlements, t.progress, t.objectives;
    }

    /** The transaction ended as `step` says: with its answer or failure, and with its tables. */
    ghost predicate Did(step: Step, r: Return)
      reads this
    {
      match step
      case Success(t, body, event) => r == Answer(body, event) && View() == t
      case Business(t, failure) => r == Refusal(failure) && View() == t
      case Fault => r == Abort
    }

    // -------------------------------------------------------------- statements

    method UpsertWallet(player: string, currency: string, amount: int) returns (balance: Parsed<int>)
      modifies this`wallets
      ensures var after := AddToWallet(old(View()), player, currency, amount);
              if after.Good? then View() == after.value && balance == Good(Balance(View(), player, currency))
              else balance.Bad? && View() == old(View())
    {
      var sum := if (player, currency) in wallets then wallets[(player, currency)] + amount else amount;
      if !Storable(sum) { return Bad; }
      wallets := wallets[(player, currency) := sum];
      balance := Good(sum);
    }

    /** The guarded update of a debit; no row comes back when the balance is too small. */
    method DebitWallet(player: string, currency: string, amount: int) returns (found: bool, balance: Parsed<int>)
      modifies this`wallets
      ensures found == ((player, currency) in old(wallets) && Balance(old(View()), player, currency) >= amount)
      ensures var after := AddToWallet(old(View()), player, currency, -amount);
              if found && after.Good? then View() == after.value && balance == Good(Balance(View(), player, currency))
              else balance.Bad? && View() == old(View())
    {
      if (player, currency) !in wallets || wallets[(player, currency)] < amount {
        return false, Bad;
      }
      balance := UpsertWallet(player, currency, -amount);
      found := true;
    }

    method UpsertStack(player: string, item: string, q: int) returns (stack: Parsed<Stack>)
      modifies this`stacks
      ensures var after := AddToStack(old(View()), player, item, q);
              if after.Good? then View() == after.value && stack == Good(View().stacks[(player, item)])
              else stack.Bad? && View() == old(View())
    {
      var row := if (player, item) in stacks then stacks[(player, item)] else Stack(0, 0);
      if !Storable(row.quantity + q) || !Storable(row.version + 1) { return Bad; }
      stacks := stacks[(player, item) := Stack(row.quantity + q, row.version + 1)];
      stack := Good(stacks[(player, item)]);
    }

    method InsertTransaction(request: string, reason: string) returns (ok: bool)
      modifies this`transactions
      ensures var after := AddTransaction(old(View()), request, reason);
              ok == after.Good? && View() == if ok then after.value else old(View())
    {
      if request in transactions { return false; }
      transactions := transactions[request := reason];
      ok := true;
    }

    method AppendEntries(more: seq<Entry>)
      modifies this`entries
      ensures View() == old(View()).(entries := old(entries) + more)
    {
      var i := 0;
      while i < |more|
        invariant 0 <= i <= |more| && entries == old(entries) + more[..i]
      {
        entries := entries + [more[i]];
        i := i + 1;
      }
    }

    // -------------------------------------------------------------- handlers

    method ChangeWallet(d: Parsed<Definition>, player: string, e: Envelope, credit: bool) returns (r: Return)
      modifies this
      ensures Did(WalletChange(old(View()), d, player, e, credit), r)
    {
      var currency := TextArg(e.args, "currency", "");
      if currency.Bad? { return Refusal(InvalidArgument); }
      var amount := AmountArg(e.args, "amount");
      if amount.Bad? { return Refusal(InvalidArgument); }
      if d.Bad? { return Abort; }
      var spec := LookUpCurrency(d.value.currencies, currency.value);
      if spec.Bad? { return Refusal(UnknownCurrency(currency.value)); }
      r := ChangeWalletRows(spec.value, player, currency.value, amount.value, e, credit);
    }

    method ChangeWalletRows(spec: Currency, player: string, currency: string, amount: int, e: Envelope, credit: bool)
      returns (r: Return)
      modifies this
      ensures Did(ChangeRows(old(View()), spec, player, currency, amount, e, credit), r)
    {
      var balance: Parsed<int>;
      if credit {
        balance := UpsertWallet(player, currency, amount);
      } else {
        var found;
        found, balance := DebitWallet(player, currency, amount);
        if !found { return Refusal(InsufficientFunds); }
      }
      if balance.Bad? { return Abort; }
      if balance.value < spec.minBalance || balance.value > spec.maxBalance { return Refusal(CurrencyBounds); }
      var ok := InsertTransaction(e.requestId, e.operation);
      if !ok { return Abort; }
      var signed := if credit then amount else -amount;
      AppendEntries(BalancedEntries(e.requestId, player, currency, signed));
      r := Answer(map["playerId" := Text(player), "currency" := Text(currency), "amount" := Number(amount),
                      "balance" := Number(balance.value)],
                  if credit then "wallet.credited.v1" else "wallet.debited.v1");
    }

    method TransferWallet(d: Parsed<Definition>, player: string, e: Envelope) returns (r: Return)
      modifies this
      ensures Did(WalletTransfer(old(View()), d, player, e), r)
    {
      var target := TransferTarget(e.args, player);
      if target.Bad? { return Refusal(InvalidArgument); }
      var currency := TextArg(e.args, "currency", "");
      if currency.Bad? { return Refusal(InvalidArgument); }
      var amount := AmountArg(e.args, "amount");
      if amount.Bad? { return Refusal(InvalidArgument); }
      if d.Bad? { return Abort; }
      var spec := LookUpCurrency(d.value.currencies, currency.value);
      if spec.Bad? { return Refusal(UnknownCurrency(currency.value)); }
      var from, to := (player, currency.value), (target.value, currency.value);
      if from !in wallets || wallets[from] < amount.value { return Refusal(InsufficientFunds); }
      var toBalance := Int64.Wrap((if to in wallets then wallets[to] else 0) + amount.value);
      if toBalance < spec.value.minBalance || toBalance > spec.value.maxBalance { return Refusal(CurrencyBounds); }
      r := TransferWalletRows(player, target.value, currency.value, amount.value, toBalance, e);
    }

    method TransferWalletRows(player: string, target: string, currency: string, amount: int, toBalance: int, e: Envelope)
      returns (r: Return)
      modifies this
      ensures Did(TransferRows(old(View()), player, target, currency, amount, toBalance, e), r)
    {
      var fromBalance := if (player, currency) in wallets then wallets[(player, currency)] else 0;
      var debited := UpsertWallet(player, currency, -amount);
      if debited.Bad? { return Abort; }
      var credited := UpsertWallet(target, currency, amount);
      if credited.Bad? { return Abort; }
      var ok := InsertTransaction(e.requestId, e.operation);
      if !ok { return Abort; }
      AppendEntries(Pair(e.requestId, player, target, currency, amount));
      r := Answer(map["fromPlayerId" := Text(player), "targetPlayerId" := Text(target), "currency" := Text(currency),
                      "amount" := Number(amount), "fromBalance" := Number(fromBalance - amount),
                      "targetBalance" := Number(toBalance)],
                  "wallet.transferred.v1");
    }

    method ChangeInventory(d: Parsed<Definition>, player: string, e: Envelope, grant: bool) returns (r: Return)
      modifies this
      ensures Did(InventoryChange(old(View()), d, player, e, grant), r)
    {
      var item := TextArg(e.args, "itemId", "");
      if item.Bad? { return Refusal(InvalidArgument); }
      var q := AmountArg(e.args, "quantity");
      if q.Bad? { return Refusal(InvalidArgument); }
      if d.Bad? { return Abort; }
      var spec := LookUpItem(d.value.items, item.value);
      if spec.Bad? { return Refusal(UnknownItem(item.value)); }
      var key := (player, item.value);
      if !grant && (key !in stacks || stacks[key].quantity < q.value) { return Refusal(InsufficientItems); }
      var stack := UpsertStack(player, item.value, if grant then q.value else -q.value);
      if stack.Bad? { return Abort; }
      if stack.value.quantity > spec.value.stackLimit { return Refusal(StackLimit); }
      r := Answer(map["playerId" := Text(player), "itemId" := Text(item.value), "quantity" := Number(q.value),
                      "newQuantity" := Number(stack.value.quantity), "version" := Number(stack.value.version)],
                  if grant then "inventory.granted.v1" else "inventory.consumed.v1");
    }

    method TransferInventory(d: Parsed<Definition>, player: string, e: Envelope) returns (r: Return)
      modifies this
      ensures Did(InventoryTransfer(old(View()), d, player, e), r)
    {
      var target := TransferTarget(e.args, player);
      if target.Bad? { return Refusal(InvalidArgument); }
      var item := TextArg(e.args, "itemId", "");
      if item.Bad? { return Refusal(InvalidArgument); }
      var q := AmountArg(e.args, "quantity");
      if q.Bad? { return Refusal(InvalidArgument); }
      if d.Bad? { return Abort; }
      var spec := LookUpItem(d.value.items, item.value);
      if spec.Bad? { return Refusal(UnknownItem(item.value)); }
      var from, to := (player, item.value), (target.value, item.value);
      if from !in stacks || stacks[from].quantity < q.value { return Refusal(InsufficientItems); }
      var targetQuantity := Int64.Wrap((if to in stacks then stacks[to].quantity else 0) + q.value);
      if targetQuantity > spec.value.stackLimit { return Refusal(StackLimit); }
      r := TransferStackRows(player, target.value, item.value, q.value, targetQuantity);
    }

    method TransferStackRows(player: string, target: string, item: string, q: int, targetQuantity: int) returns (r: Return)
      modifies this
      ensures Did(StackTransferRows(old(View()), player, target, item, q, targetQuantity), r)
    {
      var fromQuantity := if (player, item) in stacks then stacks[(player, item)].quantity else 0;
      var taken := UpsertStack(player, item, -q);
      if taken.Bad? { return Abort; }
      var given := UpsertStack(target, item, q);
      if given.Bad? { return Abort; }
      r := Answer(map["fromPlayerId" := Text(player), "targetPlayerId" := Text(target), "itemId" := Text(item),
                      "quantity" := Number(q), "fromQuantity" := Number(fromQuantity - q),
                      "targetQuantity" := Number(targetQuantity)],
                  "inventory.transferred.v1");
    }

    /** One turn of the grant loop. */
    method PayGrant(request: string, player: string, g: Grant, index: nat) returns (r: Return)
      modifies this
      ensures Did(GrantOne(old(View()), request, player, g, index), r)
    {
      if g.currency != "" {
        if g.amount < 1 { return Refusal(InvalidReward); }
        var balance := UpsertWallet(player, g.currency, g.amount);
        if balance.Bad? { return Abort; }
        var id := GrantRequest(request, index);
        var ok := InsertTransaction(id, "reward.claim");
        if !ok { return Abort; }
        AppendEntries(BalancedEntries(id, player, g.currency, g.amount));
      } else if g.item != "" {
        var stack := UpsertStack(player, g.item, g.quantity);
        if stack.Bad? { return Abort; }
      }
      r := Answer(map[], "");
    }

    method FetchReward(d: Parsed<Definition>, e: Envelope) returns (load: Load)
      ensures load == LoadReward(d, e)
    {
      var id := TextArg(e.args, "rewardId", "");
      if id.Bad? { return NotFound(InvalidArgument); }
      if d.Bad? { return LoadFault; }
      var reward := LookUpReward(d.value.rewards, id.value);
      load := if reward.Good? then Found(reward.value) else NotFound(RewardNotFound(id.value));
    }

    method ClaimReward(d: Parsed<Definition>, player: string, e: Envelope) returns (r: Return)
      modifies this
      ensures Did(RewardClaim(old(View()), d, player, e), r)
    {
      var load := FetchReward(d, e);
      if load.LoadFault? { return Abort; }
      if load.NotFound? { return Refusal(load.failure); }
      var reward := load.reward;
      var source := TextArg(e.args, "sourceId", "");
      if source.Bad? { return Refusal(InvalidArgument); }
      var key := (player, reward.id, source.value);
      if reward.oncePerPlayer && exists k :: k in claims && k.0 == player && k.1 == reward.id {
        return Answer(ClaimBody(player, reward.id, true), "reward.claimed.v1");
      }
      // ON CONFLICT DO NOTHING covers the primary key and the unique request id.
      if key in claims || exists k :: k in claims && claims[k] == e.requestId {
        return Answer(ClaimBody(player, reward.id, true), "reward.claimed.v1");
      }
      claims := claims[key := e.requestId];
      r := PayGrants(e.requestId, player, reward.grants);
      if r.Answer? {
        r := Answer(ClaimBody(player, reward.id, false), "reward.claimed.v1");
      }
    }

    method PayGrants(request: string, player: string, grants: seq<Grant>) returns (r: Return)
      modifies this
      ensures Did(GrantFirst(old(View()), request, player, grants, |grants|), r)
    {
      ghost var before := View();
      r := Answer(map[], "");
      var index := 0;
      while index < |grants|
        invariant 0 <= index <= |grants| && r == Answer(map[], "")
        invariant GrantFirst(before, request, player, grants, index) == Success(View(), map[], "")
      {
        r := PayGrant(request, player, grants[index], index);
        if !r.Answer? {
          StopsAt(before, request, player, grants, index + 1, |grants|);
          return;
        }
        index := index + 1;
      }
    }

    method ReadWallet(d: Parsed<Definition>, player: string, e: Envelope) returns (r: Return)
      ensures Did(WalletGet(View(), d, player, e), r)
    {
      var currency := TextArg(e.args, "currency", "");
      if currency.Bad? { return Refusal(InvalidArgument); }
      if d.Bad? { return Abort; }
      var spec := LookUpCurrency(d.value.currencies, currency.value);
      if spec.Bad? { return Refusal(UnknownCurrency(currency.value)); }
      var key := (player, currency.value);
      var balance := if key in wallets then wallets[key] else 0;
      if balance < spec.value.minBalance || balance > spec.value.maxBalance { return Refusal(CurrencyBounds); }
      r := Answer(map["playerId" := Text(player), "currency" := Text(currency.value), "balance" := Number(balance)],
                  "wallet.read.v1");
    }

    method ChangeEntitlement(player: string, e: Envelope, grant: bool) returns (r: Return)
      modifies this
      ensures Did(EntitlementChange(old(View()), player, e, grant), r)
    {
      var id := TextArg(e.args, "entitlementId", "");
      if id.Bad? { return Refusal(InvalidArgument); }
      if grant || (player, id.value) in entitlements {
        entitlements := entitlements[(player, id.value) := grant];
      }
      r := Answer(map["playerId" := Text(player), "entitlementId" := Text(id.value)],
                  if grant then "entitlement.granted.v1" else "entitlement.revoked.v1");
    }

    method AddExperience(player: string, e: Envelope) returns (r: Return)
      modifies this
      ensures Did(AddXP(old(View()), player, e), r)
    {
      var track := TextArg(e.args, "trackId", "default");
      if track.Bad? { return Refusal(InvalidArgument); }
      var xp := AmountArg(e.args, "amount");
      if xp.Bad? { return Refusal(InvalidArgument); }
      var key := (player, track.value);
      var row := if key in progress then progress[key] else Progress(0, 1, 0);
      var total := row.xp + xp.value;
      if !Storable(total) || !Storable(row.version + 1) { return Abort; }
      progress := progress[key := Progress(total, total / 100 + 1, row.version + 1)];
      r := Answer(map["playerId" := Text(player), "trackId" := Text(track.value), "amount" := Number(xp.value),
                      "xp" := Number(total), "level" := Number(total / 100 + 1)], "progression.updated.v1");
    }

    method CompleteObjective(player: string, e: Envelope) returns (r: Return)
      modifies this
      ensures Did(ObjectiveComplete(old(View()), player, e), r)
    {
      var objective := TextArg(e.args, "objectiveId", "");
      if objective.Bad? { return Refusal(InvalidArgument); }
      var source := TextArg(e.args, "sourceId", e.requestId);
      if source.Bad? { return Refusal(InvalidArgument); }
      var key := (player, objective.value, source.value);
      var duplicate := key in objectives;
      objectives := objectives + {key};
      r := Answer(map["playerId" := Text(player), "objectiveId" := Text(objective.value), "sourceId" := Text(source.value),
                      "duplicate" := Flag(duplicate)], "progression.objective.completed.v1");
    }

    method ReadProgress(player: string, e: Envelope) returns (r: Return)
      ensures Did(ProgressionGet(View(), player, e), r)
    {
      var track := TextArg(e.args, "trackId", "default");
      if track.Bad? { return Refusal(InvalidArgument); }
      var key := (player, track.value);
      var row := if key in progress then progress[key] else Progress(0, 1, 0);
      r := Answer(map["playerId" := Text(player), "trackId" := Text(track.value), "xp" := Number(row.xp),
                      "level" := Number(row.level)], "progression.read.v1");
    }

    method PreviewReward(d: Parsed<Definition>, player: string, e: Envelope) returns (r: Return)
      ensures Did(RewardPreview(View(), d, player, e), r)
    {
      var load := FetchReward(d, e);
      if load.LoadFault? { return Abort; }
      if load.NotFound? { return Refusal(load.failure); }
      r := Answer(map["playerId" := Text(player), "rewardId" := Text(load.reward.id),
                      "oncePerPlayer" := Flag(load.reward.oncePerPlayer)], "reward.previewed.v1");
    }

    method Run(d: Parsed<Definition>, player: string, e: Envelope, op: Operation) returns (r: Return)
      requires !op.Unsupported?
      modifies this
      ensures Did(Dispatch(old(View()), d, player, e, op), r)
    {
      match op
      case WalletRead => r := ReadWallet(d, player, e);
      case Credit => r := ChangeWallet(d, player, e, true);
      case Debit => r := ChangeWallet(d, player, e, false);
      case Transfer => r := TransferWallet(d, player, e);
      case InventoryList => r := Answer(map["playerId" := Text(player)], "inventory.listed.v1");
      case ItemGrant => r := ChangeInventory(d, player, e, true);
      case ItemConsume => r := ChangeInventory(d, player, e, false);
      case ItemTransfer => r := TransferInventory(d, player, e);
      case EntitlementList => r := Answer(map["playerId" := Text(player)], "entitlement.listed.v1");
      case EntitlementGrant => r := ChangeEntitlement(player, e, true);
      case EntitlementRevoke => r := ChangeEntitlement(player, e, false);
      case ProgressionRead => r := ReadProgress(player, e);
      case ProgressionAdd => r := AddExperience(player, e);
      case Objective => r := CompleteObjective(player, e);
      case Preview => r := PreviewReward(d, player, e);
      case Claim => r := ClaimReward(d, player, e);
    }

    /** A business error becomes a rejected result without an error; a database error stays one. */
    method HandleCommand(defs: Definitions, e: Envelope) returns (result: Parsed<Result>)
      modifies this
      ensures match Handle(defs, old(View()), e)
              case Failed => result.Bad?
              case Done(t, r) => result == Good(r) && View() == t
    {
      var r: Return;
      var player := ResolvePlayer(e);
      if player.Bad? {
        r := Refusal(InvalidArgument);
      } else {
        var op := OperationOf(e.operation);
        if op.Unsupported? { return Good(Rejected(e, "UNSUPPORTED_OPERATION")); }
        r := Run(DefinitionFor(defs, e), player.value, e, op);
      }
      match r
      case Abort => result := Bad;
      case Refusal(failure) => result := Good(Rejected(e, ErrorCode(failure)));
      case Answer(body, event) =>
        result := Good(Result(e.requestId, e.correlationId, "succeeded", e.operation, body, [event], ""));
    }
  }

  /** A grant that fails ends the loop: the grants after it change nothing. */
  lemma {:induction false} StopsAt(t: Tables, request: string, player: string, grants: seq<Grant>, m: nat, n: nat)
    requires m <= n <= |grants| && !GrantFirst(t, request, player, grants, m).Success?
    ensures GrantFirst(t, request, player, grants, n) == GrantFirst(t, request, player, grants, m)
  {
    if m < n {
      StopsAt(t, request, player, grants, m, n - 1);
    }
  }
}
