/** The economy tables and the command handlers that change them.

A handler runs inside the transaction of its command. A business error turns into a rejected result,
and the transaction still commits whatever the handler had written by then; a database error aborts
the transaction. */
module Economy {
  import opened Commands
  import Int64
  import Roster

  // ---------------------------------------------------------------- definitions and tables

  datatype Currency = Currency(id: string, precision: int, minBalance: int, maxBalance: int)
  datatype Item = Item(id: string, stackLimit: int)
  datatype Grant = Grant(item: string, quantity: int, currency: string, amount: int)
  datatype Reward = Reward(id: string, oncePerPlayer: bool, grants: seq<Grant>)
  datatype MatchMode = MatchMode(id: string, rewardId: string)
  datatype Definition = Definition(currencies: seq<Currency>, items: seq<Item>, rewards: seq<Reward>, modes: seq<MatchMode>)

  /** Published definitions by game and revision. */
  type Definitions = map<(string, int), Definition>

  datatype Entry = Entry(request: string, account: string, currency: string, amount: int)
  datatype Stack = Stack(quantity: int, version: int)
  datatype Progress = Progress(xp: int, level: int, version: int)

  datatype Tables = Tables(wallets: map<(string, string), int>,
                           transactions: map<string, string>,
                           entries: seq<Entry>,
                           stacks: map<(string, string), Stack>,
                           claims: map<(string, string, string), string>,
                           entitlements: map<(string, string), bool>,
                           progress: map<(string, string), Progress>,
                           objectives: set<(string, string, string)>)

  const SYSTEM := "__system__"
  const MAX_COMMAND_AMOUNT := 1_000_000_000
  const NO_TABLES := Tables(map[], map[], [], map[], map[], map[], map[], {})

  // ---------------------------------------------------------------- errors

  datatype Failure = InvalidArgument | InsufficientFunds | InsufficientItems | RewardNotFound(id: string) | InvalidReward
                   | UnknownCurrency(id: string) | UnknownItem(id: string) | CurrencyBounds | StackLimit

  predicate Contains(s: string, part: string) {
    part <= s || (s != "" && Contains(s[1..], part))
  }

  /** The code is chosen by searching the message, so an id inside the message can decide it. */
  function CodeWithId(id: string, code: string): string {
    if Contains(id, "INSUFFICIENT_FUNDS") then "INSUFFICIENT_FUNDS"
    else if Contains(id, "INSUFFICIENT_ITEMS") then "INSUFFICIENT_ITEMS"
    else code
  }

  function ErrorCode(f: Failure): string {
    match f
    case InvalidArgument => "INVALID_ARGUMENT"
    case InsufficientFunds => "INSUFFICIENT_FUNDS"
    case InsufficientItems => "INSUFFICIENT_ITEMS"
    case RewardNotFound(id) => CodeWithId(id, "REWARD_NOT_FOUND")
    case InvalidReward => "INVALID_REWARD"
    case UnknownCurrency(id) => CodeWithId(id, "UNKNOWN_CURRENCY")
    case UnknownItem(id) => CodeWithId(id, "UNKNOWN_ITEM")
    case CurrencyBounds => "CURRENCY_LIMIT"
    case StackLimit => "STACK_LIMIT"
  }

  /** How a handler ends: with a result, with a business error after some writes, or with a database error. */
  datatype Step = Success(tables: Tables, body: map<string, Value>, event: string)
                | Business(tables: Tables, failure: Failure)
                | Fault

  datatype Parsed<T> = Good(value: T) | Bad

  // ---------------------------------------------------------------- arguments

  function TextArg(args: map<string, Value>, key: string, fallback: string): Parsed<string> {
    if key in args then
      if args[key].Text? && !Roster.Blank(args[key].text) then Good(args[key].text) else Bad
    else if fallback == "" then Bad else Good(fallback)
  }

  function AmountArg(args: map<string, Value>, key: string): (r: Parsed<int>)
    ensures r.Good? ==> 1 <= r.value <= MAX_COMMAND_AMOUNT
  {
    if key !in args || !args[key].Number? then Bad
    else
      var n := args[key].number;
      if !Int64.InRange(n) || n <= 0 || n > MAX_COMMAND_AMOUNT then Bad else Good(n)
  }

  function ResolvePlayer(e: Envelope): Parsed<string> {
    match TextArg(e.args, "playerId", e.actorId)
    case Bad => Bad
    case Good(p) => if e.actorType == "player" && p != e.actorId then Bad else Good(p)
  }

  function TransferTarget(args: map<string, Value>, player: string): (r: Parsed<string>)
    ensures r.Good? ==> r.value != player
  {
    match TextArg(args, "targetPlayerId", "")
    case Bad => Bad
    case Good(t) => if t == player then Bad else Good(t)
  }

  function FindCurrency(cs: seq<Currency>, id: string): (r: Parsed<Currency>)
    ensures r.Good? ==> r.value in cs && r.value.id == id
  {
    if cs == [] then Bad else if cs[0].id == id then Good(cs[0]) else FindCurrency(cs[1..], id)
  }

  function FindItem(items: seq<Item>, id: string): (r: Parsed<Item>)
    ensures r.Good? ==> r.value in items && r.value.id == id
  {
    if items == [] then Bad else if items[0].id == id then Good(items[0]) else FindItem(items[1..], id)
  }

  function FindReward(rewards: seq<Reward>, id: string): (r: Parsed<Reward>)
    ensures r.Good? ==> r.value in rewards && r.value.id == id
  {
    if rewards == [] then Bad else if rewards[0].id == id then Good(rewards[0]) else FindReward(rewards[1..], id)
  }

  function FindMode(modes: seq<MatchMode>, id: string): (r: Parsed<MatchMode>)
    ensures r.Good? ==> r.value in modes && r.value.id == id
  {
    if modes == [] then Bad else if modes[0].id == id then Good(modes[0]) else FindMode(modes[1..], id)
  }

  // ---------------------------------------------------------------- statements

  function Balance(t: Tables, player: string, currency: string): int {
    if (player, currency) in t.wallets then t.wallets[(player, currency)] else 0
  }

  function Quantity(t: Tables, player: string, item: string): int {
    if (player, item) in t.stacks then t.stacks[(player, item)].quantity else 0
  }

  /** A bigint column with CHECK (column >= 0). */
  predicate Storable(n: int) { 0 <= n && Int64.InRange(n) }

  /** INSERT ... ON CONFLICT DO UPDATE SET balance = balance + amount. */
  function AddToWallet(t: Tables, player: string, currency: string, amount: int): Parsed<Tables> {
    var balance := Balance(t, player, currency) + amount;
    if Storable(balance) then Good(t.(wallets := t.wallets[(player, currency) := balance])) else Bad
  }

  function AddToStack(t: Tables, player: string, item: string, q: int): Parsed<Tables> {
    var version := if (player, item) in t.stacks then t.stacks[(player, item)].version + 1 else 1;
    var quantity := Quantity(t, player, item) + q;
    if Storable(quantity) && Storable(version)
    then Good(t.(stacks := t.stacks[(player, item) := Stack(quantity, version)])) else Bad
  }

  /** INSERT INTO ledger_transactions: the request id is the primary key. */
  function AddTransaction(t: Tables, request: string, reason: string): Parsed<Tables> {
    if request in t.transactions then Bad else Good(t.(transactions := t.transactions[request := reason]))
  }

  /** The two entries that move `amount` from one account to another. */
  function Pair(request: string, from: string, to: string, currency: string, amount: int): seq<Entry> {
    [Entry(request, from, currency, -amount), Entry(request, to, currency, amount)]
  }

  /** Entries of a credit (or, with a negative amount, a debit): the player first, then the system account. */
  function BalancedEntries(request: string, player: string, currency: string, amount: int): seq<Entry> {
    [Entry(request, player, currency, amount), Entry(request, SYSTEM, currency, -amount)]
  }

  // ---------------------------------------------------------------- handlers

  function WalletChange(t: Tables, d: Parsed<Definition>, player: string, e: Envelope, credit: bool): Step {
    match TextArg(e.args, "currency", "")
    case Bad => Business(t, InvalidArgument)
    case Good(currency) =>
      match AmountArg(e.args, "amount")
      case Bad => Business(t, InvalidArgument)
      case Good(amount) =>
        if d.Bad? then Fault
        else match FindCurrency(d.value.currencies, currency)
          case Bad => Business(t, UnknownCurrency(currency))
          case Good(spec) => ChangeRows(t, spec, player, currency, amount, e, credit)
  }

  function ChangeRows(t: Tables, spec: Currency, player: string, currency: string, amount: int, e: Envelope, credit: bool): Step {
    if !credit && ((player, currency) !in t.wallets || Balance(t, player, currency) < amount)
    then Business(t, InsufficientFunds)
    else
      var signed := if credit then amount else -amount;
      match AddToWallet(t, player, currency, signed)
      case Bad => Fault
      case Good(t1) =>
        var balance := Balance(t1, player, currency);
        if balance < spec.minBalance || balance > spec.maxBalance then Business(t1, CurrencyBounds)
        else match AddTransaction(t1, e.requestId, e.operation)
          case Bad => Fault
          case Good(t2) =>
            Success(t2.(entries := t2.entries + BalancedEntries(e.requestId, player, currency, signed)),
                    map["playerId" := Text(player), "currency" := Text(currency), "amount" := Number(amount),
                        "balance" := Number(balance)],
                    if credit then "wallet.credited.v1" else "wallet.debited.v1")
  }

  function WalletTransfer(t: Tables, d: Parsed<Definition>, player: string, e: Envelope): Step {
    match TransferTarget(e.args, player)
    case Bad => Business(t, InvalidArgument)
    case Good(target) =>
      match TextArg(e.args, "currency", "")
      case Bad => Business(t, InvalidArgument)
      case Good(currency) =>
        match AmountArg(e.args, "amount")
        case Bad => Business(t, InvalidArgument)
        case Good(amount) =>
          if d.Bad? then Fault
          else match FindCurrency(d.value.currencies, currency)
            case Bad => Business(t, UnknownCurrency(currency))
            case Good(spec) =>
              if (player, currency) !in t.wallets || Balance(t, player, currency) < amount
              then Business(t, InsufficientFunds)
              else
                // The program adds in int64.
                var toBalance := Int64.Wrap(Balance(t, target, currency) + amount);
                if toBalance < spec.minBalance || toBalance > spec.maxBalance then Business(t, CurrencyBounds)
                else TransferRows(t, player, target, currency, amount, toBalance, e)
  }

  function TransferRows(t: Tables, player: string, target: string, currency: string, amount: int, toBalance: int,
                        e: Envelope): Step
  {
    match AddToWallet(t, player, currency, -amount)
    case Bad => Fault
    case Good(t1) =>
      match AddToWallet(t1, target, currency, amount)
      case Bad => Fault
      case Good(t2) =>
        match AddTransaction(t2, e.requestId, e.operation)
        case Bad => Fault
        case Good(t3) =>
          Success(t3.(entries := t3.entries + Pair(e.requestId, player, target, currency, amount)),
                  map["fromPlayerId" := Text(player), "targetPlayerId" := Text(target), "currency" := Text(currency),
                      "amount" := Number(amount), "fromBalance" := Number(Balance(t, player, currency) - amount),
                      "targetBalance" := Number(toBalance)],
                  "wallet.transferred.v1")
  }

  function InventoryChange(t: Tables, d: Parsed<Definition>, player: string, e: Envelope, grant: bool): Step {
    match TextArg(e.args, "itemId", "")
    case Bad => Business(t, InvalidArgument)
    case Good(item) =>
      match AmountArg(e.args, "quantity")
      case Bad => Business(t, InvalidArgument)
      case Good(q) =>
        if d.Bad? then Fault
        else match FindItem(d.value.items, item)
          case Bad => Business(t, UnknownItem(item))
          case Good(spec) => StackRows(t, spec, player, item, q, grant)
  }

  function StackRows(t: Tables, spec: Item, player: string, item: string, q: int, grant: bool): Step {
    if !grant && ((player, item) !in t.stacks || Quantity(t, player, item) < q)
    then Business(t, InsufficientItems)
    else match AddToStack(t, player, item, if grant then q else -q)
      case Bad => Fault
      case Good(t1) =>
        var stack := t1.stacks[(player, item)];
        if stack.quantity > spec.stackLimit then Business(t1, StackLimit)
        else
          Success(t1, map["playerId" := Text(player), "itemId" := Text(item), "quantity" := Number(q),
                          "newQuantity" := Number(stack.quantity), "version" := Number(stack.version)],
                  if grant then "inventory.granted.v1" else "inventory.consumed.v1")
  }

  function InventoryTransfer(t: Tables, d: Parsed<Definition>, player: string, e: Envelope): Step {
    match TransferTarget(e.args, player)
    case Bad => Business(t, InvalidArgument)
    case Good(target) =>
      match TextArg(e.args, "itemId", "")
      case Bad => Business(t, InvalidArgument)
      case Good(item) =>
        match AmountArg(e.args, "quantity")
        case Bad => Business(t, InvalidArgument)
        case Good(q) =>
          if d.Bad? then Fault
          else match FindItem(d.value.items, item)
            case Bad => Business(t, UnknownItem(item))
            case Good(spec) =>
              if (player, item) !in t.stacks || Quantity(t, player, item) < q
              then Business(t, InsufficientItems)
              else
                var targetQuantity := Int64.Wrap(Quantity(t, target, item) + q);
                if targetQuantity > spec.stackLimit then Business(t, StackLimit)
                else StackTransferRows(t, player, target, item, q, targetQuantity)
  }

  function StackTransferRows(t: Tables, player: string, target: string, item: string, q: int, targetQuantity: int): Step {
    match AddToStack(t, player, item, -q)
    case Bad => Fault
    case Good(t1) =>
      match AddToStack(t1, target, item, q)
      case Bad => Fault
      case Good(t2) =>
        Success(t2, map["fromPlayerId" := Text(player), "targetPlayerId" := Text(target), "itemId" := Text(item),
                        "quantity" := Number(q), "fromQuantity" := Number(Quantity(t, player, item) - q),
                        "targetQuantity" := Number(targetQuantity)],
                "inventory.transferred.v1")
  }

  datatype Load = Found(reward: Reward) | NotFound(failure: Failure) | LoadFault

  function LoadReward(d: Parsed<Definition>, e: Envelope): Load {
    match TextArg(e.args, "rewardId", "")
    case Bad => NotFound(InvalidArgument)
    case Good(id) =>
      if d.Bad? then LoadFault
      else match FindReward(d.value.rewards, id)
        case Bad => NotFound(RewardNotFound(id))
        case Good(reward) => Found(reward)
  }

  predicate HasClaimed(t: Tables, player: string, reward: string) {
    exists k :: k in t.claims && k.0 == player && k.1 == reward
  }

  /** The primary key and the unique request id of a claim row. */
  predicate ClaimConflict(t: Tables, player: string, reward: string, source: string, request: string) {
    (player, reward, source) in t.claims || exists k :: k in t.claims && t.claims[k] == request
  }

  function ClaimBody(player: string, reward: string, duplicate: bool): map<string, Value> {
    map["playerId" := Text(player), "rewardId" := Text(reward), "duplicate" := Flag(duplicate)]
  }

  function GrantRequest(request: string, index: nat): string {
    request + ":reward:" + Roster.Itoa(index)
  }

  /** One grant of a reward; each currency grant has a ledger transaction of its own. */
  function GrantOne(t: Tables, request: string, player: string, g: Grant, index: nat): Step {
    if g.currency != "" then
      if g.amount < 1 then Business(t, InvalidReward)
      else match AddToWallet(t, player, g.currency, g.amount)
        case Bad => Fault
        case Good(t1) =>
          match AddTransaction(t1, GrantRequest(request, index), "reward.claim")
          case Bad => Fault
          case Good(t2) =>
            Success(t2.(entries := t2.entries + BalancedEntries(GrantRequest(request, index), player, g.currency, g.amount)), map[], "")
    else if g.item != "" then
      match AddToStack(t, player, g.item, g.quantity)
      case Bad => Fault
      case Good(t1) => Success(t1, map[], "")
    else Success(t, map[], "")
  }

  /** The first `n` grants in order, stopping at the first error. */
  function GrantFirst(t: Tables, request: string, player: string, grants: seq<Grant>, n: nat): Step
    requires n <= |grants|
  {
    if n == 0 then Success(t, map[], "")
    else match GrantFirst(t, request, player, grants, n - 1)
      case Success(t1, _, _) => GrantOne(t1, request, player, grants[n - 1], n - 1)
      case other => other
  }

  function RewardClaim(t: Tables, d: Parsed<Definition>, player: string, e: Envelope): Step {
    match LoadReward(d, e)
    case LoadFault => Fault
    case NotFound(f) => Business(t, f)
    case Found(reward) =>
      match TextArg(e.args, "sourceId", "")
      case Bad => Business(t, InvalidArgument)
      case Good(source) =>
        if (reward.oncePerPlayer && HasClaimed(t, player, reward.id))
           || ClaimConflict(t, player, reward.id, source, e.requestId)
        then Success(t, ClaimBody(player, reward.id, true), "reward.claimed.v1")
        else
          var t1 := t.(claims := t.claims[(player, reward.id, source) := e.requestId]);
          match GrantFirst(t1, e.requestId, player, reward.grants, |reward.grants|)
          case Success(t2, _, _) => Success(t2, ClaimBody(player, reward.id, false), "reward.claimed.v1")
          case other => other
  }

  function WalletGet(t: Tables, d: Parsed<Definition>, player: string, e: Envelope): Step {
    match TextArg(e.args, "currency", "")
    case Bad => Business(t, InvalidArgument)
    case Good(currency) =>
      if d.Bad? then Fault
      else match FindCurrency(d.value.currencies, currency)
        case Bad => Business(t, UnknownCurrency(currency))
        case Good(spec) =>
          var balance := Balance(t, player, currency);
          if balance < spec.minBalance || balance > spec.maxBalance then Business(t, CurrencyBounds)
          else Success(t, map["playerId" := Text(player), "currency" := Text(currency), "balance" := Number(balance)],
                       "wallet.read.v1")
  }

  function EntitlementChange(t: Tables, player: string, e: Envelope, grant: bool): Step {
    match TextArg(e.args, "entitlementId", "")
    case Bad => Business(t, InvalidArgument)
    case Good(id) =>
      var rows := if grant || (player, id) in t.entitlements then t.entitlements[(player, id) := grant] else t.entitlements;
      Success(t.(entitlements := rows), map["playerId" := Text(player), "entitlementId" := Text(id)],
              if grant then "entitlement.granted.v1" else "entitlement.revoked.v1")
  }

  function AddXP(t: Tables, player: string, e: Envelope): Step {
    match TextArg(e.args, "trackId", "default")
    case Bad => Business(t, InvalidArgument)
    case Good(track) =>
      match AmountArg(e.args, "amount")
      case Bad => Business(t, InvalidArgument)
      case Good(xp) =>
        var row := if (player, track) in t.progress then t.progress[(player, track)] else Progress(0, 1, 0);
        var total := row.xp + xp;
        if !Storable(total) || !Storable(row.version + 1) then Fault
        else
          var level := total / 100 + 1;
          Success(t.(progress := t.progress[(player, track) := Progress(total, level, row.version + 1)]),
                  map["playerId" := Text(player), "trackId" := Text(track), "amount" := Number(xp),
                      "xp" := Number(total), "level" := Number(level)], "progression.updated.v1")
  }

  function ObjectiveComplete(t: Tables, player: string, e: Envelope): Step {
    match TextArg(e.args, "objectiveId", "")
    case Bad => Business(t, InvalidArgument)
    case Good(objective) =>
      match TextArg(e.args, "sourceId", e.requestId)
      case Bad => Business(t, InvalidArgument)
      case Good(source) =>
        Success(t.(objectives := t.objectives + {(player, objective, source)}),
                map["playerId" := Text(player), "objectiveId" := Text(objective), "sourceId" := Text(source),
                    "duplicate" := Flag((player, objective, source) in t.objectives)],
                "progression.objective.completed.v1")
  }

  function ProgressionGet(t: Tables, player: string, e: Envelope): Step {
    match TextArg(e.args, "trackId", "default")
    case Bad => Business(t, InvalidArgument)
    case Good(track) =>
      var row := if (player, track) in t.progress then t.progress[(player, track)] else Progress(0, 1, 0);
      Success(t, map["playerId" := Text(player), "trackId" := Text(track), "xp" := Number(row.xp),
                     "level" := Number(row.level)], "progression.read.v1")
  }

  function RewardPreview(t: Tables, d: Parsed<Definition>, player: string, e: Envelope): Step {
    match LoadReward(d, e)
    case LoadFault => Fault
    case NotFound(f) => Business(t, f)
    case Found(reward) =>
      Success(t, map["playerId" := Text(player), "rewardId" := Text(reward.id), "oncePerPlayer" := Flag(reward.oncePerPlayer)],
              "reward.previewed.v1")
  }

  datatype Operation = WalletRead | Credit | Debit | Transfer | InventoryList | ItemGrant | ItemConsume | ItemTransfer
                     | EntitlementList | EntitlementGrant | EntitlementRevoke
                     | ProgressionRead | ProgressionAdd | Objective | Preview | Claim | Unsupported

  function OperationOf(name: string): Operation {
    match name
    case "wallet.get" => WalletRead
    case "wallet.credit" => Credit
    case "wallet.debit" => Debit
    case "wallet.transfer" => Transfer
    case "inventory.list" => InventoryList
    case "inventory.grant" => ItemGrant
    case "inventory.consume" => ItemConsume
    case "inventory.transfer" => ItemTransfer
    case "entitlement.list" => EntitlementList
    case "entitlement.grant" => EntitlementGrant
    case "entitlement.revoke" => EntitlementRevoke
    case "progression.get" => ProgressionRead
    case "progression.add_xp" => ProgressionAdd
    case "progression.complete_objective" => Objective
    case "reward.preview" => Preview
    case "reward.claim" => Claim
    case _ => Unsupported
  }

  function Dispatch(t: Tables, d: Parsed<Definition>, player: string, e: Envelope, op: Operation): Step
    requires !op.Unsupported?
  {
    match op
    case WalletRead => WalletGet(t, d, player, e)
    case Credit => WalletChange(t, d, player, e, true)
    case Debit => WalletChange(t, d, player, e, false)
    case Transfer => WalletTransfer(t, d, player, e)
    case InventoryList => Success(t, map["playerId" := Text(player)], "inventory.listed.v1")
    case ItemGrant => InventoryChange(t, d, player, e, true)
    case ItemConsume => InventoryChange(t, d, player, e, false)
    case ItemTransfer => InventoryTransfer(t, d, player, e)
    case EntitlementList => Success(t, map["playerId" := Text(player)], "entitlement.listed.v1")
    case EntitlementGrant => EntitlementChange(t, player, e, true)
    case EntitlementRevoke => EntitlementChange(t, player, e, false)
    case ProgressionRead => ProgressionGet(t, player, e)
    case ProgressionAdd => AddXP(t, player, e)
    case Objective => ObjectiveComplete(t, player, e)
    case Preview => RewardPreview(t, d, player, e)
    case Claim => RewardClaim(t, d, player, e)
  }

  function DefinitionFor(defs: Definitions, e: Envelope): Parsed<Definition> {
    if (e.gameId, e.revision) in defs then Good(defs[(e.gameId, e.revision)]) else Bad
  }

  function Rejected(e: Envelope, code: string): Result {
    Result(e.requestId, e.correlationId, "rejected", e.operation, map[], [], code)
  }

  /** The tables stay as the handler left them even when the result is a rejection. */
  function Concluded(step: Step, e: Envelope): Outcome<Tables> {
    match step
    case Fault => Failed
    case Business(t, f) => Done(t, Rejected(e, ErrorCode(f)))
    case Success(t, body, event) => Done(t, Result(e.requestId, e.correlationId, "succeeded", e.operation, body, [event], ""))
  }

  function Handle(defs: Definitions, t: Tables, e: Envelope): Outcome<Tables> {
    match ResolvePlayer(e)
    case Bad => Concluded(Business(t, InvalidArgument), e)
    case Good(player) =>
      var op := OperationOf(e.operation);
      if op.Unsupported? then Done(t, Rejected(e, "UNSUPPORTED_OPERATION"))
      else Concluded(Dispatch(t, DefinitionFor(defs, e), player, e, op), e)
  }
}
