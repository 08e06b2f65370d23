/** What a command asks for, told from its envelope: who acts, which arguments it carries, and what its name and
revision stand for. */
module CommandArguments {
  import opened Commands
  import opened Economy
  import Int64
  import Roster

  // ---------------------------------------------------------------- arguments

  predicate TextIs(e: Envelope, key: string, v: string) { key in e.args && e.args[key] == Text(v) && !Roster.Blank(v) }

  predicate AmountIs(e: Envelope, key: string, n: int) { key in e.args && e.args[key] == Number(n) && 1 <= n <= 1_000_000_000 }

  /** An argument that may be left out for a value that is not empty. */
  predicate TextOr(e: Envelope, key: string, fallback: string, v: string) {
    if key in e.args then TextIs(e, key, v) else v == fallback != ""
  }

  /** The player the command acts for: the one it names, or its actor; a player may name nobody else. */
  predicate ActsFor(e: Envelope, p: string) { TextOr(e, "playerId", e.actorId, p) && (e.actorType == "player" ==> p == e.actorId) }

  lemma TextIff(e: Envelope, key: string, fallback: string, v: string)
    ensures TextArg(e.args, key, fallback) == Good(v) <==> TextOr(e, key, fallback, v)
  {}

  lemma TextIsIff(e: Envelope, key: string, v: string)
    ensures TextArg(e.args, key, "") == Good(v) <==> TextIs(e, key, v)
  {
    TextIff(e, key, "", v);
  }

  lemma AmountIff(e: Envelope, key: string, n: int)
    ensures AmountArg(e.args, key) == Good(n) <==> AmountIs(e, key, n)
  {}

  lemma ActsForIff(e: Envelope, p: string)
    ensures ResolvePlayer(e) == Good(p) <==> ActsFor(e, p)
  {
    TextIff(e, "playerId", e.actorId, p);
    if ResolvePlayer(e).Bad? && TextArg(e.args, "playerId", e.actorId).Good? {
      TextIff(e, "playerId", e.actorId, TextArg(e.args, "playerId", e.actorId).value);
    }
  }

  // ---------------------------------------------------------------- answers

  predicate Stamped(r: Result, e: Envelope) { r.requestId == e.requestId && r.correlationId == e.correlationId && r.operation == e.operation }

  /** The command ends with these tables and an answer. */
  predicate Answers(o: Outcome<Tables>, e: Envelope, t: Tables) {
    o.Done? && o.state == t && o.result.status == "succeeded" && o.result.error == "" && Stamped(o.result, e)
  }

  /** The command is rejected with this code, and these tables are kept. */
  predicate Refuses(o: Outcome<Tables>, e: Envelope, t: Tables, code: string) {
    o.Done? && o.state == t && o.result.status == "rejected" && o.result.error == code && o.result.body == map[] && Stamped(o.result, e)
  }

  /** MAIN RESULT. A player's command that names another player, or an empty or malformed one, is rejected and
      changes nothing; so is any command without a player. */
  lemma StrangersAreRefused(defs: Definitions, t: Tables, e: Envelope)
    requires forall p :: !ActsFor(e, p)
    ensures Refuses(Handle(defs, t, e), e, t, "INVALID_ARGUMENT")
  {
    if ResolvePlayer(e).Good? {
      ActsForIff(e, ResolvePlayer(e).value);
    }
  }

  lemma PlayersActForThemselves(defs: Definitions, t: Tables, e: Envelope)
    requires e.actorType == "player" && "playerId" in e.args && e.args["playerId"] != Text(e.actorId)
    ensures Refuses(Handle(defs, t, e), e, t, "INVALID_ARGUMENT")
  {
    StrangersAreRefused(defs, t, e);
  }

  // ---------------------------------------------------------------- names of operations

  const NAMES: set<string> := {"wallet.get", "wallet.credit", "wallet.debit", "wallet.transfer", "inventory.list", "inventory.grant",
                               "inventory.consume", "inventory.transfer", "entitlement.list", "entitlement.grant", "entitlement.revoke",
                               "progression.get", "progression.add_xp", "progression.complete_objective", "reward.preview", "reward.claim"}

  lemma MoneyNames()
    ensures OperationOf("wallet.get") == WalletRead && OperationOf("wallet.credit") == Credit && OperationOf("wallet.debit") == Debit
    ensures OperationOf("wallet.transfer") == Transfer && OperationOf("reward.preview") == Preview && OperationOf("reward.claim") == Claim
  {}

  lemma ItemNames()
    ensures OperationOf("inventory.list") == InventoryList && OperationOf("inventory.grant") == ItemGrant
    ensures OperationOf("inventory.consume") == ItemConsume && OperationOf("inventory.transfer") == ItemTransfer
  {}

  lemma ProfileNames()
    ensures OperationOf("entitlement.list") == EntitlementList && OperationOf("entitlement.grant") == EntitlementGrant
    ensures OperationOf("entitlement.revoke") == EntitlementRevoke && OperationOf("progression.get") == ProgressionRead
    ensures OperationOf("progression.add_xp") == ProgressionAdd && OperationOf("progression.complete_objective") == Objective
  {}

  /** Exactly the other names are unsupported. */
  lemma UnsupportedIff(defs: Definitions, t: Tables, e: Envelope, p: string)
    requires ActsFor(e, p)
    ensures e.operation !in NAMES ==> Refuses(Handle(defs, t, e), e, t, "UNSUPPORTED_OPERATION")
    ensures e.operation in NAMES ==> !OperationOf(e.operation).Unsupported?
  {
    ActsForIff(e, p);
    MoneyNames();
    ItemNames();
    ProfileNames();
  }

  /** A supported command is what its operation makes of the tables. */
  lemma HandleIs(defs: Definitions, t: Tables, e: Envelope, p: string, op: Operation)
    requires ActsFor(e, p) && OperationOf(e.operation) == op && !op.Unsupported?
    ensures Handle(defs, t, e) == Concluded(Dispatch(t, DefinitionFor(defs, e), p, e, op), e)
  {
    ActsForIff(e, p);
  }

  // ---------------------------------------------------------------- definitions

  predicate Defined(defs: Definitions, e: Envelope, d: Definition) { (e.gameId, e.revision) in defs && defs[(e.gameId, e.revision)] == d }

  /** The first entry of that id. */
  predicate FirstCurrency(cs: seq<Currency>, k: nat, id: string) { k < |cs| && cs[k].id == id && forall j :: 0 <= j < k ==> cs[j].id != id }

  predicate FirstItem(items: seq<Item>, k: nat, id: string) { k < |items| && items[k].id == id && forall j :: 0 <= j < k ==> items[j].id != id }

  predicate FirstReward(rewards: seq<Reward>, k: nat, id: string) { k < |rewards| && rewards[k].id == id && forall j :: 0 <= j < k ==> rewards[j].id != id }

  lemma {:induction false} CurrencyFound(cs: seq<Currency>, k: nat, id: string)
    requires FirstCurrency(cs, k, id)
    ensures FindCurrency(cs, id) == Good(cs[k])
  {
    if k > 0 {
      assert forall j :: 0 < j < |cs| ==> cs[j] == cs[1..][j - 1];
      CurrencyFound(cs[1..], k - 1, id);
    }
  }

  lemma {:induction false} ItemFound(items: seq<Item>, k: nat, id: string)
    requires FirstItem(items, k, id)
    ensures FindItem(items, id) == Good(items[k])
  {
    if k > 0 {
      assert forall j :: 0 < j < |items| ==> items[j] == items[1..][j - 1];
      ItemFound(items[1..], k - 1, id);
    }
  }

  lemma {:induction false} RewardFound(rewards: seq<Reward>, k: nat, id: string)
    requires FirstReward(rewards, k, id)
    ensures FindReward(rewards, id) == Good(rewards[k])
  {
    if k > 0 {
      assert forall j :: 0 < j < |rewards| ==> rewards[j] == rewards[1..][j - 1];
      RewardFound(rewards[1..], k - 1, id);
    }
  }

  // ---------------------------------------------------------------- malformed commands

  predicate HasText(e: Envelope, key: string) { key in e.args && e.args[key].Text? && !Roster.Blank(e.args[key].text) }

  predicate HasAmount(e: Envelope, key: string) { key in e.args && e.args[key].Number? && 1 <= e.args[key].number <= 1_000_000_000 }

  /** A target other than the player himself. */
  predicate HasTarget(e: Envelope, p: string) { HasText(e, "targetPlayerId") && e.args["targetPlayerId"].text != p }

  predicate MayHaveText(e: Envelope, key: string, fallback: string) { if key in e.args then HasText(e, key) else fallback != "" }

  /** The arguments that are looked at before any definition. */
  predicate WellFormed(e: Envelope, p: string) {
    match OperationOf(e.operation)
    case WalletRead => HasText(e, "currency")
    case Credit => HasText(e, "currency") && HasAmount(e, "amount")
    case Debit => HasText(e, "currency") && HasAmount(e, "amount")
    case Transfer => HasTarget(e, p) && HasText(e, "currency") && HasAmount(e, "amount")
    case ItemGrant => HasText(e, "itemId") && HasAmount(e, "quantity")
    case ItemConsume => HasText(e, "itemId") && HasAmount(e, "quantity")
    case ItemTransfer => HasTarget(e, p) && HasText(e, "itemId") && HasAmount(e, "quantity")
    case EntitlementGrant => HasText(e, "entitlementId")
    case EntitlementRevoke => HasText(e, "entitlementId")
    case ProgressionRead => MayHaveText(e, "trackId", "default")
    case ProgressionAdd => MayHaveText(e, "trackId", "default") && HasAmount(e, "amount")
    case Objective => HasText(e, "objectiveId") && MayHaveText(e, "sourceId", e.requestId)
    case Preview => HasText(e, "rewardId")
    case Claim => HasText(e, "rewardId")
    case _ => true
  }

  lemma HasTextIff(e: Envelope, key: string, fallback: string)
    ensures TextArg(e.args, key, fallback).Good? <==> MayHaveText(e, key, fallback)
    ensures TextArg(e.args, key, "").Good? <==> HasText(e, key)
  {}

  lemma HasAmountIff(e: Envelope, key: string)
    ensures AmountArg(e.args, key).Good? <==> HasAmount(e, key)
  {}

  lemma HasTargetIff(e: Envelope, p: string)
    ensures TransferTarget(e.args, p).Good? <==> HasTarget(e, p)
  {}

  /** A supported command with a missing or malformed argument is rejected and changes nothing, whatever is defined. */
  lemma MalformedIsRefused(defs: Definitions, t: Tables, e: Envelope, p: string)
    requires ActsFor(e, p) && e.operation in NAMES && !WellFormed(e, p)
    ensures Refuses(Handle(defs, t, e), e, t, "INVALID_ARGUMENT")
  {
    var op, d := OperationOf(e.operation), DefinitionFor(defs, e);
    UnsupportedIff(defs, t, e, p);
    HandleIs(defs, t, e, p, op);
    MalformedIsBusiness(t, d, e, p, op);
  }

  lemma MalformedIsBusiness(t: Tables, d: Parsed<Definition>, e: Envelope, p: string, op: Operation)
    requires op == OperationOf(e.operation) && !op.Unsupported? && !WellFormed(e, p)
    ensures Dispatch(t, d, p, e, op) == Business(t, InvalidArgument)
  {
    HasTargetIff(e, p);
    HasTextIff(e, "currency", "");
    HasTextIff(e, "itemId", "");
    HasTextIff(e, "entitlementId", "");
    HasTextIff(e, "trackId", "default");
    HasTextIff(e, "objectiveId", "");
    HasTextIff(e, "sourceId", e.requestId);
    HasTextIff(e, "rewardId", "");
    HasAmountIff(e, "amount");
    HasAmountIff(e, "quantity");
  }
}
