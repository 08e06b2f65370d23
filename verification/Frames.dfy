/** Which tables each kind of command leaves alone. */
module Frames {
  import opened Commands
  import opened Economy
  import Int64

  predicate MovesMoney(op: Operation) { op.Credit? || op.Debit? || op.Transfer? || op.Claim? }

  predicate MovesItems(op: Operation) { op.ItemGrant? || op.ItemConsume? || op.ItemTransfer? }

  predicate MovesProfile(op: Operation) { op.ProgressionAdd? || op.Objective? || op.EntitlementGrant? || op.EntitlementRevoke? }

  predicate SameMoney(a: Tables, b: Tables) { a.wallets == b.wallets && a.entries == b.entries }

  predicate SameProfile(a: Tables, b: Tables) {
    a.progress == b.progress && a.objectives == b.objectives && a.entitlements == b.entitlements
  }

  /** Only wallets, ledger transactions and entries differ. */
  predicate OnlyMoney(a: Tables, b: Tables) { a.stacks == b.stacks && a.claims == b.claims && SameProfile(a, b) }

  predicate OnlyItems(a: Tables, b: Tables) { SameMoney(a, b) && a.claims == b.claims && SameProfile(a, b) }

  predicate OnlyProfile(a: Tables, b: Tables) { SameMoney(a, b) && a.claims == b.claims && a.stacks == b.stacks }

  lemma ChangeRowsFrame(t: Tables, spec: Currency, player: string, currency: string, amount: int, e: Envelope, credit: bool)
    requires !ChangeRows(t, spec, player, currency, amount, e, credit).Fault?
    ensures OnlyMoney(ChangeRows(t, spec, player, currency, amount, e, credit).tables, t)
  {}

  lemma ChangeFrame(t: Tables, d: Parsed<Definition>, player: string, e: Envelope, credit: bool)
    requires !WalletChange(t, d, player, e, credit).Fault?
    ensures OnlyMoney(WalletChange(t, d, player, e, credit).tables, t)
  {
    if TextArg(e.args, "currency", "").Good? && AmountArg(e.args, "amount").Good? && d.Good? {
      var currency, amount := TextArg(e.args, "currency", "").value, AmountArg(e.args, "amount").value;
      var found := FindCurrency(d.value.currencies, currency);
      if found.Good? && !ChangeRows(t, found.value, player, currency, amount, e, credit).Fault? {
        ChangeRowsFrame(t, found.value, player, currency, amount, e, credit);
      }
    }
  }

  lemma TransferRowsFrame(t: Tables, player: string, target: string, currency: string, amount: int, toBalance: int, e: Envelope)
    requires TransferRows(t, player, target, currency, amount, toBalance, e).Success?
    ensures OnlyMoney(TransferRows(t, player, target, currency, amount, toBalance, e).tables, t)
  {}

  lemma TransferFrame(t: Tables, d: Parsed<Definition>, player: string, e: Envelope)
    requires !WalletTransfer(t, d, player, e).Fault?
    ensures OnlyMoney(WalletTransfer(t, d, player, e).tables, t)
  {
    if WalletTransfer(t, d, player, e).Success? {
      var target, currency, amount := TransferTarget(e.args, player).value, TextArg(e.args, "currency", "").value, AmountArg(e.args, "amount").value;
      TransferRowsFrame(t, player, target, currency, amount, Int64.Wrap(Balance(t, target, currency) + amount), e);
    }
  }

  lemma StackRowsFrame(t: Tables, spec: Item, player: string, item: string, q: int, grant: bool)
    requires !StackRows(t, spec, player, item, q, grant).Fault?
    ensures OnlyItems(StackRows(t, spec, player, item, q, grant).tables, t)
  {}

  lemma ItemChangeFrame(t: Tables, d: Parsed<Definition>, player: string, e: Envelope, grant: bool)
    requires !InventoryChange(t, d, player, e, grant).Fault?
    ensures OnlyItems(InventoryChange(t, d, player, e, grant).tables, t)
  {
    if TextArg(e.args, "itemId", "").Good? && AmountArg(e.args, "quantity").Good? && d.Good? {
      var item, q := TextArg(e.args, "itemId", "").value, AmountArg(e.args, "quantity").value;
      var found := FindItem(d.value.items, item);
      if found.Good? && !StackRows(t, found.value, player, item, q, grant).Fault? {
        StackRowsFrame(t, found.value, player, item, q, grant);
      }
    }
  }

  lemma StackTransferFrame(t: Tables, player: string, target: string, item: string, q: int, targetQuantity: int)
    requires StackTransferRows(t, player, target, item, q, targetQuantity).Success?
    ensures OnlyItems(StackTransferRows(t, player, target, item, q, targetQuantity).tables, t)
  {}

  lemma ItemTransferFrame(t: Tables, d: Parsed<Definition>, player: string, e: Envelope)
    requires !InventoryTransfer(t, d, player, e).Fault?
    ensures OnlyItems(InventoryTransfer(t, d, player, e).tables, t)
  {
    if InventoryTransfer(t, d, player, e).Success? {
      var target, item, q := TransferTarget(e.args, player).value, TextArg(e.args, "itemId", "").value, AmountArg(e.args, "quantity").value;
      StackTransferFrame(t, player, target, item, q, Int64.Wrap(Quantity(t, target, item) + q));
    }
  }

  lemma ItemsFrame(t: Tables, d: Parsed<Definition>, player: string, e: Envelope, op: Operation)
    requires MovesItems(op) && !Dispatch(t, d, player, e, op).Fault?
    ensures OnlyItems(Dispatch(t, d, player, e, op).tables, t)
  {
    match op
    case ItemGrant => ItemChangeFrame(t, d, player, e, true);
    case ItemConsume => ItemChangeFrame(t, d, player, e, false);
    case ItemTransfer => ItemTransferFrame(t, d, player, e);
  }

  lemma {:induction false} GrantsFrame(t: Tables, request: string, player: string, grants: seq<Grant>, n: nat)
    requires n <= |grants| && !GrantFirst(t, request, player, grants, n).Fault?
    ensures var t' := GrantFirst(t, request, player, grants, n).tables; SameProfile(t', t) && t'.claims == t.claims
  {
    if n > 0 {
      GrantsFrame(t, request, player, grants, n - 1);
    }
  }

  /** A claim adds at most its own claim row. */
  lemma ClaimFrame(t: Tables, d: Parsed<Definition>, player: string, e: Envelope)
    requires !RewardClaim(t, d, player, e).Fault?
    ensures var t' := RewardClaim(t, d, player, e).tables;
            SameProfile(t', t) && forall k :: k in t.claims ==> k in t'.claims && t'.claims[k] == t.claims[k]
  {
    var load := LoadReward(d, e);
    if load.Found? && TextArg(e.args, "sourceId", "").Good? {
      var t1 := t.(claims := t.claims[(player, load.reward.id, TextArg(e.args, "sourceId", "").value) := e.requestId]);
      var grants := load.reward.grants;
      if !GrantFirst(t1, e.requestId, player, grants, |grants|).Fault? {
        GrantsFrame(t1, e.requestId, player, grants, |grants|);
      }
    }
  }

  predicate OnlyReads(op: Operation) { op.WalletRead? || op.InventoryList? || op.EntitlementList? || op.ProgressionRead? || op.Preview? }

  lemma ReadsFrame(t: Tables, d: Parsed<Definition>, player: string, e: Envelope, op: Operation)
    requires OnlyReads(op) && !Dispatch(t, d, player, e, op).Fault?
    ensures Dispatch(t, d, player, e, op).tables == t
  {}

  lemma ProfileFrame(t: Tables, d: Parsed<Definition>, player: string, e: Envelope, op: Operation)
    requires MovesProfile(op) && !Dispatch(t, d, player, e, op).Fault?
    ensures OnlyProfile(Dispatch(t, d, player, e, op).tables, t)
  {
    match op
    case ProgressionAdd => AddXPFrame(t, player, e);
    case Objective => ObjectiveFrame(t, player, e);
    case EntitlementGrant => EntitlementFrame(t, player, e, true);
    case EntitlementRevoke => EntitlementFrame(t, player, e, false);
  }

  lemma AddXPFrame(t: Tables, player: string, e: Envelope)
    requires !AddXP(t, player, e).Fault?
    ensures OnlyProfile(AddXP(t, player, e).tables, t)
  {}

  lemma ObjectiveFrame(t: Tables, player: string, e: Envelope)
    ensures OnlyProfile(ObjectiveComplete(t, player, e).tables, t)
  {}

  lemma EntitlementFrame(t: Tables, player: string, e: Envelope, grant: bool)
    ensures OnlyProfile(EntitlementChange(t, player, e, grant).tables, t)
  {}

  /** The remaining operations read, or change a player's profile. */
  lemma OthersFrame(t: Tables, d: Parsed<Definition>, player: string, e: Envelope, op: Operation)
    requires !op.Unsupported? && !MovesMoney(op) && !MovesItems(op) && !Dispatch(t, d, player, e, op).Fault?
    ensures OnlyProfile(Dispatch(t, d, player, e, op).tables, t)
    ensures !MovesProfile(op) ==> Dispatch(t, d, player, e, op).tables == t
  {
    if MovesProfile(op) { ProfileFrame(t, d, player, e, op); } else { ReadsFrame(t, d, player, e, op); }
  }

  lemma OthersKeepMoney(t: Tables, d: Parsed<Definition>, player: string, e: Envelope, op: Operation)
    requires !op.Unsupported? && !MovesMoney(op) && !Dispatch(t, d, player, e, op).Fault?
    ensures SameMoney(Dispatch(t, d, player, e, op).tables, t)
  {
    if MovesItems(op) { ItemsFrame(t, d, player, e, op); } else { OthersFrame(t, d, player, e, op); }
  }

  lemma OthersKeepProfile(t: Tables, d: Parsed<Definition>, player: string, e: Envelope, op: Operation)
    requires !op.Unsupported? && !MovesProfile(op) && !Dispatch(t, d, player, e, op).Fault?
    ensures SameProfile(Dispatch(t, d, player, e, op).tables, t)
  {
    if MovesItems(op) {
      ItemsFrame(t, d, player, e, op);
    } else if MovesMoney(op) {
      MoneyKeepsProfile(t, d, player, e, op);
    } else {
      OthersFrame(t, d, player, e, op);
    }
  }

  lemma MoneyKeepsProfile(t: Tables, d: Parsed<Definition>, player: string, e: Envelope, op: Operation)
    requires MovesMoney(op) && !Dispatch(t, d, player, e, op).Fault?
    ensures SameProfile(Dispatch(t, d, player, e, op).tables, t)
  {
    match op
    case Credit => ChangeFrame(t, d, player, e, true);
    case Debit => ChangeFrame(t, d, player, e, false);
    case Transfer => TransferFrame(t, d, player, e);
    case Claim => ClaimFrame(t, d, player, e);
  }

  /** No command removes or changes a claim. */
  lemma DispatchKeepsClaims(t: Tables, d: Parsed<Definition>, player: string, e: Envelope, op: Operation)
    requires !op.Unsupported? && !Dispatch(t, d, player, e, op).Fault?
    ensures var t' := Dispatch(t, d, player, e, op).tables;
            forall k :: k in t.claims ==> k in t'.claims && t'.claims[k] == t.claims[k]
  {
    match op
    case Credit => ChangeFrame(t, d, player, e, true);
    case Debit => ChangeFrame(t, d, player, e, false);
    case Transfer => TransferFrame(t, d, player, e);
    case Claim => ClaimFrame(t, d, player, e);
    case _ => if MovesItems(op) { ItemsFrame(t, d, player, e, op); } else { OthersFrame(t, d, player, e, op); }
  }
}
