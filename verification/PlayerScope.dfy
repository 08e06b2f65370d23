/** What a command can do to players it does not act for. */
module PlayerScope {
  import opened Commands
  import opened CommandArguments
  import opened CommandStore
  import opened Economy
  import opened Frames
  import opened Ledger
  import BalanceBounds
  import Int64

  type Key = (string, string)

  /** No balance or stack of `q` falls. */
  ghost predicate Spares(t: Tables, t': Tables, q: string) {
    && (forall c :: Balance(t', q, c) >= Balance(t, q, c))
    && (forall i :: Quantity(t', q, i) >= Quantity(t, q, i))
  }

  /** Claims, entitlements, experience and objectives of `q` stay as they are. */
  ghost predicate LeavesProfile(t: Tables, t': Tables, q: string) {
    && (forall r, s :: var k := (q, r, s); (k in t'.claims <==> k in t.claims) && (k in t.claims ==> t'.claims[k] == t.claims[k]))
    && (forall i :: var k := (q, i); (k in t'.entitlements <==> k in t.entitlements) && (k in t.entitlements ==> t'.entitlements[k] == t.entitlements[k]))
    && (forall i :: var k := (q, i); (k in t'.progress <==> k in t.progress) && (k in t.progress ==> t'.progress[k] == t.progress[k]))
    && (forall o, s :: (q, o, s) in t'.objectives <==> (q, o, s) in t.objectives)
  }

  lemma ChangeSpares(t: Tables, d: Parsed<Definition>, p: string, e: Envelope, credit: bool, q: string)
    requires q != p && !WalletChange(t, d, p, e, credit).Fault?
    ensures Spares(t, WalletChange(t, d, p, e, credit).tables, q)
  {
    ChangeFrame(t, d, p, e, credit);
    if TextArg(e.args, "currency", "").Good? && AmountArg(e.args, "amount").Good? && d.Good? {
      var c, amount := TextArg(e.args, "currency", "").value, AmountArg(e.args, "amount").value;
      var found := FindCurrency(d.value.currencies, c);
      if found.Good? { BalanceBounds.ChangeEnds(t, found.value, p, c, amount, e, credit); }
    }
  }

  lemma TransferSpares(t: Tables, d: Parsed<Definition>, p: string, e: Envelope, q: string)
    requires q != p && !WalletTransfer(t, d, p, e).Fault?
    ensures Spares(t, WalletTransfer(t, d, p, e).tables, q)
  {
    TransferFrame(t, d, p, e);
    if WalletTransfer(t, d, p, e).Success? {
      var target, c, amount := TransferTarget(e.args, p).value, TextArg(e.args, "currency", "").value, AmountArg(e.args, "amount").value;
      BalanceBounds.TransferMoves(t, p, target, c, amount, Int64.Wrap(Balance(t, target, c) + amount), e);
    }
  }

  lemma StackRowsSpare(t: Tables, spec: Item, p: string, item: string, n: int, grant: bool, q: string)
    requires q != p && !StackRows(t, spec, p, item, n, grant).Fault?
    ensures forall i :: Quantity(StackRows(t, spec, p, item, n, grant).tables, q, i) == Quantity(t, q, i)
  {}

  lemma ItemsSpare(t: Tables, d: Parsed<Definition>, p: string, e: Envelope, grant: bool, q: string)
    requires q != p && !InventoryChange(t, d, p, e, grant).Fault?
    ensures Spares(t, InventoryChange(t, d, p, e, grant).tables, q)
  {
    ItemChangeFrame(t, d, p, e, grant);
    if TextArg(e.args, "itemId", "").Good? && AmountArg(e.args, "quantity").Good? && d.Good? {
      var item, n := TextArg(e.args, "itemId", "").value, AmountArg(e.args, "quantity").value;
      var found := FindItem(d.value.items, item);
      if found.Good? && !StackRows(t, found.value, p, item, n, grant).Fault? { StackRowsSpare(t, found.value, p, item, n, grant, q); }
    }
  }

  lemma StackTransferSpares(t: Tables, p: string, target: string, item: string, n: int, sum: int, q: string)
    requires q != p && p != target && n >= 1 && StackTransferRows(t, p, target, item, n, sum).Success?
    ensures forall i :: Quantity(StackTransferRows(t, p, target, item, n, sum).tables, q, i) >= Quantity(t, q, i)
  {}

  lemma ItemTransferSpares(t: Tables, d: Parsed<Definition>, p: string, e: Envelope, q: string)
    requires q != p && !InventoryTransfer(t, d, p, e).Fault?
    ensures Spares(t, InventoryTransfer(t, d, p, e).tables, q)
  {
    ItemTransferFrame(t, d, p, e);
    if InventoryTransfer(t, d, p, e).Success? {
      var target, item, n := TransferTarget(e.args, p).value, TextArg(e.args, "itemId", "").value, AmountArg(e.args, "quantity").value;
      StackTransferSpares(t, p, target, item, n, Int64.Wrap(Quantity(t, target, item) + n), q);
    }
  }

  lemma {:induction false} GrantsSpare(t: Tables, request: string, p: string, grants: seq<Grant>, n: nat, q: string)
    requires q != p && n <= |grants| && !GrantFirst(t, request, p, grants, n).Fault?
    ensures Spares(t, GrantFirst(t, request, p, grants, n).tables, q)
  {
    if n > 0 {
      GrantsSpare(t, request, p, grants, n - 1, q);
    }
  }

  /** A claim adds at most a claim of the player who makes it. */
  lemma ClaimSpares(t: Tables, d: Parsed<Definition>, p: string, e: Envelope, q: string)
    requires q != p && !RewardClaim(t, d, p, e).Fault?
    ensures Spares(t, RewardClaim(t, d, p, e).tables, q) && LeavesProfile(t, RewardClaim(t, d, p, e).tables, q)
  {
    var load := LoadReward(d, e);
    if load.Found? && TextArg(e.args, "sourceId", "").Good? {
      var t1 := t.(claims := t.claims[(p, load.reward.id, TextArg(e.args, "sourceId", "").value) := e.requestId]);
      var grants := load.reward.grants;
      if !GrantFirst(t1, e.requestId, p, grants, |grants|).Fault? {
        GrantsSpare(t1, e.requestId, p, grants, |grants|, q);
        GrantsFrame(t1, e.requestId, p, grants, |grants|);
      }
    }
  }

  lemma AddXPLeaves(t: Tables, p: string, e: Envelope, q: string)
    requires q != p && !AddXP(t, p, e).Fault?
    ensures LeavesProfile(t, AddXP(t, p, e).tables, q)
  {}

  lemma ObjectiveLeaves(t: Tables, p: string, e: Envelope, q: string)
    requires q != p
    ensures LeavesProfile(t, ObjectiveComplete(t, p, e).tables, q)
  {}

  lemma EntitlementLeaves(t: Tables, p: string, e: Envelope, grant: bool, q: string)
    requires q != p
    ensures LeavesProfile(t, EntitlementChange(t, p, e, grant).tables, q)
  {}

  lemma ProfileSpares(t: Tables, d: Parsed<Definition>, p: string, e: Envelope, op: Operation, q: string)
    requires q != p && MovesProfile(op) && !Dispatch(t, d, p, e, op).Fault?
    ensures Spares(t, Dispatch(t, d, p, e, op).tables, q) && LeavesProfile(t, Dispatch(t, d, p, e, op).tables, q)
  {
    ProfileFrame(t, d, p, e, op);
    match op
    case ProgressionAdd => AddXPLeaves(t, p, e, q);
    case Objective => ObjectiveLeaves(t, p, e, q);
    case EntitlementGrant => EntitlementLeaves(t, p, e, true, q);
    case EntitlementRevoke => EntitlementLeaves(t, p, e, false, q);
  }

  lemma SameLeaves(t: Tables, t': Tables, q: string)
    requires SameProfile(t', t) && t'.claims == t.claims
    ensures LeavesProfile(t, t', q)
  {}

  lemma MoneySpares(t: Tables, d: Parsed<Definition>, p: string, e: Envelope, op: Operation, q: string)
    requires q != p && MovesMoney(op) && !Dispatch(t, d, p, e, op).Fault?
    ensures Spares(t, Dispatch(t, d, p, e, op).tables, q) && LeavesProfile(t, Dispatch(t, d, p, e, op).tables, q)
  {
    var t' := Dispatch(t, d, p, e, op).tables;
    match op
    case Credit => ChangeSpares(t, d, p, e, true, q); ChangeFrame(t, d, p, e, true); SameLeaves(t, t', q);
    case Debit => ChangeSpares(t, d, p, e, false, q); ChangeFrame(t, d, p, e, false); SameLeaves(t, t', q);
    case Transfer => TransferSpares(t, d, p, e, q); TransferFrame(t, d, p, e); SameLeaves(t, t', q);
    case Claim => ClaimSpares(t, d, p, e, q);
  }

  lemma StacksSpare(t: Tables, d: Parsed<Definition>, p: string, e: Envelope, op: Operation, q: string)
    requires q != p && MovesItems(op) && !Dispatch(t, d, p, e, op).Fault?
    ensures Spares(t, Dispatch(t, d, p, e, op).tables, q) && LeavesProfile(t, Dispatch(t, d, p, e, op).tables, q)
  {
    ItemsFrame(t, d, p, e, op);
    SameLeaves(t, Dispatch(t, d, p, e, op).tables, q);
    match op
    case ItemGrant => ItemsSpare(t, d, p, e, true, q);
    case ItemConsume => ItemsSpare(t, d, p, e, false, q);
    case ItemTransfer => ItemTransferSpares(t, d, p, e, q);
  }

  lemma DispatchSpares(t: Tables, d: Parsed<Definition>, p: string, e: Envelope, op: Operation, q: string)
    requires q != p && !op.Unsupported? && !Dispatch(t, d, p, e, op).Fault?
    ensures Spares(t, Dispatch(t, d, p, e, op).tables, q) && LeavesProfile(t, Dispatch(t, d, p, e, op).tables, q)
  {
    if MovesMoney(op) {
      MoneySpares(t, d, p, e, op, q);
    } else if MovesItems(op) {
      StacksSpare(t, d, p, e, op, q);
    } else if MovesProfile(op) {
      ProfileSpares(t, d, p, e, op, q);
    } else {
      OthersFrame(t, d, p, e, op);
    }
  }

  /** MAIN RESULT. A command takes nothing from a player it does not act for, and leaves his claims, entitlements,
      experience and objectives alone; a player's command acts for nobody else. */
  lemma OthersAreSpared(defs: Definitions, t: Tables, e: Envelope, q: string)
    requires Handle(defs, t, e).Done? && !ActsFor(e, q)
    ensures Spares(t, Handle(defs, t, e).state, q) && LeavesProfile(t, Handle(defs, t, e).state, q)
  {
    var op := OperationOf(e.operation);
    if ResolvePlayer(e).Good? && !op.Unsupported? {
      var p := ResolvePlayer(e).value;
      ActsForIff(e, q);
      DispatchSpares(t, DefinitionFor(defs, e), p, e, op, q);
    }
  }

  lemma PlayersTouchThemselves(defs: Definitions, t: Tables, e: Envelope, q: string)
    requires Handle(defs, t, e).Done? && e.actorType == "player" && q != e.actorId
    ensures Spares(t, Handle(defs, t, e).state, q) && LeavesProfile(t, Handle(defs, t, e).state, q)
  {
    OthersAreSpared(defs, t, e, q);
  }

  /** MAIN RESULT. In every history a balance or stack falls only at a submission that is stored now and whose command
      acts for its owner; if its actor is a player, the owner himself sent it. */
  lemma OnlyOwnersSpend(defs: Definitions, h: History, q: string)
    requires h.Then? && !Spares(TablesAfter(defs, h.past), TablesAfter(defs, h), q)
    ensures StoresNow(defs, h) && ActsFor(h.command, q)
    ensures h.command.actorType == "player" ==> h.command.actorId == q
  {
    SubmitStep(defs, h);
    if StoresNow(defs, h) && !ActsFor(h.command, q) {
      OthersAreSpared(defs, TablesAfter(defs, h.past), h.command, q);
    }
  }
}
