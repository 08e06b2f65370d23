/** When a balance leaves the bounds of its currency, and when it drifts from the ledger. */
module BalanceBounds {
  import opened Commands
  import opened Economy
  import opened Frames
  import opened CommandStore
  import opened Ledger
  import Conservation
  import Int64
  import Roster

  predicate InBounds(spec: Currency, balance: int) { spec.minBalance <= balance <= spec.maxBalance }

  // ---------------------------------------------------------------- drift, told before the command

  function Signed(amount: int, credit: bool): int { if credit then amount else -amount }

  /** The change can be made: a credit always, a debit when the player has the amount. */
  predicate Funded(t: Tables, player: string, currency: string, amount: int, credit: bool) {
    credit || ((player, currency) in t.wallets && Balance(t, player, currency) >= amount)
  }

  /** How a credit or debit ends, by what can be checked before it. */
  lemma ChangeEnds(t: Tables, spec: Currency, player: string, currency: string, amount: int, e: Envelope, credit: bool)
    ensures var s, balance := ChangeRows(t, spec, player, currency, amount, e, credit), Balance(t, player, currency) + Signed(amount, credit);
            && (s.Fault? <==> Funded(t, player, currency, amount, credit)
                              && (!Storable(balance) || (InBounds(spec, balance) && e.requestId in t.transactions)))
            && (s.Business? && s.failure.CurrencyBounds? <==>
                  Funded(t, player, currency, amount, credit) && Storable(balance) && !InBounds(spec, balance))
            && (s.Business? && !s.failure.CurrencyBounds? <==> !Funded(t, player, currency, amount, credit))
            && (Funded(t, player, currency, amount, credit) && !s.Fault? ==> s.tables.wallets == t.wallets[(player, currency) := balance])
            && (!Funded(t, player, currency, amount, credit) ==> !s.Fault? && s.tables == t)
            && (s.Success? ==> s.tables.transactions == t.transactions[e.requestId := e.operation])
            && (s.Business? ==> s.tables.transactions == t.transactions)
  {}

  /** The command is a credit or debit that can be made but takes the wallet out of bounds. */
  predicate Overruns(defs: Definitions, t: Tables, e: Envelope, p: string, c: string) {
    var op, d := OperationOf(e.operation), DefinitionFor(defs, e);
    && (op.Credit? || op.Debit?) && ResolvePlayer(e) == Good(p) && TextArg(e.args, "currency", "") == Good(c)
    && AmountArg(e.args, "amount").Good? && d.Good? && FindCurrency(d.value.currencies, c).Good?
    && var amount := AmountArg(e.args, "amount").value;
       Funded(t, p, c, amount, op.Credit?) && !InBounds(FindCurrency(d.value.currencies, c).value, Balance(t, p, c) + Signed(amount, op.Credit?))
  }

  lemma BoundsRefusedIff(t: Tables, d: Parsed<Definition>, player: string, e: Envelope, credit: bool)
    requires !WalletChange(t, d, player, e, credit).Fault?
    ensures var s := WalletChange(t, d, player, e, credit);
            s.Business? && s.failure.CurrencyBounds? <==>
              && TextArg(e.args, "currency", "").Good? && AmountArg(e.args, "amount").Good? && d.Good?
              && var c, amount := TextArg(e.args, "currency", "").value, AmountArg(e.args, "amount").value;
                 && FindCurrency(d.value.currencies, c).Good? && Funded(t, player, c, amount, credit)
                 && !InBounds(FindCurrency(d.value.currencies, c).value, Balance(t, player, c) + Signed(amount, credit))
  {
    if TextArg(e.args, "currency", "").Good? && AmountArg(e.args, "amount").Good? && d.Good? {
      var c, amount := TextArg(e.args, "currency", "").value, AmountArg(e.args, "amount").value;
      var found := FindCurrency(d.value.currencies, c);
      if found.Good? { ChangeEnds(t, found.value, player, c, amount, e, credit); }
    }
  }

  lemma ChangeDriftsIff(defs: Definitions, t: Tables, player: string, e: Envelope, p: string, c: string)
    requires ResolvePlayer(e) == Good(player) && (OperationOf(e.operation).Credit? || OperationOf(e.operation).Debit?)
    requires !WalletChange(t, DefinitionFor(defs, e), player, e, OperationOf(e.operation).Credit?).Fault?
    ensures var op := OperationOf(e.operation);
            StepDrift(WalletChange(t, DefinitionFor(defs, e), player, e, op.Credit?), op, player, e, p, c) != 0 <==> Overruns(defs, t, e, p, c)
  {
    BoundsRefusedIff(t, DefinitionFor(defs, e), player, e, OperationOf(e.operation).Credit?);
  }

  /** MAIN RESULT. A command changes the gap between a wallet and its ledger exactly when it is a credit or
      debit of that wallet that can be made and takes it out of the bounds of its revision. */
  lemma CommandDriftsIff(defs: Definitions, t: Tables, e: Envelope, p: string, c: string)
    requires p != SYSTEM && Handle(defs, t, e).Done?
    ensures Gap(Handle(defs, t, e).state, p, c) != Gap(t, p, c) <==> Overruns(defs, t, e, p, c)
  {
    var op, d := OperationOf(e.operation), DefinitionFor(defs, e);
    if ResolvePlayer(e).Good? && !op.Unsupported? {
      var player := ResolvePlayer(e).value;
      DispatchGap(t, d, player, e, op, p, c);
      if op.Credit? || op.Debit? { ChangeDriftsIff(defs, t, player, e, p, c); }
    }
  }

  /** So a submission moves the drift of an account exactly when it is the one whose result is stored and its
      command overruns the wallet as it finds it. */
  lemma DriftsNowIff(defs: Definitions, h: History, p: string, c: string)
    requires h.Then? && p != SYSTEM
    ensures Drift(defs, h, p, c) != Drift(defs, h.past, p, c) <==> StoresNow(defs, h) && Overruns(defs, TablesAfter(defs, h.past), h.command, p, c)
  {
    GapIsDrift(defs, h, p, c);
    GapIsDrift(defs, h.past, p, c);
    SubmitStep(defs, h);
    if StoresNow(defs, h) { CommandDriftsIff(defs, TablesAfter(defs, h.past), h.command, p, c); }
  }

  // ---------------------------------------------------------------- what takes a balance out of bounds

  predicate Outside(t: Tables, p: string, c: string, spec: Currency) { (p, c) in t.wallets && !InBounds(spec, t.wallets[(p, c)]) }

  predicate SameRow(a: Tables, b: Tables, k: (string, string)) {
    (k in a.wallets <==> k in b.wallets) && (k in a.wallets ==> a.wallets[k] == b.wallets[k])
  }

  lemma {:induction false} GrantsTouchPlayer(t: Tables, request: string, player: string, grants: seq<Grant>, n: nat, k: (string, string))
    requires n <= |grants| && k.0 != player && !GrantFirst(t, request, player, grants, n).Fault?
    ensures SameRow(GrantFirst(t, request, player, grants, n).tables, t, k)
  {
    if n > 0 {
      GrantsTouchPlayer(t, request, player, grants, n - 1, k);
    }
  }

  lemma ClaimTouchesPlayer(t: Tables, d: Parsed<Definition>, player: string, e: Envelope, k: (string, string))
    requires k.0 != player && !RewardClaim(t, d, player, e).Fault?
    ensures SameRow(RewardClaim(t, d, player, e).tables, t, k)
  {
    var load := LoadReward(d, e);
    if load.Found? && TextArg(e.args, "sourceId", "").Good? {
      var t1 := t.(claims := t.claims[(player, load.reward.id, TextArg(e.args, "sourceId", "").value) := e.requestId]);
      var grants := load.reward.grants;
      if !GrantFirst(t1, e.requestId, player, grants, |grants|).Fault? {
        GrantsTouchPlayer(t1, e.requestId, player, grants, |grants|, k);
      }
    }
  }

  /** A change takes a wallet out of bounds exactly when it is its own and the change is refused for it. */
  lemma ChangeLeavesIff(t: Tables, d: Parsed<Definition>, player: string, e: Envelope, credit: bool, p: string, c: string, spec: Currency)
    requires !WalletChange(t, d, player, e, credit).Fault? && d.Good? && FindCurrency(d.value.currencies, c) == Good(spec)
    requires !Outside(t, p, c, spec)
    ensures var s := WalletChange(t, d, player, e, credit);
            Outside(s.tables, p, c, spec) <==> s.Business? && s.failure.CurrencyBounds? && p == player && TextArg(e.args, "currency", "") == Good(c)
  {
    if TextArg(e.args, "currency", "").Good? && AmountArg(e.args, "amount").Good? {
      var currency, amount := TextArg(e.args, "currency", "").value, AmountArg(e.args, "amount").value;
      var found := FindCurrency(d.value.currencies, currency);
      if found.Good? { ChangeEnds(t, found.value, player, currency, amount, e, credit); }
    }
  }

  /** A transfer from `p` that goes through and leaves him less than the minimum. */
  predicate Underruns(t: Tables, player: string, e: Envelope, p: string, c: string, spec: Currency) {
    && player == p && TransferTarget(e.args, player).Good? && TextArg(e.args, "currency", "") == Good(c) && AmountArg(e.args, "amount").Good?
    && var target, amount := TransferTarget(e.args, player).value, AmountArg(e.args, "amount").value;
       && (p, c) in t.wallets && Balance(t, p, c) >= amount && InBounds(spec, Int64.Wrap(Balance(t, target, c) + amount))
       && Balance(t, p, c) - amount < spec.minBalance
  }

  lemma TransferLeavesIff(t: Tables, d: Parsed<Definition>, player: string, e: Envelope, p: string, c: string, spec: Currency)
    requires Conservation.Sound(t) && !WalletTransfer(t, d, player, e).Fault? && d.Good? && FindCurrency(d.value.currencies, c) == Good(spec)
    requires !Outside(t, p, c, spec)
    ensures Outside(WalletTransfer(t, d, player, e).tables, p, c, spec) <==> Underruns(t, player, e, p, c, spec)
  {
    var s := WalletTransfer(t, d, player, e);
    if s.Success? {
      var target, currency, amount := TransferTarget(e.args, player).value, TextArg(e.args, "currency", "").value, AmountArg(e.args, "amount").value;
      Conservation.WrapRefused(Balance(t, target, currency), amount);
      TransferMoves(t, player, target, currency, amount, Int64.Wrap(Balance(t, target, currency) + amount), e);
    }
  }

  lemma TransferMoves(t: Tables, player: string, target: string, currency: string, amount: int, sum: int, e: Envelope)
    requires player != target && TransferRows(t, player, target, currency, amount, sum, e).Success?
    ensures TransferRows(t, player, target, currency, amount, sum, e).tables.wallets
         == t.wallets[(player, currency) := Balance(t, player, currency) - amount][(target, currency) := Balance(t, target, currency) + amount]
    ensures Storable(Balance(t, target, currency) + amount)
  {}

  // ---------------------------------------------------------------- what a claim pays

  predicate Payable(g: Grant) { g.currency != "" ==> g.amount >= 1 }

  /** How many of the first `n` grants are paid: those before the first that is not payable. */
  function PayableFirst(grants: seq<Grant>, n: nat): (m: nat)
    requires n <= |grants|
    ensures m <= n
  {
    if n == 0 then 0
    else if PayableFirst(grants, n - 1) == n - 1 && Payable(grants[n - 1]) then n else PayableFirst(grants, n - 1)
  }

  /** A claim stopped by a bad grant keeps what was paid before it. */
  lemma {:induction false} PaidUpTo(t: Tables, request: string, player: string, grants: seq<Grant>, n: nat)
    requires n <= |grants| && !GrantFirst(t, request, player, grants, n).Fault?
    ensures var m := PayableFirst(grants, n);
            && GrantFirst(t, request, player, grants, m).Success?
            && GrantFirst(t, request, player, grants, n).tables == GrantFirst(t, request, player, grants, m).tables
            && (GrantFirst(t, request, player, grants, n).Success? <==> m == n)
  {
    if n > 0 {
      PaidUpTo(t, request, player, grants, n - 1);
    }
  }

  /** Paid grants create the wallet exactly when they pay into it. */
  lemma {:induction false} GrantsCreate(t: Tables, request: string, player: string, grants: seq<Grant>, n: nat, c: string)
    requires n <= |grants| && c != "" && GrantFirst(t, request, player, grants, n).Success?
    ensures Conservation.Paid(grants, n, c) >= 0
    ensures (player, c) in GrantFirst(t, request, player, grants, n).tables.wallets <==> (player, c) in t.wallets || Conservation.Paid(grants, n, c) > 0
  {
    if n > 0 {
      GrantsCreate(t, request, player, grants, n - 1, c);
    }
  }

  lemma {:induction false} NamelessStays(t: Tables, request: string, player: string, grants: seq<Grant>, n: nat, p: string)
    requires n <= |grants| && !GrantFirst(t, request, player, grants, n).Fault?
    ensures SameRow(GrantFirst(t, request, player, grants, n).tables, t, (p, ""))
  {
    if n > 0 {
      NamelessStays(t, request, player, grants, n - 1, p);
    }
  }

  function PaysIn(reward: Reward, c: string): int { Conservation.Paid(reward.grants, PayableFirst(reward.grants, |reward.grants|), c) }

  /** A claim by `p` of a reward he may claim, whose paid grants take the wallet out of bounds. */
  predicate Overpays(t: Tables, d: Parsed<Definition>, player: string, e: Envelope, p: string, c: string, spec: Currency) {
    && player == p && c != "" && LoadReward(d, e).Found? && TextArg(e.args, "sourceId", "").Good?
    && var reward, source := LoadReward(d, e).reward, TextArg(e.args, "sourceId", "").value;
       && !(reward.oncePerPlayer && HasClaimed(t, p, reward.id)) && !ClaimConflict(t, p, reward.id, source, e.requestId)
       && PaysIn(reward, c) > 0 && !InBounds(spec, Balance(t, p, c) + PaysIn(reward, c))
  }

  lemma GrantsLeaveIff(t: Tables, request: string, player: string, grants: seq<Grant>, c: string, spec: Currency)
    requires c != "" && !GrantFirst(t, request, player, grants, |grants|).Fault? && !Outside(t, player, c, spec)
    ensures var paid := Conservation.Paid(grants, PayableFirst(grants, |grants|), c);
            Outside(GrantFirst(t, request, player, grants, |grants|).tables, player, c, spec) <==> paid > 0 && !InBounds(spec, Balance(t, player, c) + paid)
  {
    var m := PayableFirst(grants, |grants|);
    PaidUpTo(t, request, player, grants, |grants|);
    Conservation.GrantsPay(t, request, player, grants, m, player, c, "i");
    GrantsCreate(t, request, player, grants, m, c);
  }

  lemma ClaimLeavesIff(t: Tables, d: Parsed<Definition>, player: string, e: Envelope, p: string, c: string, spec: Currency)
    requires !RewardClaim(t, d, player, e).Fault? && !Outside(t, p, c, spec)
    ensures Outside(RewardClaim(t, d, player, e).tables, p, c, spec) <==> Overpays(t, d, player, e, p, c, spec)
  {
    if p != player {
      ClaimTouchesPlayer(t, d, player, e, (p, c));
    } else if LoadReward(d, e).Found? && TextArg(e.args, "sourceId", "").Good? {
      var reward, source := LoadReward(d, e).reward, TextArg(e.args, "sourceId", "").value;
      if !(reward.oncePerPlayer && HasClaimed(t, p, reward.id)) && !ClaimConflict(t, p, reward.id, source, e.requestId) {
        NewClaimLeavesIff(t, player, reward, source, e, c, spec);
      }
    }
  }

  lemma NewClaimLeavesIff(t: Tables, player: string, reward: Reward, source: string, e: Envelope, c: string, spec: Currency)
    requires !Outside(t, player, c, spec)
    requires !GrantFirst(t.(claims := t.claims[(player, reward.id, source) := e.requestId]), e.requestId, player, reward.grants, |reward.grants|).Fault?
    ensures var t1 := t.(claims := t.claims[(player, reward.id, source) := e.requestId]);
            Outside(GrantFirst(t1, e.requestId, player, reward.grants, |reward.grants|).tables, player, c, spec)
            <==> c != "" && PaysIn(reward, c) > 0 && !InBounds(spec, Balance(t, player, c) + PaysIn(reward, c))
  {
    var t1 := t.(claims := t.claims[(player, reward.id, source) := e.requestId]);
    if c == "" {
      NamelessStays(t1, e.requestId, player, reward.grants, |reward.grants|, player);
    } else {
      GrantsLeaveIff(t1, e.requestId, player, reward.grants, c, spec);
    }
  }

  /** MAIN RESULT. A command takes a wallet out of the bounds of its revision exactly when it is a credit or debit
      of it that can be made and overruns them, a transfer that goes through and leaves its sender below the
      minimum, or a new claim whose paid grants exceed them, even if a later grant is refused. */
  lemma LeavesBoundsIff(defs: Definitions, t: Tables, e: Envelope, p: string, c: string, spec: Currency)
    requires Conservation.Sound(t) && Handle(defs, t, e).Done?
    requires DefinitionFor(defs, e).Good? && FindCurrency(DefinitionFor(defs, e).value.currencies, c) == Good(spec)
    requires !Outside(t, p, c, spec)
    ensures var op, d := OperationOf(e.operation), DefinitionFor(defs, e);
            Outside(Handle(defs, t, e).state, p, c, spec) <==>
              || Overruns(defs, t, e, p, c)
              || (op.Transfer? && ResolvePlayer(e) == Good(p) && Underruns(t, p, e, p, c, spec))
              || (op.Claim? && ResolvePlayer(e) == Good(p) && Overpays(t, d, p, e, p, c, spec))
  {
    var op, d := OperationOf(e.operation), DefinitionFor(defs, e);
    if ResolvePlayer(e).Good? && !op.Unsupported? {
      var player := ResolvePlayer(e).value;
      match op
      case Credit => ChangeLeavesIff(t, d, player, e, true, p, c, spec); BoundsRefusedIff(t, d, player, e, true);
      case Debit => ChangeLeavesIff(t, d, player, e, false, p, c, spec); BoundsRefusedIff(t, d, player, e, false);
      case Transfer => TransferLeavesIff(t, d, player, e, p, c, spec);
      case Claim => ClaimLeavesIff(t, d, player, e, p, c, spec);
      case _ => OthersKeepMoney(t, d, player, e, op);
    }
  }

  // ---------------------------------------------------------------- credits reach any balance

  /** Names of different lengths. */
  function Request(n: nat): (r: string)
    ensures |r| == n + 1
  {
    if n == 0 then "r" else Request(n - 1) + "r"
  }

  function ChangeOf(k: (string, int), c: string, amount: int, n: nat, credit: bool): Envelope {
    Envelope(Request(n), "", k.0, "", k.1, "player", "p", if credit then "wallet.credit" else "wallet.debit",
             map["currency" := Text(c), "amount" := Number(amount)])
  }

  /** Longer request ids are new. */
  predicate ShortIds(defs: Definitions, h: History, n: nat) {
    && (forall id :: id in ResultsAfter(defs, h) ==> |id| <= n) && (forall id :: id in TablesAfter(defs, h).transactions ==> |id| <= n)
  }

  lemma ChangeIsUnderstood(k: (string, int), c: string, amount: int, n: nat, credit: bool)
    requires !Roster.Blank(c) && 1 <= amount <= MAX_COMMAND_AMOUNT
    ensures var e := ChangeOf(k, c, amount, n, credit);
            && ResolvePlayer(e) == Good("p") && OperationOf(e.operation) == (if credit then Credit else Debit)
            && TextArg(e.args, "currency", "") == Good(c) && AmountArg(e.args, "amount") == Good(amount)
  {
    assert !Roster.Blank("p") by { assert !Roster.IsSpace("p"[0]); }
  }

  /** A credit or debit that can be made changes the balance whatever the bounds say. */
  lemma ChangeGoesThrough(defs: Definitions, h: History, n: nat, k: (string, int), c: string, spec: Currency, amount: int, credit: bool) returns (later: History)
    requires k in defs && FindCurrency(defs[k].currencies, c) == Good(spec) && !Roster.Blank(c)
    requires 1 <= amount <= MAX_COMMAND_AMOUNT && ShortIds(defs, h, n)
    requires Funded(TablesAfter(defs, h), "p", c, amount, credit) && Storable(Balance(TablesAfter(defs, h), "p", c) + Signed(amount, credit))
    ensures ShortIds(defs, later, n + 1) && ("p", c) in TablesAfter(defs, later).wallets
    ensures TablesAfter(defs, later).wallets[("p", c)] == Balance(TablesAfter(defs, h), "p", c) + Signed(amount, credit)
  {
    var e, t := ChangeOf(k, c, amount, n, credit), TablesAfter(defs, h);
    ChangeEnds(t, spec, "p", c, amount, e, credit);
    ChangeIsHandled(defs, t, k, c, spec, amount, n, credit);
    later := Then(h, e, NoTrouble);
    NewRequestRuns(defs, h, e);
    IdsGrow(defs, h, later, n, e.requestId);
  }

  lemma IdsGrow(defs: Definitions, h: History, later: History, n: nat, id: string)
    requires ShortIds(defs, h, n) && |id| == n + 1 && ResultsAfter(defs, later).Keys == ResultsAfter(defs, h).Keys + {id}
    requires TablesAfter(defs, later).transactions.Keys <= TablesAfter(defs, h).transactions.Keys + {id}
    ensures ShortIds(defs, later, n + 1)
  {}

  lemma ChangeIsHandled(defs: Definitions, t: Tables, k: (string, int), c: string, spec: Currency, amount: int, n: nat, credit: bool)
    requires k in defs && FindCurrency(defs[k].currencies, c) == Good(spec) && !Roster.Blank(c) && 1 <= amount <= MAX_COMMAND_AMOUNT
    ensures var e := ChangeOf(k, c, amount, n, credit); Handle(defs, t, e) == Concluded(ChangeRows(t, spec, "p", c, amount, e, credit), e)
  {
    var e := ChangeOf(k, c, amount, n, credit);
    ChangeIsUnderstood(k, c, amount, n, credit);
    assert WalletChange(t, Good(defs[k]), "p", e, credit) == ChangeRows(t, spec, "p", c, amount, e, credit);
  }

  /** A command under a new request id whose handler does not fail is run, and its id is stored. */
  lemma NewRequestRuns(defs: Definitions, h: History, e: Envelope)
    requires e.requestId !in ResultsAfter(defs, h) && Handle(defs, TablesAfter(defs, h), e).Done?
    ensures TablesAfter(defs, Then(h, e, NoTrouble)) == Handle(defs, TablesAfter(defs, h), e).state
    ensures ResultsAfter(defs, Then(h, e, NoTrouble)).Keys == ResultsAfter(defs, h).Keys + {e.requestId}
  {}

  lemma {:induction false} CreditTo(defs: Definitions, k: (string, int), c: string, spec: Currency, v: int) returns (h: History, n: nat)
    requires k in defs && FindCurrency(defs[k].currencies, c) == Good(spec) && !Roster.Blank(c) && 1 <= v <= Int64.LARGEST
    ensures ShortIds(defs, h, n) && ("p", c) in TablesAfter(defs, h).wallets && TablesAfter(defs, h).wallets[("p", c)] == v
    decreases v
  {
    if v <= MAX_COMMAND_AMOUNT {
      h, n := Start, 1;
      h := ChangeGoesThrough(defs, Start, 0, k, c, spec, v, true);
    } else {
      h, n := CreditTo(defs, k, c, spec, v - MAX_COMMAND_AMOUNT);
      h := ChangeGoesThrough(defs, h, n, k, c, spec, MAX_COMMAND_AMOUNT, true);
      n := n + 1;
    }
  }

  ghost predicate KeepsBounds(defs: Definitions, c: string, spec: Currency) {
    forall h, p :: !Outside(TablesAfter(defs, h), p, c, spec)
  }

  /** MAIN RESULT. Whatever revision a currency's bounds are taken from, every history keeps its wallets within
      them exactly when they allow all the numbers the column can hold. */
  lemma KeepsBoundsIff(defs: Definitions, k: (string, int), c: string, spec: Currency)
    requires k in defs && FindCurrency(defs[k].currencies, c) == Good(spec) && !Roster.Blank(c)
    ensures KeepsBounds(defs, c, spec) <==> spec.minBalance <= 0 && spec.maxBalance >= Int64.LARGEST
  {
    if spec.minBalance <= 0 && spec.maxBalance >= Int64.LARGEST {
      forall h, p ensures !Outside(TablesAfter(defs, h), p, c, spec) {
        Conservation.EconomyStaysSound(defs, h);
      }
    } else if spec.maxBalance < Int64.LARGEST {
      var v := if spec.maxBalance < 0 then 1 else spec.maxBalance + 1;
      var h, n := CreditTo(defs, k, c, spec, v);
      assert Outside(TablesAfter(defs, h), "p", c, spec);
    } else {
      var h, n := CreditTo(defs, k, c, spec, 1);
      var later := ChangeGoesThrough(defs, h, n, k, c, spec, 1, false);
      assert Outside(TablesAfter(defs, later), "p", c, spec);
    }
  }
}
