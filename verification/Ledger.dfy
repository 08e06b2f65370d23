/** What every run of economy commands keeps between the wallets and the double-entry ledger, and the
reconciliation scan that compares the two. */
module Ledger {
  import opened Commands
  import opened Economy
  import opened Frames
  import opened CommandStore
  import opened Ordering
  import Int64
  import Roster

  // ---------------------------------------------------------------- sums over the ledger

  function LedgerSum(entries: seq<Entry>, account: string, currency: string): int {
    if entries == [] then 0
    else
      var last := entries[|entries| - 1];
      LedgerSum(entries[..|entries| - 1], account, currency)
      + (if last.account == account && last.currency == currency then last.amount else 0)
  }

  function TransactionSum(entries: seq<Entry>, request: string, currency: string): int {
    if entries == [] then 0
    else
      var last := entries[|entries| - 1];
      TransactionSum(entries[..|entries| - 1], request, currency)
      + (if last.request == request && last.currency == currency then last.amount else 0)
  }

  lemma LedgerSumSnoc(entries: seq<Entry>, x: Entry, account: string, currency: string)
    ensures LedgerSum(entries + [x], account, currency)
         == LedgerSum(entries, account, currency) + (if x.account == account && x.currency == currency then x.amount else 0)
  {
    assert (entries + [x])[..|entries|] == entries;
  }

  lemma LedgerSumPair(entries: seq<Entry>, x: Entry, y: Entry, account: string, currency: string)
    ensures LedgerSum(entries + [x, y], account, currency)
         == LedgerSum(entries, account, currency)
          + (if x.account == account && x.currency == currency then x.amount else 0)
          + (if y.account == account && y.currency == currency then y.amount else 0)
  {
    LedgerSumSnoc(entries, x, account, currency);
    LedgerSumSnoc(entries + [x], y, account, currency);
    assert entries + [x, y] == entries + [x] + [y];
  }

  lemma TransactionSumPair(entries: seq<Entry>, x: Entry, y: Entry, request: string, currency: string)
    requires x.request == y.request && x.currency == y.currency && x.amount + y.amount == 0
    ensures TransactionSum(entries + [x, y], request, currency) == TransactionSum(entries, request, currency)
  {
    assert entries + [x, y] == entries + [x] + [y];
    assert (entries + [x] + [y])[..|entries| + 1] == entries + [x];
    assert (entries + [x])[..|entries|] == entries;
  }

  // ---------------------------------------------------------------- the gap between wallet and ledger

  /** How far a wallet is ahead of its ledger entries. */
  function Gap(t: Tables, player: string, currency: string): int {
    Balance(t, player, currency) - LedgerSum(t.entries, player, currency)
  }

  /** The gap a command's result leaves behind: the amount of a credit or debit that was rejected for
      breaking the currency bounds, because its wallet update is committed without ledger entries. */
  function DriftOf(e: Envelope, r: Result, player: string, currency: string): int {
    var op := OperationOf(e.operation);
    if (op.Credit? || op.Debit?) && r.status == "rejected" && r.error == "CURRENCY_LIMIT"
       && ResolvePlayer(e) == Good(player) && TextArg(e.args, "currency", "") == Good(currency)
       && AmountArg(e.args, "amount").Good?
    then if op.Credit? then AmountArg(e.args, "amount").value else -AmountArg(e.args, "amount").value
    else 0
  }

  lemma ErrorCodes(f: Failure)
    ensures ErrorCode(f) == "CURRENCY_LIMIT" <==> f.CurrencyBounds?
  {
    assert "INSUFFICIENT_FUNDS" != "CURRENCY_LIMIT" && "INSUFFICIENT_ITEMS" != "CURRENCY_LIMIT";
    assert "INVALID_REWARD"[0] != "CURRENCY_LIMIT"[0];
  }

  lemma ChangeRowsGap(t: Tables, spec: Currency, player: string, currency: string, amount: int, e: Envelope, credit: bool,
                      p: string, c: string)
    requires p != SYSTEM && !ChangeRows(t, spec, player, currency, amount, e, credit).Fault?
    ensures var s := ChangeRows(t, spec, player, currency, amount, e, credit);
            Gap(s.tables, p, c) == Gap(t, p, c) +
              (if s.Business? && s.failure.CurrencyBounds? && p == player && c == currency
               then (if credit then amount else -amount) else 0)
  {
    var s, signed := ChangeRows(t, spec, player, currency, amount, e, credit), if credit then amount else -amount;
    assert s.Business? && !s.failure.CurrencyBounds? ==> s.tables == t;
    assert s.Business? && s.failure.CurrencyBounds? ==> Good(s.tables) == AddToWallet(t, player, currency, signed);
    if s.Success? {
      LedgerSumPair(t.entries, Entry(e.requestId, player, currency, signed), Entry(e.requestId, SYSTEM, currency, -signed), p, c);
    }
  }

  lemma TransferRowsGap(t: Tables, player: string, target: string, currency: string, amount: int, toBalance: int, e: Envelope,
                        p: string, c: string)
    requires player != target && TransferRows(t, player, target, currency, amount, toBalance, e).Success?
    ensures Gap(TransferRows(t, player, target, currency, amount, toBalance, e).tables, p, c) == Gap(t, p, c)
  {
    LedgerSumPair(t.entries, Entry(e.requestId, player, currency, -amount), Entry(e.requestId, target, currency, amount), p, c);
  }

  lemma GrantOneGap(t: Tables, request: string, player: string, g: Grant, index: nat, p: string, c: string)
    requires p != SYSTEM && !GrantOne(t, request, player, g, index).Fault?
    ensures Gap(GrantOne(t, request, player, g, index).tables, p, c) == Gap(t, p, c)
  {
    if GrantOne(t, request, player, g, index).Success? && g.currency != "" {
      var id := GrantRequest(request, index);
      LedgerSumPair(t.entries, Entry(id, player, g.currency, g.amount), Entry(id, SYSTEM, g.currency, -g.amount), p, c);
    }
  }

  lemma {:induction false} GrantFirstGap(t: Tables, request: string, player: string, grants: seq<Grant>, n: nat, p: string, c: string)
    requires p != SYSTEM && n <= |grants| && !GrantFirst(t, request, player, grants, n).Fault?
    ensures Gap(GrantFirst(t, request, player, grants, n).tables, p, c) == Gap(t, p, c)
  {
    if n > 0 {
      GrantFirstGap(t, request, player, grants, n - 1, p, c);
      var s := GrantFirst(t, request, player, grants, n - 1);
      if s.Success? {
        GrantOneGap(s.tables, request, player, grants[n - 1], n - 1, p, c);
      }
    }
  }

  lemma ClaimGap(t: Tables, d: Parsed<Definition>, player: string, e: Envelope, p: string, c: string)
    requires p != SYSTEM && !RewardClaim(t, d, player, e).Fault?
    ensures Gap(RewardClaim(t, d, player, e).tables, p, c) == Gap(t, p, c)
  {
    var load := LoadReward(d, e);
    if load.Found? && TextArg(e.args, "sourceId", "").Good? {
      var t1 := t.(claims := t.claims[(player, load.reward.id, TextArg(e.args, "sourceId", "").value) := e.requestId]);
      var grants := load.reward.grants;
      if !GrantFirst(t1, e.requestId, player, grants, |grants|).Fault? {
        GrantFirstGap(t1, e.requestId, player, grants, |grants|, p, c);
      }
    }
  }

  lemma TransferGap(t: Tables, d: Parsed<Definition>, player: string, e: Envelope, p: string, c: string)
    requires !WalletTransfer(t, d, player, e).Fault?
    ensures Gap(WalletTransfer(t, d, player, e).tables, p, c) == Gap(t, p, c)
  {
    var s := WalletTransfer(t, d, player, e);
    if s.Success? {
      var target, currency, amount := TransferTarget(e.args, player).value, TextArg(e.args, "currency", "").value, AmountArg(e.args, "amount").value;
      TransferRowsGap(t, player, target, currency, amount, Int64.Wrap(Balance(t, target, currency) + amount), e, p, c);
    }
  }

  lemma ChangeGap(t: Tables, d: Parsed<Definition>, player: string, e: Envelope, credit: bool, p: string, c: string)
    requires p != SYSTEM && !WalletChange(t, d, player, e, credit).Fault?
    ensures var s := WalletChange(t, d, player, e, credit);
            Gap(s.tables, p, c) == Gap(t, p, c) +
              (if s.Business? && s.failure.CurrencyBounds? && p == player
                  && TextArg(e.args, "currency", "") == Good(c) && AmountArg(e.args, "amount").Good?
               then (if credit then AmountArg(e.args, "amount").value else -AmountArg(e.args, "amount").value) else 0)
  {
    if TextArg(e.args, "currency", "").Good? && AmountArg(e.args, "amount").Good? && d.Good? {
      var currency, amount := TextArg(e.args, "currency", "").value, AmountArg(e.args, "amount").value;
      var found := FindCurrency(d.value.currencies, currency);
      if found.Good? {
        ChangeRowsGap(t, found.value, player, currency, amount, e, credit, p, c);
      }
    }
  }

  /** The gap left by one handler run. */
  function StepDrift(s: Step, op: Operation, player: string, e: Envelope, p: string, c: string): int {
    if (op.Credit? || op.Debit?) && s.Business? && s.failure.CurrencyBounds? && p == player
       && TextArg(e.args, "currency", "") == Good(c) && AmountArg(e.args, "amount").Good?
    then if op.Credit? then AmountArg(e.args, "amount").value else -AmountArg(e.args, "amount").value
    else 0
  }

  lemma DispatchGap(t: Tables, d: Parsed<Definition>, player: string, e: Envelope, op: Operation, p: string, c: string)
    requires p != SYSTEM && !op.Unsupported? && !Dispatch(t, d, player, e, op).Fault?
    ensures var s := Dispatch(t, d, player, e, op);
            Gap(s.tables, p, c) == Gap(t, p, c) + StepDrift(s, op, player, e, p, c)
  {
    match op
    case Credit => ChangeGap(t, d, player, e, true, p, c);
    case Debit => ChangeGap(t, d, player, e, false, p, c);
    case Transfer => TransferGap(t, d, player, e, p, c);
    case Claim => ClaimGap(t, d, player, e, p, c);
    case _ => OthersKeepMoney(t, d, player, e, op);
  }

  /** One command moves the gap of every account but the system's by exactly its drift. */
  lemma CommandGap(defs: Definitions, t: Tables, e: Envelope, p: string, c: string)
    requires p != SYSTEM && Handle(defs, t, e).Done?
    ensures Gap(Handle(defs, t, e).state, p, c) == Gap(t, p, c) + DriftOf(e, Handle(defs, t, e).result, p, c)
  {
    var op, d := OperationOf(e.operation), DefinitionFor(defs, e);
    if ResolvePlayer(e).Good? && !op.Unsupported? {
      var player := ResolvePlayer(e).value;
      DispatchGap(t, d, player, e, op, p, c);
      StepDriftIsDrift(Dispatch(t, d, player, e, op), op, player, e, p, c);
    }
  }

  lemma StepDriftIsDrift(s: Step, op: Operation, player: string, e: Envelope, p: string, c: string)
    requires !s.Fault? && op == OperationOf(e.operation) && ResolvePlayer(e) == Good(player)
    ensures DriftOf(e, Concluded(s, e).result, p, c) == StepDrift(s, op, player, e, p, c)
  {
    if s.Business? {
      ErrorCodes(s.failure);
    }
  }

  // ---------------------------------------------------------------- whole runs

  function EconomyHandler(defs: Definitions): Handler<Tables> {
    (t, e) => Handle(defs, t, e)
  }

  /** The tables after a history of submissions to an empty economy. */
  function TablesAfter(defs: Definitions, h: History): Tables {
    After(NO_TABLES, EconomyHandler(defs), h).domain
  }

  /** The stored results. */
  function ResultsAfter(defs: Definitions, h: History): map<string, Result> {
    After(NO_TABLES, EconomyHandler(defs), h).requests
  }

  /** The last submission is the one whose result was stored. */
  predicate StoresNow(defs: Definitions, h: History) {
    h.Then? && h.command.requestId !in ResultsAfter(defs, h.past) && h.command.requestId in ResultsAfter(defs, h)
  }

  /** The drift of a history: what its stored results say, command by command. */
  function Drift(defs: Definitions, h: History, player: string, currency: string): int {
    if h.Start? then 0
    else Drift(defs, h.past, player, currency)
         + if StoresNow(defs, h) then DriftOf(h.command, ResultsAfter(defs, h)[h.command.requestId], player, currency) else 0
  }

  lemma SubmitStep(defs: Definitions, h: History)
    requires h.Then?
    ensures var (before, e) := (TablesAfter(defs, h.past), h.command);
            if StoresNow(defs, h)
            then Handle(defs, before, e).Done? && TablesAfter(defs, h) == Handle(defs, before, e).state
                 && ResultsAfter(defs, h)[e.requestId] == Completed(Handle(defs, before, e).result, e)
            else TablesAfter(defs, h) == before
  {}

  /** MAIN RESULT. After any history of submissions, repeated and failing ones included, every account's
      wallet is ahead of its ledger by exactly the credits and debits whose stored result is CURRENCY_LIMIT. */
  lemma {:induction false} GapIsDrift(defs: Definitions, h: History, player: string, currency: string)
    requires player != SYSTEM
    ensures Gap(TablesAfter(defs, h), player, currency) == Drift(defs, h, player, currency)
  {
    if h.Then? {
      GapIsDrift(defs, h.past, player, currency);
      SubmitStep(defs, h);
      if StoresNow(defs, h) {
        var before, e := TablesAfter(defs, h.past), h.command;
        CommandGap(defs, before, e, player, currency);
        CompletedDrift(e, Handle(defs, before, e).result, player, currency);
      }
    }
  }

  lemma CompletedDrift(e: Envelope, r: Result, player: string, currency: string)
    requires r.status != ""
    ensures DriftOf(e, Completed(r, e), player, currency) == DriftOf(e, r, player, currency)
  {}

  /** A rejected credit can indeed leave drift behind: the limit is checked after the wallet was updated. */
  lemma DriftHappens()
    ensures var d := Definition([Currency("coins", 0, 0, 5)], [], [], []);
            var e := Envelope("r", "c", "g", "env", 1, "player", "p", "wallet.credit",
                              map["currency" := Text("coins"), "amount" := Number(7)]);
            Drift(map[("g", 1) := d], Then(Start, e, NoTrouble), "p", "coins") == 7
  {
    var d := Definition([Currency("coins", 0, 0, 5)], [], [], []);
    var e := Envelope("r", "c", "g", "env", 1, "player", "p", "wallet.credit",
                      map["currency" := Text("coins"), "amount" := Number(7)]);
    assert !Roster.Blank("p") by { assert !Roster.IsSpace("p"[0]); }
    assert !Roster.Blank("coins") by { assert !Roster.IsSpace("coins"[0]); }
    assert ResolvePlayer(e) == Good("p");
    assert OperationOf("wallet.credit") == Credit;
    assert Handle(map[("g", 1) := d], NO_TABLES, e).result == Rejected(e, "CURRENCY_LIMIT");
  }

  // ---------------------------------------------------------------- the reconciliation scan

  datatype Finding = Finding(player: string, currency: string, wallet: int, ledger: int, difference: int)

  /** The ledger side of the comparison leaves the system account out. */
  function LedgerSide(t: Tables, player: string, currency: string): int {
    if player == SYSTEM then 0 else LedgerSum(t.entries, player, currency)
  }

  function Accounts(t: Tables): set<(string, string)> {
    t.wallets.Keys + set i | 0 <= i < |t.entries| && t.entries[i].account != SYSTEM :: (t.entries[i].account, t.entries[i].currency)
  }

  function FindingFor(t: Tables, k: (string, string)): Finding {
    var wallet, ledger := Balance(t, k.0, k.1), LedgerSide(t, k.0, k.1);
    Finding(k.0, k.1, wallet, ledger, Int64.Wrap(wallet - ledger))
  }

  predicate KeyLess(a: (string, string), b: (string, string)) {
    StringLess(a.0, b.0) || (a.0 == b.0 && StringLess(a.1, b.1))
  }

  ghost predicate Mismatch(t: Tables, k: (string, string)) {
    Balance(t, k.0, k.1) != LedgerSide(t, k.0, k.1)
  }

  function KeyOf(f: Finding): (string, string) { (f.player, f.currency) }

  ghost predicate Reports(t: Tables, findings: seq<Finding>) {
    forall i :: 0 <= i < |findings| ==> Mismatch(t, KeyOf(findings[i])) && findings[i] == FindingFor(t, KeyOf(findings[i]))
  }

  predicate InKeyOrder(findings: seq<Finding>) {
    forall i, j :: 0 <= i < j < |findings| ==> KeyLess(KeyOf(findings[i]), KeyOf(findings[j]))
  }

  /** What a scan reports: every mismatching account once, in order. */
  ghost predicate IsScan(t: Tables, findings: seq<Finding>) {
    Reports(t, findings) && InKeyOrder(findings) && forall k :: Mismatch(t, k) ==> FindingFor(t, k) in findings
  }

  lemma {:induction false} NoEntriesNoSum(entries: seq<Entry>, account: string, currency: string)
    requires forall i :: 0 <= i < |entries| ==> entries[i].account != account || entries[i].currency != currency
    ensures LedgerSum(entries, account, currency) == 0
  {
    if entries != [] {
      NoEntriesNoSum(entries[..|entries| - 1], account, currency);
    }
  }

  lemma MismatchIsAccount(t: Tables, k: (string, string))
    requires Mismatch(t, k)
    ensures k in Accounts(t)
  {
    if k !in Accounts(t) {
      forall i | 0 <= i < |t.entries| && k.0 != SYSTEM ensures t.entries[i].account != k.0 || t.entries[i].currency != k.1 {
        assert t.entries[i].account != SYSTEM ==> (t.entries[i].account, t.entries[i].currency) in Accounts(t);
      }
      if k.0 != SYSTEM {
        NoEntriesNoSum(t.entries, k.0, k.1);
      }
    }
  }

  lemma KeyLessTotal(a: (string, string), b: (string, string))
    ensures a == b || KeyLess(a, b) || KeyLess(b, a)
  {
    StringLessTotal(a.0, b.0);
    StringLessTotal(a.1, b.1);
  }

  lemma KeyLessTransitive(a: (string, string), b: (string, string), c: (string, string))
    requires KeyLess(a, b) && KeyLess(b, c)
    ensures KeyLess(a, c)
  {
    if StringLess(a.0, b.0) && StringLess(b.0, c.0) {
      StringLessTransitive(a.0, b.0, c.0);
    } else if a.0 == b.0 == c.0 {
      StringLessTransitive(a.1, b.1, c.1);
    }
  }

  /** The least key of a set. */
  method Least(keys: set<(string, string)>) returns (least: (string, string))
    requires keys != {}
    ensures least in keys && forall k :: k in keys && k != least ==> KeyLess(least, k)
  {
    least :| least in keys;
    var todo := keys - {least};
    while todo != {}
      invariant todo <= keys && least in keys && least !in todo
      invariant forall k :: k in keys && k !in todo && k != least ==> KeyLess(least, k)
      decreases todo
    {
      var k :| k in todo;
      todo := todo - {k};
      KeyLessTotal(least, k);
      if KeyLess(k, least) {
        forall m | m in keys && m !in todo && m != k ensures KeyLess(k, m) {
          if m != least { KeyLessTransitive(k, least, m); }
        }
        least := k;
      }
    }
  }

  /** Every key found so far comes before every key still to be visited. */
  ghost predicate Before(findings: seq<Finding>, todo: set<(string, string)>) {
    forall i, m :: 0 <= i < |findings| && m in todo ==> KeyLess(KeyOf(findings[i]), m)
  }

  /** Goes through the accounts in order and collects the mismatches; fails when a sum leaves 64 bits. */
  method Scan(t: Tables) returns (findings: Parsed<seq<Finding>>)
    ensures findings.Good? ==> IsScan(t, findings.value)
    ensures findings.Bad? ==> exists k :: k in Accounts(t) && !Int64.InRange(LedgerSide(t, k.0, k.1))
  {
    var found: seq<Finding> := [];
    var todo := Accounts(t);
    while todo != {}
      invariant todo <= Accounts(t) && Before(found, todo)
      invariant Reports(t, found) && InKeyOrder(found)
      invariant forall k :: k in Accounts(t) && k !in todo && Mismatch(t, k) ==> FindingFor(t, k) in found
      decreases todo
    {
      var k := Least(todo);
      todo := todo - {k};
      var ledger := LedgerSide(t, k.0, k.1);
      if !Int64.InRange(ledger) {
        return Bad;
      }
      if Balance(t, k.0, k.1) != ledger {
        found := Report(t, found, k, todo);
      }
    }
    forall k | Mismatch(t, k) ensures k in Accounts(t) {
      MismatchIsAccount(t, k);
    }
    findings := Good(found);
  }

  method Report(t: Tables, found: seq<Finding>, k: (string, string), ghost todo: set<(string, string)>) returns (more: seq<Finding>)
    requires Mismatch(t, k) && Reports(t, found) && InKeyOrder(found) && Before(found, todo + {k})
    requires forall m :: m in todo ==> KeyLess(k, m)
    ensures more == found + [FindingFor(t, k)] && Reports(t, more) && InKeyOrder(more) && Before(more, todo)
  {
    more := found + [FindingFor(t, k)];
    assert KeyOf(FindingFor(t, k)) == k;
    assert k in todo + {k};
  }

  // ---------------------------------------------------------------- scan against history

  /** No command of the history acts for, or transfers to, a player named like the system account. */
  predicate NoSystemPlayer(h: History) {
    h.Then? ==>
      && NoSystemPlayer(h.past)
      && ResolvePlayer(h.command) != Good(SYSTEM)
      && TextArg(h.command.args, "targetPlayerId", "") != Good(SYSTEM)
  }

  ghost predicate NoSystemWallet(t: Tables) {
    forall c :: (SYSTEM, c) !in t.wallets
  }

  lemma {:induction false} GrantsOnlyPlayer(t: Tables, request: string, player: string, grants: seq<Grant>, n: nat)
    requires NoSystemWallet(t) && player != SYSTEM && n <= |grants| && !GrantFirst(t, request, player, grants, n).Fault?
    ensures NoSystemWallet(GrantFirst(t, request, player, grants, n).tables)
  {
    if n > 0 {
      GrantsOnlyPlayer(t, request, player, grants, n - 1);
    }
  }

  lemma ClaimKeepsSystemOut(t: Tables, d: Parsed<Definition>, player: string, e: Envelope)
    requires NoSystemWallet(t) && player != SYSTEM && !RewardClaim(t, d, player, e).Fault?
    ensures NoSystemWallet(RewardClaim(t, d, player, e).tables)
  {
    var load := LoadReward(d, e);
    if load.Found? && TextArg(e.args, "sourceId", "").Good? {
      var t1 := t.(claims := t.claims[(player, load.reward.id, TextArg(e.args, "sourceId", "").value) := e.requestId]);
      var grants := load.reward.grants;
      if !GrantFirst(t1, e.requestId, player, grants, |grants|).Fault? {
        GrantsOnlyPlayer(t1, e.requestId, player, grants, |grants|);
      }
    }
  }

  lemma ChangeKeepsSystemOut(t: Tables, d: Parsed<Definition>, player: string, e: Envelope, credit: bool)
    requires NoSystemWallet(t) && player != SYSTEM && !WalletChange(t, d, player, e, credit).Fault?
    ensures NoSystemWallet(WalletChange(t, d, player, e, credit).tables)
  {}

  lemma TransferKeepsSystemOut(t: Tables, d: Parsed<Definition>, player: string, e: Envelope)
    requires NoSystemWallet(t) && player != SYSTEM && TextArg(e.args, "targetPlayerId", "") != Good(SYSTEM)
    requires !WalletTransfer(t, d, player, e).Fault?
    ensures NoSystemWallet(WalletTransfer(t, d, player, e).tables)
  {}

  lemma CommandKeepsSystemOut(defs: Definitions, t: Tables, e: Envelope)
    requires NoSystemWallet(t) && ResolvePlayer(e) != Good(SYSTEM) && TextArg(e.args, "targetPlayerId", "") != Good(SYSTEM)
    requires Handle(defs, t, e).Done?
    ensures NoSystemWallet(Handle(defs, t, e).state)
  {
    var op, d := OperationOf(e.operation), DefinitionFor(defs, e);
    if ResolvePlayer(e).Good? && !op.Unsupported? {
      var player := ResolvePlayer(e).value;
      match op
      case Credit => ChangeKeepsSystemOut(t, d, player, e, true);
      case Debit => ChangeKeepsSystemOut(t, d, player, e, false);
      case Transfer => TransferKeepsSystemOut(t, d, player, e);
      case Claim => ClaimKeepsSystemOut(t, d, player, e);
      case _ => OthersKeepMoney(t, d, player, e, op);
    }
  }

  lemma {:induction false} SystemStaysOut(defs: Definitions, h: History)
    requires NoSystemPlayer(h)
    ensures NoSystemWallet(TablesAfter(defs, h))
  {
    if h.Then? {
      SystemStaysOut(defs, h.past);
      SubmitStep(defs, h);
      if Handle(defs, TablesAfter(defs, h.past), h.command).Done? {
        CommandKeepsSystemOut(defs, TablesAfter(defs, h.past), h.command);
      }
    }
  }

  lemma MismatchIsDrift(defs: Definitions, h: History, k: (string, string))
    requires NoSystemPlayer(h)
    ensures Mismatch(TablesAfter(defs, h), k) <==> k.0 != SYSTEM && Drift(defs, h, k.0, k.1) != 0
    ensures k.0 != SYSTEM ==>
              Balance(TablesAfter(defs, h), k.0, k.1) - LedgerSide(TablesAfter(defs, h), k.0, k.1) == Drift(defs, h, k.0, k.1)
  {
    if k.0 == SYSTEM {
      SystemStaysOut(defs, h);
    } else {
      GapIsDrift(defs, h, k.0, k.1);
    }
  }

  /** MAIN RESULT. After any history in which nobody poses as the system account, the scan is empty
      exactly when no account has drifted, and each finding's gap is its account's drift. */
  lemma ScanReportsDrift(defs: Definitions, h: History, findings: seq<Finding>)
    requires NoSystemPlayer(h) && IsScan(TablesAfter(defs, h), findings)
    ensures findings == [] <==> forall p, c :: p != SYSTEM ==> Drift(defs, h, p, c) == 0
    ensures forall i :: 0 <= i < |findings| ==>
              findings[i].player != SYSTEM
              && findings[i].wallet - findings[i].ledger == Drift(defs, h, findings[i].player, findings[i].currency) != 0
  {
    forall i | 0 <= i < |findings|
      ensures findings[i].player != SYSTEM
              && findings[i].wallet - findings[i].ledger == Drift(defs, h, findings[i].player, findings[i].currency) != 0
    {
      MismatchIsDrift(defs, h, KeyOf(findings[i]));
    }
    if findings == [] {
      forall p, c | p != SYSTEM ensures Drift(defs, h, p, c) == 0 {
        MismatchIsDrift(defs, h, (p, c));
      }
    } else {
      assert Drift(defs, h, findings[0].player, findings[0].currency) != 0;
    }
  }
}
