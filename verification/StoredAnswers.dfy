/** What the stored answer of a command says: about the transaction that stored it, and about the history before it. */
module StoredAnswers {
  import opened Commands
  import opened CommandArguments
  import opened CommandEffects
  import opened CommandStore
  import opened Economy
  import opened Ledger
  import Int64
  import P = Progression

  // ---------------------------------------------------------------- one transaction

  /** A new command whose handler succeeds is stored exactly when no statement of its transaction fails; otherwise
      nothing at all is written. It is answered when it is stored and the answer gets through. */
  lemma StoredIff<S>(st: Store<S>, e: Envelope, handler: Handler<S>, failing: set<Statement>, heard: bool)
    requires e.requestId !in st.requests && handler(st.domain, e).Done?
    ensures var (st', reply) := Submit(st, e, handler, Met(false, failing, heard));
            && (e.requestId in st'.requests <==> Reserve !in failing && SaveResult !in failing && AppendEvent !in failing && Commit !in failing)
            && (e.requestId !in st'.requests ==> st' == st)
            && (e.requestId in st'.requests ==>
                  && st'.domain == handler(st.domain, e).state && st'.requests == st.requests[e.requestId := st'.requests[e.requestId]]
                  && st'.events == st.events + [Event(e.requestId, e.correlationId, st'.requests[e.requestId])])
            && reply == (if e.requestId in st'.requests && heard then Replied(st'.requests[e.requestId], false) else Error)
  {}

  /** A repeated command writes nothing, and gets the stored result whenever its look-up and commit go through. */
  lemma RepeatIff<S>(st: Store<S>, e: Envelope, handler: Handler<S>, failing: set<Statement>, heard: bool)
    requires e.requestId in st.requests
    ensures var (st', reply) := Submit(st, e, handler, Met(true, failing, heard));
            st' == st && reply == (if heard && Reserve !in failing && LoadDuplicate !in failing && Commit !in failing
                                   then Replied(st.requests[e.requestId], true) else Error)
  {}

  // ---------------------------------------------------------------- the stored result

  /** The answer is stored as the handler gave it; only a rejection, which names no event, gets the general one. */
  lemma StoredIsAnswer(defs: Definitions, h: History)
    requires StoresNow(defs, h)
    ensures var o, r := Handle(defs, TablesAfter(defs, h.past), h.command), P.Stored(defs, h);
            && o.Done? && o.state == TablesAfter(defs, h) && (r.status == "succeeded" || r.status == "rejected")
            && r == if r.status == "succeeded" then o.result else o.result.(events := ["command.accepted.v1"])
  {
    SubmitStep(defs, h);
    Codes();
    var before, e := TablesAfter(defs, h.past), h.command;
    AnswerShape(defs, before, e);
    assert P.Stored(defs, h) == CommandStore.Completed(Handle(defs, before, e).result, e);
  }

  lemma AnswerShape(defs: Definitions, t: Tables, e: Envelope)
    requires Handle(defs, t, e).Done?
    ensures var r := Handle(defs, t, e).result;
            && r.requestId == e.requestId && r.correlationId == e.correlationId && r.operation == e.operation
            && ((r.status == "succeeded" && r.error == "" && |r.events| == 1) || (r.status == "rejected" && r.events == [] && r.body == map[]))
  {}

  /** An answer keeps every field its handler filled; the others are taken from the envelope, or are those of a plain
      success. */
  lemma BlanksAreFilled(r: Result, e: Envelope)
    ensures var s := CommandStore.Completed(r, e);
            && (if r.requestId != "" then s.requestId == r.requestId else s.requestId == e.requestId)
            && (if r.correlationId != "" then s.correlationId == r.correlationId else s.correlationId == e.correlationId)
            && (if r.operation != "" then s.operation == r.operation else s.operation == e.operation)
            && (if r.status != "" then s.status == r.status else s.status == "succeeded")
            && (if |r.events| > 0 then s.events == r.events else s.events == ["command.accepted.v1"])
            && s.body == r.body && s.error == r.error
  {}

  lemma MoneyEvents(t: Tables, d: Parsed<Definition>, p: string, e: Envelope)
    ensures WalletGet(t, d, p, e).Success? ==> WalletGet(t, d, p, e).event == "wallet.read.v1"
    ensures WalletChange(t, d, p, e, true).Success? ==> WalletChange(t, d, p, e, true).event == "wallet.credited.v1"
    ensures WalletChange(t, d, p, e, false).Success? ==> WalletChange(t, d, p, e, false).event == "wallet.debited.v1"
    ensures WalletTransfer(t, d, p, e).Success? ==> WalletTransfer(t, d, p, e).event == "wallet.transferred.v1"
  {}

  lemma ItemEvents(t: Tables, d: Parsed<Definition>, p: string, e: Envelope)
    ensures InventoryChange(t, d, p, e, true).Success? ==> InventoryChange(t, d, p, e, true).event == "inventory.granted.v1"
    ensures InventoryChange(t, d, p, e, false).Success? ==> InventoryChange(t, d, p, e, false).event == "inventory.consumed.v1"
    ensures InventoryTransfer(t, d, p, e).Success? ==> InventoryTransfer(t, d, p, e).event == "inventory.transferred.v1"
  {}

  lemma RewardEvents(t: Tables, d: Parsed<Definition>, p: string, e: Envelope)
    ensures RewardClaim(t, d, p, e).Success? ==> RewardClaim(t, d, p, e).event == "reward.claimed.v1"
    ensures RewardPreview(t, d, p, e).Success? ==> RewardPreview(t, d, p, e).event == "reward.previewed.v1"
  {}

  lemma ProfileEvents(t: Tables, p: string, e: Envelope)
    ensures AddXP(t, p, e).Success? ==> AddXP(t, p, e).event == "progression.updated.v1"
    ensures ProgressionGet(t, p, e).Success? ==> ProgressionGet(t, p, e).event == "progression.read.v1"
    ensures ObjectiveComplete(t, p, e).Success? ==> ObjectiveComplete(t, p, e).event == "progression.objective.completed.v1"
    ensures EntitlementChange(t, p, e, true).Success? ==> EntitlementChange(t, p, e, true).event == "entitlement.granted.v1"
    ensures EntitlementChange(t, p, e, false).Success? ==> EntitlementChange(t, p, e, false).event == "entitlement.revoked.v1"
  {}

  /** The event an accepted command announces. */
  function Announced(op: Operation): string {
    match op
    case WalletRead => "wallet.read.v1"
    case Credit => "wallet.credited.v1"
    case Debit => "wallet.debited.v1"
    case Transfer => "wallet.transferred.v1"
    case InventoryList => "inventory.listed.v1"
    case ItemGrant => "inventory.granted.v1"
    case ItemConsume => "inventory.consumed.v1"
    case ItemTransfer => "inventory.transferred.v1"
    case EntitlementList => "entitlement.listed.v1"
    case EntitlementGrant => "entitlement.granted.v1"
    case EntitlementRevoke => "entitlement.revoked.v1"
    case ProgressionRead => "progression.read.v1"
    case ProgressionAdd => "progression.updated.v1"
    case Objective => "progression.objective.completed.v1"
    case Preview => "reward.previewed.v1"
    case Claim => "reward.claimed.v1"
    case Unsupported => "command.accepted.v1"
  }

  lemma DispatchEvent(t: Tables, d: Parsed<Definition>, p: string, e: Envelope, op: Operation)
    requires !op.Unsupported?
    ensures Dispatch(t, d, p, e, op).Success? ==> Dispatch(t, d, p, e, op).event == Announced(op)
  {
    match op
    case WalletRead => MoneyEvents(t, d, p, e);
    case Credit => MoneyEvents(t, d, p, e);
    case Debit => MoneyEvents(t, d, p, e);
    case Transfer => MoneyEvents(t, d, p, e);
    case ItemGrant => ItemEvents(t, d, p, e);
    case ItemConsume => ItemEvents(t, d, p, e);
    case ItemTransfer => ItemEvents(t, d, p, e);
    case Preview => RewardEvents(t, d, p, e);
    case Claim => RewardEvents(t, d, p, e);
    case InventoryList =>
    case EntitlementList =>
    case _ => ProfileEvents(t, p, e);
  }

  /** Over any history the stored answer of an accepted command names the one event of its operation. */
  lemma EventIsNamed(defs: Definitions, h: History)
    requires StoresNow(defs, h)
    ensures P.Stored(defs, h).events == [if P.Stored(defs, h).status == "succeeded" then Announced(OperationOf(h.command.operation)) else "command.accepted.v1"]
  {
    StoredIsAnswer(defs, h);
    AnswerShape(defs, TablesAfter(defs, h.past), h.command);
    HandledEvent(defs, TablesAfter(defs, h.past), h.command);
  }

  lemma HandledEvent(defs: Definitions, t: Tables, e: Envelope)
    requires Handle(defs, t, e).Done?
    ensures Handle(defs, t, e).result.status == "succeeded" ==> Handle(defs, t, e).result.events == [Announced(OperationOf(e.operation))]
  {
    Codes();
    if ResolvePlayer(e).Good? && !OperationOf(e.operation).Unsupported? {
      var s := Dispatch(t, DefinitionFor(defs, e), ResolvePlayer(e).value, e, OperationOf(e.operation));
      DispatchEvent(t, DefinitionFor(defs, e), ResolvePlayer(e).value, e, OperationOf(e.operation));
      ConcludedIs(s, e);
    }
  }

  // ---------------------------------------------------------------- reads tell the history

  predicate TrackIs(e: Envelope, track: string) { TextOr(e, "trackId", "default", track) }

  predicate Shows(body: map<string, Value>, p: string, track: string, xp: int, level: int) {
    && "xp" in body && body["xp"] == Number(xp) && "level" in body && body["level"] == Number(level)
    && "playerId" in body && body["playerId"] == Text(p) && "trackId" in body && body["trackId"] == Text(track)
  }

  lemma ReadAnswered(t: Tables, e: Envelope, p: string, track: string)
    requires TextArg(e.args, "trackId", "default") == Good(track)
    ensures var s, row := ProgressionGet(t, p, e), P.Row(t, p, track);
            s.Success? && s.tables == t && Shows(s.body, p, track, row.xp, row.level)
  {}

  lemma AdditionAnswered(t: Tables, e: Envelope, p: string, track: string)
    requires TextArg(e.args, "trackId", "default") == Good(track) && AddXP(t, p, e).Success?
    ensures var s := AddXP(t, p, e);
            Shows(s.body, p, track, P.Row(s.tables, p, track).xp, P.Row(s.tables, p, track).level)
  {}

  lemma TrackAnswered(defs: Definitions, t: Tables, e: Envelope, p: string, track: string)
    requires Handle(defs, t, e).Done? && Handle(defs, t, e).result.status == "succeeded" && ActsFor(e, p) && TrackIs(e, track)
    requires e.operation in {"progression.get", "progression.add_xp"}
    ensures var o := Handle(defs, t, e);
            Shows(o.result.body, p, track, P.Row(o.state, p, track).xp, P.Row(o.state, p, track).level)
            && (e.operation == "progression.get" ==> o.state == t)
  {
    ProfileNames();
    Codes();
    TextIff(e, "trackId", "default", track);
    if e.operation == "progression.get" {
      HandleIs(defs, t, e, p, ProgressionRead);
      ReadAnswered(t, e, p, track);
      ConcludedIs(ProgressionGet(t, p, e), e);
    } else {
      HandleIs(defs, t, e, p, ProgressionAdd);
      ConcludedIs(AddXP(t, p, e), e);
      if AddXP(t, p, e).Success? { AdditionAnswered(t, e, p, track); }
    }
  }

  /** An addition is accepted exactly when the new total and the row's version can be stored; otherwise it fails. */
  lemma AdditionGoesIff(defs: Definitions, t: Tables, e: Envelope, p: string, track: string, amount: int)
    requires e.operation == "progression.add_xp" && ActsFor(e, p) && TrackIs(e, track) && AmountIs(e, "amount", amount)
    ensures var o, row := Handle(defs, t, e), P.Row(t, p, track);
            && (o.Done? <==> Storable(row.xp + amount) && Storable(row.version + 1))
            && (o.Done? ==> Answers(o, e, t.(progress := t.progress[(p, track) := Progress(row.xp + amount, (row.xp + amount) / 100 + 1, row.version + 1)])))
  {
    ProfileNames();
    TextIff(e, "trackId", "default", track);
    AmountIff(e, "amount", amount);
    HandleIs(defs, t, e, p, ProgressionAdd);
    ConcludedIs(AddXP(t, p, e), e);
  }

  /** MAIN RESULT. An accepted read of a track answers the experience its player has earned on it by accepted
      additions, and the level that follows; an accepted addition answers the new total; reads change nothing. */
  lemma ProgressIsTold(defs: Definitions, h: History, p: string, track: string)
    requires StoresNow(defs, h) && P.Stored(defs, h).status == "succeeded" && ActsFor(h.command, p) && TrackIs(h.command, track)
    requires h.command.operation in {"progression.get", "progression.add_xp"}
    ensures var body, xp := P.Stored(defs, h).body, P.Earned(defs, h, p, track);
            Shows(body, p, track, xp, xp / 100 + 1)
    ensures h.command.operation == "progression.get" ==> TablesAfter(defs, h) == TablesAfter(defs, h.past)
  {
    StoredIsAnswer(defs, h);
    P.ProfileIsEarned(defs, h);
    TrackAnswered(defs, TablesAfter(defs, h.past), h.command, p, track);
    assert P.Row(TablesAfter(defs, h), p, track) == Progress(P.Earned(defs, h, p, track), P.Earned(defs, h, p, track) / 100 + 1, P.Gains(defs, h, p, track));
    assert P.Row(TablesAfter(defs, h), p, track).level == P.Earned(defs, h, p, track) / 100 + 1;
  }

  /** MAIN RESULT. An accepted read of a balance answers what the ledger sums to, off by the account's drift. */
  lemma BalanceIsTold(defs: Definitions, h: History, p: string, c: string)
    requires StoresNow(defs, h) && P.Stored(defs, h).status == "succeeded" && ActsFor(h.command, p) && TextIs(h.command, "currency", c)
    requires h.command.operation == "wallet.get" && p != SYSTEM
    ensures var body := P.Stored(defs, h).body;
            "balance" in body && body["balance"] == Number(LedgerSum(TablesAfter(defs, h).entries, p, c) + Drift(defs, h, p, c))
    ensures TablesAfter(defs, h) == TablesAfter(defs, h.past)
  {
    var t, e := TablesAfter(defs, h.past), h.command;
    StoredIsAnswer(defs, h);
    GapIsDrift(defs, h, p, c);
    MoneyNames();
    ActsForIff(e, p);
    TextIsIff(e, "currency", c);
    HandleIs(defs, t, e, p, WalletRead);
  }

  /** An accepted claim is answered as a duplicate exactly when it changed nothing. */
  lemma DuplicateClaimIff(defs: Definitions, h: History)
    requires StoresNow(defs, h) && P.Stored(defs, h).status == "succeeded" && h.command.operation == "reward.claim"
    ensures var body := P.Stored(defs, h).body;
            "duplicate" in body && (body["duplicate"] == Flag(true) <==> TablesAfter(defs, h).claims == TablesAfter(defs, h.past).claims)
            && (body["duplicate"] == Flag(true) ==> TablesAfter(defs, h) == TablesAfter(defs, h.past))
  {
    StoredIsAnswer(defs, h);
    ClaimAnswered(defs, TablesAfter(defs, h.past), h.command);
  }

  lemma ClaimAnswered(defs: Definitions, t: Tables, e: Envelope)
    requires Handle(defs, t, e).Done? && Handle(defs, t, e).result.status == "succeeded" && e.operation == "reward.claim"
    ensures var o := Handle(defs, t, e);
            "duplicate" in o.result.body
            && (o.result.body["duplicate"] == Flag(true) ==> o.state == t) && (o.result.body["duplicate"] != Flag(true) ==> o.state.claims != t.claims)
  {
    MoneyNames();
    Codes();
    if ResolvePlayer(e).Good? {
      var player := ResolvePlayer(e).value;
      ClaimTold(t, DefinitionFor(defs, e), player, e);
      ConcludedIs(RewardClaim(t, DefinitionFor(defs, e), player, e), e);
    }
  }

  lemma {:induction false} GrantsKeepClaims(t: Tables, request: string, player: string, grants: seq<Grant>, n: nat)
    requires n <= |grants| && !GrantFirst(t, request, player, grants, n).Fault?
    ensures GrantFirst(t, request, player, grants, n).tables.claims == t.claims
  {
    if n > 0 { GrantsKeepClaims(t, request, player, grants, n - 1); }
  }

  lemma ClaimTold(t: Tables, d: Parsed<Definition>, player: string, e: Envelope)
    ensures var s := RewardClaim(t, d, player, e);
            s.Success? ==> "duplicate" in s.body && (s.body["duplicate"] == Flag(true) ==> s.tables == t)
                           && (s.body["duplicate"] != Flag(true) ==> s.tables.claims != t.claims)
  {
    if LoadReward(d, e).Found? && TextArg(e.args, "sourceId", "").Good? {
      var reward, source := LoadReward(d, e).reward, TextArg(e.args, "sourceId", "").value;
      var t1 := t.(claims := t.claims[(player, reward.id, source) := e.requestId]);
      if !GrantFirst(t1, e.requestId, player, reward.grants, |reward.grants|).Fault? {
        GrantsKeepClaims(t1, e.requestId, player, reward.grants, |reward.grants|);
      }
    }
  }

  // ---------------------------------------------------------------- the scan

  /** The difference of a finding is its account's drift, as far as that fits 64 bits. */
  lemma DifferenceIsDrift(defs: Definitions, h: History, findings: seq<Finding>, i: nat)
    requires NoSystemPlayer(h) && IsScan(TablesAfter(defs, h), findings) && i < |findings|
    requires Int64.InRange(Drift(defs, h, findings[i].player, findings[i].currency))
    ensures findings[i].difference == Drift(defs, h, findings[i].player, findings[i].currency)
    ensures findings[i].wallet == Balance(TablesAfter(defs, h), findings[i].player, findings[i].currency)
    ensures findings[i].ledger == LedgerSum(TablesAfter(defs, h).entries, findings[i].player, findings[i].currency)
  {
    ScanReportsDrift(defs, h, findings);
  }
}
