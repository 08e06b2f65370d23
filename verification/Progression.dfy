/** What histories of commands make of experience, objectives and entitlements. */
module Progression {
  import opened Commands
  import opened Economy
  import opened Frames
  import opened CommandStore
  import opened Ledger

  // ---------------------------------------------------------------- what a stored result tells

  /** The result of this command is an accepted `op` for `player`. */
  predicate Accepted(e: Envelope, r: Result, op: Operation, player: string) {
    OperationOf(e.operation) == op && r.status == "succeeded" && ResolvePlayer(e) == Good(player)
  }

  /** Experience gained on one track. */
  function Gain(e: Envelope, r: Result, player: string, track: string): nat {
    if Accepted(e, r, ProgressionAdd, player) && TextArg(e.args, "trackId", "default") == Good(track) && AmountArg(e.args, "amount").Good?
    then AmountArg(e.args, "amount").value else 0
  }

  /** The objective is completed for this source; without a source id it is the request itself. */
  predicate Completes(e: Envelope, r: Result, k: (string, string, string)) {
    && Accepted(e, r, Objective, k.0)
    && TextArg(e.args, "objectiveId", "") == Good(k.1) && TextArg(e.args, "sourceId", e.requestId) == Good(k.2)
  }

  predicate Changes(e: Envelope, r: Result, k: (string, string), grant: bool) {
    Accepted(e, r, if grant then EntitlementGrant else EntitlementRevoke, k.0) && TextArg(e.args, "entitlementId", "") == Good(k.1)
  }

  predicate Owns(t: Tables, k: (string, string)) { k in t.entitlements && t.entitlements[k] }

  function Row(t: Tables, player: string, track: string): Progress {
    if (player, track) in t.progress then t.progress[(player, track)] else Progress(0, 1, 0)
  }

  // ---------------------------------------------------------------- one command, told from its result

  ghost predicate XPTold(t: Tables, t': Tables, e: Envelope, r: Result) {
    forall p, track :: Row(t', p, track) == MoreXP(Row(t, p, track), Gain(e, r, p, track))
  }

  function MoreXP(row: Progress, gain: nat): Progress {
    if gain == 0 then row else Progress(row.xp + gain, (row.xp + gain) / 100 + 1, row.version + 1)
  }

  ghost predicate ObjectivesTold(t: Tables, t': Tables, e: Envelope, r: Result) {
    forall k :: k in t'.objectives <==> k in t.objectives || Completes(e, r, k)
  }

  ghost predicate EntitlementsTold(t: Tables, t': Tables, e: Envelope, r: Result) {
    forall k :: Owns(t', k) <==> Changes(e, r, k, true) || (Owns(t, k) && !Changes(e, r, k, false))
  }

  ghost predicate Told(t: Tables, t': Tables, e: Envelope, r: Result) {
    XPTold(t, t', e, r) && ObjectivesTold(t, t', e, r) && EntitlementsTold(t, t', e, r)
  }

  /** A result that accepts none of the operations on a table tells that the table stays. */
  lemma NothingTold(t: Tables, t': Tables, e: Envelope, r: Result)
    ensures t'.progress == t.progress && (forall p :: !Accepted(e, r, ProgressionAdd, p)) ==> XPTold(t, t', e, r)
    ensures t'.objectives == t.objectives && (forall p :: !Accepted(e, r, Objective, p)) ==> ObjectivesTold(t, t', e, r)
    ensures t'.entitlements == t.entitlements && (forall p :: !Accepted(e, r, EntitlementGrant, p) && !Accepted(e, r, EntitlementRevoke, p))
            ==> EntitlementsTold(t, t', e, r)
  {}

  lemma StatusTells(s: Step, e: Envelope)
    requires !s.Fault?
    ensures Concluded(s, e).result.status == "succeeded" <==> s.Success?
  {
    assert "rejected"[0] != "succeeded"[0];
  }

  lemma AddXPTold(t: Tables, player: string, e: Envelope, r: Result)
    requires OperationOf(e.operation) == ProgressionAdd && ResolvePlayer(e) == Good(player) && !AddXP(t, player, e).Fault?
    requires r.status == "succeeded" <==> AddXP(t, player, e).Success?
    ensures Told(t, AddXP(t, player, e).tables, e, r)
  {
    var t' := AddXP(t, player, e).tables;
    NothingTold(t, t', e, r);
    forall p, track ensures Row(t', p, track) == MoreXP(Row(t, p, track), Gain(e, r, p, track)) {
      assert p != player ==> !Accepted(e, r, ProgressionAdd, p);
    }
  }

  lemma ObjectiveTold(t: Tables, player: string, e: Envelope, r: Result)
    requires OperationOf(e.operation) == Objective && ResolvePlayer(e) == Good(player)
    requires r.status == "succeeded" <==> ObjectiveComplete(t, player, e).Success?
    ensures Told(t, ObjectiveComplete(t, player, e).tables, e, r)
  {
    var t' := ObjectiveComplete(t, player, e).tables;
    NothingTold(t, t', e, r);
    forall k ensures k in t'.objectives <==> k in t.objectives || Completes(e, r, k) {
      assert k.0 != player ==> !Accepted(e, r, Objective, k.0);
    }
  }

  lemma EntitlementTold(t: Tables, player: string, e: Envelope, grant: bool, r: Result)
    requires OperationOf(e.operation) == (if grant then EntitlementGrant else EntitlementRevoke) && ResolvePlayer(e) == Good(player)
    requires r.status == "succeeded" <==> EntitlementChange(t, player, e, grant).Success?
    ensures Told(t, EntitlementChange(t, player, e, grant).tables, e, r)
  {
    var t' := EntitlementChange(t, player, e, grant).tables;
    NothingTold(t, t', e, r);
    forall k ensures Owns(t', k) <==> Changes(e, r, k, true) || (Owns(t, k) && !Changes(e, r, k, false)) {
      assert !Changes(e, r, k, !grant);
    }
  }

  lemma DispatchTold(t: Tables, d: Parsed<Definition>, player: string, e: Envelope, r: Result)
    requires var op := OperationOf(e.operation);
             !op.Unsupported? && !Dispatch(t, d, player, e, op).Fault? && (r.status == "succeeded" <==> Dispatch(t, d, player, e, op).Success?)
    requires ResolvePlayer(e) == Good(player)
    ensures Told(t, Dispatch(t, d, player, e, OperationOf(e.operation)).tables, e, r)
  {
    var op := OperationOf(e.operation);
    var t' := Dispatch(t, d, player, e, op).tables;
    match op
    case ProgressionAdd => AddXPTold(t, player, e, r);
    case Objective => ObjectiveTold(t, player, e, r);
    case EntitlementGrant => EntitlementTold(t, player, e, true, r);
    case EntitlementRevoke => EntitlementTold(t, player, e, false, r);
    case _ =>
      OthersKeepProfile(t, d, player, e, op);
      OtherTold(t, t', e, r);
  }

  lemma OtherTold(t: Tables, t': Tables, e: Envelope, r: Result)
    requires SameProfile(t', t) && !MovesProfile(OperationOf(e.operation))
    ensures Told(t, t', e, r)
  {
    NothingTold(t, t', e, r);
  }

  lemma CommandTold(defs: Definitions, t: Tables, e: Envelope)
    requires Handle(defs, t, e).Done?
    ensures Told(t, Handle(defs, t, e).state, e, Handle(defs, t, e).result)
  {
    var op, d := OperationOf(e.operation), DefinitionFor(defs, e);
    if ResolvePlayer(e).Good? && !op.Unsupported? {
      var s := Dispatch(t, d, ResolvePlayer(e).value, e, op);
      StatusTells(s, e);
      DispatchTold(t, d, ResolvePlayer(e).value, e, Concluded(s, e).result);
    } else {
      NothingTold(t, t, e, Handle(defs, t, e).result);
    }
  }

  // ---------------------------------------------------------------- whole histories

  /** The result stored by the last submission. */
  function Stored(defs: Definitions, h: History): Result
    requires StoresNow(defs, h)
  {
    ResultsAfter(defs, h)[h.command.requestId]
  }

  function Earned(defs: Definitions, h: History, player: string, track: string): nat {
    if h.Start? then 0
    else Earned(defs, h.past, player, track) + if StoresNow(defs, h) then Gain(h.command, Stored(defs, h), player, track) else 0
  }

  function Gains(defs: Definitions, h: History, player: string, track: string): nat {
    if h.Start? then 0
    else Gains(defs, h.past, player, track) + if StoresNow(defs, h) && Gain(h.command, Stored(defs, h), player, track) > 0 then 1 else 0
  }

  predicate Completed(defs: Definitions, h: History, k: (string, string, string)) {
    h.Then? && (Completed(defs, h.past, k) || (StoresNow(defs, h) && Completes(h.command, Stored(defs, h), k)))
  }

  /** The last accepted change of the entitlement is a grant. */
  predicate Entitled(defs: Definitions, h: History, k: (string, string)) {
    h.Then? &&
    if StoresNow(defs, h) && Changes(h.command, Stored(defs, h), k, true) then true
    else if StoresNow(defs, h) && Changes(h.command, Stored(defs, h), k, false) then false
    else Entitled(defs, h.past, k)
  }

  lemma SubmissionTold(defs: Definitions, h: History)
    requires h.Then?
    ensures if StoresNow(defs, h) then Told(TablesAfter(defs, h.past), TablesAfter(defs, h), h.command, Stored(defs, h))
            else TablesAfter(defs, h) == TablesAfter(defs, h.past)
  {
    SubmitStep(defs, h);
    if StoresNow(defs, h) {
      var before, e := TablesAfter(defs, h.past), h.command;
      CommandTold(defs, before, e);
      CompletedTells(before, TablesAfter(defs, h), e, Handle(defs, before, e).result);
    }
  }

  lemma CompletedTells(t: Tables, t': Tables, e: Envelope, r: Result)
    requires Told(t, t', e, r) && r.status != ""
    ensures Told(t, t', e, CommandStore.Completed(r, e))
  {}

  /** MAIN RESULT. After any history, with repeated, failing and unanswered submissions, a player's experience
      on a track is the sum of the accepted additions, each counted once, and the level follows from it; an
      objective is completed exactly when some accepted command completed it; an entitlement is held exactly
      when the last accepted change of it was a grant. */
  lemma {:induction false} ProfileIsEarned(defs: Definitions, h: History)
    ensures forall p, track :: Row(TablesAfter(defs, h), p, track)
                            == Progress(Earned(defs, h, p, track), Earned(defs, h, p, track) / 100 + 1, Gains(defs, h, p, track))
    ensures forall k :: k in TablesAfter(defs, h).objectives <==> Completed(defs, h, k)
    ensures forall k :: Owns(TablesAfter(defs, h), k) <==> Entitled(defs, h, k)
  {
    if h.Then? {
      ProfileIsEarned(defs, h.past);
      SubmissionTold(defs, h);
    }
  }

  /** A completion is answered as a duplicate exactly when an earlier command had completed the objective. */
  lemma DuplicateIffCompleted(defs: Definitions, h: History, k: (string, string, string))
    requires StoresNow(defs, h) && Completes(h.command, Stored(defs, h), k)
    ensures "duplicate" in Stored(defs, h).body
    ensures Stored(defs, h).body["duplicate"] == Flag(Completed(defs, h.past, k))
  {
    SubmitStep(defs, h);
    ProfileIsEarned(defs, h.past);
    StatusTells(ObjectiveComplete(TablesAfter(defs, h.past), k.0, h.command), h.command);
  }

  /** A preview is refused exactly as the claim would be before it looks at its source; when it is not, the claim
      can be refused only for a missing source, and then has written nothing, or for an invalid grant. */
  lemma PreviewForetells(t: Tables, d: Parsed<Definition>, player: string, e: Envelope)
    ensures RewardPreview(t, d, player, e).Fault? ==> RewardClaim(t, d, player, e).Fault?
    ensures RewardPreview(t, d, player, e).Business? ==> RewardClaim(t, d, player, e) == RewardPreview(t, d, player, e)
    ensures RewardPreview(t, d, player, e).Success? && TextArg(e.args, "sourceId", "").Bad? ==> RewardClaim(t, d, player, e) == Business(t, InvalidArgument)
    ensures RewardPreview(t, d, player, e).Success? && TextArg(e.args, "sourceId", "").Good? && RewardClaim(t, d, player, e).Business? ==>
              RewardClaim(t, d, player, e).failure == InvalidReward
  {
    var load := LoadReward(d, e);
    if load.Found? && TextArg(e.args, "sourceId", "").Good? {
      var t1 := t.(claims := t.claims[(player, load.reward.id, TextArg(e.args, "sourceId", "").value) := e.requestId]);
      OnlyInvalidReward(t1, e.requestId, player, load.reward.grants, |load.reward.grants|);
    }
  }

  lemma {:induction false} OnlyInvalidReward(t: Tables, request: string, player: string, grants: seq<Grant>, n: nat)
    requires n <= |grants|
    ensures GrantFirst(t, request, player, grants, n).Business? ==> GrantFirst(t, request, player, grants, n).failure == InvalidReward
  {
    if n > 0 {
      OnlyInvalidReward(t, request, player, grants, n - 1);
    }
  }
}
