/** Match results: one accepted result per match, its rewards paid in the same transaction, and evidence of
a conflicting duplicate kept after the rollback. */
module ResultFinalizer {
  import opened Commands
  import opened Economy
  import Frames
  import opened Ordering
  import Conservation
  import opened Ledger
  import M = Matches
  import Roster

  /** The digest of canonical text; a client may also send any other text as a digest. */
  datatype Digest = NoDigest | DigestOf(canonical: string) | Foreign(text: string)

  /** A payload that is JSON, with the player ids it lists (none when the list is missing or malformed). */
  datatype Payload = NotJson | Json(canonical: string, players: seq<string>)

  datatype Submission = Submission(matchId: string, sequence: int, payload: Payload, digest: Digest, correlationId: string)

  datatype Conflict = Conflict(matchId: string, sequence: int, accepted: Digest, conflicting: Digest, correlationId: string)

  datatype Notice = Accepted(matchId: string, sequence: int, digest: Digest, correlationId: string)
                  | Completed(matchId: string, sequence: int, digest: Digest, correlationId: string)

  datatype World = World(matches: map<string, M.MatchRow>, rosters: map<string, seq<string>>,
                         results: map<(string, int), Digest>, conflicts: seq<Conflict>, outbox: seq<Notice>, economy: Tables)

  datatype Problem = UnknownMatch | NotAccepting | NoDefinition | NoMode | InvalidResult | DigestMismatch | BadPlayers
                   | NotInRoster | NotRunning | RewardRejected

  datatype Verdict = Finalized(world: World, digest: Digest) | Duplicate(digest: Digest) | Refused(problem: Problem, digest: Digest)

  // ---------------------------------------------------------------- checking a submission

  datatype Checked = Valid(digest: Digest) | Invalid(problem: Problem)

  function Validate(s: Submission): Checked {
    if s.matchId == "" || s.sequence < 1 || s.payload.NotJson? then Invalid(InvalidResult)
    else if s.digest != NoDigest && s.digest != DigestOf(s.payload.canonical) then Invalid(DigestMismatch)
    else Valid(DigestOf(s.payload.canonical))
  }

  /** At least one player, none of them empty, none twice. */
  predicate PlayersListed(players: seq<string>) {
    && players != [] && (forall i :: 0 <= i < |players| ==> players[i] != "")
    && (forall i, j :: 0 <= i < j < |players| ==> players[i] != players[j])
  }

  predicate InRoster(players: seq<string>, roster: seq<string>) {
    forall i :: 0 <= i < |players| ==> players[i] in roster
  }

  function RosterOf(w: World, id: string): seq<string> {
    if id in w.rosters then w.rosters[id] else []
  }

  // ---------------------------------------------------------------- rewards

  function SequenceText(sequence: int): string { if sequence >= 0 then Roster.Itoa(sequence) else "" }

  function RewardRequest(s: Submission, player: string): string {
    s.matchId + ":" + SequenceText(s.sequence) + ":reward:" + player
  }

  function RewardSource(s: Submission): string { "match:" + s.matchId + ":" + SequenceText(s.sequence) }

  function RewardCommand(row: M.MatchRow, s: Submission, reward: string, player: string): Envelope {
    Envelope(RewardRequest(s, player), s.correlationId, row.gameId, row.environment, row.revision, "match-server", player,
             "reward.claim", map["rewardId" := Text(reward), "sourceId" := Text(RewardSource(s))])
  }

  function PayOne(defs: Definitions, t: Tables, row: M.MatchRow, s: Submission, reward: string, player: string): Parsed<Tables> {
    match Handle(defs, t, RewardCommand(row, s, reward, player))
    case Failed => Bad
    case Done(t1, r) => if r.status == "succeeded" then Good(t1) else Bad
  }

  type Payer = (Tables, string) -> Parsed<Tables>

  function PayerFor(defs: Definitions, row: M.MatchRow, s: Submission, reward: string): Payer {
    (t, player) => PayOne(defs, t, row, s, reward, player)
  }

  /** Claims for the first `n` players; anything but success stops it. */
  function PayFirst(pay: Payer, t: Tables, players: seq<string>, n: nat): Parsed<Tables>
    requires n <= |players|
  {
    if n == 0 then Good(t)
    else match PayFirst(pay, t, players, n - 1)
      case Bad => Bad
      case Good(t1) => pay(t1, players[n - 1])
  }

  function PayRoster(defs: Definitions, t: Tables, row: M.MatchRow, s: Submission, reward: string, roster: seq<string>): Parsed<Tables> {
    var players := Sorted(StringLess, roster);
    if reward == "" then Good(t) else PayFirst(PayerFor(defs, row, s, reward), t, players, |players|)
  }

  // ---------------------------------------------------------------- one submission

  function Record(w: World, defs: Definitions, s: Submission, digest: Digest, reward: string, now: int): Verdict
    requires s.matchId in w.matches
  {
    var key, row := (s.matchId, s.sequence), w.matches[s.matchId];
    if key in w.results then
      if w.results[key] == digest then Duplicate(digest) else Refused(DigestMismatch, w.results[key])
    else if !M.Enabled(row.status, M.Finalize) then Refused(NotRunning, digest)
    else match PayRoster(defs, w.economy, row, s, reward, RosterOf(w, s.matchId))
      case Bad => Refused(RewardRejected, digest)
      case Good(t) =>
        var closed := M.Moved(M.Moved(row, M.Finalize, now), M.Complete, now);
        Finalized(World(w.matches[s.matchId := closed], w.rosters, w.results[key := digest], w.conflicts,
                        w.outbox + [Accepted(s.matchId, s.sequence, digest, if s.correlationId == "" then s.matchId else s.correlationId),
                                    Completed(s.matchId, s.sequence, digest, s.correlationId)], t), digest)
  }

  function Submit(w: World, defs: Definitions, s: Submission, now: int): Verdict {
    if s.matchId !in w.matches then Refused(UnknownMatch, NoDigest)
    else
      var row := w.matches[s.matchId];
      if (row.gameId, row.revision) !in defs then Refused(NoDefinition, NoDigest)
      else match FindMode(defs[(row.gameId, row.revision)].modes, row.modeId)
        case Bad => Refused(NoMode, NoDigest)
        case Good(mode) =>
          match Validate(s)
          case Invalid(problem) => Refused(problem, NoDigest)
          case Valid(digest) =>
            if !PlayersListed(s.payload.players) then Refused(BadPlayers, NoDigest)
            else if !InRoster(s.payload.players, RosterOf(w, s.matchId)) then Refused(NotInRoster, NoDigest)
            else Record(w, defs, s, digest, mode.rewardId, now)
  }

  function RecordConflict(w: World, c: Conflict, now: int): World {
    if c.matchId == "" || c.sequence < 1 || c.accepted == NoDigest || c.conflicting == NoDigest then w
    else
      var filed := if c.correlationId == "" then c.(correlationId := c.matchId) else c;
      w.(conflicts := w.conflicts + [filed],
         matches := if M.CanWrite(w.matches, c.matchId, M.Dispute)
                    then w.matches[c.matchId := M.Moved(w.matches[c.matchId], M.Dispute, now)] else w.matches)
  }

  /** The digest the endpoint files against the accepted one. */
  function ConflictingDigest(s: Submission): Digest {
    match Validate(s.(digest := NoDigest))
    case Valid(digest) => digest
    case Invalid(_) => s.digest
  }

  predicate AcceptsResults(state: M.State) { state.Running? || state.Finalizing? || state.Completed? }

  /** The endpoint: commits an accepted result, rolls anything else back, and reports a conflict. */
  function Post(w: World, defs: Definitions, s: Submission, now: int): (World, Verdict) {
    if s.matchId !in w.matches then (w, Refused(UnknownMatch, NoDigest))
    else if !AcceptsResults(w.matches[s.matchId].status.state) then (w, Refused(NotAccepting, NoDigest))
    else
      var verdict := Submit(w, defs, s, now);
      match verdict
      case Finalized(w1, _) => (w1, verdict)
      case Duplicate(_) => (w, verdict)
      case Refused(problem, digest) =>
        (if problem.DigestMismatch?
         then RecordConflict(w, Conflict(s.matchId, s.sequence, digest, ConflictingDigest(s), s.correlationId), now) else w, verdict)
  }

  // ---------------------------------------------------------------- one reward claim

  function RequestsOf(t: Tables): set<string> { set k | k in t.claims :: t.claims[k] }

  /** The claim of `player` would be a new one. */
  predicate Fresh(t: Tables, d: Definition, s: Submission, reward: string, player: string) {
    && FindReward(d.rewards, reward).Good?
    && !(FindReward(d.rewards, reward).value.oncePerPlayer && HasClaimed(t, player, reward))
    && !ClaimConflict(t, player, reward, RewardSource(s), RewardRequest(s, player))
  }

  lemma SourceIsText(row: M.MatchRow, s: Submission, reward: string, player: string)
    ensures TextArg(RewardCommand(row, s, reward, player).args, "sourceId", "") == Good(RewardSource(s))
  {
    assert RewardSource(s)[0] == 'm' && !Roster.IsSpace('m');
    assert !Roster.Blank(RewardSource(s));
  }

  lemma HandleClaim(defs: Definitions, t: Tables, e: Envelope)
    requires e.operation == "reward.claim"
    ensures match ResolvePlayer(e)
            case Bad => Handle(defs, t, e) == Done(t, Rejected(e, "INVALID_ARGUMENT"))
            case Good(player) => Handle(defs, t, e) == Concluded(RewardClaim(t, DefinitionFor(defs, e), player, e), e)
  {
    assert OperationOf("reward.claim") == Claim;
  }

  lemma SucceededIsSuccess(step: Step, e: Envelope)
    requires Concluded(step, e).Done? && Concluded(step, e).result.status == "succeeded"
    ensures step.Success? && Concluded(step, e).state == step.tables
  {
    assert "rejected"[0] != "succeeded"[0];
  }

  /** A successful reward command is a claim by a named player for a reward of the definition. */
  lemma PayOneIsClaim(defs: Definitions, t: Tables, row: M.MatchRow, s: Submission, reward: string, player: string)
    requires PayOne(defs, t, row, s, reward, player).Good?
    ensures var e := RewardCommand(row, s, reward, player);
            var d := DefinitionFor(defs, e);
            && player != "" && d.Good? && FindReward(d.value.rewards, reward).Good?
            && LoadReward(d, e) == Found(FindReward(d.value.rewards, reward).value)
            && RewardClaim(t, d, player, e).Success?
            && PayOne(defs, t, row, s, reward, player) == Good(RewardClaim(t, d, player, e).tables)
  {
    var e := RewardCommand(row, s, reward, player);
    HandleClaim(defs, t, e);
    assert ResolvePlayer(e) == if player == "" then Bad else Good(player);
    assert player != "" by { assert "rejected"[0] != "succeeded"[0]; }
    SucceededIsSuccess(RewardClaim(t, DefinitionFor(defs, e), player, e), e);
    assert TextArg(e.args, "rewardId", "") == if Roster.Blank(reward) then Bad else Good(reward);
  }

  lemma ClaimEffect(t: Tables, d: Parsed<Definition>, e: Envelope, player: string, reward: Reward, source: string, p: string, c: string)
    requires LoadReward(d, e) == Found(reward) && TextArg(e.args, "sourceId", "") == Good(source)
    requires RewardClaim(t, d, player, e).Success? && c != ""
    ensures var t' := RewardClaim(t, d, player, e).tables;
            if (reward.oncePerPlayer && HasClaimed(t, player, reward.id)) || ClaimConflict(t, player, reward.id, source, e.requestId)
            then t' == t
            else t'.claims == t.claims[(player, reward.id, source) := e.requestId]
                 && Balance(t', p, c) == Balance(t, p, c) +
                      (if p == player then Conservation.Paid(reward.grants, |reward.grants|, c) else 0)
  {
    if !((reward.oncePerPlayer && HasClaimed(t, player, reward.id)) || ClaimConflict(t, player, reward.id, source, e.requestId)) {
      var t1 := t.(claims := t.claims[(player, reward.id, source) := e.requestId]);
      Conservation.GrantsPay(t1, e.requestId, player, reward.grants, |reward.grants|, p, c, "i");
    }
  }

  /** The effect of one successful reward claim: a new row and exact payment, or nothing at all. */
  ghost predicate OneClaim(t: Tables, t': Tables, d: Definition, s: Submission, reward: string, player: string) {
    && FindReward(d.rewards, reward).Good?
    && if Fresh(t, d, s, reward, player)
       then && t'.claims == t.claims[(player, reward, RewardSource(s)) := RewardRequest(s, player)]
            && forall p, c :: c != "" ==> Balance(t', p, c) == Balance(t, p, c) + Pay(d, reward, p == player, c)
       else t' == t
  }

  /** What a reward pays in one currency to a player it is paid to. */
  function Pay(d: Definition, reward: string, paid: bool, currency: string): int {
    if paid && FindReward(d.rewards, reward).Good?
    then Conservation.Paid(FindReward(d.rewards, reward).value.grants, |FindReward(d.rewards, reward).value.grants|, currency) else 0
  }

  lemma PayOneEffect(defs: Definitions, t: Tables, row: M.MatchRow, s: Submission, reward: string, player: string, t': Tables)
    requires PayOne(defs, t, row, s, reward, player) == Good(t')
    ensures (row.gameId, row.revision) in defs && OneClaim(t, t', defs[(row.gameId, row.revision)], s, reward, player)
  {
    var e := RewardCommand(row, s, reward, player);
    PayOneIsClaim(defs, t, row, s, reward, player);
    SourceIsText(row, s, reward, player);
    var d := DefinitionFor(defs, e);
    var spec := FindReward(d.value.rewards, reward).value;
    ClaimEffect(t, d, e, player, spec, RewardSource(s), player, "c");
    forall p, c | c != "" && Fresh(t, d.value, s, reward, player)
      ensures Balance(t', p, c) == Balance(t, p, c) + Pay(d.value, reward, p == player, c)
    {
      ClaimEffect(t, d, e, player, spec, RewardSource(s), p, c);
    }
  }

  /** A payer whose every success is one claim. */
  ghost predicate Claims(pay: Payer, d: Definition, s: Submission, reward: string) {
    forall t, q, t' :: pay(t, q) == Good(t') ==> OneClaim(t, t', d, s, reward, q)
  }

  lemma PayerClaims(defs: Definitions, row: M.MatchRow, s: Submission, reward: string)
    requires (row.gameId, row.revision) in defs
    ensures Claims(PayerFor(defs, row, s, reward), defs[(row.gameId, row.revision)], s, reward)
  {
    var pay := PayerFor(defs, row, s, reward);
    forall t, q, t' | pay(t, q) == Good(t') ensures OneClaim(t, t', defs[(row.gameId, row.revision)], s, reward, q) {
      PayOneEffect(defs, t, row, s, reward, q, t');
    }
  }

  // ---------------------------------------------------------------- the whole roster

  lemma RequestsDiffer(s: Submission, p: string, q: string)
    ensures RewardRequest(s, p) == RewardRequest(s, q) <==> p == q
  {
    var prefix := s.matchId + ":" + SequenceText(s.sequence) + ":reward:";
    assert RewardRequest(s, p)[|prefix|..] == p && RewardRequest(s, q)[|prefix|..] == q;
  }

  /** A claim of one player leaves the standing of every other player alone. */
  lemma OtherStaysFresh(t: Tables, t': Tables, d: Definition, s: Submission, reward: string, player: string, p: string)
    requires p != player
    requires t' == t || t'.claims == t.claims[(player, reward, RewardSource(s)) := RewardRequest(s, player)]
    requires (player, reward, RewardSource(s)) !in t.claims || t' == t
    ensures HasClaimed(t', p, reward) <==> HasClaimed(t, p, reward)
    ensures Fresh(t', d, s, reward, p) <==> Fresh(t, d, s, reward, p)
    ensures RewardRequest(s, p) in RequestsOf(t') <==> RewardRequest(s, p) in RequestsOf(t)
  {
    if t' != t {
      var key := (player, reward, RewardSource(s));
      RequestsDiffer(s, p, player);
      assert forall k :: k in t.claims ==> k in t'.claims && t'.claims[k] == t.claims[k];
      assert forall k :: k in t'.claims ==> k == key || (k in t.claims && t'.claims[k] == t.claims[k]);
      if RewardRequest(s, p) in RequestsOf(t) {
        var k :| k in t.claims && t.claims[k] == RewardRequest(s, p);
        assert k in t'.claims && t'.claims[k] == RewardRequest(s, p);
      }
      assert (exists k :: k in t'.claims && t'.claims[k] == RewardRequest(s, p))
        <==> (exists k :: k in t.claims && t.claims[k] == RewardRequest(s, p));
    }
  }

  /** What the player of a claim has afterwards: a claim on the reward, unless its request id was taken. */
  lemma OwnClaim(t: Tables, t': Tables, d: Definition, s: Submission, reward: string, p: string)
    requires FindReward(d.rewards, reward).Good?
    requires if Fresh(t, d, s, reward, p) then t'.claims == t.claims[(p, reward, RewardSource(s)) := RewardRequest(s, p)] else t' == t
    ensures HasClaimed(t', p, reward) <==> HasClaimed(t, p, reward) || RewardRequest(s, p) !in RequestsOf(t)
    ensures (p, reward, RewardSource(s)) in t'.claims <==> (p, reward, RewardSource(s)) in t.claims || Fresh(t, d, s, reward, p)
  {
    var key := (p, reward, RewardSource(s));
    assert RewardRequest(s, p) in RequestsOf(t) <==> exists k :: k in t.claims && t.claims[k] == RewardRequest(s, p);
    if Fresh(t, d, s, reward, p) {
      assert key in t'.claims;
    } else {
      assert key in t.claims ==> HasClaimed(t, p, reward);
    }
  }

  /** How paying the first n players changes what one player has. */
  ghost predicate Rewarded(t: Tables, t': Tables, d: Definition, s: Submission, reward: string, reached: bool, p: string) {
    && (forall c :: c != "" ==> Balance(t', p, c) == Balance(t, p, c) + Pay(d, reward, reached && Fresh(t, d, s, reward, p), c))
    && (HasClaimed(t', p, reward) <==> HasClaimed(t, p, reward) || (reached && RewardRequest(s, p) !in RequestsOf(t)))
    && ((p, reward, RewardSource(s)) in t'.claims <==>
          (p, reward, RewardSource(s)) in t.claims || (reached && Fresh(t, d, s, reward, p)))
    && (!reached ==> (Fresh(t', d, s, reward, p) <==> Fresh(t, d, s, reward, p))
                     && (RewardRequest(s, p) in RequestsOf(t') <==> RewardRequest(s, p) in RequestsOf(t)))
  }

  lemma OneMorePlayer(t: Tables, t1: Tables, t': Tables, d: Definition, s: Submission, reward: string, q: string,
                      reached: bool, p: string)
    requires Rewarded(t, t1, d, s, reward, reached, p) && (q == p ==> !reached)
    requires OneClaim(t1, t', d, s, reward, q)
    ensures Rewarded(t, t', d, s, reward, reached || q == p, p)
  {
    if q == p {
      OwnClaim(t1, t', d, s, reward, p);
    } else {
      OtherStaysFresh(t1, t', d, s, reward, q, p);
    }
  }

  lemma {:induction false} PayFirstEffect(pay: Payer, t: Tables, d: Definition, s: Submission, reward: string, players: seq<string>,
                                          n: nat, p: string, t': Tables)
    requires n <= |players| && Distinct(players) && Claims(pay, d, s, reward)
    requires PayFirst(pay, t, players, n) == Good(t')
    ensures Rewarded(t, t', d, s, reward, p in players[..n], p)
  {
    if n > 0 {
      var q, t1 := players[n - 1], PayFirst(pay, t, players, n - 1).value;
      PayFirstEffect(pay, t, d, s, reward, players, n - 1, p, t1);
      ReachedNext(players, n - 1, p);
      assert OneClaim(t1, t', d, s, reward, q);
      OneMorePlayer(t, t1, t', d, s, reward, q, p in players[..n - 1], p);
    }
  }

  lemma ReachedNext(players: seq<string>, n: nat, p: string)
    requires n < |players| && Distinct(players)
    ensures p in players[..n + 1] <==> p in players[..n] || players[n] == p
    ensures players[n] == p ==> p !in players[..n]
  {
    assert players[..n + 1] == players[..n] + [players[n]];
  }

  /** No claim is lost, and new ones are for this reward, this match result and a player reached. */
  ghost predicate ClaimsGrow(t: Tables, t': Tables, s: Submission, reward: string, reached: seq<string>) {
    && (forall k :: k in t.claims ==> k in t'.claims && t'.claims[k] == t.claims[k])
    && (forall k :: k in t'.claims ==> k in t.claims || (k.0 in reached && k.1 == reward && k.2 == RewardSource(s)))
  }

  lemma {:induction false} PayFirstClaims(pay: Payer, t: Tables, d: Definition, s: Submission, reward: string, players: seq<string>,
                                          n: nat, t': Tables)
    requires n <= |players| && Claims(pay, d, s, reward) && PayFirst(pay, t, players, n) == Good(t')
    ensures ClaimsGrow(t, t', s, reward, players[..n])
  {
    if n > 0 {
      var q, t1 := players[n - 1], PayFirst(pay, t, players, n - 1).value;
      PayFirstClaims(pay, t, d, s, reward, players, n - 1, t1);
      assert players[..n] == players[..n - 1] + [q];
      assert OneClaim(t1, t', d, s, reward, q);
    }
  }

  // ---------------------------------------------------------------- the effect of a finalization

  lemma PayRosterEffect(defs: Definitions, t: Tables, row: M.MatchRow, s: Submission, reward: string, roster: seq<string>, t': Tables)
    requires Distinct(roster) && reward != "" && (row.gameId, row.revision) in defs
    requires PayRoster(defs, t, row, s, reward, roster) == Good(t')
    ensures forall p :: Rewarded(t, t', defs[(row.gameId, row.revision)], s, reward, p in roster, p)
    ensures ClaimsGrow(t, t', s, reward, roster)
  {
    var players, d, pay := Sorted(StringLess, roster), defs[(row.gameId, row.revision)], PayerFor(defs, row, s, reward);
    SortedMembers(StringLess, roster);
    PayerClaims(defs, row, s, reward);
    assert players[..|players|] == players;
    PayFirstClaims(pay, t, d, s, reward, players, |players|, t');
    forall p ensures Rewarded(t, t', d, s, reward, p in roster, p) {
      PayFirstEffect(pay, t, d, s, reward, players, |players|, p, t');
    }
  }

  /** The reward the match's mode pays, empty when there is none. */
  function RewardFor(w: World, defs: Definitions, id: string): string {
    if id !in w.matches || (w.matches[id].gameId, w.matches[id].revision) !in defs then ""
    else match FindMode(defs[(w.matches[id].gameId, w.matches[id].revision)].modes, w.matches[id].modeId)
      case Bad => ""
      case Good(mode) => mode.rewardId
  }

  function DefinitionOf(w: World, defs: Definitions, id: string): Definition {
    if id in w.matches && (w.matches[id].gameId, w.matches[id].revision) in defs
    then defs[(w.matches[id].gameId, w.matches[id].revision)] else Definition([], [], [], [])
  }

  /** What one finalization leaves of everything but the economy. */
  ghost predicate MatchClosed(w: World, w': World, s: Submission, digest: Digest) {
    && s.matchId in w.matches && s.payload.Json? && digest == DigestOf(s.payload.canonical)
    && w.matches[s.matchId].status.state in {M.Running, M.Finalizing}
    && (s.matchId, s.sequence) !in w.results && w'.results == w.results[(s.matchId, s.sequence) := digest]
    && w'.matches.Keys == w.matches.Keys
    && (forall id :: id in w.matches && id != s.matchId ==> w'.matches[id] == w.matches[id])
    && w'.matches[s.matchId].status == M.Status(M.Completed, w.matches[s.matchId].status.version + 2)
    && w'.rosters == w.rosters && w'.conflicts == w.conflicts && |w'.outbox| == |w.outbox| + 2
    && PlayersListed(s.payload.players) && InRoster(s.payload.players, RosterOf(w, s.matchId))
  }

  predicate Earns(w: World, defs: Definitions, s: Submission, p: string) {
    p in RosterOf(w, s.matchId) && Fresh(w.economy, DefinitionOf(w, defs, s.matchId), s, RewardFor(w, defs, s.matchId), p)
  }

  /** Every player who earns the reward, and nobody else, gets exactly its grants. */
  ghost predicate PaysRoster(w: World, w': World, defs: Definitions, s: Submission) {
    var reward, d := RewardFor(w, defs, s.matchId), DefinitionOf(w, defs, s.matchId);
    forall p, c :: c != "" ==> Balance(w'.economy, p, c) == Balance(w.economy, p, c) + Pay(d, reward, Earns(w, defs, s, p), c)
  }

  /** MAIN RESULT. A finalization closes the match with this digest, and in the same commit every roster
      player with a fresh claim, and nobody else, is paid exactly the grants of the mode's reward. */
  lemma FinalizationPays(w: World, defs: Definitions, s: Submission, now: int)
    requires Submit(w, defs, s, now).Finalized? && Distinct(RosterOf(w, s.matchId))
    ensures var w', reward := Submit(w, defs, s, now).world, RewardFor(w, defs, s.matchId);
            && MatchClosed(w, w', s, Submit(w, defs, s, now).digest)
            && (reward == "" ==> w'.economy == w.economy)
            && (reward != "" ==> PaysRoster(w, w', defs, s) && ClaimsGrow(w.economy, w'.economy, s, reward, RosterOf(w, s.matchId)))
  {
    var reward, row, w' := RewardFor(w, defs, s.matchId), w.matches[s.matchId], Submit(w, defs, s, now).world;
    if reward != "" {
      var d := defs[(row.gameId, row.revision)];
      PayRosterEffect(defs, w.economy, row, s, reward, RosterOf(w, s.matchId), w'.economy);
      forall p, c | c != ""
        ensures Balance(w'.economy, p, c) == Balance(w.economy, p, c) + Pay(d, reward, Earns(w, defs, s, p), c)
      {
        assert Rewarded(w.economy, w'.economy, d, s, reward, p in RosterOf(w, s.matchId), p);
      }
    }
  }

  /** MAIN RESULT. After a finalization a roster player holds a claim on the reward exactly when he held one
      before or his reward request id was unused; with unused request ids, every roster player holds one. */
  lemma RosterHoldsClaims(w: World, defs: Definitions, s: Submission, now: int, p: string)
    requires Submit(w, defs, s, now).Finalized? && Distinct(RosterOf(w, s.matchId))
    requires RewardFor(w, defs, s.matchId) != "" && p in RosterOf(w, s.matchId)
    ensures var w', reward := Submit(w, defs, s, now).world, RewardFor(w, defs, s.matchId);
            HasClaimed(w'.economy, p, reward) <==> HasClaimed(w.economy, p, reward) || RewardRequest(s, p) !in RequestsOf(w.economy)
  {
    var reward, row := RewardFor(w, defs, s.matchId), w.matches[s.matchId];
    var t' := Submit(w, defs, s, now).world.economy;
    PayRosterEffect(defs, w.economy, row, s, reward, RosterOf(w, s.matchId), t');
    assert Rewarded(w.economy, t', defs[(row.gameId, row.revision)], s, reward, true, p);
  }

  /** A post that does not finalize pays nothing and stores no result. It changes something only
      when the endpoint reports a conflict: a stored result met with a different digest, which is filed and
      turns a Running, Finalizing or Completed match into a Disputed one. */
  lemma OnlyFinalizationPays(w: World, defs: Definitions, s: Submission, now: int)
    ensures var (w', verdict) := Post(w, defs, s, now);
            && (!verdict.Finalized? ==> w'.economy == w.economy && w'.results == w.results && w'.rosters == w.rosters && w'.outbox == w.outbox)
            && (!verdict.Finalized? && w' != w ==>
                && (s.matchId, s.sequence) in w.results && s.payload.Json?
                && w.results[(s.matchId, s.sequence)] != DigestOf(s.payload.canonical)
                && |w'.conflicts| == |w.conflicts| + 1
                && w'.conflicts[|w.conflicts|].accepted == w.results[(s.matchId, s.sequence)]
                && w'.conflicts[|w.conflicts|].conflicting == DigestOf(s.payload.canonical)
                && w'.matches[s.matchId].status.state == M.Disputed)
  {
    if s.matchId in w.matches && AcceptsResults(w.matches[s.matchId].status.state) {
      SubmitRefusals(w, defs, s, now);
    }
  }

  /** Where a digest mismatch comes from: the client's own digest, and then there is nothing to file, or a
      stored result of other content. */
  lemma SubmitRefusals(w: World, defs: Definitions, s: Submission, now: int)
    ensures var verdict := Submit(w, defs, s, now);
            verdict.Refused? && verdict.problem.DigestMismatch? && verdict.digest != NoDigest ==>
              && s.matchId != "" && s.sequence >= 1 && s.payload.Json? && (s.matchId, s.sequence) in w.results
              && verdict.digest == w.results[(s.matchId, s.sequence)] != DigestOf(s.payload.canonical)
              && ConflictingDigest(s) == DigestOf(s.payload.canonical)
  {}

  // ---------------------------------------------------------------- whole histories

  /** What happens to the tables: posts of results, economy commands, and the other writers of match states. */
  datatype Op = PostResult(s: Submission, now: int) | RunCommand(e: Envelope) | WriteMatch(id: string, writer: M.Writer, at: int)

  datatype History = Start | Then(past: History, op: Op)

  function Perform(w: World, defs: Definitions, op: Op): World {
    match op
    case PostResult(s, now) => Post(w, defs, s, now).0
    case RunCommand(e) => if Handle(defs, w.economy, e).Done? then w.(economy := Handle(defs, w.economy, e).state) else w
    case WriteMatch(id, writer, at) =>
      if M.CanWrite(w.matches, id, writer) && !writer.Finalize? && !writer.Complete? && !writer.Dispute?
      then w.(matches := w.matches[id := M.Moved(w.matches[id], writer, at)]) else w
  }

  function After(w: World, defs: Definitions, h: History): World {
    match h
    case Start => w
    case Then(past, op) => Perform(After(w, defs, past), defs, op)
  }

  /** Whether the last operation of a history finalizes match `id`. */
  predicate FinalizesLast(w: World, defs: Definitions, h: History, id: string) {
    h.Then? && h.op.PostResult? && h.op.s.matchId == id && Post(After(w, defs, h.past), defs, h.op.s, h.op.now).1.Finalized?
  }

  function Finalizations(w: World, defs: Definitions, h: History, id: string): nat {
    if h.Start? then 0 else Finalizations(w, defs, h.past, id) + if FinalizesLast(w, defs, h, id) then 1 else 0
  }

  predicate HasResult(w: World, id: string) {
    exists k :: k in w.results && k.0 == id
  }

  /** A match with a result accepts no further one. */
  predicate ResultClosesMatch(w: World, id: string) {
    HasResult(w, id) ==> id in w.matches && w.matches[id].status.state in {M.Completed, M.Disputed}
  }

  lemma StepKeepsClosed(w: World, defs: Definitions, op: Op, id: string)
    requires ResultClosesMatch(w, id)
    ensures ResultClosesMatch(Perform(w, defs, op), id)
    ensures HasResult(w, id) ==> HasResult(Perform(w, defs, op), id)
    ensures op.PostResult? && op.s.matchId == id && Post(w, defs, op.s, op.now).1.Finalized? ==>
              !HasResult(w, id) && HasResult(Perform(w, defs, op), id)
  {
    if op.PostResult? {
      PostKeepsClosed(w, defs, op.s, op.now, id);
    }
  }

  lemma PostKeepsClosed(w: World, defs: Definitions, s: Submission, now: int, id: string)
    requires ResultClosesMatch(w, id)
    ensures var (w', verdict) := Post(w, defs, s, now);
            && ResultClosesMatch(w', id) && (HasResult(w, id) ==> HasResult(w', id))
            && (s.matchId == id && verdict.Finalized? ==> !HasResult(w, id) && HasResult(w', id))
  {
    var (w', verdict) := Post(w, defs, s, now);
    if verdict.Finalized? {
      assert w'.results == w.results[(s.matchId, s.sequence) := verdict.digest];
      assert (s.matchId, s.sequence) in w'.results;
      if HasResult(w, id) {
        var k :| k in w.results && k.0 == id;
        assert k in w'.results;
      }
    } else {
      OnlyFinalizationPays(w, defs, s, now);
    }
  }

  /** MAIN RESULT. Over any history of first posts, replays, conflicting posts, commands and other match
      writers, a match is finalized, and so its reward paid, at most once: exactly once if it has a result. */
  lemma {:induction false} FinalizedAtMostOnce(w: World, defs: Definitions, h: History, id: string)
    requires w.results == map[]
    ensures Finalizations(w, defs, h, id) == if HasResult(After(w, defs, h), id) then 1 else 0
    ensures ResultClosesMatch(After(w, defs, h), id)
  {
    if h.Then? {
      FinalizedAtMostOnce(w, defs, h.past, id);
      StepKeepsClosed(After(w, defs, h.past), defs, h.op, id);
      if !FinalizesLast(w, defs, h, id) {
        OtherStepsAddNoResult(After(w, defs, h.past), defs, h.op, id);
      }
    }
  }

  lemma OtherStepsAddNoResult(w: World, defs: Definitions, op: Op, id: string)
    requires !(op.PostResult? && op.s.matchId == id && Post(w, defs, op.s, op.now).1.Finalized?)
    ensures HasResult(Perform(w, defs, op), id) ==> HasResult(w, id)
  {
    if op.PostResult? {
      if Post(w, defs, op.s, op.now).1.Finalized? {
        var verdict := Post(w, defs, op.s, op.now).1;
        assert Perform(w, defs, op).results == w.results[(op.s.matchId, op.s.sequence) := verdict.digest];
      } else {
        OnlyFinalizationPays(w, defs, op.s, op.now);
      }
    }
  }

  // ---------------------------------------------------------------- replays

  predicate SameMatch(a: M.MatchRow, b: M.MatchRow) {
    a.gameId == b.gameId && a.revision == b.revision && a.modeId == b.modeId
  }

  /** What stays true once a result was accepted under this match and sequence. */
  predicate Closed(w: World, s: Submission, row: M.MatchRow, roster: seq<string>) {
    && s.matchId in w.matches && SameMatch(w.matches[s.matchId], row) && w.matches[s.matchId].status.state in {M.Completed, M.Disputed}
    && RosterOf(w, s.matchId) == roster && s.payload.Json?
    && (s.matchId, s.sequence) in w.results && w.results[(s.matchId, s.sequence)] == DigestOf(s.payload.canonical)
  }

  lemma RecordKeepsClosed(w: World, defs: Definitions, other: Submission, digest: Digest, reward: string, now: int,
                          s: Submission, row: M.MatchRow, roster: seq<string>)
    requires Closed(w, s, row, roster) && other.matchId in w.matches
    ensures var verdict := Record(w, defs, other, digest, reward, now); verdict.Finalized? ==> Closed(verdict.world, s, row, roster)
  {}

  lemma ConflictKeepsClosed(w: World, c: Conflict, now: int, s: Submission, row: M.MatchRow, roster: seq<string>)
    requires Closed(w, s, row, roster)
    ensures Closed(RecordConflict(w, c, now), s, row, roster)
  {}

  lemma PostKeepsAccepted(w: World, defs: Definitions, other: Submission, now: int, s: Submission, row: M.MatchRow, roster: seq<string>)
    requires Closed(w, s, row, roster)
    ensures Closed(Post(w, defs, other, now).0, s, row, roster)
  {
    if other.matchId in w.matches && AcceptsResults(w.matches[other.matchId].status.state) {
      var verdict := Submit(w, defs, other, now);
      match verdict
      case Finalized(_, digest) =>
        RecordKeepsClosed(w, defs, other, digest, RewardFor(w, defs, other.matchId), now, s, row, roster);
      case Duplicate(_) =>
      case Refused(problem, digest) =>
        ConflictKeepsClosed(w, Conflict(other.matchId, other.sequence, digest, ConflictingDigest(other), other.correlationId), now, s, row, roster);
    }
  }

  lemma {:induction false} AcceptedForGood(w: World, defs: Definitions, h: History, s: Submission, row: M.MatchRow, roster: seq<string>)
    requires Closed(w, s, row, roster)
    ensures Closed(After(w, defs, h), s, row, roster)
  {
    if h.Then? {
      AcceptedForGood(w, defs, h.past, s, row, roster);
      var before := After(w, defs, h.past);
      match h.op
      case PostResult(other, now) => PostKeepsAccepted(before, defs, other, now, s, row, roster);
      case RunCommand(_) =>
      case WriteMatch(_, _, _) =>
    }
  }

  /** What an accepted submission looked like, and what it leaves. */
  lemma FinalizedWasValid(w: World, defs: Definitions, s: Submission, now: int)
    requires Post(w, defs, s, now).1.Finalized?
    ensures Closed(Post(w, defs, s, now).0, s, w.matches[s.matchId], RosterOf(w, s.matchId))
    ensures var row := w.matches[s.matchId];
            && s.matchId != "" && s.sequence >= 1 && PlayersListed(s.payload.players) && InRoster(s.payload.players, RosterOf(w, s.matchId))
            && (row.gameId, row.revision) in defs && FindMode(defs[(row.gameId, row.revision)].modes, row.modeId).Good?
  {}

  /** Sent again in a closed match, a valid submission whose digest is right or absent is a duplicate. */
  lemma ReplayInClosed(w: World, defs: Definitions, s: Submission, again: Submission, row: M.MatchRow, roster: seq<string>, now: int)
    requires Closed(w, s, row, roster) && s.matchId != "" && s.sequence >= 1
    requires PlayersListed(s.payload.players) && InRoster(s.payload.players, roster)
    requires (row.gameId, row.revision) in defs && FindMode(defs[(row.gameId, row.revision)].modes, row.modeId).Good?
    requires again.matchId == s.matchId && again.sequence == s.sequence && again.payload == s.payload
    requires again.digest in {NoDigest, DigestOf(s.payload.canonical)}
    ensures Post(w, defs, again, now).0 == w
    ensures Post(w, defs, again, now).1 == if w.matches[s.matchId].status.state == M.Completed then Duplicate(DigestOf(s.payload.canonical))
                                           else Refused(NotAccepting, NoDigest)
  {}

  /** MAIN RESULT. Whatever happens after a result was accepted, sending it again changes nothing; it is
      answered as a duplicate with the same digest as long as the match is Completed, and refused once a
      conflict has made it Disputed. The sender's digest may be right or absent. */
  lemma ReplayChangesNothing(w: World, defs: Definitions, s: Submission, now: int, h: History, again: Submission, later: int)
    requires Post(w, defs, s, now).1.Finalized?
    requires again.matchId == s.matchId && again.sequence == s.sequence && again.payload == s.payload
    requires again.digest in {NoDigest, DigestOf(s.payload.canonical)}
    ensures var w' := After(Post(w, defs, s, now).0, defs, h);
            && s.matchId in w'.matches && w'.matches[s.matchId].status.state in {M.Completed, M.Disputed}
            && Post(w', defs, again, later)
               == (w', if w'.matches[s.matchId].status.state == M.Completed then Duplicate(DigestOf(s.payload.canonical))
                       else Refused(NotAccepting, NoDigest))
  {
    FinalizedWasValid(w, defs, s, now);
    var row, roster := w.matches[s.matchId], RosterOf(w, s.matchId);
    AcceptedForGood(Post(w, defs, s, now).0, defs, h, s, row, roster);
    ReplayInClosed(After(Post(w, defs, s, now).0, defs, h), defs, s, again, row, roster, later);
  }

  // ---------------------------------------------------------------- each (player, reward, source) once

  predicate KeepsClaims(t: Tables, t': Tables) {
    forall k :: k in t.claims ==> k in t'.claims && t'.claims[k] == t.claims[k]
  }

  lemma CommandKeepsClaims(defs: Definitions, t: Tables, e: Envelope)
    requires Handle(defs, t, e).Done?
    ensures KeepsClaims(t, Handle(defs, t, e).state)
  {
    var op := OperationOf(e.operation);
    if ResolvePlayer(e).Good? && !op.Unsupported? {
      Frames.DispatchKeepsClaims(t, DefinitionFor(defs, e), ResolvePlayer(e).value, e, op);
    }
  }

  predicate DistinctRosters(w: World) {
    forall id :: id in w.rosters ==> Distinct(w.rosters[id])
  }

  lemma StepKeepsClaims(w: World, defs: Definitions, op: Op)
    requires DistinctRosters(w)
    ensures KeepsClaims(w.economy, Perform(w, defs, op).economy) && Perform(w, defs, op).rosters == w.rosters
  {
    match op
    case PostResult(s, now) =>
      if Post(w, defs, s, now).1.Finalized? {
        FinalizationPays(w, defs, s, now);
      } else {
        OnlyFinalizationPays(w, defs, s, now);
      }
    case RunCommand(e) => if Handle(defs, w.economy, e).Done? { CommandKeepsClaims(defs, w.economy, e); }
    case WriteMatch(_, _, _) =>
  }

  predicate Extends(later: History, earlier: History) {
    later == earlier || (later.Then? && Extends(later.past, earlier))
  }

  lemma {:induction false} ClaimsNeverLost(w: World, defs: Definitions, earlier: History, later: History)
    requires DistinctRosters(w) && Extends(later, earlier)
    ensures KeepsClaims(After(w, defs, earlier).economy, After(w, defs, later).economy)
    ensures DistinctRosters(After(w, defs, later))
  {
    if later.Then? {
      if later == earlier {
        ClaimsNeverLost(w, defs, earlier.past, later.past);
      } else {
        ClaimsNeverLost(w, defs, earlier, later.past);
      }
      StepKeepsClaims(After(w, defs, later.past), defs, later.op);
    }
  }

  /** The (player, reward, source) claims granted by the last operation of a history. */
  function NewClaims(w: World, defs: Definitions, h: History): set<(string, string, string)>
    requires h.Then?
  {
    After(w, defs, h).economy.claims.Keys - After(w, defs, h.past).economy.claims.Keys
  }

  /** MAIN RESULT. Over any history a post changes wallets only by paying, exactly, the reward of each claim it
      is the one to grant; and since claims are keyed by (player, reward, source) and never lost, no two
      operations grant the same one. */
  lemma GrantedOnce(w: World, defs: Definitions, earlier: History, later: History)
    requires DistinctRosters(w) && earlier.Then? && later.Then? && Extends(later.past, earlier)
    ensures NewClaims(w, defs, earlier) !! NewClaims(w, defs, later)
    ensures later.op.PostResult? ==>
              var s, before := later.op.s, After(w, defs, later.past);
              var reward, d := RewardFor(before, defs, s.matchId), DefinitionOf(before, defs, s.matchId);
              forall p, c :: c != "" ==>
                Balance(After(w, defs, later).economy, p, c) == Balance(before.economy, p, c)
                  + Pay(d, reward, (p, reward, RewardSource(s)) in NewClaims(w, defs, later), c)
  {
    ClaimsNeverLost(w, defs, earlier, later.past);
    if later.op.PostResult? {
      PostPaysNewClaims(After(w, defs, later.past), defs, later.op.s, later.op.now);
    }
  }

  lemma PostPaysNewClaims(w: World, defs: Definitions, s: Submission, now: int)
    requires DistinctRosters(w)
    ensures var w', reward, d := Post(w, defs, s, now).0, RewardFor(w, defs, s.matchId), DefinitionOf(w, defs, s.matchId);
            forall p, c :: c != "" ==>
              Balance(w'.economy, p, c) == Balance(w.economy, p, c)
                + Pay(d, reward, (p, reward, RewardSource(s)) in w'.economy.claims.Keys - w.economy.claims.Keys, c)
  {
    if Post(w, defs, s, now).1.Finalized? {
      var reward, row, w' := RewardFor(w, defs, s.matchId), w.matches[s.matchId], Submit(w, defs, s, now).world;
      if reward != "" {
        var d := defs[(row.gameId, row.revision)];
        PayRosterEffect(defs, w.economy, row, s, reward, RosterOf(w, s.matchId), w'.economy);
        forall p, c | c != ""
          ensures Balance(w'.economy, p, c) == Balance(w.economy, p, c)
                    + Pay(d, reward, (p, reward, RewardSource(s)) in w'.economy.claims.Keys - w.economy.claims.Keys, c)
        {
          assert Rewarded(w.economy, w'.economy, d, s, reward, p in RosterOf(w, s.matchId), p);
        }
      }
    } else {
      OnlyFinalizationPays(w, defs, s, now);
    }
  }
}
