/** Exactly which posts of a result are accepted, repeated, or filed as conflicts. */
module ResultAcceptance {
  import opened Commands
  import opened Economy
  import opened Ordering
  import opened ResultFinalizer
  import M = Matches
  import Roster

  // ---------------------------------------------------------------- what a post must bring

  /** The first mode of that id. */
  predicate FirstMode(modes: seq<MatchMode>, k: nat, id: string) { k < |modes| && modes[k].id == id && forall j :: 0 <= j < k ==> modes[j].id != id }

  lemma {:induction false} ModeFound(modes: seq<MatchMode>, k: nat, id: string)
    requires FirstMode(modes, k, id)
    ensures FindMode(modes, id) == Good(modes[k])
  {
    if k > 0 {
      assert forall j :: 0 < j < |modes| ==> modes[j] == modes[1..][j - 1];
      ModeFound(modes[1..], k - 1, id);
    }
  }

  lemma {:induction false} ModeIsFirst(modes: seq<MatchMode>, id: string) returns (k: nat)
    requires FindMode(modes, id).Good?
    ensures FirstMode(modes, k, id) && FindMode(modes, id) == Good(modes[k])
  {
    if modes[0].id == id {
      k := 0;
    } else {
      var i := ModeIsFirst(modes[1..], id);
      k := i + 1;
      assert forall j :: 0 < j < |modes| ==> modes[j] == modes[1..][j - 1];
    }
  }

  /** The match is known, open for results, and its revision defines its mode. */
  predicate Receives(w: World, defs: Definitions, id: string) {
    && id in w.matches && w.matches[id].status.state in {M.Running, M.State.Finalizing, M.Completed}
    && (w.matches[id].gameId, w.matches[id].revision) in defs
    && exists k: nat :: k < |defs[(w.matches[id].gameId, w.matches[id].revision)].modes|
                        && FirstMode(defs[(w.matches[id].gameId, w.matches[id].revision)].modes, k, w.matches[id].modeId)
  }

  /** The submission is complete, and the digest the sender claims for it, if any, is its own. */
  predicate Complete(s: Submission) {
    && s.matchId != "" && s.sequence >= 1 && s.payload.Json?
    && (s.digest == NoDigest || s.digest == DigestOf(s.payload.canonical))
  }

  /** It lists players, each once, all of them on the roster. */
  predicate ListsPlayers(s: Submission, roster: seq<string>)
    requires s.payload.Json?
  {
    var players := s.payload.players;
    && |players| >= 1 && (forall i :: 0 <= i < |players| ==> players[i] != "" && players[i] in roster)
    && (forall i, j :: 0 <= i < j < |players| ==> players[i] != players[j])
  }

  predicate Presentable(w: World, defs: Definitions, s: Submission) {
    Receives(w, defs, s.matchId) && Complete(s) && ListsPlayers(s, if s.matchId in w.rosters then w.rosters[s.matchId] else [])
  }

  // ---------------------------------------------------------------- the claims of the roster

  /** The command that claims a match reward for a player. */
  function ClaimFor(row: M.MatchRow, s: Submission, reward: string, player: string): Envelope
    requires s.sequence >= 1
  {
    var number := Roster.Itoa(s.sequence);
    Envelope(s.matchId + ":" + number + ":reward:" + player, s.correlationId, row.gameId, row.environment, row.revision, "match-server", player,
             "reward.claim", map["rewardId" := Text(reward), "sourceId" := Text("match:" + s.matchId + ":" + number)])
  }

  /** One claim succeeds. */
  predicate Claims(defs: Definitions, t: Tables, t': Tables, e: Envelope) {
    Handle(defs, t, e).Done? && Handle(defs, t, e).state == t' && Handle(defs, t, e).result.status == "succeeded"
  }

  /** The claims of all players succeed one after the other, from the first of these tables to the last. */
  predicate ClaimChain(defs: Definitions, ts: seq<Tables>, row: M.MatchRow, s: Submission, reward: string, players: seq<string>)
    requires s.sequence >= 1
  {
    |ts| == |players| + 1 && forall k :: 0 <= k < |players| ==> NthClaims(defs, ts, row, s, reward, players, k)
  }

  predicate NthClaims(defs: Definitions, ts: seq<Tables>, row: M.MatchRow, s: Submission, reward: string, players: seq<string>, k: int)
    requires s.sequence >= 1 && |ts| == |players| + 1 && 0 <= k < |players|
  {
    Claims(defs, ts[k], ts[k + 1], ClaimFor(row, s, reward, players[k]))
  }

  ghost predicate RosterClaims(defs: Definitions, t: Tables, t': Tables, row: M.MatchRow, s: Submission, reward: string, players: seq<string>)
    requires s.sequence >= 1
  {
    exists ts: seq<Tables> :: |ts| > 0 && ts[0] == t && ts[|ts| - 1] == t' && ClaimChain(defs, ts, row, s, reward, players)
  }

  lemma CommandIsClaim(row: M.MatchRow, s: Submission, reward: string, player: string)
    requires s.sequence >= 1
    ensures RewardCommand(row, s, reward, player) == ClaimFor(row, s, reward, player)
  {}

  lemma PayOneIff(defs: Definitions, t: Tables, t': Tables, row: M.MatchRow, s: Submission, reward: string, player: string)
    requires s.sequence >= 1
    ensures PayOne(defs, t, row, s, reward, player) == Good(t') <==> Claims(defs, t, t', ClaimFor(row, s, reward, player))
  {
    CommandIsClaim(row, s, reward, player);
  }

  /** The same chain for any way of paying. */
  predicate NthPays(pay: Payer, ts: seq<Tables>, players: seq<string>, k: int)
    requires |ts| > |players| && 0 <= k < |players|
  {
    pay(ts[k], players[k]) == Good(ts[k + 1])
  }

  predicate PayChain(pay: Payer, ts: seq<Tables>, players: seq<string>) {
    |ts| == |players| + 1 && forall k :: 0 <= k < |players| ==> NthPays(pay, ts, players, k)
  }

  lemma {:induction false} PaidIsChain(pay: Payer, t: Tables, players: seq<string>, n: nat) returns (ts: seq<Tables>)
    requires n <= |players| && PayFirst(pay, t, players, n).Good?
    ensures |ts| == n + 1 && ts[0] == t && Good(ts[n]) == PayFirst(pay, t, players, n)
    ensures PayChain(pay, ts, players[..n])
  {
    if n == 0 {
      ts := [t];
    } else {
      var before := PaidIsChain(pay, t, players, n - 1);
      ts := before + [PayFirst(pay, t, players, n).value];
      forall k | 0 <= k < n ensures NthPays(pay, ts, players[..n], k) {
        if k < n - 1 { assert NthPays(pay, before, players[..n - 1], k); }
      }
    }
  }

  lemma {:induction false} ChainIsPaid(pay: Payer, ts: seq<Tables>, players: seq<string>, n: nat)
    requires n <= |players| && PayChain(pay, ts, players)
    ensures PayFirst(pay, ts[0], players, n) == Good(ts[n])
  {
    if n > 0 {
      ChainIsPaid(pay, ts, players, n - 1);
      assert NthPays(pay, ts, players, n - 1);
    }
  }

  lemma ChainsAgree(defs: Definitions, ts: seq<Tables>, row: M.MatchRow, s: Submission, reward: string, players: seq<string>)
    requires s.sequence >= 1
    ensures PayChain(PayerFor(defs, row, s, reward), ts, players) <==> ClaimChain(defs, ts, row, s, reward, players)
  {
    if |ts| == |players| + 1 {
      forall k | 0 <= k < |players|
        ensures NthPays(PayerFor(defs, row, s, reward), ts, players, k) <==> NthClaims(defs, ts, row, s, reward, players, k)
      {
        PayOneIff(defs, ts[k], ts[k + 1], row, s, reward, players[k]);
      }
    }
  }

  lemma RosterPaidIff(defs: Definitions, t: Tables, t': Tables, row: M.MatchRow, s: Submission, reward: string, roster: seq<string>)
    requires s.sequence >= 1 && reward != ""
    ensures PayRoster(defs, t, row, s, reward, roster) == Good(t') <==> RosterClaims(defs, t, t', row, s, reward, Sorted(StringLess, roster))
  {
    var players, pay := Sorted(StringLess, roster), PayerFor(defs, row, s, reward);
    if PayRoster(defs, t, row, s, reward, roster) == Good(t') {
      var ts := PaidIsChain(pay, t, players, |players|);
      assert players[..|players|] == players;
      ChainsAgree(defs, ts, row, s, reward, players);
    }
    if ts: seq<Tables> :| |ts| > 0 && ts[0] == t && ts[|ts| - 1] == t' && ClaimChain(defs, ts, row, s, reward, players) {
      ChainsAgree(defs, ts, row, s, reward, players);
      ChainIsPaid(pay, ts, players, |players|);
    }
  }

  // ---------------------------------------------------------------- the endpoint

  function ModeReward(w: World, defs: Definitions, id: string): string
    requires Receives(w, defs, id)
  {
    var modes := defs[(w.matches[id].gameId, w.matches[id].revision)].modes;
    var k: nat :| k < |modes| && FirstMode(modes, k, w.matches[id].modeId);
    modes[k].rewardId
  }

  ghost predicate RewardsGoThrough(w: World, defs: Definitions, s: Submission)
    requires Presentable(w, defs, s)
  {
    var reward, roster := ModeReward(w, defs, s.matchId), if s.matchId in w.rosters then w.rosters[s.matchId] else [];
    reward == "" || exists t' :: RosterClaims(defs, w.economy, t', w.matches[s.matchId], s, reward, Sorted(StringLess, roster))
  }

  lemma PaysIff(w: World, defs: Definitions, s: Submission)
    requires Presentable(w, defs, s)
    ensures PayRoster(defs, w.economy, w.matches[s.matchId], s, ModeReward(w, defs, s.matchId), RosterOf(w, s.matchId)).Good? <==> RewardsGoThrough(w, defs, s)
  {
    var row, reward, roster := w.matches[s.matchId], ModeReward(w, defs, s.matchId), RosterOf(w, s.matchId);
    if reward != "" {
      if PayRoster(defs, w.economy, row, s, reward, roster).Good? {
        RosterPaidIff(defs, w.economy, PayRoster(defs, w.economy, row, s, reward, roster).value, row, s, reward, roster);
      }
      if t' :| RosterClaims(defs, w.economy, t', row, s, reward, Sorted(StringLess, roster)) {
        RosterPaidIff(defs, w.economy, t', row, s, reward, roster);
      }
    }
  }

  lemma ModesFound(w: World, defs: Definitions, id: string)
    requires id in w.matches && (w.matches[id].gameId, w.matches[id].revision) in defs && w.matches[id].status.state in {M.Running, M.State.Finalizing, M.Completed}
    ensures var found := FindMode(defs[(w.matches[id].gameId, w.matches[id].revision)].modes, w.matches[id].modeId);
            (found.Good? <==> Receives(w, defs, id)) && (found.Good? ==> found.value.rewardId == ModeReward(w, defs, id))
  {
    var modes, mode := defs[(w.matches[id].gameId, w.matches[id].revision)].modes, w.matches[id].modeId;
    if FindMode(modes, mode).Good? {
      var k := ModeIsFirst(modes, mode);
      assert FirstMode(modes, k, mode);
    }
    forall k: nat | k < |modes| && FirstMode(modes, k, mode) ensures FindMode(modes, mode) == Good(modes[k]) {
      ModeFound(modes, k, mode);
    }
  }

  lemma PresentableIsRecorded(w: World, defs: Definitions, s: Submission, now: int)
    requires s.matchId in w.matches && AcceptsResults(w.matches[s.matchId].status.state)
    ensures if Presentable(w, defs, s)
            then Submit(w, defs, s, now) == Record(w, defs, s, DigestOf(s.payload.canonical), ModeReward(w, defs, s.matchId), now)
            else Submit(w, defs, s, now).Refused? && Submit(w, defs, s, now).digest == NoDigest
  {
    if (w.matches[s.matchId].gameId, w.matches[s.matchId].revision) in defs { ModesFound(w, defs, s.matchId); }
    if s.payload.Json? { assert PlayersListed(s.payload.players) && InRoster(s.payload.players, RosterOf(w, s.matchId)) <==> ListsPlayers(s, RosterOf(w, s.matchId)); }
  }

  predicate Stored(w: World, s: Submission) { (s.matchId, s.sequence) in w.results }

  lemma RecordedIff(w: World, defs: Definitions, s: Submission, reward: string, now: int)
    requires s.matchId in w.matches && s.payload.Json?
    ensures Record(w, defs, s, DigestOf(s.payload.canonical), reward, now).Finalized? <==>
              && !Stored(w, s) && w.matches[s.matchId].status.state in {M.Running, M.State.Finalizing}
              && PayRoster(defs, w.economy, w.matches[s.matchId], s, reward, RosterOf(w, s.matchId)).Good?
  {}

  /** MAIN RESULT. A post finalizes its match exactly when the match is running, its revision defines its mode, the
      submission is complete with no digest or its own, its players are listed once each and on the roster, its sequence
      is unused, and every claim of the roster for the mode's reward succeeds in turn. */
  lemma FinalizesIff(w: World, defs: Definitions, s: Submission, now: int)
    ensures Post(w, defs, s, now).1.Finalized? <==>
              && Presentable(w, defs, s) && !Stored(w, s) && w.matches[s.matchId].status.state in {M.Running, M.State.Finalizing}
              && RewardsGoThrough(w, defs, s)
  {
    if s.matchId in w.matches && AcceptsResults(w.matches[s.matchId].status.state) {
      PresentableIsRecorded(w, defs, s, now);
      if Presentable(w, defs, s) {
        PaysIff(w, defs, s);
        RecordedIff(w, defs, s, ModeReward(w, defs, s.matchId), now);
      }
    }
  }

  /** It is answered as a duplicate exactly when the stored result of its sequence is the same. */
  lemma RepeatsIff(w: World, defs: Definitions, s: Submission, now: int)
    ensures Post(w, defs, s, now).1.Duplicate? <==>
              Presentable(w, defs, s) && Stored(w, s) && w.results[(s.matchId, s.sequence)] == DigestOf(s.payload.canonical)
  {
    if s.matchId in w.matches && AcceptsResults(w.matches[s.matchId].status.state) {
      PresentableIsRecorded(w, defs, s, now);
    }
  }

  predicate Contradicts(w: World, defs: Definitions, s: Submission) {
    && Presentable(w, defs, s) && Stored(w, s)
    && w.results[(s.matchId, s.sequence)] != NoDigest && w.results[(s.matchId, s.sequence)] != DigestOf(s.payload.canonical)
  }

  /** It files a conflict, and disputes the match, exactly when that result is another one. */
  lemma DisputesIff(w: World, defs: Definitions, s: Submission, now: int)
    ensures var w' := Post(w, defs, s, now).0;
            && (w'.conflicts != w.conflicts <==> Contradicts(w, defs, s))
            && (Contradicts(w, defs, s) ==>
                  && w'.matches[s.matchId].status == M.Status(M.Disputed, w.matches[s.matchId].status.version + 1)
                  && w'.conflicts == w.conflicts + [Conflict(s.matchId, s.sequence, w.results[(s.matchId, s.sequence)], DigestOf(s.payload.canonical),
                                                             if s.correlationId == "" then s.matchId else s.correlationId)])
  {
    if s.matchId in w.matches && AcceptsResults(w.matches[s.matchId].status.state) {
      PresentableIsRecorded(w, defs, s, now);
      if Contradicts(w, defs, s) {
        ConflictFiled(w, Conflict(s.matchId, s.sequence, w.results[(s.matchId, s.sequence)], DigestOf(s.payload.canonical), s.correlationId), now);
      }
    }
  }

  lemma ConflictFiled(w: World, c: Conflict, now: int)
    requires c.matchId in w.matches && w.matches[c.matchId].status.state in {M.Running, M.State.Finalizing, M.Completed}
    requires c.matchId != "" && c.sequence >= 1 && c.accepted != NoDigest && c.conflicting != NoDigest
    ensures var w' := RecordConflict(w, c, now);
            && c.matchId in w'.matches && w'.matches[c.matchId].status == M.Status(M.Disputed, w.matches[c.matchId].status.version + 1)
            && w'.conflicts == w.conflicts + [Conflict(c.matchId, c.sequence, c.accepted, c.conflicting, if c.correlationId == "" then c.matchId else c.correlationId)]
  {}

  lemma RecordedWorld(w: World, defs: Definitions, s: Submission, reward: string, now: int)
    requires s.matchId in w.matches && s.payload.Json? && Record(w, defs, s, DigestOf(s.payload.canonical), reward, now).Finalized?
    ensures var w' := Record(w, defs, s, DigestOf(s.payload.canonical), reward, now).world;
            ClosedTo(w, w', s) && PayRoster(defs, w.economy, w.matches[s.matchId], s, reward, RosterOf(w, s.matchId)) == Good(w'.economy)
  {}

  /** What changes besides the economy. */
  predicate ClosedTo(w: World, w': World, s: Submission)
    requires s.matchId in w.matches && s.payload.Json?
  {
    var digest, row := DigestOf(s.payload.canonical), w.matches[s.matchId];
    && w'.results == w.results[(s.matchId, s.sequence) := digest] && w'.rosters == w.rosters && w'.conflicts == w.conflicts
    && s.matchId in w'.matches && w'.matches == w.matches[s.matchId := w'.matches[s.matchId]]
    && w'.matches[s.matchId] == row.(status := M.Status(M.Completed, row.status.version + 2), updatedAt := w'.matches[s.matchId].updatedAt)
    && w'.outbox == w.outbox + [Accepted(s.matchId, s.sequence, digest, if s.correlationId == "" then s.matchId else s.correlationId),
                                Completed(s.matchId, s.sequence, digest, s.correlationId)]
  }

  /** MAIN RESULT. A finalization stores the digest of its own payload under its sequence, completes the match, posts
      the two events of this result, and leaves the economy as the claims of the roster left it. */
  lemma FinalizedWorld(w: World, defs: Definitions, s: Submission, now: int)
    requires Post(w, defs, s, now).1.Finalized?
    ensures Presentable(w, defs, s) && FinalizedTo(w, Post(w, defs, s, now).0, defs, s)
  {
    FinalizesIff(w, defs, s, now);
    PresentableIsRecorded(w, defs, s, now);
    var reward := ModeReward(w, defs, s.matchId);
    RecordedWorld(w, defs, s, reward, now);
    if reward != "" {
      RosterPaidIff(defs, w.economy, Post(w, defs, s, now).0.economy, w.matches[s.matchId], s, reward, RosterOf(w, s.matchId));
    }
  }

  ghost predicate FinalizedTo(w: World, w': World, defs: Definitions, s: Submission)
    requires Presentable(w, defs, s)
  {
    var row, reward := w.matches[s.matchId], ModeReward(w, defs, s.matchId);
    var roster := if s.matchId in w.rosters then w.rosters[s.matchId] else [];
    && ClosedTo(w, w', s)
    && (reward == "" ==> w'.economy == w.economy)
    && (reward != "" ==> RosterClaims(defs, w.economy, w'.economy, row, s, reward, Sorted(StringLess, roster)))
  }

  /** MAIN RESULT. In every other case the post changes nothing at all. */
  lemma OtherwiseUnchanged(w: World, defs: Definitions, s: Submission, now: int)
    requires !Post(w, defs, s, now).1.Finalized? && !Contradicts(w, defs, s)
    ensures Post(w, defs, s, now).0 == w
  {
    OnlyFinalizationPays(w, defs, s, now);
    DisputesIff(w, defs, s, now);
  }
}
