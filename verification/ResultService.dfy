/** The result endpoint as the service runs it: one open transaction whose tables are written statement by
statement and restored on rollback, proved to do what `ResultFinalizer` specifies. */
module ResultService {
  import opened Economy
  import opened EconomyService
  import opened ResultFinalizer
  import M = Matches
  import Roster

  datatype Reply = Closed(digest: Digest) | Repeated(digest: Digest) | Declined(problem: Problem, digest: Digest)

  function ReplyOf(v: Verdict): Reply {
    match v
    case Finalized(_, digest) => Closed(digest)
    case Duplicate(digest) => Repeated(digest)
    case Refused(problem, digest) => Declined(problem, digest)
  }

  /** Goes through the listed players, keeping the ones seen. */
  method CheckPlayers(players: seq<string>) returns (ok: bool)
    ensures ok == PlayersListed(players)
  {
    if players == [] { return false; }
    var seen: set<string> := {};
    var i := 0;
    while i < |players|
      invariant 0 <= i <= |players|
      invariant forall p :: p in seen <==> p in players[..i]
      invariant forall k :: 0 <= k < i ==> players[k] != ""
      invariant forall k, m :: 0 <= k < m < i ==> players[k] != players[m]
    {
      if players[i] == "" { return false; }
      if players[i] in seen {
        var k :| 0 <= k < i && players[k] == players[i];
        return false;
      }
      seen := seen + {players[i]};
      i := i + 1;
    }
    ok := true;
  }

  method CheckRoster(players: seq<string>, roster: seq<string>) returns (ok: bool)
    ensures ok == InRoster(players, roster)
  {
    var i := 0;
    while i < |players|
      invariant 0 <= i <= |players| && InRoster(players[..i], roster)
    {
      if players[i] !in roster { return false; }
      i := i + 1;
    }
    ok := true;
  }

  /** `pay` is the reward command. It is looked up only where the command itself is mentioned. */
  ghost predicate Runs(pay: Payer, defs: Definitions, row: M.MatchRow, s: Submission, reward: string) {
    forall t, q {:trigger PayOne(defs, t, row, s, reward, q)} :: pay(t, q) == PayOne(defs, t, row, s, reward, q)
  }

  class Endpoint {
    var matches: map<string, M.MatchRow>
    var rosters: map<string, seq<string>>
    var results: map<(string, int), Digest>
    var conflicts: seq<Conflict>
    var outbox: seq<Notice>
    var economy: Tables

    function View(): World
      reads this
    {
      World(matches, rosters, results, conflicts, outbox, economy)
    }

    constructor (w: World)
      ensures View() == w
    {
      matches, rosters, results, conflicts, outbox, economy := w.matches, w.rosters, w.results, w.conflicts, w.outbox, w.economy;
    }

    method Restore(w: World)
      modifies this
      ensures View() == w
    {
      matches, rosters, results, conflicts, outbox, economy := w.matches, w.rosters, w.results, w.conflicts, w.outbox, w.economy;
    }

    /** One reward command on the tables of the open transaction. */
    method PayPlayer(defs: Definitions, row: M.MatchRow, s: Submission, reward: string, player: string, ghost pay: Payer)
      returns (ok: bool)
      requires Runs(pay, defs, row, s, reward)
      modifies this`economy
      ensures var t := pay(old(economy), player);
              if ok then t == Good(economy) else t.Bad?
    {
      var tx := new Transaction(economy);
      assert pay(economy, player) == PayOne(defs, economy, row, s, reward, player);
      var result := tx.HandleCommand(defs, RewardCommand(row, s, reward, player));
      if result.Bad? || result.value.status != "succeeded" { return false; }
      economy := tx.View();
      ok := true;
    }

    /** Claims the reward for each roster player in order, within the open transaction. */
    method PayRewards(defs: Definitions, row: M.MatchRow, s: Submission, reward: string) returns (ok: bool)
      modifies this`economy
      ensures var t := PayRoster(defs, old(economy), row, s, reward, RosterOf(old(View()), s.matchId));
              if ok then t == Good(economy) else t.Bad?
    {
      if reward == "" { return true; }
      var players := Roster.SortedCopy(if s.matchId in rosters then rosters[s.matchId] else []);
      ok := PayPlayers(defs, row, s, reward, players, PayerFor(defs, row, s, reward));
    }

    method PayPlayers(defs: Definitions, row: M.MatchRow, s: Submission, reward: string, players: seq<string>, ghost pay: Payer)
      returns (ok: bool)
      requires Runs(pay, defs, row, s, reward)
      modifies this`economy
      ensures var t := PayFirst(pay, old(economy), players, |players|);
              if ok then t == Good(economy) else t.Bad?
    {
      ghost var before := economy;
      ok := true;
      var n := 0;
      while ok && n < |players|
        invariant 0 <= n <= |players|
        invariant if ok then PayFirst(pay, before, players, n) == Good(economy) else PayFirst(pay, before, players, n).Bad?
      {
        PayFirstNext(pay, before, players, n, economy);
        ok := PayPlayer(defs, row, s, reward, players[n], pay);
        n := n + 1;
      }
      if !ok { StaysBad(pay, before, players, n, |players|); }
    }

    /** Records an accepted result, pays its rewards and closes the match. */
    method RecordResult(defs: Definitions, s: Submission, digest: Digest, reward: string, now: int) returns (reply: Reply)
      requires s.matchId in matches
      modifies this
      ensures var v := Record(old(View()), defs, s, digest, reward, now);
              reply == ReplyOf(v) && (v.Finalized? ==> View() == v.world) && (v.Duplicate? ==> View() == old(View()))
    {
      var key, row := (s.matchId, s.sequence), matches[s.matchId];
      if key in results {
        return if results[key] == digest then Repeated(digest) else Declined(DigestMismatch, results[key]);
      }
      results := results[key := digest];
      if row.status.state !in {M.Running, M.Finalizing} { return Declined(NotRunning, digest); }
      reply := CloseMatch(defs, s, digest, reward, now);
    }

    /** The writes after the guarded update: a transient Finalizing row, the rewards, the Completed row, two events. */
    method CloseMatch(defs: Definitions, s: Submission, digest: Digest, reward: string, now: int) returns (reply: Reply)
      requires s.matchId in matches
      modifies this`matches, this`outbox, this`economy
      ensures match PayRoster(defs, old(economy), old(matches)[s.matchId], s, reward, RosterOf(old(View()), s.matchId))
              case Bad => reply == Declined(RewardRejected, digest)
              case Good(t) => reply == Closed(digest) && economy == t && Written(old(View()), s, digest, now)
    {
      var row := matches[s.matchId];
      matches := matches[s.matchId := M.Moved(row, M.Finalize, now)];
      outbox := outbox + [Accepted(s.matchId, s.sequence, digest, if s.correlationId == "" then s.matchId else s.correlationId)];
      var paid := PayRewards(defs, row, s, reward);
      if !paid { return Declined(RewardRejected, digest); }
      matches := matches[s.matchId := M.Moved(matches[s.matchId], M.Complete, now)];
      outbox := outbox + [Completed(s.matchId, s.sequence, digest, s.correlationId)];
      reply := Closed(digest);
    }

    /** The match row and the events of a finalization. */
    ghost predicate Written(w: World, s: Submission, digest: Digest, now: int)
      reads this
      requires s.matchId in w.matches
    {
      && matches == w.matches[s.matchId := M.Moved(M.Moved(w.matches[s.matchId], M.Finalize, now), M.Complete, now)]
      && outbox == w.outbox + [Accepted(s.matchId, s.sequence, digest, if s.correlationId == "" then s.matchId else s.correlationId),
                               Completed(s.matchId, s.sequence, digest, s.correlationId)]
    }

    method SubmitResult(defs: Definitions, s: Submission, now: int) returns (reply: Reply)
      modifies this
      ensures var v := Submit(old(View()), defs, s, now);
              reply == ReplyOf(v) && (v.Finalized? ==> View() == v.world) && (v.Duplicate? ==> View() == old(View()))
    {
      if s.matchId !in matches { return Declined(UnknownMatch, NoDigest); }
      var row := matches[s.matchId];
      if (row.gameId, row.revision) !in defs { return Declined(NoDefinition, NoDigest); }
      var mode := FindMode(defs[(row.gameId, row.revision)].modes, row.modeId);
      if mode.Bad? { return Declined(NoMode, NoDigest); }
      var checked := Validate(s);
      if checked.Invalid? { return Declined(checked.problem, NoDigest); }
      var listed := CheckPlayers(s.payload.players);
      if !listed { return Declined(BadPlayers, NoDigest); }
      var known := CheckRoster(s.payload.players, if s.matchId in rosters then rosters[s.matchId] else []);
      if !known { return Declined(NotInRoster, NoDigest); }
      reply := RecordResult(defs, s, checked.digest, mode.value.rewardId, now);
    }

    /** A transaction of its own, after the rollback. */
    method ReportConflict(c: Conflict, now: int)
      modifies this
      ensures View() == RecordConflict(old(View()), c, now)
    {
      if c.matchId == "" || c.sequence < 1 || c.accepted == NoDigest || c.conflicting == NoDigest { return; }
      conflicts := conflicts + [if c.correlationId == "" then c.(correlationId := c.matchId) else c];
      if c.matchId in matches && matches[c.matchId].status.state in {M.Running, M.Finalizing, M.Completed} {
        matches := matches[c.matchId := M.Moved(matches[c.matchId], M.Dispute, now)];
      }
    }

    method PostResult(defs: Definitions, s: Submission, now: int) returns (reply: Reply)
      modifies this
      ensures var (w, v) := Post(old(View()), defs, s, now);
              View() == w && reply == ReplyOf(v)
    {
      if s.matchId !in matches { return Declined(UnknownMatch, NoDigest); }
      if !AcceptsResults(matches[s.matchId].status.state) { return Declined(NotAccepting, NoDigest); }
      var saved := View();
      reply := SubmitResult(defs, s, now);
      if reply.Declined? {
        Restore(saved);
        if reply.problem.DigestMismatch? {
          ReportConflict(Conflict(s.matchId, s.sequence, reply.digest, ConflictingDigest(s), s.correlationId), now);
        }
      }
    }
  }

  lemma PayFirstNext(pay: Payer, t: Tables, players: seq<string>, n: nat, t1: Tables)
    requires n < |players| && PayFirst(pay, t, players, n) == Good(t1)
    ensures PayFirst(pay, t, players, n + 1) == pay(t1, players[n])
  {}

  lemma {:induction false} StaysBad(pay: Payer, t: Tables, players: seq<string>, m: nat, n: nat)
    requires m <= n <= |players| && PayFirst(pay, t, players, m).Bad?
    ensures PayFirst(pay, t, players, n).Bad?
  {
    if m < n {
      StaysBad(pay, t, players, m, n - 1);
    }
  }
}
