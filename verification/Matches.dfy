/** Match rows: the declared transition table, and the guarded statements that write a match's state. */
module Matches {
  import Roster

  datatype State = Queued | Matched | Allocating | Ready | Running | Finalizing | Completed | Abandoned | Disputed | Failed | Cancelled

  datatype Next = To(state: State) | Invalid

  /** The declared table. */
  function Transition(from: State, event: string): Next {
    match from
    case Queued => if event == "matched" then To(Matched) else if event == "cancelled" then To(Cancelled) else Invalid
    case Matched => if event == "allocate" then To(Allocating) else Invalid
    case Allocating => if event == "ready" then To(Ready) else if event == "failed" then To(Failed) else Invalid
    case Ready => if event == "start" then To(Running) else if event == "failed" then To(Failed) else Invalid
    case Running => if event == "finalize" then To(Finalizing) else if event == "abandon" then To(Abandoned) else Invalid
    case Finalizing => if event == "complete" then To(Completed) else if event == "dispute" then To(Disputed) else Invalid
    case _ => Invalid
  }

  ghost predicate Declared(from: State, to: State) {
    exists event :: Transition(from, event) == To(to)
  }

  /** The fixed order in which a match moves. */
  function Rank(s: State): nat {
    match s
    case Queued => 0
    case Matched => 1
    case Allocating => 2
    case Ready => 3
    case Running => 4
    case Finalizing => 5
    case Completed => 6
    case _ => 7
  }

  predicate Final(s: State) { s.Abandoned? || s.Failed? || s.Disputed? || s.Cancelled? }

  // ---------------------------------------------------------------- the statements that write the state

  datatype Writer = MarkAllocating | MarkReady | Start | StartRunning | Abandon | FailStale | AbandonStale | Finalize | Complete | Dispute

  function From(w: Writer): set<State> {
    match w
    case MarkAllocating => {Matched}
    case MarkReady => {Allocating}
    case Start => {Ready}
    case StartRunning => {Ready, Running}
    case Abandon => {Ready, Running}
    case FailStale => {Allocating}
    case AbandonStale => {Running}
    case Finalize => {Running, Finalizing}
    case Complete => {Finalizing}
    case Dispute => {Running, Finalizing, Completed}
  }

  function Target(w: Writer): State {
    match w
    case MarkAllocating => Allocating
    case MarkReady => Ready
    case Start => Running
    case StartRunning => Running
    case Abandon => Abandoned
    case FailStale => Failed
    case AbandonStale => Abandoned
    case Finalize => Finalizing
    case Complete => Completed
    case Dispute => Disputed
  }

  /** The part of a row every writer changes. */
  datatype Status = Status(state: State, version: int)

  predicate Enabled(st: Status, w: Writer) { st.state in From(w) }

  function Written(st: Status, w: Writer): Status { Status(Target(w), st.version + 1) }

  /** The statements stay within the declared table but for these pairs. */
  predicate Undeclared(from: State, to: State) {
    || (from == Ready && to == Abandoned)
    || (from == Running && to == Running)
    || (from == Finalizing && to == Finalizing)
    || (from == Running && to == Disputed)
    || (from == Completed && to == Disputed)
  }

  /** Statement by statement, the writers and the declared table differ exactly in these pairs. */
  lemma WritersVersusTable(from: State, w: Writer)
    requires from in From(w)
    ensures Declared(from, Target(w)) <==> !Undeclared(from, Target(w))
    ensures Rank(from) <= Rank(Target(w))
  {
    assert Transition(Matched, "allocate") == To(Allocating) && Transition(Allocating, "ready") == To(Ready);
    assert Transition(Allocating, "failed") == To(Failed) && Transition(Ready, "start") == To(Running);
    assert Transition(Running, "finalize") == To(Finalizing) && Transition(Running, "abandon") == To(Abandoned);
    assert Transition(Finalizing, "complete") == To(Completed) && Transition(Finalizing, "dispute") == To(Disputed);
  }

  // ---------------------------------------------------------------- the store

  datatype MatchRow = MatchRow(gameId: string, environment: string, modeId: string, revision: int, build: string,
                               allocationId: string, status: Status, updatedAt: int)

  datatype Spec = Spec(matchId: string, gameId: string, environment: string, modeId: string, revision: int, build: string,
                       allocationId: string)

  datatype Store = Store(matches: map<string, MatchRow>, rosters: map<string, seq<Roster.Member>>, notices: seq<(string, string)>)

  predicate Filled(spec: Spec, roster: seq<Roster.Member>) {
    && spec.matchId != "" && spec.gameId != "" && spec.environment != "" && spec.modeId != "" && spec.revision >= 1
    && spec.build != "" && roster != [] && spec.allocationId != ""
  }

  /** Rows the roster table accepts for one match: named players, no negative slot, neither player nor slot twice. */
  predicate Insertable(roster: seq<Roster.Member>) {
    && (forall i :: 0 <= i < |roster| ==> roster[i].playerId != "" && roster[i].slot >= 0)
    && (forall i, j :: 0 <= i < j < |roster| ==> roster[i].playerId != roster[j].playerId && roster[i].slot != roster[j].slot)
  }

  function NewRow(spec: Spec, now: int): MatchRow {
    MatchRow(spec.gameId, spec.environment, spec.modeId, spec.revision, spec.build, spec.allocationId, Status(Matched, 1), now)
  }

  function Moved(row: MatchRow, w: Writer, now: int): MatchRow {
    row.(status := Written(row.status, w), updatedAt := now)
  }

  predicate CanWrite(matches: map<string, MatchRow>, id: string, w: Writer) {
    id in matches && Enabled(matches[id].status, w)
  }

  predicate Stale(row: MatchRow, w: Writer, cutoff: int) {
    Enabled(row.status, w) && row.updatedAt < cutoff
  }

  /** A match is timed out when it has been allocating, or running, without a sign of life since the cutoff. */
  lemma StaleIff(row: MatchRow, w: Writer, cutoff: int)
    requires w.FailStale? || w.AbandonStale?
    ensures Stale(row, w, cutoff) <==> row.updatedAt < cutoff && row.status.state == (if w.FailStale? then Allocating else Running)
  {}

  class MatchStore {
    var matches: map<string, MatchRow>
    var rosters: map<string, seq<Roster.Member>>
    var notices: seq<(string, string)>

    function View(): Store
      reads this
    {
      Store(matches, rosters, notices)
    }

    constructor ()
      ensures View() == Store(map[], map[], [])
    {
      matches, rosters, notices := map[], map[], [];
    }

    /** One transaction: the row, then the members one by one; any refused row undoes it all. */
    method Create(spec: Spec, roster: seq<Roster.Member>, now: int) returns (ok: bool)
      modifies this
      ensures ok <==> Filled(spec, roster) && spec.matchId !in old(matches) && Insertable(roster)
      ensures ok ==> "" !in {spec.matchId, spec.gameId, spec.environment, spec.modeId, spec.build, spec.allocationId} && spec.revision >= 1 && |roster| >= 1
      ensures matches == if ok then old(matches)[spec.matchId := NewRow(spec, now)] else old(matches)
      ensures rosters == if ok then old(rosters)[spec.matchId := roster] else old(rosters)
      ensures notices == old(notices)
    {
      if !Filled(spec, roster) || spec.matchId in matches { return false; }
      var saved, savedRosters := matches, rosters;
      matches := matches[spec.matchId := NewRow(spec, now)];
      rosters := rosters[spec.matchId := []];
      var i := 0;
      while i < |roster|
        invariant 0 <= i <= |roster| && Insertable(roster[..i])
        invariant matches == old(matches)[spec.matchId := NewRow(spec, now)]
        invariant rosters == old(rosters)[spec.matchId := roster[..i]] && notices == old(notices)
      {
        var m := roster[i];
        var taken := exists k :: 0 <= k < i && (roster[k].playerId == m.playerId || roster[k].slot == m.slot);
        if m.playerId == "" || m.slot < 0 || taken {
          matches, rosters := saved, savedRosters; // rollback
          return false;
        }
        assert roster[..i + 1] == roster[..i] + [m];
        rosters := rosters[spec.matchId := rosters[spec.matchId] + [m]];
        i := i + 1;
      }
      assert roster[..i] == roster;
      ok := true;
    }

    /** UPDATE ... SET state, state_version = state_version + 1 WHERE match_id = id AND state IN (...). */
    method Write(id: string, w: Writer, now: int) returns (ok: bool)
      modifies this`matches
      ensures ok == CanWrite(old(matches), id, w)
      ensures matches == if ok then old(matches)[id := Moved(old(matches)[id], w, now)] else old(matches)
      ensures ok ==> old(matches)[id].status.state in From(w) && matches[id].status == Status(Target(w), old(matches)[id].status.version + 1)
                     && matches[id].updatedAt == now
    {
      if id !in matches || matches[id].status.state !in From(w) { return false; }
      var row := matches[id];
      matches := matches[id := row.(status := Status(Target(w), row.status.version + 1), updatedAt := now)];
      ok := true;
    }

    /** Only a member of the roster may start or abandon a match. */
    method WriteAsMember(id: string, player: string, w: Writer, now: int) returns (ok: bool)
      modifies this`matches
      ensures ok == (CanWrite(old(matches), id, w) && id in rosters && Roster.Holds(rosters[id], player))
      ensures matches == if ok then old(matches)[id := Moved(old(matches)[id], w, now)] else old(matches)
    {
      if id !in rosters || !Roster.Holds(rosters[id], player) { return false; }
      ok := Write(id, w, now);
    }

    /** Keeps a match from going stale without writing its state. */
    method Heartbeat(id: string, now: int) returns (ok: bool)
      modifies this`matches
      ensures ok == (id in old(matches) && old(matches)[id].status.state in {Ready, Running})
      ensures matches == if ok then old(matches)[id := old(matches)[id].(updatedAt := now)] else old(matches)
    {
      if id !in matches || matches[id].status.state !in {Ready, Running} { return false; }
      matches := matches[id := matches[id].(updatedAt := now)];
      ok := true;
    }

    /** Times out every stale match of the writer's state and posts one notice for each. */
    method Recover(w: Writer, cutoff: int, now: int, notice: string) returns (ids: seq<string>)
      requires w.FailStale? || w.AbandonStale?
      modifies this`matches, this`notices
      ensures forall id :: id in ids <==> id in old(matches) && Stale(old(matches)[id], w, cutoff)
      ensures forall i, j :: 0 <= i < j < |ids| ==> ids[i] != ids[j]
      ensures matches.Keys == old(matches).Keys
      ensures forall id :: id in matches ==>
                matches[id] == if id in ids then Moved(old(matches)[id], w, now) else old(matches)[id]
      ensures notices == old(notices) + seq(|ids|, i requires 0 <= i < |ids| => (ids[i], notice))
    {
      ids := [];
      var todo := matches.Keys;
      while todo != {}
        invariant todo <= old(matches).Keys && matches.Keys == old(matches).Keys && notices == old(notices)
        invariant forall id :: id in ids <==> id in old(matches) && id !in todo && Stale(old(matches)[id], w, cutoff)
        invariant forall i, j :: 0 <= i < j < |ids| ==> ids[i] != ids[j]
        invariant forall id :: id in matches ==>
                    matches[id] == if id !in todo && Stale(old(matches)[id], w, cutoff) then Moved(old(matches)[id], w, now) else old(matches)[id]
        decreases todo
      {
        var id :| id in todo;
        todo := todo - {id};
        if Stale(matches[id], w, cutoff) {
          matches := matches[id := Moved(matches[id], w, now)];
          ids := ids + [id];
        }
      }
      var i := 0;
      while i < |ids|
        modifies this`notices
        invariant 0 <= i <= |ids|
        invariant notices == old(notices) + seq(i, k requires 0 <= k < i => (ids[k], notice))
      {
        notices := notices + [(ids[i], notice)];
        i := i + 1;
      }
    }
  }
}
