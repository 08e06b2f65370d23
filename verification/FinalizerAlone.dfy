/** A result submission that runs alone through the statements of `MatchLifecycle` does to a match what the serial
submission of `ResultFinalizer` does. */
module FinalizerAlone {
  import opened MatchLifecycle
  import F = ResultFinalizer
  import Economy
  import M = Matches

  /** How often the outbox announces the acceptance of a result, and the completion of the match by it. */
  function Accepts(outbox: seq<F.Notice>, id: string, q: int, digest: F.Digest): nat {
    if outbox == [] then 0
    else
      var last := outbox[|outbox| - 1];
      Accepts(outbox[..|outbox| - 1], id, q, digest)
      + if last.Accepted? && last.matchId == id && last.sequence == q && last.digest == digest then 1 else 0
  }

  function Completes(outbox: seq<F.Notice>, id: string, q: int, digest: F.Digest): nat {
    if outbox == [] then 0
    else
      var last := outbox[|outbox| - 1];
      Completes(outbox[..|outbox| - 1], id, q, digest)
      + if last.Completed? && last.matchId == id && last.sequence == q && last.digest == digest then 1 else 0
  }

  lemma TwoNotices(outbox: seq<F.Notice>, a: F.Notice, c: F.Notice, id: string, q: int, digest: F.Digest)
    requires a.Accepted? && c.Completed?
    ensures Accepts(outbox + [a, c], id, q, digest)
         == Accepts(outbox, id, q, digest) + if a.matchId == id && a.sequence == q && a.digest == digest then 1 else 0
    ensures Completes(outbox + [a, c], id, q, digest)
         == Completes(outbox, id, q, digest) + if c.matchId == id && c.sequence == q && c.digest == digest then 1 else 0
  {
    assert (outbox + [a, c])[..|outbox| + 1] == outbox + [a];
    assert (outbox + [a])[..|outbox|] == outbox;
  }

  /** The same result events are announced in both. */
  ghost predicate EventsAgree(events: multiset<Event>, outbox: seq<F.Notice>, id: string) {
    forall q, text :: events[ResultAccepted(q, text)] == Accepts(outbox, id, q, F.DigestOf(text))
                      && events[MatchCompleted(q, text)] == Completes(outbox, id, q, F.DigestOf(text))
  }

  /** The match's row, results and result events are the same in both. */
  ghost predicate Agrees(s: Life, w: F.World, id: string) {
    && id in w.matches && s.row == w.matches[id].status && EventsAgree(s.events, w.outbox, id)
    && forall q :: (q in s.results <==> (id, q) in w.results) && (q in s.results ==> w.results[(id, q)] == F.DigestOf(s.results[q]))
  }

  function Marking(s: Life, id: nat, q: int, canonical: string): Life {
    Apply(Apply(Apply(s, Begin(id, Submitting(q, canonical))), Insert(id)), Mark(id))
  }

  function Closing(s: Life, id: nat, paid: bool): Life {
    Apply(Apply(Apply(Apply(Apply(s, Announce(id)), Reward(id, paid)), Close(id)), Publish(id)), End(id))
  }

  /** All statements of a submission of new sequence; `paid` tells whether the rewards go through. */
  function Submitted(s: Life, id: nat, q: int, canonical: string, paid: bool): Life { Closing(Marking(s, id, q, canonical), id, paid) }

  function Announced(q: int, canonical: string): multiset<Event> { multiset{ResultAccepted(q, canonical), MatchCompleted(q, canonical)} }

  /** A finalizer that has taken the row. */
  function Marked(s: Life, q: int, canonical: string): Tx {
    Tx(Submitting(q, canonical), Stage.Marked, Locked(M.Status(M.State.Finalizing, s.row.version + 1)), multiset{})
  }

  lemma UnpaidLeaves(s: Life, id: nat, q: int, canonical: string)
    requires id !in s.flight
    ensures Closing(Put(s, id, Marked(s, q, canonical)), id, false) == s
  {
    var s1 := Put(s, id, Marked(s, q, canonical));
    assert Apply(Apply(s1, Announce(id)), Reward(id, false)).flight == s.flight;
  }

  /** With the row taken and its rewards paid, the match closes. */
  lemma PaidCloses(s: Life, id: nat, tx: Tx)
    requires id in s.flight && s.flight[id] == tx && tx.task.Submitting? && tx == Marked(s, tx.task.sequence, tx.task.digest)
    ensures var s' := Closing(s, id, true);
            s'.row == M.Status(M.Completed, s.row.version + 2) && s'.results == s.results[tx.task.sequence := tx.task.digest]
            && s'.flight == s.flight - {id}
            && s'.events == s.events + Announced(tx.task.sequence, tx.task.digest)
  {
    MarkedCloses(s, id, tx);
  }

  lemma AnnouncedAgree(events: multiset<Event>, outbox: seq<F.Notice>, a: F.Notice, c: F.Notice, id: string, q: int, canonical: string)
    requires EventsAgree(events, outbox, id) && a.Accepted? && c.Completed? && a.matchId == c.matchId == id && a.sequence == c.sequence == q
    requires a.digest == c.digest == F.DigestOf(canonical)
    ensures EventsAgree(events + Announced(q, canonical), outbox + [a, c], id)
  {
    forall r, text
      ensures (events + Announced(q, canonical))[ResultAccepted(r, text)] == Accepts(outbox + [a, c], id, r, F.DigestOf(text))
      ensures (events + Announced(q, canonical))[MatchCompleted(r, text)] == Completes(outbox + [a, c], id, r, F.DigestOf(text))
    {
      TwoNotices(outbox, a, c, id, r, F.DigestOf(text));
    }
  }

  lemma ClosedAgrees(s: Life, s': Life, w: F.World, w': F.World, id: string, q: int, canonical: string, a: F.Notice, c: F.Notice)
    requires Agrees(s, w, id) && s'.results == s.results[q := canonical] && w'.results == w.results[(id, q) := F.DigestOf(canonical)]
    requires id in w'.matches && s'.row == w'.matches[id].status && s'.events == s.events + Announced(q, canonical)
    requires a.Accepted? && c.Completed? && a.matchId == c.matchId == id && a.sequence == c.sequence == q && a.digest == c.digest == F.DigestOf(canonical)
    requires w'.outbox == w.outbox + [a, c]
    ensures Agrees(s', w', id)
  {
    AnnouncedAgree(s.events, w.outbox, a, c, id, q, canonical);
  }

  lemma NotStartedLeaves(s: Life, id: nat, paid: bool)
    requires id !in s.flight
    ensures Closing(s, id, paid) == s
  {}

  lemma MarkingAlone(run: Run, id: nat, q: int, canonical: string)
    requires After(run).flight == map[] && q >= 1 && q !in After(run).results
    ensures Marking(After(run), id, q, canonical)
         == if After(run).row.state.Running? then Put(After(run), id, Marked(After(run), q, canonical)) else After(run)
  {
    RunKeeps(run);
    FinalizerMarksIff(After(run), id, q, canonical);
  }

  /** What the statements do alone. */
  lemma SubmittedAlone(run: Run, id: nat, q: int, canonical: string, paid: bool)
    requires After(run).flight == map[] && q >= 1 && q !in After(run).results
    ensures var s := After(run);
            var s' := Submitted(s, id, q, canonical, paid);
            if s.row.state.Running? && paid
            then s'.row == M.Status(M.Completed, s.row.version + 2) && s'.results == s.results[q := canonical] && s'.flight == map[]
                 && s'.events == s.events + Announced(q, canonical)
            else s' == s
  {
    var s := After(run);
    MarkingAlone(run, id, q, canonical);
    if s.row.state.Running? { MarkedEnds(s, id, q, canonical, paid); } else { NotStartedLeaves(s, id, paid); }
  }

  lemma MarkedEnds(s: Life, id: nat, q: int, canonical: string, paid: bool)
    requires s.flight == map[]
    ensures var s' := Closing(Put(s, id, Marked(s, q, canonical)), id, paid);
            if paid then s'.row == M.Status(M.Completed, s.row.version + 2) && s'.results == s.results[q := canonical] && s'.flight == map[]
                         && s'.events == s.events + Announced(q, canonical)
            else s' == s
  {
    if paid {
      var marked := Put(s, id, Marked(s, q, canonical));
      PaidCloses(marked, id, Marked(s, q, canonical));
      assert marked.flight - {id} == s.flight;
    } else {
      UnpaidLeaves(s, id, q, canonical);
    }
  }

  function Paid(w: F.World, defs: Economy.Definitions, sub: F.Submission, reward: string): bool
    requires sub.matchId in w.matches
  {
    F.PayRoster(defs, w.economy, w.matches[sub.matchId], sub, reward, F.RosterOf(w, sub.matchId)).Good?
  }

  /** What the serial submission does to the match. */
  lemma RecordAlone(w: F.World, defs: Economy.Definitions, sub: F.Submission, digest: F.Digest, reward: string, now: int)
    requires sub.matchId in w.matches && (sub.matchId, sub.sequence) !in w.results && !w.matches[sub.matchId].status.state.Finalizing?
    ensures var verdict := F.Record(w, defs, sub, digest, reward, now);
            && (verdict.Finalized? <==> w.matches[sub.matchId].status.state.Running? && Paid(w, defs, sub, reward))
            && (verdict.Finalized? ==>
                  && verdict.world.results == w.results[(sub.matchId, sub.sequence) := digest] && sub.matchId in verdict.world.matches
                  && verdict.world.matches[sub.matchId].status == M.Status(M.Completed, w.matches[sub.matchId].status.version + 2)
                  && verdict.world.outbox == w.outbox + [AcceptedNotice(sub, digest), CompletedNotice(sub, digest)])
  {}

  function AcceptedNotice(sub: F.Submission, digest: F.Digest): F.Notice {
    F.Accepted(sub.matchId, sub.sequence, digest, if sub.correlationId == "" then sub.matchId else sub.correlationId)
  }

  function CompletedNotice(sub: F.Submission, digest: F.Digest): F.Notice { F.Completed(sub.matchId, sub.sequence, digest, sub.correlationId) }

  /** MAIN RESULT. Alone, the statements accept a result of a new sequence exactly when the serial submission
      does, and leave the match's row, results and result events as it does. */
  lemma SubmittedIsRecord(run: Run, w: F.World, defs: Economy.Definitions, sub: F.Submission, canonical: string, reward: string, now: int, id: nat)
    requires After(run).flight == map[] && Agrees(After(run), w, sub.matchId) && sub.sequence >= 1 && sub.sequence !in After(run).results
    ensures var s := After(run);
            var verdict := F.Record(w, defs, sub, F.DigestOf(canonical), reward, now);
            var s' := Submitted(s, id, sub.sequence, canonical, Paid(w, defs, sub, reward));
            if verdict.Finalized? then Agrees(s', verdict.world, sub.matchId) && s'.flight == map[] else s' == s
  {
    var s, paid := After(run), Paid(w, defs, sub, reward);
    RunKeeps(run);
    SubmittedAlone(run, id, sub.sequence, canonical, paid);
    RecordAlone(w, defs, sub, F.DigestOf(canonical), reward, now);
    var verdict := F.Record(w, defs, sub, F.DigestOf(canonical), reward, now);
    if verdict.Finalized? {
      ClosedAgrees(s, Submitted(s, id, sub.sequence, canonical, paid), w, verdict.world, sub.matchId, sub.sequence, canonical,
                   AcceptedNotice(sub, F.DigestOf(canonical)), CompletedNotice(sub, F.DigestOf(canonical)));
    }
  }

  /** Alone, a submission of a stored digest leaves everything as it is, and the serial one is a duplicate. */
  lemma RepeatedIsDuplicate(s: Life, w: F.World, defs: Economy.Definitions, id: nat, sub: F.Submission, canonical: string, reward: string, now: int)
    requires s.flight == map[] && Agrees(s, w, sub.matchId) && sub.sequence >= 1
    requires sub.sequence in s.results && s.results[sub.sequence] == canonical
    ensures Apply(Apply(s, Begin(id, Submitting(sub.sequence, canonical))), Insert(id)) == s
    ensures F.Record(w, defs, sub, F.DigestOf(canonical), reward, now) == F.Duplicate(F.DigestOf(canonical))
  {
    var s1 := Apply(s, Begin(id, Submitting(sub.sequence, canonical)));
    assert !ResultPending(s1, id, sub.sequence);
    assert Apply(s1, Insert(id)).flight == s.flight;
  }

  /** Alone, a submission of another digest for a Completed match files its conflict and disputes the match, as
      the serial conflict report does. */
  lemma ConflictIsReport(s: Life, w: F.World, id: nat, sub: F.Submission, canonical: string, now: int)
    requires s.flight == map[] && Agrees(s, w, sub.matchId) && sub.matchId != "" && sub.sequence >= 1
    requires sub.sequence in s.results && s.results[sub.sequence] != canonical && s.row.state.Completed?
    ensures var q, accepted := sub.sequence, s.results[sub.sequence];
            var s' := Apply(Apply(Apply(Apply(Apply(s, Begin(id, Submitting(q, canonical))), Insert(id)), Insert(id)), Mark(id)), End(id));
            var w' := F.RecordConflict(w, F.Conflict(sub.matchId, q, F.DigestOf(accepted), F.DigestOf(canonical), sub.correlationId), now);
            && Agrees(s', w', sub.matchId) && s'.conflicts == s.conflicts + {Conflict(q, accepted, canonical)}
            && |w'.conflicts| == |w.conflicts| + 1 && w'.conflicts[|w.conflicts|].accepted == F.DigestOf(accepted)
            && w'.conflicts[|w.conflicts|].conflicting == F.DigestOf(canonical)
  {
    ConflictDisputes(s, id, sub.sequence, canonical);
    ReportDisputes(w, F.Conflict(sub.matchId, sub.sequence, F.DigestOf(s.results[sub.sequence]), F.DigestOf(canonical), sub.correlationId), now);
  }

  lemma ReportDisputes(w: F.World, c: F.Conflict, now: int)
    requires c.matchId in w.matches && w.matches[c.matchId].status.state.Completed? && c.matchId != "" && c.sequence >= 1
    requires c.accepted != F.NoDigest && c.conflicting != F.NoDigest
    ensures var w' := F.RecordConflict(w, c, now);
            && w'.results == w.results && w'.outbox == w.outbox && c.matchId in w'.matches
            && w'.matches[c.matchId].status == M.Status(M.Disputed, w.matches[c.matchId].status.version + 1)
            && |w'.conflicts| == |w.conflicts| + 1 && w'.conflicts[|w.conflicts|].accepted == c.accepted
            && w'.conflicts[|w.conflicts|].conflicting == c.conflicting
  {}
}
