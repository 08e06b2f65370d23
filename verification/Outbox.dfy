/** Outbox delivery by leases: workers claim events, hand them to a publisher outside any transaction, and
record the outcome, each of them able to crash, to lose an update, or to finish after its lease ran out. */
module Outbox {
  datatype Lease = Unleased | Until(time: int)

  datatype Row = Row(eventType: string, attempts: int, lease: Lease, published: bool, dead: bool)

  /** An event handed out with its attempt number. */
  datatype Handout = Handout(id: string, attempt: int)

  datatype Stage = Waiting | Accepted | Checkpointed | Refused

  /** A delivery under way, leased until a time. Deliveries of one worker, too, are left to interleave freely. */
  datatype Delivery = Delivery(consumer: string, eventType: string, stage: Stage, until: int)

  /** `given`, `failed` and `accepted` record what has happened: handouts, failures written down, and events
      the publisher has accepted. */
  datatype World = World(events: map<string, Row>, checkpoints: set<(string, string)>, open: map<Handout, Delivery>, now: int,
                         given: multiset<Handout>, failed: multiset<Handout>, accepted: set<string>)

  const EMPTY := World(map[], {}, map[], 0, multiset{}, multiset{}, {})

  function MaxAttempts(configured: int): int { if configured <= 0 then 5 else configured }

  function BatchSize(configured: int): int { if configured <= 0 then 50 else configured }

  // ---------------------------------------------------------------- statements

  /** The WHERE clause of the claim; a worker with an event type looks at checkpoints instead of `published`. */
  predicate Claimable(events: map<string, Row>, checkpoints: set<(string, string)>, now: int, consumer: string, eventType: string, id: string) {
    && id in events && !events[id].dead
    && (if eventType == "" then !events[id].published else events[id].eventType == eventType && (consumer, id) !in checkpoints)
    && (events[id].lease.Until? ==> events[id].lease.time < now)
  }

  function ClaimedRow(r: Row, until: int): Row { r.(attempts := r.attempts + 1, lease := Until(until)) }

  function ClaimRows(events: map<string, Row>, ids: set<string>, until: int): map<string, Row> {
    map id | id in events :: if id in ids then ClaimedRow(events[id], until) else events[id]
  }

  /** The last update of a delivery. */
  function SettledRow(r: Row, attempt: int, ok: bool, eventType: string, maxAttempts: int): Row {
    if ok then if eventType == "" then r.(published := true, lease := Unleased) else r.(lease := Unleased)
    else if attempt >= maxAttempts then r.(dead := true, lease := Unleased) else r.(lease := Unleased)
  }

  /** `stuck` says that an update was lost: its error is ignored and the delivery goes on. */
  datatype Step = Tick(later: int) | Emit(id: string, eventType: string)
                | Claim(consumer: string, eventType: string, ids: set<string>, until: int)
                | Publish(h: Handout, ok: bool) | Checkpoint(h: Handout, stuck: bool) | Settle(h: Handout, stuck: bool) | Crash(h: Handout)

  /** A lease ends later than it begins. SELECT ... FOR UPDATE SKIP LOCKED may leave out rows other claims hold, so any claimable ids can come back. */
  function ClaimStep(w: World, consumer: string, eventType: string, ids: set<string>, until: int): World {
    if until <= w.now || exists id :: id in ids && !Claimable(w.events, w.checkpoints, w.now, consumer, eventType, id) then w
    else
      var handouts := NewHandouts(w.events, ids);
      w.(events := ClaimRows(w.events, ids, until), given := w.given + multiset(handouts),
         open := w.open + Opened(handouts, Delivery(consumer, eventType, Waiting, until)))
  }

  function Opened(handouts: set<Handout>, d: Delivery): map<Handout, Delivery> { map h | h in handouts :: d }

  function PublishStep(w: World, h: Handout, ok: bool): World {
    if h !in w.open || !w.open[h].stage.Waiting? then w
    else if ok then w.(open := w.open[h := w.open[h].(stage := Accepted)], accepted := w.accepted + {h.id})
    else w.(open := w.open[h := w.open[h].(stage := Refused)])
  }

  function CheckpointStep(w: World, h: Handout, stuck: bool): World {
    if h !in w.open || !w.open[h].stage.Accepted? then w
    else
      var w1 := w.(open := w.open[h := w.open[h].(stage := Checkpointed)]);
      if stuck then w1 else w1.(checkpoints := w.checkpoints + {(w.open[h].consumer, h.id)})
  }

  function SettleStep(w: World, h: Handout, stuck: bool, maxAttempts: int): World {
    if h !in w.open || !(w.open[h].stage.Checkpointed? || w.open[h].stage.Refused?) then w
    else
      var w1 := w.(open := w.open - {h});
      if stuck || h.id !in w.events then w1
      else
        var ok := w.open[h].stage.Checkpointed?;
        w1.(events := w.events[h.id := SettledRow(w.events[h.id], h.attempt, ok, w.open[h].eventType, maxAttempts)],
            failed := if ok then w.failed else w.failed + multiset{h})
  }

  function EmitStep(w: World, id: string, eventType: string): World {
    if id in w.events then w else w.(events := w.events[id := Row(eventType, 0, Unleased, false, false)])
  }

  function Apply(w: World, step: Step, maxAttempts: int): World {
    match step
    case Tick(later) => if later >= w.now then w.(now := later) else w
    case Emit(id, eventType) => EmitStep(w, id, eventType)
    case Claim(consumer, eventType, ids, until) => ClaimStep(w, consumer, eventType, ids, until)
    case Publish(h, ok) => PublishStep(w, h, ok)
    case Checkpoint(h, stuck) => CheckpointStep(w, h, stuck)
    case Settle(h, stuck) => SettleStep(w, h, stuck, maxAttempts)
    case Crash(h) => w.(open := w.open - {h})
  }

  datatype Run = Nil | Then(past: Run, step: Step)

  function After(run: Run, maxAttempts: int): World {
    match run
    case Nil => EMPTY
    case Then(past, step) => Apply(After(past, maxAttempts), step, maxAttempts)
  }

  // ---------------------------------------------------------------- the invariant

  /** Attempts 1, 2, ..., attempts have been handed out once each, and nothing else. */
  ghost predicate GivenOk(events: map<string, Row>, given: multiset<Handout>) {
    forall h :: given[h] == if h.id in events && 1 <= h.attempt <= events[h.id].attempts then 1 else 0
  }

  ghost predicate OpenOk(open: map<Handout, Delivery>, given: multiset<Handout>, failed: multiset<Handout>, accepted: set<string>) {
    forall h :: h in open ==> h in given && h !in failed && (open[h].stage.Accepted? || open[h].stage.Checkpointed? ==> h.id in accepted)
  }

  /** A failure is written down once, after its handout. */
  ghost predicate FailedOk(given: multiset<Handout>, failed: multiset<Handout>) {
    forall h :: failed[h] <= 1 && (h in failed ==> h in given)
  }

  /** From the limit on a failure dead-letters its event, and nothing else does. */
  ghost predicate DeadOk(events: map<string, Row>, failed: multiset<Handout>, maxAttempts: int) {
    && (forall h :: h in failed && h.attempt >= maxAttempts && h.id in events ==> events[h.id].dead)
    && (forall id :: id in events && events[id].dead ==> DeadBy(failed, maxAttempts, id))
  }

  ghost predicate DeadBy(failed: multiset<Handout>, maxAttempts: int, id: string) {
    exists n :: n >= maxAttempts && Handout(id, n) in failed
  }

  ghost predicate AcceptedOk(events: map<string, Row>, checkpoints: set<(string, string)>, accepted: set<string>) {
    && (forall c :: c in checkpoints ==> c.1 in accepted)
    && (forall id :: id in events && events[id].published ==> id in accepted)
  }

  ghost predicate Inv(w: World, maxAttempts: int) {
    && GivenOk(w.events, w.given) && OpenOk(w.open, w.given, w.failed, w.accepted) && FailedOk(w.given, w.failed)
    && DeadOk(w.events, w.failed, maxAttempts) && AcceptedOk(w.events, w.checkpoints, w.accepted)
    && forall id :: id in w.events ==> w.events[id].attempts >= 0
  }

  /** Rows may come or change, as long as no row dies. */
  lemma NobodyDies(events: map<string, Row>, events': map<string, Row>, failed: multiset<Handout>, given: multiset<Handout>, maxAttempts: int)
    requires DeadOk(events, failed, maxAttempts) && GivenOk(events, given) && FailedOk(given, failed)
    requires forall id :: id in events' ==> (events'[id].dead <==> id in events && events[id].dead)
    ensures DeadOk(events', failed, maxAttempts)
  {}

  lemma EmitKeeps(w: World, id: string, eventType: string, maxAttempts: int)
    requires Inv(w, maxAttempts)
    ensures Inv(EmitStep(w, id, eventType), maxAttempts)
  {
    if id !in w.events {
      NobodyDies(w.events, w.events[id := Row(eventType, 0, Unleased, false, false)], w.failed, w.given, maxAttempts);
    }
  }

  function NewHandouts(events: map<string, Row>, ids: set<string>): set<Handout> {
    set id | id in ids && id in events :: Handout(id, events[id].attempts + 1)
  }

  lemma ClaimGives(events: map<string, Row>, given: multiset<Handout>, ids: set<string>, until: int)
    requires GivenOk(events, given) && forall id :: id in events ==> events[id].attempts >= 0
    ensures GivenOk(ClaimRows(events, ids, until), given + multiset(NewHandouts(events, ids)))
    ensures forall h :: h in NewHandouts(events, ids) ==> h !in given
  {
    var handed, events' := NewHandouts(events, ids), ClaimRows(events, ids, until);
    forall h ensures h in handed <==> h.id in ids && h.id in events && h.attempt == events[h.id].attempts + 1 {}
    forall h ensures (given + multiset(handed))[h] == if h.id in events' && 1 <= h.attempt <= events'[h.id].attempts then 1 else 0 {
      assert multiset(handed)[h] == if h in handed then 1 else 0;
    }
  }

  lemma ClaimKeeps(w: World, consumer: string, eventType: string, ids: set<string>, until: int, maxAttempts: int)
    requires Inv(w, maxAttempts)
    ensures Inv(ClaimStep(w, consumer, eventType, ids, until), maxAttempts)
  {
    ClaimGives(w.events, w.given, ids, until);
    NobodyDies(w.events, ClaimRows(w.events, ids, until), w.failed, w.given, maxAttempts);
    ClaimOpens(w, consumer, eventType, until, NewHandouts(w.events, ids));
  }

  lemma ClaimOpens(w: World, consumer: string, eventType: string, until: int, handed: set<Handout>)
    requires OpenOk(w.open, w.given, w.failed, w.accepted) && FailedOk(w.given, w.failed) && forall h :: h in handed ==> h !in w.given
    ensures OpenOk(w.open + Opened(handed, Delivery(consumer, eventType, Waiting, until)), w.given + multiset(handed), w.failed, w.accepted)
    ensures FailedOk(w.given + multiset(handed), w.failed)
  {}

  lemma PublishKeeps(w: World, h: Handout, ok: bool, maxAttempts: int)
    requires Inv(w, maxAttempts)
    ensures Inv(PublishStep(w, h, ok), maxAttempts)
  {}

  lemma CheckpointKeeps(w: World, h: Handout, stuck: bool, maxAttempts: int)
    requires Inv(w, maxAttempts)
    ensures Inv(CheckpointStep(w, h, stuck), maxAttempts)
  {}

  lemma SettleDead(events: map<string, Row>, failed: multiset<Handout>, h: Handout, ok: bool, eventType: string, maxAttempts: int)
    requires DeadOk(events, failed, maxAttempts) && h.id in events
    ensures DeadOk(events[h.id := SettledRow(events[h.id], h.attempt, ok, eventType, maxAttempts)],
                   if ok then failed else failed + multiset{h}, maxAttempts)
  {
    var failed' := if ok then failed else failed + multiset{h};
    assert forall x :: x in failed ==> x in failed';
    assert !ok ==> Handout(h.id, h.attempt) in failed';
    assert forall id :: DeadBy(failed, maxAttempts, id) ==> DeadBy(failed', maxAttempts, id);
  }

  /** A failure written down now was handed out and not written down before. */
  lemma SettleFails(w: World, h: Handout)
    requires OpenOk(w.open, w.given, w.failed, w.accepted) && FailedOk(w.given, w.failed) && h in w.open
    ensures FailedOk(w.given, w.failed + multiset{h})
    ensures OpenOk(w.open - {h}, w.given, w.failed + multiset{h}, w.accepted) && OpenOk(w.open - {h}, w.given, w.failed, w.accepted)
  {}

  lemma SettleKeeps(w: World, h: Handout, stuck: bool, maxAttempts: int)
    requires Inv(w, maxAttempts)
    ensures Inv(SettleStep(w, h, stuck, maxAttempts), maxAttempts)
  {
    if h in w.open {
      SettleFails(w, h);
      if h.id in w.events {
        SettleDead(w.events, w.failed, h, w.open[h].stage.Checkpointed?, w.open[h].eventType, maxAttempts);
      }
    }
  }

  lemma CrashKeeps(w: World, h: Handout, maxAttempts: int)
    requires Inv(w, maxAttempts)
    ensures Inv(w.(open := w.open - {h}), maxAttempts)
  {}

  lemma TickKeeps(w: World, later: int, maxAttempts: int)
    requires Inv(w, maxAttempts)
    ensures Inv(Apply(w, Tick(later), maxAttempts), maxAttempts)
  {}

  lemma StepKeeps(w: World, step: Step, maxAttempts: int)
    requires Inv(w, maxAttempts)
    ensures Inv(Apply(w, step, maxAttempts), maxAttempts)
  {
    var w' := Apply(w, step, maxAttempts);
    match step
    case Emit(id, eventType) => EmitKeeps(w, id, eventType, maxAttempts); assert w' == EmitStep(w, id, eventType);
    case Claim(consumer, eventType, ids, until) =>
      ClaimKeeps(w, consumer, eventType, ids, until, maxAttempts);
      assert w' == ClaimStep(w, consumer, eventType, ids, until);
    case Publish(h, ok) => PublishKeeps(w, h, ok, maxAttempts); assert w' == PublishStep(w, h, ok);
    case Checkpoint(h, stuck) => CheckpointKeeps(w, h, stuck, maxAttempts); assert w' == CheckpointStep(w, h, stuck);
    case Settle(h, stuck) => SettleKeeps(w, h, stuck, maxAttempts); assert w' == SettleStep(w, h, stuck, maxAttempts);
    case Tick(later) => TickKeeps(w, later, maxAttempts);
    case Crash(h) => CrashKeeps(w, h, maxAttempts);
  }

  lemma {:induction false} RunKeeps(run: Run, maxAttempts: int)
    ensures Inv(After(run, maxAttempts), maxAttempts)
  {
    if run.Then? {
      RunKeeps(run.past, maxAttempts);
      StepKeeps(After(run.past, maxAttempts), run.step, maxAttempts);
    }
  }

  // ---------------------------------------------------------------- results

  /** MAIN RESULT. Whatever the workers do, the attempt numbers handed out for an event are 1, 2, ... up to
      its attempts, each exactly once: two deliveries never carry the same number. */
  lemma AttemptsDistinct(run: Run, maxAttempts: int, h: Handout)
    ensures var w := After(run, maxAttempts);
            w.given[h] == if h.id in w.events && 1 <= h.attempt <= w.events[h.id].attempts then 1 else 0
  {
    RunKeeps(run, maxAttempts);
  }

  /** The attempts of an event whose failure has been written down. */
  function FailedAttempts(w: World, id: string): set<int> {
    if id in w.events then set n | 1 <= n <= w.events[id].attempts && Handout(id, n) in w.failed else {}
  }

  /** The numbers from 1 up to, not including, `bound`. */
  function Below(bound: int): set<int>
    decreases bound
  {
    if bound <= 1 then {} else Below(bound - 1) + {bound - 1}
  }

  lemma {:induction false} BelowCount(bound: int)
    requires bound >= 1
    ensures |Below(bound)| == bound - 1 && forall n :: n in Below(bound) <==> 1 <= n < bound
    decreases bound
  {
    if bound > 1 {
      BelowCount(bound - 1);
    }
  }

  lemma SubsetCount(s: set<int>, t: set<int>)
    requires s <= t
    ensures |s| <= |t|
  {
    assert t == s + (t - s);
  }

  /** MAIN RESULT. A failure is written down at most once per attempt. An event is dead-lettered exactly when
      a failure of attempt number maxAttempts or later has been written down; it then has at least that many
      attempts, and until then it has fewer than maxAttempts failures. */
  lemma DeadLetters(run: Run, configured: int, id: string)
    requires id in After(run, MaxAttempts(configured)).events
    ensures var max := MaxAttempts(configured);
            var w := After(run, max);
            && (forall n :: w.failed[Handout(id, n)] == if n in FailedAttempts(w, id) then 1 else 0)
            && (w.events[id].dead <==> exists n :: n in FailedAttempts(w, id) && n >= max)
            && (w.events[id].dead ==> w.events[id].attempts >= max)
            && (!w.events[id].dead ==> |FailedAttempts(w, id)| < max)
  {
    var max := MaxAttempts(configured);
    var w := After(run, max);
    RunKeeps(run, max);
    forall n ensures Handout(id, n) in w.failed <==> n in FailedAttempts(w, id) {
      assert Handout(id, n) in w.failed ==> Handout(id, n) in w.given;
    }
    if w.events[id].dead {
      assert DeadBy(w.failed, max, id);
    } else {
      BelowCount(max);
      forall n | n in FailedAttempts(w, id) ensures n in Below(max) {
        assert Handout(id, n) in w.failed;
      }
      SubsetCount(FailedAttempts(w, id), Below(max));
    }
  }

  /** MAIN RESULT. A checkpoint or a published mark means that the publisher accepted the event. */
  lemma MarksMeanAccepted(run: Run, maxAttempts: int)
    ensures var w := After(run, maxAttempts);
            && (forall consumer, id :: (consumer, id) in w.checkpoints ==> id in w.accepted)
            && (forall id :: id in w.events && w.events[id].published ==> id in w.accepted)
  {
    RunKeeps(run, maxAttempts);
  }
}
