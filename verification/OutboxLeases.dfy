/** When outbox leases exclude each other. A worker that records its outcome late clears the lease of whoever has
claimed the event since. */
module OutboxLeases {
  import opened Outbox

  /** A delivery under way whose lease has not run out. */
  predicate Live(w: World, h: Handout) { h in w.open && w.open[h].until >= w.now }

  predicate LiveOn(w: World, id: string) { exists h :: h in w.open && h.id == id && Live(w, h) }

  /** No event has two of them. */
  predicate Exclusive(w: World) {
    forall g, h :: g in w.open && h in w.open && Live(w, g) && Live(w, h) && g.id == h.id ==> g == h
  }

  /** Nobody will claim the event again. */
  predicate Closed(r: Row) { r.dead || (r.published && r.eventType == "") }

  predicate LeaseFree(r: Row, now: int) { r.lease.Until? ==> r.lease.time < now }

  /** Some worker could claim the event now. */
  predicate Reclaimable(w: World, id: string) { id in w.events && !Closed(w.events[id]) && LeaseFree(w.events[id], w.now) }

  // ---------------------------------------------------------------- a second live delivery

  /** A claim hands the event out while a live delivery of it is under way. */
  predicate OpensSecond(w: World, step: Step, id: string, maxAttempts: int) {
    var w' := Apply(w, step, maxAttempts);
    LiveOn(w, id) && exists h :: h in w'.open && h !in w.open && h.id == id && Live(w', h)
  }

  /** A consumer name without any checkpoint: longer than all there are. */
  lemma {:induction false} FreshConsumer(checkpoints: set<(string, string)>) returns (consumer: string)
    ensures forall c :: c in checkpoints ==> |c.0| < |consumer|
    decreases |checkpoints|
  {
    if checkpoints == {} {
      consumer := "a";
    } else {
      var c :| c in checkpoints;
      var rest := checkpoints - {c};
      var name := FreshConsumer(rest);
      consumer := if |name| > |c.0| then name else c.0 + "a";
      assert forall d :: d in checkpoints ==> d == c || d in rest;
    }
  }

  /** Whoever may claim it: an untyped worker an unpublished event, a worker with a new name any other. */
  lemma SomeoneClaims(w: World, id: string) returns (consumer: string, eventType: string)
    requires Reclaimable(w, id)
    ensures Claimable(w.events, w.checkpoints, w.now, consumer, eventType, id)
  {
    consumer := FreshConsumer(w.checkpoints);
    eventType := if w.events[id].published then w.events[id].eventType else "";
  }

  /** The next handout of an event is a new one. */
  lemma NextIsNew(w: World, id: string, maxAttempts: int)
    requires Inv(w, maxAttempts) && id in w.events
    ensures Handout(id, w.events[id].attempts + 1) !in w.open
  {
    var h := Handout(id, w.events[id].attempts + 1);
    assert w.given[h] == 0;
    assert h in w.open ==> h in w.given;
  }

  lemma OpenOne(events: map<string, Row>, id: string, d: Delivery)
    requires id in events
    ensures Opened(NewHandouts(events, {id}), d) == map[Handout(id, events[id].attempts + 1) := d]
  {
    assert NewHandouts(events, {id}) == {Handout(id, events[id].attempts + 1)};
  }

  lemma ClaimStepOpens(w: World, id: string, consumer: string, eventType: string, until: int)
    requires Claimable(w.events, w.checkpoints, w.now, consumer, eventType, id) && until > w.now
    ensures var w' := ClaimStep(w, consumer, eventType, {id}, until);
            && w'.now == w.now && w'.events == ClaimRows(w.events, {id}, until)
            && w'.open == w.open + map[Handout(id, w.events[id].attempts + 1) := Delivery(consumer, eventType, Waiting, until)]
  {
    OpenOne(w.events, id, Delivery(consumer, eventType, Waiting, until));
  }

  lemma ClaimOpensOne(w: World, id: string, consumer: string, eventType: string, maxAttempts: int)
    requires Inv(w, maxAttempts) && Claimable(w.events, w.checkpoints, w.now, consumer, eventType, id)
    ensures var w' := ClaimStep(w, consumer, eventType, {id}, w.now + 1);
            var h := Handout(id, w.events[id].attempts + 1);
            && h !in w.open && h in w'.open && Live(w', h) && w'.now == w.now
            && forall g :: g in w.open ==> g in w'.open && w'.open[g] == w.open[g]
  {
    NextIsNew(w, id, maxAttempts);
    ClaimStepOpens(w, id, consumer, eventType, w.now + 1);
  }

  lemma ClaimedWasFree(w: World, step: Step, id: string, maxAttempts: int)
    requires step.Claim? && OpensSecond(w, step, id, maxAttempts)
    ensures Reclaimable(w, id)
  {
    var w' := Apply(w, step, maxAttempts);
    var h :| h in w'.open && h !in w.open && h.id == id && Live(w', h);
    assert h in NewHandouts(w.events, step.ids);
    assert Claimable(w.events, w.checkpoints, w.now, step.consumer, step.eventType, id);
  }

  ghost predicate CanDouble(w: World, id: string, maxAttempts: int) {
    exists step: Step :: step.Claim? && OpensSecond(w, step, id, maxAttempts)
  }

  /** MAIN RESULT. In every reachable state some claim can open a second live delivery of an event exactly when
      the event has a live one, is not closed, and bears no unexpired lease. */
  lemma SecondClaimIff(run: Run, maxAttempts: int, id: string)
    ensures CanDouble(After(run, maxAttempts), id, maxAttempts)
       <==> LiveOn(After(run, maxAttempts), id) && Reclaimable(After(run, maxAttempts), id)
  {
    var w := After(run, maxAttempts);
    if LiveOn(w, id) && Reclaimable(w, id) {
      RunKeeps(run, maxAttempts);
      var consumer, eventType := SomeoneClaims(w, id);
      ClaimOpensOne(w, id, consumer, eventType, maxAttempts);
      assert OpensSecond(w, Claim(consumer, eventType, {id}, w.now + 1), id, maxAttempts);
    } else {
      forall step: Step | step.Claim? && OpensSecond(w, step, id, maxAttempts) ensures Reclaimable(w, id) {
        ClaimedWasFree(w, step, id, maxAttempts);
      }
    }
  }

  // ---------------------------------------------------------------- outcomes recorded in time

  /** The step writes the outcome of a delivery to its event's row. */
  predicate Records(w: World, step: Step) {
    step.Settle? && !step.stuck && step.h in w.open && step.h.id in w.events && (w.open[step.h].stage.Checkpointed? || w.open[step.h].stage.Refused?)
  }

  predicate InTime(w: World, step: Step) { Records(w, step) ==> Live(w, step.h) }

  /** The row the outcome leaves. */
  function Recorded(w: World, h: Handout, maxAttempts: int): Row
    requires h in w.open && h.id in w.events
  {
    SettledRow(w.events[h.id], h.attempt, w.open[h].stage.Checkpointed?, w.open[h].eventType, maxAttempts)
  }

  /** Recording harms nobody: it closes the event, or no other live delivery of it is under way. */
  predicate MayRecord(w: World, step: Step, maxAttempts: int) {
    Records(w, step) ==>
      || Closed(Recorded(w, step.h, maxAttempts))
      || forall g :: g in w.open && g.id == step.h.id && Live(w, g) ==> g == step.h
  }

  predicate SafeRun(run: Run, maxAttempts: int) {
    run.Then? ==> SafeRun(run.past, maxAttempts) && MayRecord(After(run.past, maxAttempts), run.step, maxAttempts)
  }

  predicate PunctualRun(run: Run, maxAttempts: int) {
    run.Then? ==> PunctualRun(run.past, maxAttempts) && InTime(After(run.past, maxAttempts), run.step)
  }

  /** A live delivery's lease is still on its row, unless the event is closed. */
  predicate Leased(w: World) {
    forall h :: h in w.open && Live(w, h) ==>
      h.id in w.events && (Closed(w.events[h.id]) || w.events[h.id].lease == Until(w.open[h].until))
  }

  predicate Quiet(w: World) { Exclusive(w) && Leased(w) }

  /** A claim takes no event with a live delivery. */
  lemma ClaimedHadNone(w: World, step: Step, h: Handout)
    requires Quiet(w) && step.Claim? && h in w.open && Live(w, h) && h.id in step.ids
    ensures !Claimable(w.events, w.checkpoints, w.now, step.consumer, step.eventType, h.id)
  {}

  lemma ClaimLive(w: World, step: Step, h: Handout)
    requires Quiet(w) && step.Claim? && ClaimStep(w, step.consumer, step.eventType, step.ids, step.until) != w
    requires var w' := ClaimStep(w, step.consumer, step.eventType, step.ids, step.until); h in w'.open && Live(w', h)
    ensures if h.id in step.ids then h in NewHandouts(w.events, step.ids) else h in w.open && Live(w, h)
  {
    if h in w.open && Live(w, h) && h.id in step.ids { ClaimedHadNone(w, step, h); }
  }

  lemma ClaimKeepsQuiet(w: World, step: Step, maxAttempts: int)
    requires Quiet(w) && step.Claim?
    ensures Quiet(Apply(w, step, maxAttempts))
  {
    var w' := ClaimStep(w, step.consumer, step.eventType, step.ids, step.until);
    if w' != w {
      forall g, h | g in w'.open && h in w'.open && Live(w', g) && Live(w', h) && g.id == h.id ensures g == h {
        ClaimLive(w, step, g);
        ClaimLive(w, step, h);
      }
      forall h | h in w'.open && Live(w', h)
        ensures h.id in w'.events && (Closed(w'.events[h.id]) || w'.events[h.id].lease == Until(w'.open[h].until))
      {
        ClaimLive(w, step, h);
        ClaimLeases(w, step, h);
      }
    }
  }

  lemma ClaimLeases(w: World, step: Step, h: Handout)
    requires Leased(w) && step.Claim? && ClaimStep(w, step.consumer, step.eventType, step.ids, step.until) != w
    requires if h.id in step.ids then h in NewHandouts(w.events, step.ids) else h in w.open && Live(w, h)
    ensures var w' := ClaimStep(w, step.consumer, step.eventType, step.ids, step.until);
            h in w'.open && h.id in w'.events && (Closed(w'.events[h.id]) || w'.events[h.id].lease == Until(w'.open[h].until))
  {}

  lemma SettleKeepsQuiet(w: World, step: Step, maxAttempts: int)
    requires Quiet(w) && step.Settle? && MayRecord(w, step, maxAttempts)
    ensures Quiet(Apply(w, step, maxAttempts))
  {
    var w' := Apply(w, step, maxAttempts);
    assert forall g :: g in w'.open ==> g in w.open && w'.open[g] == w.open[g];
    if Records(w, step) {
      assert w'.events == w.events[step.h.id := Recorded(w, step.h, maxAttempts)];
    }
  }

  lemma OtherKeepsQuiet(w: World, step: Step, maxAttempts: int)
    requires Quiet(w) && !step.Claim? && !step.Settle?
    ensures Quiet(Apply(w, step, maxAttempts))
  {
    var w' := Apply(w, step, maxAttempts);
    assert forall g :: g in w'.open && Live(w', g) ==> g in w.open && Live(w, g) && w'.open[g].until == w.open[g].until;
    assert forall id :: id in w.events ==> id in w'.events && w'.events[id] == w.events[id];
  }

  lemma StepKeepsQuiet(w: World, step: Step, maxAttempts: int)
    requires Quiet(w) && MayRecord(w, step, maxAttempts)
    ensures Quiet(Apply(w, step, maxAttempts))
  {
    if step.Claim? {
      ClaimKeepsQuiet(w, step, maxAttempts);
    } else if step.Settle? {
      SettleKeepsQuiet(w, step, maxAttempts);
    } else {
      OtherKeepsQuiet(w, step, maxAttempts);
    }
  }

  lemma {:induction false} SafeIsQuiet(run: Run, maxAttempts: int)
    requires SafeRun(run, maxAttempts)
    ensures Quiet(After(run, maxAttempts))
  {
    if run.Then? {
      SafeIsQuiet(run.past, maxAttempts);
      StepKeepsQuiet(After(run.past, maxAttempts), run.step, maxAttempts);
    }
  }

  /** MAIN RESULT. As long as outcomes are recorded no later than their leases end, no event ever has two live
      deliveries. */
  lemma {:induction false} PunctualIsExclusive(run: Run, maxAttempts: int)
    requires PunctualRun(run, maxAttempts)
    ensures SafeRun(run, maxAttempts) && Exclusive(After(run, maxAttempts))
  {
    if run.Then? {
      PunctualIsExclusive(run.past, maxAttempts);
    }
    SafeIsQuiet(run, maxAttempts);
  }

  // ---------------------------------------------------------------- the exact condition over runs

  predicate Extends(later: Run, earlier: Run) {
    later == earlier || (later.Then? && Extends(later.past, earlier))
  }

  /** How a run may go on with outcomes recorded in time. */
  predicate Continues(later: Run, earlier: Run, maxAttempts: int) {
    later == earlier || (later.Then? && InTime(After(later.past, maxAttempts), later.step) && Continues(later.past, earlier, maxAttempts))
  }

  /** At every moment of the run, and however it may go on punctually from there, leases are exclusive. */
  ghost predicate AlwaysExclusive(run: Run, maxAttempts: int) {
    forall earlier, later :: Extends(run, earlier) && Continues(later, earlier, maxAttempts) ==> Exclusive(After(later, maxAttempts))
  }

  lemma {:induction false} ContinuesSafely(later: Run, earlier: Run, maxAttempts: int)
    requires SafeRun(earlier, maxAttempts) && Continues(later, earlier, maxAttempts)
    ensures SafeRun(later, maxAttempts)
  {
    if later != earlier {
      ContinuesSafely(later.past, earlier, maxAttempts);
      SafeIsQuiet(later.past, maxAttempts);
    }
  }

  lemma {:induction false} SafeFromStart(run: Run, earlier: Run, maxAttempts: int)
    requires SafeRun(run, maxAttempts) && Extends(run, earlier)
    ensures SafeRun(earlier, maxAttempts)
  {
    if run != earlier {
      SafeFromStart(run.past, earlier, maxAttempts);
    }
  }

  /** Where a live delivery has lost its lease, the next claim makes a second one. */
  lemma NextClaimDoubles(run: Run, g: Handout, maxAttempts: int) returns (claim: Step)
    requires g in After(run, maxAttempts).open && Live(After(run, maxAttempts), g) && Reclaimable(After(run, maxAttempts), g.id)
    ensures claim.Claim? && !Exclusive(After(Then(run, claim), maxAttempts))
  {
    var w := After(run, maxAttempts);
    RunKeeps(run, maxAttempts);
    var consumer, eventType := SomeoneClaims(w, g.id);
    ClaimDoubles(w, g, consumer, eventType, maxAttempts);
    claim := Claim(consumer, eventType, {g.id}, w.now + 1);
  }

  lemma ClaimDoubles(w: World, g: Handout, consumer: string, eventType: string, maxAttempts: int)
    requires Inv(w, maxAttempts) && Claimable(w.events, w.checkpoints, w.now, consumer, eventType, g.id) && g in w.open && Live(w, g)
    ensures !Exclusive(Apply(w, Claim(consumer, eventType, {g.id}, w.now + 1), maxAttempts))
  {
    ClaimOpensOne(w, g.id, consumer, eventType, maxAttempts);
    TwoLive(Apply(w, Claim(consumer, eventType, {g.id}, w.now + 1), maxAttempts), g, Handout(g.id, w.events[g.id].attempts + 1));
  }

  lemma TwoLive(w: World, g: Handout, h: Handout)
    requires g in w.open && h in w.open && Live(w, g) && Live(w, h) && g.id == h.id && g != h
    ensures !Exclusive(w)
  {}

  /** After a harmful recording that is the case. */
  lemma HarmDoubles(run: Run, step: Step, maxAttempts: int) returns (later: Run)
    requires !MayRecord(After(run, maxAttempts), step, maxAttempts)
    ensures Continues(later, Then(run, step), maxAttempts) && !Exclusive(After(later, maxAttempts))
  {
    var w := After(run, maxAttempts);
    var late := Then(run, step);
    var g :| g in w.open && g.id == step.h.id && Live(w, g) && g != step.h;
    RecordFrees(w, step, g, maxAttempts);
    var claim := NextClaimDoubles(late, g, maxAttempts);
    later := Then(late, claim);
    assert Continues(late, late, maxAttempts) && InTime(After(late, maxAttempts), claim);
  }

  lemma RecordFrees(w: World, step: Step, g: Handout, maxAttempts: int)
    requires Records(w, step) && !Closed(Recorded(w, step.h, maxAttempts)) && g in w.open && g.id == step.h.id && Live(w, g) && g != step.h
    ensures var w' := Apply(w, step, maxAttempts); g in w'.open && Live(w', g) && Reclaimable(w', g.id)
  {}

  lemma {:induction false} HarmfulMoment(run: Run, maxAttempts: int) returns (earlier: Run, later: Run)
    requires !SafeRun(run, maxAttempts)
    ensures Extends(run, earlier) && Continues(later, earlier, maxAttempts) && !Exclusive(After(later, maxAttempts))
  {
    if SafeRun(run.past, maxAttempts) {
      earlier := run;
      later := HarmDoubles(run.past, run.step, maxAttempts);
    } else {
      earlier, later := HarmfulMoment(run.past, maxAttempts);
    }
  }

  /** MAIN RESULT. Leases exclude each other in a run, and however its moments may go on punctually, exactly when
      every recorded outcome closes its event or meets no other live delivery of it. */
  lemma AlwaysExclusiveIff(run: Run, maxAttempts: int)
    ensures AlwaysExclusive(run, maxAttempts) <==> SafeRun(run, maxAttempts)
  {
    if SafeRun(run, maxAttempts) {
      forall earlier, later | Extends(run, earlier) && Continues(later, earlier, maxAttempts) ensures Exclusive(After(later, maxAttempts)) {
        SafeFromStart(run, earlier, maxAttempts);
        ContinuesSafely(later, earlier, maxAttempts);
        SafeIsQuiet(later, maxAttempts);
      }
    } else {
      var earlier, later := HarmfulMoment(run, maxAttempts);
    }
  }

  // ---------------------------------------------------------------- a late finisher

  function Untyped(stage: Stage, until: int): Delivery { Delivery("w", "", stage, until) }

  /** The first delivery outlives its lease and fails while the second is under way. */
  function LateRun(id: string): Run {
    var first := Then(Then(Nil, Emit(id, "")), Claim("w", "", {id}, 1));
    var second := Then(Then(first, Tick(2)), Claim("w", "", {id}, 9));
    Then(Then(second, Publish(Handout(id, 1), false)), Settle(Handout(id, 1), false))
  }

  /** A table of one event with its deliveries. */
  predicate Just(w: World, id: string, r: Row, open: map<Handout, Delivery>, now: int) {
    w.events == map[id := r] && w.open == open && w.now == now
  }

  lemma ClaimOne(run: Run, id: string, r: Row, open: map<Handout, Delivery>, now: int, until: int, maxAttempts: int)
    requires Just(After(run, maxAttempts), id, r, open, now) && !r.dead && !r.published && LeaseFree(r, now) && until > now
    ensures Just(After(Then(run, Claim("w", "", {id}, until)), maxAttempts), id, ClaimedRow(r, until),
                 open + map[Handout(id, r.attempts + 1) := Untyped(Waiting, until)], now)
  {
    ClaimStepOne(After(run, maxAttempts), id, r, open, now, until);
  }

  lemma ClaimStepOne(w: World, id: string, r: Row, open: map<Handout, Delivery>, now: int, until: int)
    requires Just(w, id, r, open, now) && !r.dead && !r.published && LeaseFree(r, now) && until > now
    ensures Just(ClaimStep(w, "w", "", {id}, until), id, ClaimedRow(r, until), open + map[Handout(id, r.attempts + 1) := Untyped(Waiting, until)], now)
  {
    ClaimStepOpens(w, id, "w", "", until);
    ClaimRowsOne(id, r, until);
  }

  lemma ClaimRowsOne(id: string, r: Row, until: int)
    ensures ClaimRows(map[id := r], {id}, until) == map[id := ClaimedRow(r, until)]
  {}

  lemma TickOne(run: Run, id: string, r: Row, open: map<Handout, Delivery>, now: int, later: int, maxAttempts: int)
    requires Just(After(run, maxAttempts), id, r, open, now) && later >= now
    ensures Just(After(Then(run, Tick(later)), maxAttempts), id, r, open, later)
  {}

  /** Any event can end up with two live deliveries, its second and its third. */
  lemma LateFinisherDoubles(id: string, maxAttempts: int)
    requires maxAttempts >= 2
    ensures !Exclusive(After(Then(LateRun(id), Claim("w", "", {id}, 9)), maxAttempts))
  {
    var one, two := Handout(id, 1), Handout(id, 2);
    var emitted := Then(Nil, Emit(id, ""));
    assert Just(After(emitted, maxAttempts), id, Row("", 0, Unleased, false, false), map[], 0);
    var first := Then(emitted, Claim("w", "", {id}, 1));
    ClaimOne(emitted, id, Row("", 0, Unleased, false, false), map[], 0, 1, maxAttempts);
    TickOne(first, id, Row("", 1, Until(1), false, false), map[one := Untyped(Waiting, 1)], 0, 2, maxAttempts);
    ClaimOne(Then(first, Tick(2)), id, Row("", 1, Until(1), false, false), map[one := Untyped(Waiting, 1)], 2, 9, maxAttempts);
    LateRecords(Then(Then(first, Tick(2)), Claim("w", "", {id}, 9)), id, maxAttempts);
    ThenTwoLive(LateRun(id), id, maxAttempts);
  }

  lemma ThenTwoLive(run: Run, id: string, maxAttempts: int)
    requires Just(After(run, maxAttempts), id, Row("", 2, Unleased, false, false), map[Handout(id, 2) := Untyped(Waiting, 9)], 2)
    ensures !Exclusive(After(Then(run, Claim("w", "", {id}, 9)), maxAttempts))
  {
    ClaimOne(run, id, Row("", 2, Unleased, false, false), map[Handout(id, 2) := Untyped(Waiting, 9)], 2, 9, maxAttempts);
    var w := After(Then(run, Claim("w", "", {id}, 9)), maxAttempts);
    assert Live(w, Handout(id, 2)) && Live(w, Handout(id, 3));
  }

  lemma LateRecords(run: Run, id: string, maxAttempts: int)
    requires maxAttempts >= 2
    requires Just(After(run, maxAttempts), id, Row("", 2, Until(9), false, false),
                  map[Handout(id, 1) := Untyped(Waiting, 1)] + map[Handout(id, 2) := Untyped(Waiting, 9)], 2)
    ensures Just(After(Then(Then(run, Publish(Handout(id, 1), false)), Settle(Handout(id, 1), false)), maxAttempts), id,
                 Row("", 2, Unleased, false, false), map[Handout(id, 2) := Untyped(Waiting, 9)], 2)
  {
    var w1 := After(Then(run, Publish(Handout(id, 1), false)), maxAttempts);
    assert w1.open == map[Handout(id, 1) := Untyped(Refused, 1), Handout(id, 2) := Untyped(Waiting, 9)];
    assert w1.open - {Handout(id, 1)} == map[Handout(id, 2) := Untyped(Waiting, 9)];
  }
}
