/** Which events of the outbox are handed out, and what a delivery's end means for later ones. */
module OutboxHistory {
  import opened Outbox
  import opened OutboxService

  predicate Extends(later: Run, earlier: Run) { later == earlier || (later.Then? && Extends(later.past, earlier)) }

  // ---------------------------------------------------------------- what a claim may hand out

  /** The event may be delivered now to this consumer. */
  predicate Due(w: World, consumer: string, eventType: string, id: string) {
    && id in w.events && !w.events[id].dead
    && (eventType == "" ==> !w.events[id].published)
    && (eventType != "" ==> w.events[id].eventType == eventType && (consumer, id) !in w.checkpoints)
    && (w.events[id].lease == Unleased || (w.events[id].lease.Until? && w.events[id].lease.time < w.now))
  }

  /** A claim hands its events out, each with the next attempt number and its lease, exactly when every one is due;
      otherwise it does nothing. */
  lemma ClaimsIff(w: World, consumer: string, eventType: string, ids: set<string>, until: int, maxAttempts: int)
    requires until > w.now && ids != {}
    ensures var w' := Apply(w, Claim(consumer, eventType, ids, until), maxAttempts);
            && ((forall id :: id in ids ==> Due(w, consumer, eventType, id)) <==> w' != w)
            && (w' != w ==>
                  && w'.events.Keys == w.events.Keys
                  && (forall id :: id in w.events && id !in ids ==> w'.events[id] == w.events[id])
                  && forall id :: id in ids ==>
                       && w'.events[id] == w.events[id].(attempts := w.events[id].attempts + 1, lease := Until(until))
                       && Handout(id, w.events[id].attempts + 1) in w'.open
                       && w'.open[Handout(id, w.events[id].attempts + 1)] == Delivery(consumer, eventType, Waiting, until))
  {
    assert forall id :: Claimable(w.events, w.checkpoints, w.now, consumer, eventType, id) <==> Due(w, consumer, eventType, id);
    var id :| id in ids;
    var w' := Apply(w, Claim(consumer, eventType, ids, until), maxAttempts);
    if forall id :: id in ids ==> Due(w, consumer, eventType, id) {
      assert w'.events[id].attempts == w.events[id].attempts + 1;
      forall id | id in ids ensures Handout(id, w.events[id].attempts + 1) in NewHandouts(w.events, ids) {}
    }
  }

  /** The end of a delivery: acceptance publishes an event for untyped workers, a refusal from the limit on
      dead-letters it, and its lease is given back. */
  lemma SettlementTells(w: World, h: Handout, maxAttempts: int)
    requires h in w.open && h.id in w.events && (w.open[h].stage == Checkpointed || w.open[h].stage == Refused)
    ensures var d, r, w' := w.open[h], w.events[h.id], Apply(w, Settle(h, false), maxAttempts);
            && h !in w'.open && h.id in w'.events && w'.events[h.id].lease == Unleased && w'.checkpoints == w.checkpoints
            && (w'.events[h.id].published <==> r.published || (d.stage == Checkpointed && d.eventType == ""))
            && (w'.events[h.id].dead <==> r.dead || (d.stage == Refused && h.attempt >= maxAttempts))
            && w'.events[h.id].attempts == r.attempts && w'.events[h.id].eventType == r.eventType
            && (forall id :: id in w.events && id != h.id ==> id in w'.events && w'.events[id] == w.events[id])
  {}

  // ---------------------------------------------------------------- marks are for good

  /** What a later world keeps. */
  predicate Keeps(w: World, w': World) {
    && w.checkpoints <= w'.checkpoints
    && forall id :: id in w.events ==>
         && id in w'.events && w'.events[id].eventType == w.events[id].eventType && w'.events[id].attempts >= w.events[id].attempts
         && (w.events[id].dead ==> w'.events[id].dead) && (w.events[id].published ==> w'.events[id].published)
  }

  lemma SettleKeepsMarks(w: World, h: Handout, stuck: bool, maxAttempts: int)
    ensures Keeps(w, SettleStep(w, h, stuck, maxAttempts))
  {}

  lemma ClaimKeepsMarks(w: World, consumer: string, eventType: string, ids: set<string>, until: int)
    ensures Keeps(w, ClaimStep(w, consumer, eventType, ids, until))
  {}

  lemma StepKeepsMarks(w: World, step: Step, maxAttempts: int)
    ensures Keeps(w, Apply(w, step, maxAttempts))
  {
    match step
    case Settle(h, stuck) => SettleKeepsMarks(w, h, stuck, maxAttempts);
    case Claim(consumer, eventType, ids, until) => ClaimKeepsMarks(w, consumer, eventType, ids, until);
    case _ =>
  }

  lemma {:induction false} MarksStay(earlier: Run, later: Run, maxAttempts: int)
    requires Extends(later, earlier)
    ensures Keeps(After(earlier, maxAttempts), After(later, maxAttempts))
  {
    if later != earlier {
      MarksStay(earlier, later.past, maxAttempts);
      StepKeepsMarks(After(later.past, maxAttempts), later.step, maxAttempts);
    }
  }

  /** The event is done with for this consumer. */
  predicate DoneWith(w: World, consumer: string, eventType: string, id: string) {
    id in w.events && (w.events[id].dead || if eventType == "" then w.events[id].published else (consumer, id) in w.checkpoints)
  }

  /** MAIN RESULT. Once an event is dead, published, or checkpointed by a typed consumer, no later claim
      hands it out to that kind of worker again. */
  lemma NeverHandedOutAgain(earlier: Run, later: Run, maxAttempts: int, consumer: string, eventType: string, ids: set<string>, until: int, id: string)
    requires Extends(later, earlier) && DoneWith(After(earlier, maxAttempts), consumer, eventType, id) && id in ids
    ensures After(Then(later, Claim(consumer, eventType, ids, until)), maxAttempts) == After(later, maxAttempts)
  {
    MarksStay(earlier, later, maxAttempts);
    var w := After(later, maxAttempts);
    assert !Claimable(w.events, w.checkpoints, w.now, consumer, eventType, id);
  }

  // ---------------------------------------------------------------- who gets which event

  /** An untyped worker claimed the event. */
  ghost predicate Taken(run: Run, id: string) {
    run.Then? && (Taken(run.past, id) || (run.step.Claim? && run.step.eventType == "" && id in run.step.ids))
  }

  /** Deliveries by untyped workers, and published events, are all among these. */
  ghost predicate TypesIn(w: World, taken: iset<string>) {
    && (forall h :: h in w.open ==> DeliveryIn(w, taken, h))
    && (forall id :: id in w.events && w.events[id].published ==> id in taken)
  }

  ghost predicate DeliveryIn(w: World, taken: iset<string>, h: Handout)
    requires h in w.open
  {
    h.id in w.events && if w.open[h].eventType == "" then h.id in taken else w.open[h].eventType == w.events[h.id].eventType
  }

  lemma ClaimTypes(w: World, consumer: string, eventType: string, ids: set<string>, until: int, taken: iset<string>)
    requires TypesIn(w, taken) && (eventType == "" ==> forall id :: id in ids ==> id in taken)
    ensures TypesIn(ClaimStep(w, consumer, eventType, ids, until), taken)
  {
    var w' := ClaimStep(w, consumer, eventType, ids, until);
    forall h | h in w'.open ensures DeliveryIn(w', taken, h) {
      if h !in NewHandouts(w.events, ids) || w' == w { assert DeliveryIn(w, taken, h); }
      else { assert Claimable(w.events, w.checkpoints, w.now, consumer, eventType, h.id); }
    }
  }

  lemma DeliveryTypes(w: World, h: Handout, ok: bool, stuck: bool, taken: iset<string>)
    requires TypesIn(w, taken)
    ensures TypesIn(PublishStep(w, h, ok), taken) && TypesIn(CheckpointStep(w, h, stuck), taken)
  {
    assert h in w.open ==> DeliveryIn(w, taken, h);
  }

  lemma SettleTypes(w: World, h: Handout, stuck: bool, maxAttempts: int, taken: iset<string>)
    requires TypesIn(w, taken)
    ensures TypesIn(SettleStep(w, h, stuck, maxAttempts), taken)
  {
    var w' := SettleStep(w, h, stuck, maxAttempts);
    assert h in w.open ==> DeliveryIn(w, taken, h);
    forall g | g in w'.open ensures DeliveryIn(w', taken, g) {
      assert DeliveryIn(w, taken, g);
    }
  }

  lemma RestTypes(w: World, step: Step, maxAttempts: int, taken: iset<string>)
    requires TypesIn(w, taken) && (step.Tick? || step.Emit? || step.Crash?)
    ensures TypesIn(Apply(w, step, maxAttempts), taken)
  {
    var w' := Apply(w, step, maxAttempts);
    forall g | g in w'.open ensures DeliveryIn(w', taken, g) {
      assert DeliveryIn(w, taken, g);
    }
  }

  lemma StepTypes(w: World, step: Step, maxAttempts: int, taken: iset<string>)
    requires TypesIn(w, taken) && (step.Claim? && step.eventType == "" ==> forall id :: id in step.ids ==> id in taken)
    ensures TypesIn(Apply(w, step, maxAttempts), taken)
  {
    match step
    case Claim(consumer, eventType, ids, until) => ClaimTypes(w, consumer, eventType, ids, until, taken);
    case Publish(h, ok) => DeliveryTypes(w, h, ok, true, taken);
    case Checkpoint(h, stuck) => DeliveryTypes(w, h, true, stuck, taken);
    case Settle(h, stuck) => SettleTypes(w, h, stuck, maxAttempts, taken);
    case _ => RestTypes(w, step, maxAttempts, taken);
  }

  ghost function TakenIds(run: Run): iset<string> { iset id | Taken(run, id) }

  /** MAIN RESULT. A typed worker delivers only events of its type, and never publishes: an event is published only
      after an untyped worker claimed it. */
  lemma {:induction false} TypedDeliveries(run: Run, maxAttempts: int)
    ensures TypesIn(After(run, maxAttempts), TakenIds(run))
  {
    if run.Then? {
      TypedDeliveries(run.past, maxAttempts);
      var w := After(run.past, maxAttempts);
      assert TypesIn(w, TakenIds(run)) by {
        forall h | h in w.open ensures DeliveryIn(w, TakenIds(run), h) { assert DeliveryIn(w, TakenIds(run.past), h); }
      }
      StepTypes(w, run.step, maxAttempts, TakenIds(run));
    }
  }

  // ---------------------------------------------------------------- one pass

  /** After an undisturbed pass of an untyped worker a claimed event is published exactly when the publisher
      accepted this attempt, and dead exactly when it refused one from the limit on. */
  lemma PassTells(events: map<string, Row>, ids: set<string>, publish: Publisher, maxAttempts: int, id: string)
    requires id in ids && id in events && Pending(events[id])
    ensures var r, r' := events[id], Passed(events, ids, publish, "", maxAttempts)[id];
            && r'.attempts == r.attempts + 1 && r'.lease == Unleased
            && (r'.published <==> publish(Handout(id, r.attempts + 1)))
            && (r'.dead <==> !publish(Handout(id, r.attempts + 1)) && r.attempts + 1 >= maxAttempts)
  {}
}
