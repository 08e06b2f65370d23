/** One undisturbed pass of an outbox worker, as the steps of the interleaved protocol. */
module OutboxPasses {
  import opened Outbox
  import opened OutboxService

  /** A pass: the worker, the events it has claimed, when their leases end, and what the publisher answers. */
  datatype Pass = Pass(consumer: string, eventType: string, ids: seq<string>, until: int, publish: Publisher, maxAttempts: int)

  /** A delivery that is neither cut off nor loses an update. */
  function Deliver(w: World, h: Handout, ok: bool, maxAttempts: int): World {
    Apply(Apply(Apply(w, Publish(h, ok), maxAttempts), Checkpoint(h, false), maxAttempts), Settle(h, false), maxAttempts)
  }

  lemma DeliverOne(w: World, h: Handout, ok: bool, maxAttempts: int)
    requires h in w.open && w.open[h].stage.Waiting? && h.id in w.events
    ensures var w' := Deliver(w, h, ok, maxAttempts);
            && w'.events == w.events[h.id := SettledRow(w.events[h.id], h.attempt, ok, w.open[h].eventType, maxAttempts)]
            && w'.checkpoints == (if ok then w.checkpoints + {(w.open[h].consumer, h.id)} else w.checkpoints)
            && w'.open == w.open - {h}
  {
    var w1 := Apply(w, Publish(h, ok), maxAttempts);
    var w2 := Apply(w1, Checkpoint(h, false), maxAttempts);
    assert w2.open[h] == w.open[h].(stage := if ok then Checkpointed else Refused);
    assert w2.open - {h} == w.open - {h};
  }

  function NextHandout(w: World, id: string): Handout { Handout(id, if id in w.events then w.events[id].attempts + 1 else 0) }

  function DeliverNth(w: World, w': World, p: Pass, k: nat): World
    requires k < |p.ids|
  {
    Deliver(w', NextHandout(w, p.ids[k]), p.publish(NextHandout(w, p.ids[k])), p.maxAttempts)
  }

  /** The claim, and the first `k` deliveries in order. */
  function PassSteps(w: World, p: Pass, k: nat): World
    requires k <= |p.ids|
  {
    if k == 0 then Apply(w, Claim(p.consumer, p.eventType, SetOf(p.ids), p.until), p.maxAttempts)
    else DeliverNth(w, PassSteps(w, p, k - 1), p, k - 1)
  }

  // ---------------------------------------------------------------- how far the pass has come

  function RowAt(r: Row, id: string, p: Pass, done: set<string>): Row {
    if id in done then PassedRow(id, r, p.publish, p.eventType, p.maxAttempts)
    else if id in SetOf(p.ids) then ClaimedRow(r, p.until) else r
  }

  predicate RowsAt(events: map<string, Row>, events': map<string, Row>, p: Pass, done: set<string>) {
    events'.Keys == events.Keys && forall id :: id in events ==> events'[id] == RowAt(events[id], id, p, done)
  }

  predicate MarksAt(w: World, w': World, p: Pass, done: set<string>) {
    w'.checkpoints == w.checkpoints + Marks(p.consumer, Delivered(w.events, done, p.publish))
  }

  predicate OpenAt(w: World, w': World, p: Pass, k: nat) {
    forall j :: k <= j < |p.ids| ==>
      NextHandout(w, p.ids[j]) in w'.open && w'.open[NextHandout(w, p.ids[j])] == Delivery(p.consumer, p.eventType, Waiting, p.until)
  }

  predicate Partway(w: World, w': World, p: Pass, k: nat)
    requires k <= |p.ids|
  {
    RowsAt(w.events, w'.events, p, SetOf(p.ids[..k])) && MarksAt(w, w', p, SetOf(p.ids[..k])) && OpenAt(w, w', p, k)
  }

  ghost predicate Starts(w: World, p: Pass, limit: int) {
    IsClaim(w.events, w.checkpoints, w.now, p.consumer, p.eventType, p.ids, limit) && p.until > w.now
  }

  lemma ClaimApplies(w: World, p: Pass, limit: int)
    requires Starts(w, p, limit)
    ensures var w' := PassSteps(w, p, 0);
            && w'.events == ClaimRows(w.events, SetOf(p.ids), p.until) && w'.checkpoints == w.checkpoints
            && w'.open == w.open + Opened(NewHandouts(w.events, SetOf(p.ids)), Delivery(p.consumer, p.eventType, Waiting, p.until))
  {
    forall id | id in SetOf(p.ids) ensures Claimable(w.events, w.checkpoints, w.now, p.consumer, p.eventType, id) {
      assert id in p.ids;
    }
  }

  lemma ClaimStarts(w: World, p: Pass, limit: int)
    requires Starts(w, p, limit)
    ensures Partway(w, PassSteps(w, p, 0), p, 0)
  {
    assert SetOf(p.ids[..0]) == {};
    assert Delivered(w.events, {}, p.publish) == {} && Marks(p.consumer, {}) == {};
    ClaimApplies(w, p, limit);
    forall j | 0 <= j < |p.ids| ensures NextHandout(w, p.ids[j]) in NewHandouts(w.events, SetOf(p.ids)) {
      assert p.ids[j] in p.ids && p.ids[j] in SetOf(p.ids);
    }
  }

  lemma SettledIsPassed(id: string, r: Row, p: Pass)
    ensures var h := Handout(id, r.attempts + 1);
            SettledRow(ClaimedRow(r, p.until), h.attempt, p.publish(h), p.eventType, p.maxAttempts) == PassedRow(id, r, p.publish, p.eventType, p.maxAttempts)
  {}

  lemma RowsNext(events: map<string, Row>, events': map<string, Row>, p: Pass, done: set<string>, id: string)
    requires RowsAt(events, events', p, done) && id in events && id in SetOf(p.ids) && id !in done
    ensures var h := Handout(id, events[id].attempts + 1);
            RowsAt(events, events'[id := SettledRow(events'[id], h.attempt, p.publish(h), p.eventType, p.maxAttempts)], p, done + {id})
  {
    SettledIsPassed(id, events[id], p);
  }

  lemma OthersOpen(w: World, p: Pass, k: nat)
    requires Rising(p.ids) && k < |p.ids|
    ensures forall j :: k < j < |p.ids| ==> NextHandout(w, p.ids[j]) != NextHandout(w, p.ids[k])
  {
    forall j | k < j < |p.ids| ensures p.ids[j] != p.ids[k] {
      SetOfNext(p.ids, j);
      assert p.ids[..j][k] == p.ids[k] && p.ids[k] in SetOf(p.ids[..j]);
    }
  }

  lemma NthGoes(w: World, w': World, p: Pass, k: nat)
    requires Rising(p.ids) && k < |p.ids| && p.ids[k] in w.events && Partway(w, w', p, k)
    ensures Partway(w, DeliverNth(w, w', p, k), p, k + 1)
  {
    var h := NextHandout(w, p.ids[k]);
    SetOfNext(p.ids, k);
    DeliverOne(w', h, p.publish(h), p.maxAttempts);
    NthLeaves(w, w', DeliverNth(w, w', p, k), p, k);
  }

  lemma NthLeaves(w: World, w': World, w2: World, p: Pass, k: nat)
    requires Rising(p.ids) && k < |p.ids| && p.ids[k] in w.events && Partway(w, w', p, k)
    requires var id, h := p.ids[k], NextHandout(w, p.ids[k]);
             && id in w'.events && w2.events == w'.events[id := SettledRow(w'.events[id], h.attempt, p.publish(h), p.eventType, p.maxAttempts)]
             && w2.checkpoints == (if p.publish(h) then w'.checkpoints + {(p.consumer, id)} else w'.checkpoints)
             && w2.open == w'.open - {h}
    ensures Partway(w, w2, p, k + 1)
  {
    var id, done := p.ids[k], SetOf(p.ids[..k]);
    SetOfNext(p.ids, k);
    RowsNext(w.events, w'.events, p, done, id);
    MarksGo(w, w', w2, p, done, id);
    OpenGoes(w, w', w2, p, k);
  }

  lemma MarksGo(w: World, w': World, w2: World, p: Pass, done: set<string>, id: string)
    requires MarksAt(w, w', p, done) && id in w.events
    requires w2.checkpoints == if p.publish(NextHandout(w, id)) then w'.checkpoints + {(p.consumer, id)} else w'.checkpoints
    ensures MarksAt(w, w2, p, done + {id})
  {
    DeliverStep(w.events, done, id, p.publish);
    MarksNext(p.consumer, Delivered(w.events, done, p.publish), id);
  }

  lemma OpenGoes(w: World, w': World, w2: World, p: Pass, k: nat)
    requires Rising(p.ids) && k < |p.ids| && OpenAt(w, w', p, k) && w2.open == w'.open - {NextHandout(w, p.ids[k])}
    ensures OpenAt(w, w2, p, k + 1)
  {
    OthersOpen(w, p, k);
  }

  lemma ClaimedIsKnown(w: World, p: Pass, k: nat, limit: int)
    requires Starts(w, p, limit) && k < |p.ids|
    ensures p.ids[k] in w.events && Rising(p.ids)
  {
    assert p.ids[k] in p.ids && Claimable(w.events, w.checkpoints, w.now, p.consumer, p.eventType, p.ids[k]);
  }

  lemma PassNext(w: World, p: Pass, k: nat)
    requires k < |p.ids|
    ensures PassSteps(w, p, k + 1) == DeliverNth(w, PassSteps(w, p, k), p, k)
  {}

  lemma {:induction false} PassGoes(w: World, p: Pass, k: nat, limit: int)
    requires Starts(w, p, limit) && k <= |p.ids|
    ensures Partway(w, PassSteps(w, p, k), p, k)
  {
    if k == 0 {
      ClaimStarts(w, p, limit);
    } else {
      PassGoes(w, p, k - 1, limit);
      ClaimedIsKnown(w, p, k - 1, limit);
      PassNext(w, p, k - 1);
      NthGoes(w, PassSteps(w, p, k - 1), p, k - 1);
    }
  }

  /** MAIN RESULT. Undisturbed, the steps of the protocol leave the rows and checkpoints the worker's pass leaves. */
  lemma PassIsSteps(w: World, p: Pass, limit: int)
    requires Starts(w, p, limit)
    ensures var w' := PassSteps(w, p, |p.ids|);
            && w'.events == Passed(w.events, SetOf(p.ids), p.publish, p.eventType, p.maxAttempts)
            && w'.checkpoints == w.checkpoints + Marks(p.consumer, Delivered(w.events, SetOf(p.ids), p.publish))
  {
    PassGoes(w, p, |p.ids|, limit);
    assert p.ids[..|p.ids|] == p.ids;
  }
}
