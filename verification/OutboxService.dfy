/** One outbox worker as a program over the tables, and how its passes drain the outbox. */
module OutboxService {
  import opened Ordering
  import opened Outbox

  /** What the publisher answers to each delivery. */
  type Publisher = Handout -> bool

  predicate Rising(ids: seq<string>) {
    forall i, j :: 0 <= i < j < |ids| ==> StringLess(ids[i], ids[j])
  }

  /** The claim of a worker nobody competes with: the first claimable events in id order, up to the limit. */
  ghost predicate IsClaim(events: map<string, Row>, checkpoints: set<(string, string)>, now: int, consumer: string, eventType: string,
                          ids: seq<string>, limit: int) {
    && Rising(ids) && |ids| <= limit
    && (forall id :: id in ids ==> Claimable(events, checkpoints, now, consumer, eventType, id))
    && (forall id :: Claimable(events, checkpoints, now, consumer, eventType, id) && id !in ids ==>
          |ids| == limit && forall k :: 0 <= k < |ids| ==> StringLess(ids[k], id))
  }

  /** A row after its event was claimed and delivered within one pass. */
  function PassedRow(id: string, r: Row, publish: Publisher, eventType: string, maxAttempts: int): Row {
    var h := Handout(id, r.attempts + 1);
    SettledRow(r.(attempts := h.attempt), h.attempt, publish(h), eventType, maxAttempts)
  }

  function Passed(events: map<string, Row>, ids: set<string>, publish: Publisher, eventType: string, maxAttempts: int): map<string, Row> {
    map id | id in events :: if id in ids then PassedRow(id, events[id], publish, eventType, maxAttempts) else events[id]
  }

  /** The events of a pass that the publisher accepts. */
  function Delivered(events: map<string, Row>, ids: set<string>, publish: Publisher): set<string> {
    set id | id in ids && id in events && publish(Handout(id, events[id].attempts + 1))
  }

  function SetOf(ids: seq<string>): set<string> { set id | id in ids }

  lemma SetOfNext(ids: seq<string>, k: nat)
    requires k < |ids| && Rising(ids)
    ensures SetOf(ids[..k + 1]) == SetOf(ids[..k]) + {ids[k]}
    ensures ids[k] in SetOf(ids) && ids[k] !in SetOf(ids[..k])
  {
    forall i | 0 <= i < k ensures ids[..k][i] != ids[k] {
      StringLessIrreflexive(ids[i]);
    }
    assert ids[..k + 1] == ids[..k] + [ids[k]];
  }

  method LeastId(ids: set<string>) returns (least: string)
    requires ids != {}
    ensures least in ids && forall id :: id in ids && id != least ==> StringLess(least, id)
  {
    least :| least in ids;
    var todo := ids - {least};
    while todo != {}
      invariant todo <= ids && least in ids && least !in todo
      invariant forall id :: id in ids && id !in todo && id != least ==> StringLess(least, id)
      decreases todo
    {
      var k :| k in todo;
      todo := todo - {k};
      StringLessTotal(least, k);
      if StringLess(k, least) {
        forall id | id in ids && id !in todo && id != k && id != least ensures StringLess(k, id) {
          StringLessTransitive(k, least, id);
        }
        least := k;
      }
    }
  }

  class Worker {
    const consumer: string
    const eventType: string
    const batchSize: int
    const maxAttempts: int
    var events: map<string, Row>
    var checkpoints: set<(string, string)>

    constructor (consumer: string, eventType: string, batchSize: int, maxAttempts: int, events: map<string, Row>, checkpoints: set<(string, string)>)
      ensures this.consumer == consumer && this.eventType == eventType && this.batchSize == batchSize && this.maxAttempts == maxAttempts
      ensures this.events == events && this.checkpoints == checkpoints
    {
      this.consumer, this.eventType, this.batchSize, this.maxAttempts := consumer, eventType, batchSize, maxAttempts;
      this.events, this.checkpoints := events, checkpoints;
    }

    /** The first claimable events in id order. */
    method Choose(now: int) returns (ids: seq<string>)
      ensures IsClaim(events, checkpoints, now, consumer, eventType, ids, BatchSize(batchSize))
    {
      var limit := if batchSize <= 0 then 50 else batchSize;
      var left := set id | id in events && Claimable(events, checkpoints, now, consumer, eventType, id);
      ids := [];
      while left != {} && |ids| < limit
        invariant |ids| <= limit && Rising(ids)
        invariant forall id :: id in left ==> Claimable(events, checkpoints, now, consumer, eventType, id)
        invariant forall id :: id in ids ==> Claimable(events, checkpoints, now, consumer, eventType, id)
        invariant forall id :: Claimable(events, checkpoints, now, consumer, eventType, id) ==> id in left || id in ids
        invariant forall k, id :: 0 <= k < |ids| && id in left ==> StringLess(ids[k], id)
        decreases left
      {
        var id := LeastId(left);
        left := left - {id};
        ids := ids + [id];
      }
    }

    /** One delivery: the publisher's answer is written down by one or two statements. */
    method Deliver(h: Handout, publish: Publisher)
      requires h.id in events
      modifies this
      ensures events == old(events)[h.id := SettledRow(old(events)[h.id], h.attempt, publish(h), eventType, MaxAttempts(maxAttempts))]
      ensures checkpoints == if publish(h) then old(checkpoints) + {(consumer, h.id)} else old(checkpoints)
    {
      var row := events[h.id];
      if publish(h) {
        checkpoints := checkpoints + {(consumer, h.id)};
        if eventType == "" {
          events := events[h.id := row.(published := true, lease := Unleased)];
        } else {
          events := events[h.id := row.(lease := Unleased)];
        }
        return;
      }
      var limit := if maxAttempts <= 0 then 5 else maxAttempts;
      if h.attempt >= limit {
        events := events[h.id := row.(dead := true, lease := Unleased)];
        return;
      }
      events := events[h.id := row.(lease := Unleased)];
    }

    /** One pass without crashes or lost updates: events are chosen and leased, then delivered one by one. */
    method RunOnce(now: int, until: int, publish: Publisher) returns (ids: seq<string>)
      modifies this
      ensures IsClaim(old(events), old(checkpoints), now, consumer, eventType, ids, BatchSize(batchSize))
      ensures events == Passed(old(events), SetOf(ids), publish, eventType, MaxAttempts(maxAttempts))
      ensures checkpoints == old(checkpoints) + Marks(consumer, Delivered(old(events), SetOf(ids), publish))
    {
      ids := Choose(now);
      events := ClaimRows(events, SetOf(ids), until);
      DeliverAll(ids, until, publish, old(events));
    }

    /** The delivered events have their final rows and marks, the others the rows of the claim. */
    ghost predicate PartlyPassed(before: map<string, Row>, leased: map<string, Row>, start: set<(string, string)>,
                                 done: set<string>, publish: Publisher)
      reads this
    {
      && before.Keys == leased.Keys == events.Keys
      && (forall id :: id in before ==>
            events[id] == (if id in done then PassedRow(id, before[id], publish, eventType, MaxAttempts(maxAttempts)) else leased[id]))
      && checkpoints == start + Marks(consumer, Delivered(before, done, publish))
    }

    method DeliverAll(ids: seq<string>, ghost until: int, publish: Publisher, ghost before: map<string, Row>)
      requires Rising(ids) && forall id :: id in ids ==> id in before
      requires events == ClaimRows(before, SetOf(ids), until)
      modifies this
      ensures events == Passed(before, SetOf(ids), publish, eventType, MaxAttempts(maxAttempts))
      ensures checkpoints == old(checkpoints) + Marks(consumer, Delivered(before, SetOf(ids), publish))
    {
      var leased := events;
      var k := 0;
      assert SetOf(ids[..0]) == {};
      while k < |ids|
        invariant 0 <= k <= |ids| && PartlyPassed(before, leased, old(checkpoints), SetOf(ids[..k]), publish)
      {
        SetOfNext(ids, k);
        DeliverNext(ids[k], publish, before, leased, old(checkpoints), SetOf(ids[..k]), until);
        k := k + 1;
      }
      assert ids[..k] == ids;
    }

    method DeliverNext(id: string, publish: Publisher, ghost before: map<string, Row>, leased: map<string, Row>, ghost start: set<(string, string)>,
                       ghost done: set<string>, ghost until: int)
      requires PartlyPassed(before, leased, start, done, publish) && id in before && id !in done
      requires leased[id] == ClaimedRow(before[id], until)
      modifies this
      ensures PartlyPassed(before, leased, start, done + {id}, publish)
    {
      DeliverStep(before, done, id, publish);
      MarksNext(consumer, Delivered(before, done, publish), id);
      Deliver(Handout(id, leased[id].attempts), publish);
    }
  }

  function Marks(consumer: string, ids: set<string>): set<(string, string)> { set id | id in ids :: (consumer, id) }

  lemma MarksNext(consumer: string, ids: set<string>, id: string)
    ensures Marks(consumer, ids + {id}) == Marks(consumer, ids) + {(consumer, id)}
  {}

  lemma DeliverStep(before: map<string, Row>, done: set<string>, id: string, publish: Publisher)
    requires id in before
    ensures Delivered(before, done + {id}, publish)
         == Delivered(before, done, publish) + if publish(Handout(id, before[id].attempts + 1)) then {id} else {}
  {}

  // ---------------------------------------------------------------- draining the outbox

  predicate Pending(r: Row) { !r.published && !r.dead }

  /** No lease is out and every pending event has attempts left: true of new events, and kept by every pass. */
  predicate Calm(events: map<string, Row>, maxAttempts: int) {
    forall id :: id in events && Pending(events[id]) ==> events[id].lease.Unleased? && events[id].attempts < maxAttempts
  }

  /** The deliveries a pending event has left. */
  function Weight(r: Row, maxAttempts: int): nat {
    if Pending(r) && r.attempts < maxAttempts then maxAttempts - r.attempts else 0
  }

  ghost function Left(events: map<string, Row>, maxAttempts: int): nat
    decreases |events|
  {
    if events == map[] then 0
    else
      var id :| id in events;
      Weight(events[id], maxAttempts) + Left(events - {id}, maxAttempts)
  }

  lemma {:induction false} LeftWithout(events: map<string, Row>, id: string, maxAttempts: int)
    requires id in events
    ensures Left(events, maxAttempts) == Weight(events[id], maxAttempts) + Left(events - {id}, maxAttempts)
    decreases |events|
  {
    var j :| j in events && Left(events, maxAttempts) == Weight(events[j], maxAttempts) + Left(events - {j}, maxAttempts);
    if j != id {
      LeftWithout(events - {j}, id, maxAttempts);
      LeftWithout(events - {id}, j, maxAttempts);
      assert events - {j} - {id} == events - {id} - {j};
    }
  }

  /** Lower weights, row by row, give a lower sum. */
  lemma {:induction false} LeftFalls(a: map<string, Row>, b: map<string, Row>, maxAttempts: int)
    requires a.Keys == b.Keys && forall id :: id in a ==> Weight(b[id], maxAttempts) <= Weight(a[id], maxAttempts)
    ensures Left(b, maxAttempts) <= Left(a, maxAttempts)
    ensures (exists id :: id in a && Weight(b[id], maxAttempts) < Weight(a[id], maxAttempts)) ==> Left(b, maxAttempts) < Left(a, maxAttempts)
    decreases |a|
  {
    if a != map[] {
      var falls := exists x :: x in a && Weight(b[x], maxAttempts) < Weight(a[x], maxAttempts);
      var id :| id in a && (falls ==> Weight(b[id], maxAttempts) < Weight(a[id], maxAttempts));
      LeftWithout(a, id, maxAttempts);
      LeftWithout(b, id, maxAttempts);
      LeftFalls(a - {id}, b - {id}, maxAttempts);
    }
  }

  /** Passes of one untyped worker that neither crashes nor loses an update. */
  datatype Passes = Begin(events: map<string, Row>) | More(past: Passes, now: int, ids: seq<string>, publish: Publisher)

  function Rows(p: Passes, maxAttempts: int): map<string, Row> {
    match p
    case Begin(events) => events
    case More(past, _, ids, publish) => Passed(Rows(past, maxAttempts), SetOf(ids), publish, "", maxAttempts)
  }

  function First(p: Passes): map<string, Row> {
    match p
    case Begin(events) => events
    case More(past, _, _, _) => First(past)
  }

  function Count(p: Passes): nat { if p.Begin? then 0 else Count(p.past) + 1 }

  /** Each pass claims what the worker's query gives it. */
  ghost predicate Genuine(p: Passes, maxAttempts: int, limit: int) {
    p.More? ==> Genuine(p.past, maxAttempts, limit) && IsClaim(Rows(p.past, maxAttempts), {}, p.now, "", "", p.ids, limit)
  }

  lemma PassKeepsCalm(events: map<string, Row>, ids: set<string>, publish: Publisher, maxAttempts: int)
    requires Calm(events, maxAttempts)
    ensures Calm(Passed(events, ids, publish, "", maxAttempts), maxAttempts)
  {}

  /** MAIN RESULT. While anything is pending a pass claims something, and whatever the publisher answers, a
      pass that claims something lowers the deliveries left. */
  lemma PassFalls(events: map<string, Row>, now: int, ids: seq<string>, publish: Publisher, maxAttempts: int, limit: int)
    requires Calm(events, maxAttempts) && limit >= 1 && IsClaim(events, {}, now, "", "", ids, limit)
    ensures ids == [] <==> Drained(events)
    ensures ids != [] ==> Left(Passed(events, SetOf(ids), publish, "", maxAttempts), maxAttempts) < Left(events, maxAttempts)
    ensures ids == [] ==> Passed(events, SetOf(ids), publish, "", maxAttempts) == events
  {
    var after := Passed(events, SetOf(ids), publish, "", maxAttempts);
    forall id | id in events && Pending(events[id]) ensures Claimable(events, {}, now, "", "", id) {}
    forall id | id in events ensures Weight(after[id], maxAttempts) <= Weight(events[id], maxAttempts) {}
    if ids != [] {
      assert ids[0] in ids && Claimable(events, {}, now, "", "", ids[0]);
      assert Weight(after[ids[0]], maxAttempts) < Weight(events[ids[0]], maxAttempts);
    }
    LeftFalls(events, after, maxAttempts);
  }

  predicate Drained(events: map<string, Row>) {
    forall id :: id in events ==> !Pending(events[id])
  }

  /** MAIN RESULT. After as many passes as deliveries were left at the start, every event is published or
      dead-lettered. */
  lemma {:induction false} PassesDrain(p: Passes, maxAttempts: int, limit: int)
    requires Calm(First(p), maxAttempts) && limit >= 1 && Genuine(p, maxAttempts, limit)
    ensures Calm(Rows(p, maxAttempts), maxAttempts)
    ensures !Drained(Rows(p, maxAttempts)) ==> Left(Rows(p, maxAttempts), maxAttempts) + Count(p) <= Left(First(p), maxAttempts)
    ensures Count(p) > Left(First(p), maxAttempts) ==> Drained(Rows(p, maxAttempts))
  {
    if p.More? {
      PassesDrain(p.past, maxAttempts, limit);
      OnePassMore(Rows(p.past, maxAttempts), p, maxAttempts, limit);
    }
  }

  /** A pass lowers what is left, unless nothing is pending; and once drained, the table stays so. */
  lemma OnePassMore(before: map<string, Row>, p: Passes, maxAttempts: int, limit: int)
    requires p.More? && before == Rows(p.past, maxAttempts) && Calm(before, maxAttempts) && limit >= 1 && Genuine(p, maxAttempts, limit)
    ensures Calm(Rows(p, maxAttempts), maxAttempts)
    ensures Drained(before) ==> Rows(p, maxAttempts) == before
    ensures !Drained(before) ==> Left(Rows(p, maxAttempts), maxAttempts) < Left(before, maxAttempts)
  {
    PassFalls(before, p.now, p.ids, p.publish, maxAttempts, limit);
    PassKeepsCalm(before, SetOf(p.ids), p.publish, maxAttempts);
  }
}
