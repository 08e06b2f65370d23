/** Exactly-once command execution: a command's result is stored under its request id in the same
transaction as its effects, and a repeated request id gets the stored result back. */
module CommandStore {
  import opened Commands

  // ---------------------------------------------------------------- the in-memory store it refines

  function Remembered<T>(values: map<string, T>, key: string, created: T): (r: (map<string, T>, T, bool)) {
    if key in values then (values, values[key], true) else (values[key := created], created, false)
  }

  class IdempotencyStore<T> {
    var values: map<string, T>

    constructor ()
      ensures values == map[]
    {
      values := map[];
    }

    method GetOrPut(key: string, create: () -> T) returns (value: T, existing: bool)
      modifies this
      ensures (values, value, existing) == Remembered(old(values), key, create())
    {
      if key in values {
        return values[key], true;
      }
      value := create();
      values := values[key := value];
      existing := false;
    }
  }

  // ---------------------------------------------------------------- one submission

  datatype Event = Event(requestId: string, correlationId: string, payload: Result)

  /** The tables a handler may change (`domain`), the stored requests and the outbox. */
  datatype Store<S> = Store(domain: S, requests: map<string, Result>, events: seq<Event>)

  datatype Reply = Replied(result: Result, duplicate: bool) | Error

  /** Fields the handler left empty are taken from the envelope. */
  function Completed(r: Result, e: Envelope): Result {
    Result(if r.requestId == "" then e.requestId else r.requestId,
           if r.correlationId == "" then e.correlationId else r.correlationId,
           if r.status == "" then "succeeded" else r.status,
           if r.operation == "" then e.operation else r.operation,
           r.body,
           if r.events == [] then ["command.accepted.v1"] else r.events,
           r.error)
  }

  /** The database or the connection may fail. Then either nothing is committed, or the commit goes through
      and its answer is lost. The client sees an error in both cases. */
  datatype Trouble = NoTrouble | Aborts | AnswerLost

  function Attempt<S>(st: Store<S>, e: Envelope, handler: Handler<S>): (Store<S>, Reply) {
    if e.requestId in st.requests then (st, Replied(st.requests[e.requestId], true))
    else match handler(st.domain, e)
      case Failed => (st, Error)
      case Done(domain, r) =>
        var result := Completed(r, e);
        (Store(domain, st.requests[e.requestId := result], st.events + [Event(e.requestId, e.correlationId, result)]),
         Replied(result, false))
  }

  function Submit<S>(st: Store<S>, e: Envelope, handler: Handler<S>, trouble: Trouble): (Store<S>, Reply) {
    var (st', reply) := Attempt(st, e, handler);
    match trouble
    case NoTrouble => (st', reply)
    case Aborts => (st, Error)
    case AnswerLost => (st', Error)
  }

  datatype Statement = Reserve | LoadDuplicate | SaveResult | AppendEvent | Commit

  /** The trouble a submission meets when some statements fail, or all go well but the answer may get lost. */
  function Met(duplicate: bool, failing: set<Statement>, heard: bool): Trouble {
    var work := if duplicate then LoadDuplicate in failing else SaveResult in failing || AppendEvent in failing;
    if Reserve in failing || work || Commit in failing then Aborts else if heard then NoTrouble else AnswerLost
  }

  /** The repository; every method body is one database transaction. */
  class Repository<S> {
    var domain: S
    var requests: map<string, Result>
    var events: seq<Event>

    ghost function View(): Store<S>
      reads this
    {
      Store(domain, requests, events)
    }

    constructor (initial: S)
      ensures View() == Store(initial, map[], [])
    {
      domain, requests, events := initial, map[], [];
    }

    /** Whatever statement fails, the transaction is rolled back as a whole. */
    method SubmitWith(e: Envelope, handler: Handler<S>, failing: set<Statement>, heard: bool) returns (reply: Reply)
      modifies this
      ensures (View(), reply) == Submit(old(View()), e, handler, Met(e.requestId in old(requests), failing, heard))
    {
      var saved, before, logged := domain, requests, events;
      if Reserve in failing { return Error; }
      if e.requestId in requests {
        if LoadDuplicate in failing || Commit in failing { return Error; }
        return if heard then Replied(requests[e.requestId], true) else Error;
      }
      requests := requests[e.requestId := Result("", "", "pending", "", map[], [], "")];
      var outcome := handler(domain, e);
      if outcome.Failed? {
        requests := before; // rollback
        return Error;
      }
      var result := Fill(outcome.result, e);
      domain := outcome.state;
      if SaveResult !in failing {
        requests := requests[e.requestId := result];
        if AppendEvent !in failing {
          events := events + [Event(e.requestId, e.correlationId, result)];
          if Commit !in failing {
            assert requests == before[e.requestId := result];
            return if heard then Replied(result, false) else Error;
          }
        }
      }
      domain, requests, events := saved, before, logged; // rollback
      reply := Error;
    }

    method Fill(outcome: Result, e: Envelope) returns (result: Result)
      ensures result == Completed(outcome, e)
    {
      result := outcome;
      if result.requestId == "" {
        result := result.(requestId := e.requestId);
      }
      if result.correlationId == "" {
        result := result.(correlationId := e.correlationId);
      }
      if result.operation == "" {
        result := result.(operation := e.operation);
      }
      if result.status == "" {
        result := result.(status := "succeeded");
      }
      if result.events == [] {
        result := result.(events := ["command.accepted.v1"]);
      }
    }
  }

  // ---------------------------------------------------------------- whole histories

  /** Submissions, oldest innermost. */
  datatype History = Start | Then(past: History, command: Envelope, trouble: Trouble)

  function After<S>(initial: S, handler: Handler<S>, h: History): Store<S> {
    match h
    case Start => Store(initial, map[], [])
    case Then(past, e, trouble) => Submit(After(initial, handler, past), e, handler, trouble).0
  }

  function LastReply<S>(initial: S, handler: Handler<S>, h: History): Reply
    requires h.Then?
  {
    Submit(After(initial, handler, h.past), h.command, handler, h.trouble).1
  }

  /** Whether a submission of `id` has got through without an error, told from the submissions alone. */
  predicate Executed<S>(initial: S, handler: Handler<S>, h: History, id: string)
    decreases h, 1
  {
    h.Then? && (Executed(initial, handler, h.past, id) ||
                (h.command.requestId == id && !h.trouble.Aborts? && handler(OnceEach(initial, handler, h.past), h.command).Done?))
  }

  /** The tables after running the handler once for each request id, at its first error-free submission. */
  function OnceEach<S>(initial: S, handler: Handler<S>, h: History): S
    decreases h, 0
  {
    match h
    case Start => initial
    case Then(past, e, trouble) =>
      var s := OnceEach(initial, handler, past);
      if Executed(initial, handler, past, e.requestId) || trouble.Aborts? || handler(s, e).Failed? then s else handler(s, e).state
  }

  /** The result of that one execution. */
  function FirstResult<S>(initial: S, handler: Handler<S>, h: History, id: string): Result
    requires Executed(initial, handler, h, id)
  {
    if Executed(initial, handler, h.past, id) then FirstResult(initial, handler, h.past, id)
    else Completed(handler(OnceEach(initial, handler, h.past), h.command).result, h.command)
  }

  /** One event for each first error-free submission, in order. */
  function FirstEvents<S>(initial: S, handler: Handler<S>, h: History): seq<Event> {
    if h.Start? then []
    else
      var e := h.command;
      FirstEvents(initial, handler, h.past) +
      (if Executed(initial, handler, h, e.requestId) && !Executed(initial, handler, h.past, e.requestId)
       then [Event(e.requestId, e.correlationId, FirstResult(initial, handler, h, e.requestId))] else [])
  }

  /** MAIN RESULT. Whatever is submitted, repeated, failing or cut off before or after its commit, the state is that of running the handler
      once per request id at its first error-free submission; exactly those results are stored; the
      outbox holds their events in order. */
  lemma {:induction false} ExactlyOnce<S>(initial: S, handler: Handler<S>, h: History)
    ensures After(initial, handler, h).domain == OnceEach(initial, handler, h)
    ensures forall id :: id in After(initial, handler, h).requests <==> Executed(initial, handler, h, id)
    ensures forall id :: Executed(initial, handler, h, id) ==>
              After(initial, handler, h).requests[id] == FirstResult(initial, handler, h, id)
    ensures After(initial, handler, h).events == FirstEvents(initial, handler, h)
  {
    if h.Then? {
      ExactlyOnce(initial, handler, h.past);
      SubmitExecutes(initial, handler, h);
    }
  }

  lemma SubmitExecutes<S>(initial: S, handler: Handler<S>, h: History)
    requires h.Then?
    requires var st := After(initial, handler, h.past);
             st.domain == OnceEach(initial, handler, h.past) && (forall id :: id in st.requests <==> Executed(initial, handler, h.past, id))
    ensures var (st, st', e) := (After(initial, handler, h.past), After(initial, handler, h), h.command);
            if Executed(initial, handler, h, e.requestId) && !Executed(initial, handler, h.past, e.requestId)
            then var r := FirstResult(initial, handler, h, e.requestId);
                 st' == Store(OnceEach(initial, handler, h), st.requests[e.requestId := r], st.events + [Event(e.requestId, e.correlationId, r)])
            else st' == st && OnceEach(initial, handler, h) == st.domain
  {}

  /** MAIN RESULT. A submission that meets no trouble is answered with the first result of its request id,
      marked as a duplicate exactly when that is not its own; an error tells that there is none yet. A retry
      after an error of any kind therefore gets the one result, whether or not the first try had committed. */
  lemma ReplyIsFirstResult<S>(initial: S, handler: Handler<S>, h: History)
    requires h.Then?
    ensures var id := h.command.requestId;
            var reply := LastReply(initial, handler, h);
            if h.trouble.NoTrouble? && Executed(initial, handler, h, id)
            then reply == Replied(FirstResult(initial, handler, h, id), Executed(initial, handler, h.past, id))
            else reply == Error
  {
    ExactlyOnce(initial, handler, h.past);
  }

  /** The in-memory store fed with every submission that gets through. */
  function GetOrPutRun<S>(initial: S, handler: Handler<S>, h: History): map<string, Result> {
    if h.Start? then map[]
    else
      var values := GetOrPutRun(initial, handler, h.past);
      var outcome := handler(OnceEach(initial, handler, h.past), h.command);
      if h.trouble.Aborts? || outcome.Failed? then values
      else Remembered(values, h.command.requestId, Completed(outcome.result, h.command)).0
  }

  lemma SubmitRefines<S>(st: Store<S>, e: Envelope, handler: Handler<S>, trouble: Trouble)
    ensures var ((st', reply), outcome, id) := (Submit(st, e, handler, trouble), handler(st.domain, e), e.requestId);
            && st'.requests == (if trouble.Aborts? || outcome.Failed? then st.requests
                                else Remembered(st.requests, id, Completed(outcome.result, e)).0)
            && (reply.Replied? ==> Remembered(st.requests, id, reply.result) == (st'.requests, reply.result, reply.duplicate))
  {}

  /** MAIN RESULT. The stored results are those of the in-memory GetOrPut store, and every reply that is
      not an error is the value and the flag GetOrPut returns. */
  lemma {:induction false} RefinesGetOrPut<S>(initial: S, handler: Handler<S>, h: History)
    ensures After(initial, handler, h).requests == GetOrPutRun(initial, handler, h)
    ensures h.Then? && LastReply(initial, handler, h).Replied? ==>
              var reply := LastReply(initial, handler, h);
              Remembered(GetOrPutRun(initial, handler, h.past), h.command.requestId, reply.result)
              == (GetOrPutRun(initial, handler, h), reply.result, reply.duplicate)
  {
    if h.Then? {
      RefinesGetOrPut(initial, handler, h.past);
      ExactlyOnce(initial, handler, h.past);
      SubmitRefines(After(initial, handler, h.past), h.command, handler, h.trouble);
    }
  }

  predicate Extends(later: History, earlier: History) {
    later == earlier || (later.Then? && Extends(later.past, earlier))
  }

  /** A stored result never changes, and neither do the tables a repeated request might have touched twice. */
  lemma {:induction false} StoredForever<S>(initial: S, handler: Handler<S>, earlier: History, later: History, id: string)
    requires Extends(later, earlier) && Executed(initial, handler, earlier, id)
    ensures Executed(initial, handler, later, id)
    ensures FirstResult(initial, handler, later, id) == FirstResult(initial, handler, earlier, id)
  {
    if later != earlier {
      StoredForever(initial, handler, earlier, later.past, id);
    }
  }

  function EventsFor(events: seq<Event>, id: string): nat {
    if events == [] then 0
    else EventsFor(events[..|events| - 1], id) + (if events[|events| - 1].requestId == id then 1 else 0)
  }

  lemma EventsForSnoc(events: seq<Event>, x: Event, id: string)
    ensures EventsFor(events + [x], id) == EventsFor(events, id) + (if x.requestId == id then 1 else 0)
  {
    assert (events + [x])[..|events|] == events;
  }

  /** A submission either leaves the store alone or stores one new request with its event. */
  lemma SubmitStores<S>(st: Store<S>, e: Envelope, handler: Handler<S>, trouble: Trouble)
    ensures var st' := Submit(st, e, handler, trouble).0;
            st' == st || (e.requestId !in st.requests && st'.requests.Keys == st.requests.Keys + {e.requestId}
                          && exists r :: st'.events == st.events + [Event(e.requestId, e.correlationId, r)])
  {
    var st' := Submit(st, e, handler, trouble).0;
    if st' != st {
      var result := Completed(handler(st.domain, e).result, e);
      assert st'.events == st.events + [Event(e.requestId, e.correlationId, result)];
    }
  }

  /** Command events correspond one to one with stored requests. */
  lemma {:induction false} OneEventEach<S>(initial: S, handler: Handler<S>, h: History, id: string)
    ensures EventsFor(After(initial, handler, h).events, id) == if id in After(initial, handler, h).requests then 1 else 0
  {
    if h.Then? {
      OneEventEach(initial, handler, h.past, id);
      var st := After(initial, handler, h.past);
      SubmitStores(st, h.command, handler, h.trouble);
      if After(initial, handler, h) != st {
        var r :| After(initial, handler, h).events == st.events + [Event(h.command.requestId, h.command.correlationId, r)];
        EventsForSnoc(st.events, Event(h.command.requestId, h.command.correlationId, r), id);
      }
    }
  }
}
