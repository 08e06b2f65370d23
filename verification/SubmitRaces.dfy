/** Submissions racing for one request id, statement by statement.

A submission reserves its request id by an insert that waits while another transaction's insert of that id
is not committed yet, and does nothing once one is. */
module SubmitRaces {
  import opened Commands
  import C = CommandStore

  /** How far a submission is. From `Reserved` to `Logged` it holds its request id; a duplicate holds nothing. */
  datatype Phase = Fresh | Reserved | Ran(outcome: Result) | Saved(result: Result) | Logged(result: Result)
                 | Conflicted | Loaded(result: Result)

  datatype Tx = Tx(e: Envelope, phase: Phase)

  /** An answer that reached its client. */
  datatype Answer = Answer(requestId: string, result: Result, duplicate: bool)

  datatype World = World(requests: map<string, Result>, events: seq<C.Event>, answers: seq<Answer>, flight: map<nat, Tx>)

  const EMPTY := World(map[], [], [], map[])

  /** The handler runs inside the transaction; next to other transactions its outcome is any at all. */
  datatype Step = Begin(id: nat, e: Envelope) | Reserve(id: nat) | Run(id: nat, outcome: Outcome<()>) | Save(id: nat) | Append(id: nat)
                | Load(id: nat) | Commit(id: nat, heard: bool) | Fail(id: nat)

  predicate Holds(tx: Tx, requestId: string) {
    tx.e.requestId == requestId && (tx.phase.Reserved? || tx.phase.Ran? || tx.phase.Saved? || tx.phase.Logged?)
  }

  predicate Contended(w: World, id: nat, requestId: string) {
    exists j :: j in w.flight && j != id && Holds(w.flight[j], requestId)
  }

  function Put(w: World, id: nat, tx: Tx): World { w.(flight := w.flight[id := tx]) }

  function Drop(w: World, id: nat): World { w.(flight := w.flight - {id}) }

  function ReserveStep(w: World, id: nat, tx: Tx): World {
    if !tx.phase.Fresh? then w
    else if tx.e.requestId in w.requests then Put(w, id, tx.(phase := Conflicted))
    else if Contended(w, id, tx.e.requestId) then w
    else Put(w, id, tx.(phase := Reserved))
  }

  function RunStep(w: World, id: nat, tx: Tx, outcome: Outcome<()>): World {
    if !tx.phase.Reserved? then w
    else if outcome.Failed? then Drop(w, id)
    else Put(w, id, tx.(phase := Ran(outcome.result)))
  }

  function LoadStep(w: World, id: nat, tx: Tx): World {
    if tx.phase.Conflicted? && tx.e.requestId in w.requests then Put(w, id, tx.(phase := Loaded(w.requests[tx.e.requestId]))) else w
  }

  function Told(answers: seq<Answer>, heard: bool, answer: Answer): seq<Answer> { if heard then answers + [answer] else answers }

  function CommitStep(w: World, id: nat, tx: Tx, heard: bool): World {
    var e := tx.e;
    match tx.phase
    case Logged(r) =>
      World(w.requests[e.requestId := r], w.events + [C.Event(e.requestId, e.correlationId, r)],
            Told(w.answers, heard, Answer(e.requestId, r, false)), w.flight - {id})
    case Loaded(r) => Drop(w.(answers := Told(w.answers, heard, Answer(e.requestId, r, true))), id)
    case _ => w
  }

  function Apply(w: World, step: Step): World {
    if step.Begin? then if step.id in w.flight then w else Put(w, step.id, Tx(step.e, Fresh))
    else if step.id !in w.flight then w
    else
      var tx := w.flight[step.id];
      match step
      case Reserve(id) => ReserveStep(w, id, tx)
      case Run(id, outcome) => RunStep(w, id, tx, outcome)
      case Save(id) => if tx.phase.Ran? then Put(w, id, tx.(phase := Saved(C.Completed(tx.phase.outcome, tx.e)))) else w
      case Append(id) => if tx.phase.Saved? then Put(w, id, tx.(phase := Logged(tx.phase.result))) else w
      case Load(id) => LoadStep(w, id, tx)
      case Commit(id, heard) => CommitStep(w, id, tx, heard)
      case Fail(id) => Drop(w, id)
  }

  datatype Steps = Nil | Then(past: Steps, step: Step)

  function After(run: Steps): World {
    match run
    case Nil => EMPTY
    case Then(past, step) => Apply(After(past), step)
  }

  // ---------------------------------------------------------------- the invariant

  predicate TxOk(requests: map<string, Result>, tx: Tx) {
    && (Holds(tx, tx.e.requestId) ==> tx.e.requestId !in requests)
    && (tx.phase.Conflicted? ==> tx.e.requestId in requests)
    && (tx.phase.Loaded? ==> tx.e.requestId in requests && requests[tx.e.requestId] == tx.phase.result)
  }

  ghost predicate FlightOk(w: World) {
    && (forall i :: i in w.flight ==> TxOk(w.requests, w.flight[i]))
    && (forall i, j, id :: i in w.flight && j in w.flight && Holds(w.flight[i], id) && Holds(w.flight[j], id) ==> i == j)
  }

  /** Answers to executions of one request id, heard so far. */
  function FirstAnswers(answers: seq<Answer>, id: string): nat {
    if answers == [] then 0
    else
      var last := answers[|answers| - 1];
      FirstAnswers(answers[..|answers| - 1], id) + if last.requestId == id && !last.duplicate then 1 else 0
  }

  ghost predicate EventsMatch(requests: map<string, Result>, events: seq<C.Event>) {
    && (forall id :: C.EventsFor(events, id) == if id in requests then 1 else 0)
    && (forall k :: 0 <= k < |events| ==> events[k].requestId in requests && requests[events[k].requestId] == events[k].payload)
  }

  predicate AnswersAreStored(requests: map<string, Result>, answers: seq<Answer>) {
    forall k :: 0 <= k < |answers| ==> answers[k].requestId in requests && requests[answers[k].requestId] == answers[k].result
  }

  ghost predicate AnswersMatch(requests: map<string, Result>, answers: seq<Answer>) {
    && AnswersAreStored(requests, answers)
    && (forall id :: FirstAnswers(answers, id) <= if id in requests then 1 else 0)
  }

  ghost predicate RecordsOk(w: World) { EventsMatch(w.requests, w.events) && AnswersMatch(w.requests, w.answers) }

  ghost predicate Inv(w: World) { FlightOk(w) && RecordsOk(w) }

  // ---------------------------------------------------------------- each statement keeps it

  lemma PutKeeps(w: World, id: nat, tx: Tx)
    requires Inv(w) && TxOk(w.requests, tx)
    requires Holds(tx, tx.e.requestId) ==> !Contended(w, id, tx.e.requestId)
    ensures Inv(Put(w, id, tx))
  {}

  lemma DropKeeps(w: World, id: nat)
    requires Inv(w)
    ensures Inv(Drop(w, id))
  {}

  lemma ReserveKeeps(w: World, id: nat)
    requires Inv(w) && id in w.flight
    ensures Inv(ReserveStep(w, id, w.flight[id]))
  {
    var tx := w.flight[id];
    if tx.phase.Fresh? {
      if tx.e.requestId in w.requests {
        PutKeeps(w, id, tx.(phase := Conflicted));
      } else if !Contended(w, id, tx.e.requestId) {
        PutKeeps(w, id, tx.(phase := Reserved));
      }
    }
  }

  /** A transaction that holds its request id goes on holding it. */
  lemma HolderKeeps(w: World, id: nat, phase: Phase)
    requires Inv(w) && id in w.flight && Holds(w.flight[id], w.flight[id].e.requestId)
    requires phase.Ran? || phase.Saved? || phase.Logged?
    ensures Inv(Put(w, id, w.flight[id].(phase := phase)))
  {
    PutKeeps(w, id, w.flight[id].(phase := phase));
  }

  lemma AnswersSnoc(answers: seq<Answer>, x: Answer, id: string)
    ensures FirstAnswers(answers + [x], id) == FirstAnswers(answers, id) + if x.requestId == id && !x.duplicate then 1 else 0
  {
    assert (answers + [x])[..|answers|] == answers;
  }

  lemma DuplicateAnswered(requests: map<string, Result>, answers: seq<Answer>, heard: bool, x: Answer)
    requires AnswersMatch(requests, answers) && x.duplicate && x.requestId in requests && requests[x.requestId] == x.result
    ensures AnswersMatch(requests, Told(answers, heard, x))
  {
    if heard {
      forall q ensures FirstAnswers(answers + [x], q) <= if q in requests then 1 else 0 {
        AnswersSnoc(answers, x, q);
      }
      OneMoreAnswer(requests, answers, x);
    }
  }

  lemma OneMoreAnswer(requests: map<string, Result>, answers: seq<Answer>, x: Answer)
    requires AnswersAreStored(requests, answers) && x.requestId in requests && requests[x.requestId] == x.result
    ensures AnswersAreStored(requests, answers + [x])
  {
    forall k | 0 <= k < |answers + [x]| ensures (answers + [x])[k].requestId in requests && requests[(answers + [x])[k].requestId] == (answers + [x])[k].result {
      assert k < |answers| ==> (answers + [x])[k] == answers[k];
    }
  }

  /** Storing a new request leaves the answers given so far right. */
  lemma NewRequestKeeps(requests: map<string, Result>, answers: seq<Answer>, id: string, r: Result)
    requires AnswersMatch(requests, answers) && id !in requests
    ensures AnswersMatch(requests[id := r], answers) && FirstAnswers(answers, id) == 0
  {
    forall k | 0 <= k < |answers| ensures answers[k].requestId in requests[id := r] && requests[id := r][answers[k].requestId] == answers[k].result {
      assert answers[k].requestId != id;
    }
  }

  lemma FirstAnswered(requests: map<string, Result>, answers: seq<Answer>, heard: bool, id: string, r: Result)
    requires AnswersMatch(requests, answers) && id !in requests
    ensures AnswersMatch(requests[id := r], Told(answers, heard, Answer(id, r, false)))
  {
    NewRequestKeeps(requests, answers, id, r);
    if heard {
      var x := Answer(id, r, false);
      forall q ensures FirstAnswers(answers + [x], q) <= if q in requests[id := r] then 1 else 0 {
        AnswersSnoc(answers, x, q);
        if q == id { assert FirstAnswers(answers, q) == 0; }
      }
      OneMoreAnswer(requests[id := r], answers, x);
    }
  }

  lemma EventLogged(requests: map<string, Result>, events: seq<C.Event>, id: string, correlationId: string, r: Result)
    requires EventsMatch(requests, events) && id !in requests
    ensures EventsMatch(requests[id := r], events + [C.Event(id, correlationId, r)])
  {
    var x := C.Event(id, correlationId, r);
    forall q ensures C.EventsFor(events + [x], q) == if q in requests[id := r] then 1 else 0 {
      C.EventsForSnoc(events, x, q);
      if q == id { assert C.EventsFor(events, q) == 0; }
    }
    forall k | 0 <= k < |events + [x]| ensures var y := (events + [x])[k]; y.requestId in requests[id := r] && requests[id := r][y.requestId] == y.payload {
      if k < |events| { assert (events + [x])[k] == events[k] && events[k].requestId != id; }
    }
  }

  lemma LoadedKeeps(w: World, id: nat, heard: bool)
    requires Inv(w) && id in w.flight && w.flight[id].phase.Loaded?
    ensures Inv(CommitStep(w, id, w.flight[id], heard))
  {
    var tx := w.flight[id];
    var answer := Answer(tx.e.requestId, tx.phase.result, true);
    assert TxOk(w.requests, tx);
    DuplicateAnswered(w.requests, w.answers, heard, answer);
    DropKeeps(w.(answers := Told(w.answers, heard, answer)), id);
  }

  lemma LoggedKeeps(w: World, id: nat, heard: bool)
    requires Inv(w) && id in w.flight && w.flight[id].phase.Logged?
    ensures Inv(CommitStep(w, id, w.flight[id], heard))
  {
    var tx, w' := w.flight[id], CommitStep(w, id, w.flight[id], heard);
    assert Holds(tx, tx.e.requestId) && tx.e.requestId !in w.requests;
    forall i | i in w'.flight ensures TxOk(w'.requests, w'.flight[i]) {
      assert !Holds(w.flight[i], tx.e.requestId);
    }
    EventLogged(w.requests, w.events, tx.e.requestId, tx.e.correlationId, tx.phase.result);
    FirstAnswered(w.requests, w.answers, heard, tx.e.requestId, tx.phase.result);
  }

  lemma StepKeeps(w: World, step: Step)
    requires Inv(w)
    ensures Inv(Apply(w, step))
  {
    if step.Begin? {
      if step.id !in w.flight { PutKeeps(w, step.id, Tx(step.e, Fresh)); }
    } else if step.id in w.flight {
      var tx := w.flight[step.id];
      DropKeeps(w, step.id);
      match step
      case Reserve(id) => ReserveKeeps(w, id);
      case Run(id, outcome) => if tx.phase.Reserved? && outcome.Done? { HolderKeeps(w, id, Ran(outcome.result)); }
      case Save(id) => if tx.phase.Ran? { HolderKeeps(w, id, Saved(C.Completed(tx.phase.outcome, tx.e))); }
      case Append(id) => if tx.phase.Saved? { HolderKeeps(w, id, Logged(tx.phase.result)); }
      case Load(id) => if tx.phase.Conflicted? { PutKeeps(w, id, tx.(phase := Loaded(w.requests[tx.e.requestId]))); }
      case Commit(id, heard) => if tx.phase.Logged? { LoggedKeeps(w, id, heard); } else if tx.phase.Loaded? { LoadedKeeps(w, id, heard); }
      case Fail(_) =>
    }
  }

  lemma {:induction false} RunKeeps(run: Steps)
    ensures Inv(After(run))
  {
    if run.Then? {
      RunKeeps(run.past);
      StepKeeps(After(run.past), run.step);
    }
  }

  // ---------------------------------------------------------------- results

  /** MAIN RESULT. However submissions race, no handler runs for a request id while another one does or after
      one was committed; each stored request has exactly one event, with the stored result; and every client
      that was answered, first or duplicate, got the stored result, at most one of them as the first. */
  lemma RacesExecuteOnce(run: Steps, id: string)
    ensures var w := After(run);
            && (forall i, j :: i in w.flight && j in w.flight && Holds(w.flight[i], id) && Holds(w.flight[j], id) ==> i == j)
            && (forall i :: i in w.flight && Holds(w.flight[i], id) ==> id !in w.requests)
            && C.EventsFor(w.events, id) == (if id in w.requests then 1 else 0)
            && (forall k :: 0 <= k < |w.events| && w.events[k].requestId == id ==> id in w.requests && w.events[k].payload == w.requests[id])
            && (forall k :: 0 <= k < |w.answers| && w.answers[k].requestId == id ==> id in w.requests && w.answers[k].result == w.requests[id])
            && FirstAnswers(w.answers, id) <= 1
  {
    RunKeeps(run);
  }

  /** MAIN RESULT. In the order of their commits, racing submissions are calls of the in-memory GetOrPut
      store: each commit is one call, with the value and the flag that call returns. */
  lemma CommitIsGetOrPut(run: Steps, id: nat)
    requires id in After(run).flight && (After(run).flight[id].phase.Logged? || After(run).flight[id].phase.Loaded?)
    ensures var w, tx := After(run), After(run).flight[id];
            var w' := After(Then(run, Commit(id, true)));
            && w'.answers == w.answers + [Answer(tx.e.requestId, tx.phase.result, tx.phase.Loaded?)]
            && C.Remembered(w.requests, tx.e.requestId, tx.phase.result) == (w'.requests, tx.phase.result, tx.phase.Loaded?)
  {
    RunKeeps(run);
    assert TxOk(After(run).requests, After(run).flight[id]);
  }

  /** No other step changes what is stored. */
  lemma OnlyCommitsStore(run: Steps, step: Step)
    requires !step.Commit?
    ensures var w, w' := After(run), After(Then(run, step)); w'.requests == w.requests && w'.events == w.events && w'.answers == w.answers
  {}

  /** The in-memory store called once for each commit, in the order of the commits. */
  function GetOrPutAfter(run: Steps): map<string, Result> {
    match run
    case Nil => map[]
    case Then(past, step) =>
      var w := After(past);
      if step.Commit? && step.id in w.flight && (w.flight[step.id].phase.Logged? || w.flight[step.id].phase.Loaded?)
      then C.Remembered(GetOrPutAfter(past), w.flight[step.id].e.requestId, w.flight[step.id].phase.result).0
      else GetOrPutAfter(past)
  }

  /** MAIN RESULT. Over whole runs the stored results are those of the in-memory store. */
  lemma {:induction false} RunIsGetOrPut(run: Steps)
    ensures After(run).requests == GetOrPutAfter(run)
  {
    if run.Then? {
      RunIsGetOrPut(run.past);
      RunKeeps(run.past);
      if run.step.Commit? { CommitRemembers(After(run.past), run.step); } else { OnlyCommitsStore(run.past, run.step); }
    }
  }

  lemma CommitRemembers(w: World, step: Step)
    requires Inv(w) && step.Commit?
    ensures Apply(w, step).requests
         == if step.id in w.flight && (w.flight[step.id].phase.Logged? || w.flight[step.id].phase.Loaded?)
            then C.Remembered(w.requests, w.flight[step.id].e.requestId, w.flight[step.id].phase.result).0 else w.requests
  {
    assert step.id in w.flight ==> TxOk(w.requests, w.flight[step.id]);
  }

  /** A submission that waits holds nothing, so the one it waits for is not waiting: its next statement works. */
  lemma HolderMoves(run: Steps, i: nat, j: nat) returns (step: Step)
    requires var w := After(run);
             i in w.flight && w.flight[i].phase.Fresh? && j in w.flight && j != i && Holds(w.flight[j], w.flight[i].e.requestId)
    ensures step.id == j && !step.Fail? && After(Then(run, step)) != After(run)
  {
    var w := After(run);
    var tx := w.flight[j];
    step := if tx.phase.Reserved? then Run(j, Done((), Result("", "", "", "", map[], [], ""))) else if tx.phase.Ran? then Save(j)
            else if tx.phase.Saved? then Append(j) else Commit(j, true);
    var after := Apply(w, step).flight;
    assert j !in after || after[j] != tx;
  }

  // ---------------------------------------------------------------- a submission that runs alone

  function Alone(w: World, e: Envelope, outcome: Outcome<()>): World {
    var reserved := Apply(Apply(w, Begin(0, e)), Reserve(0));
    var logged := Apply(Apply(Apply(reserved, Run(0, outcome)), Save(0)), Append(0));
    Apply(Apply(logged, Load(0)), Commit(0, true))
  }

  function Forget<S>(o: Outcome<S>): Outcome<()> {
    match o
    case Failed => Failed
    case Done(_, r) => Done((), r)
  }

  /** Run alone, the statements store and append what the serial submission does, and answer the same. */
  lemma AloneIsSubmit<S>(w: World, domain: S, e: Envelope, handler: Handler<S>)
    requires w.flight == map[]
    ensures var w' := Alone(w, e, Forget(handler(domain, e)));
            var (st, reply) := C.Submit(C.Store(domain, w.requests, w.events), e, handler, C.NoTrouble);
            && w'.requests == st.requests && w'.events == st.events
            && w'.answers == if reply.Replied? then w.answers + [Answer(e.requestId, reply.result, reply.duplicate)] else w.answers
  {
    var outcome := Forget(handler(domain, e));
    if e.requestId in w.requests {
      AloneDuplicate(w, e, outcome);
    } else {
      AloneFirst(w, e, outcome);
    }
  }

  lemma AloneDuplicate(w: World, e: Envelope, outcome: Outcome<()>)
    requires w.flight == map[] && e.requestId in w.requests
    ensures var w' := Alone(w, e, outcome);
            && w'.requests == w.requests && w'.events == w.events
            && w'.answers == w.answers + [Answer(e.requestId, w.requests[e.requestId], true)]
  {
    var w2 := w.(flight := map[0 := Tx(e, Conflicted)]);
    assert Apply(Apply(w, Begin(0, e)), Reserve(0)) == w2;
    assert Apply(Apply(Apply(w2, Run(0, outcome)), Save(0)), Append(0)) == w2;
    assert Apply(w2, Load(0)) == w.(flight := map[0 := Tx(e, Loaded(w.requests[e.requestId]))]);
  }

  lemma AloneFirst(w: World, e: Envelope, outcome: Outcome<()>)
    requires w.flight == map[] && e.requestId !in w.requests
    ensures var w' := Alone(w, e, outcome);
            if outcome.Failed? then w'.requests == w.requests && w'.events == w.events && w'.answers == w.answers
            else var r := C.Completed(outcome.result, e);
                 && w'.requests == w.requests[e.requestId := r] && w'.events == w.events + [C.Event(e.requestId, e.correlationId, r)]
                 && w'.answers == w.answers + [Answer(e.requestId, r, false)]
  {
    var w1 := w.(flight := map[0 := Tx(e, Fresh)]);
    assert Apply(w, Begin(0, e)) == w1 && !Contended(w1, 0, e.requestId);
    var w2 := w.(flight := map[0 := Tx(e, Reserved)]);
    assert Apply(w1, Reserve(0)) == w2;
    if outcome.Done? {
      var r := C.Completed(outcome.result, e);
      var w4 := w.(flight := map[0 := Tx(e, Saved(r))]);
      assert Apply(w2, Run(0, outcome)) == w.(flight := map[0 := Tx(e, Ran(outcome.result))]);
      assert Apply(Apply(w2, Run(0, outcome)), Save(0)) == w4;
      var w5 := w.(flight := map[0 := Tx(e, Logged(r))]);
      assert Apply(w4, Append(0)) == w5 && Apply(w5, Load(0)) == w5;
    } else {
      assert Apply(w2, Run(0, outcome)).flight == map[];
    }
  }
}
