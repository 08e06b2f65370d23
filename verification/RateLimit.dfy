/** The process-local token-bucket limiter with a bounded key table.

Times are seconds and tokens are real numbers, so floating-point rounding and the saturation of
very long durations are not modelled.
*/
module RateLimit {

  datatype Bucket = Bucket(tokens: real, seen: real)
  type Table = map<string, Bucket>

  datatype Policy = Policy(rate: real, burst: int) {
    predicate Enabled() { rate > 0.0 && burst > 0 }
  }
  datatype Call = Call(key: string, now: real)

  /** The program answers with a boolean; the model keeps the reason apart. */
  datatype Answer = Unlimited | Allowed | Limited | TableFull {
    predicate Passes() { Unlimited? || Allowed? }
  }

  // ---------------------------------------------------------------- one call

  /** Tokens earned in `elapsed` seconds. */
  function Earned(rate: real, elapsed: real): real { elapsed * rate }

  lemma EarnedMonotone(rate: real, a: real, b: real)
    requires rate > 0.0 && a <= b
    ensures Earned(rate, a) <= Earned(rate, b)
  {
    assert 0.0 <= (b - a) * rate;
  }

  lemma EarnedNonNegative(rate: real, a: real)
    requires rate > 0.0 && a >= 0.0
    ensures Earned(rate, a) >= 0.0
  {}

  lemma EarnedAdds(rate: real, a: real, b: real)
    ensures Earned(rate, a) + Earned(rate, b) == Earned(rate, a + b)
  {}

  function Refilled(b: Bucket, p: Policy, now: real): Bucket {
    if now > b.seen then
      var tokens := b.tokens + Earned(p.rate, now - b.seen);
      Bucket(if tokens > p.burst as real then p.burst as real else tokens, now)
    else b
  }

  function Charge(t: Table, key: string, b: Bucket, p: Policy, now: real): (Table, Answer) {
    var r := Refilled(b, p, now);
    if r.tokens < 1.0 then (t[key := r], Limited)
    else (t[key := r.(tokens := r.tokens - 1.0)], Allowed)
  }

  function Evicted(t: Table, now: real): Table {
    map k | k in t && !(t[k].seen < now - 600.0) :: t[k]
  }

  /** What one call does to the bounded table. */
  function Step(t: Table, maxKeys: nat, p: Policy, c: Call): (Table, Answer) {
    if !p.Enabled() then (t, Unlimited)
    else if c.key in t then Charge(t, c.key, t[c.key], p, c.now)
    else
      var room := if |t| >= maxKeys then Evicted(t, c.now) else t;
      if |room| >= maxKeys then (room, TableFull)
      else Charge(room, c.key, Bucket(p.burst as real, c.now), p, c.now)
  }

  /** The reference: one bucket for every key ever seen, never removed. */
  function IdealStep(t: Table, p: Policy, c: Call): (Table, Answer) {
    if !p.Enabled() then (t, Unlimited)
    else Charge(t, c.key, if c.key in t then t[c.key] else Bucket(p.burst as real, c.now), p, c.now)
  }

  /** The limiter itself: `Allow` and `evict` change the bucket map in place. */
  class Limiter {
    var buckets: Table
    const maxKeys: nat

    constructor (limit: int)
      ensures buckets == map[]
      ensures maxKeys == (if limit < 1 then 10000 else limit)
    {
      buckets := map[];
      maxKeys := if limit < 1 then 10000 else limit;
    }

    method Allow(key: string, ratePerSecond: real, burst: int, now: real) returns (ok: bool)
      modifies this
      ensures (buckets, ok) ==
              var (t, a) := Step(old(buckets), maxKeys, Policy(ratePerSecond, burst), Call(key, now));
              (t, a.Passes())
    {
      if ratePerSecond <= 0.0 || burst <= 0 {
        return true;
      }
      var state;
      if key in buckets {
        state := buckets[key];
      } else {
        if |buckets| >= maxKeys {
          Evict(now);
          if |buckets| >= maxKeys {
            return false;
          }
        }
        state := Bucket(burst as real, now);
      }
      ghost var start := state;
      var elapsed := now - state.seen;
      if elapsed > 0.0 {
        state := state.(tokens := state.tokens + Earned(ratePerSecond, elapsed));
        if state.tokens > burst as real {
          state := state.(tokens := burst as real);
        }
        state := state.(seen := now);
      }
      assert state == Refilled(start, Policy(ratePerSecond, burst), now);
      if state.tokens < 1.0 {
        buckets := buckets[key := state];
        return false;
      }
      state := state.(tokens := state.tokens - 1.0);
      buckets := buckets[key := state];
      return true;
    }

    /** The range loop visits the keys in no particular order. */
    method Evict(now: real)
      modifies this
      ensures buckets == Evicted(old(buckets), now)
    {
      var cutoff := now - 600.0;
      var todo := buckets.Keys;
      while todo != {}
        invariant todo <= buckets.Keys <= old(buckets).Keys
        invariant forall k :: k in buckets ==> buckets[k] == old(buckets)[k]
        invariant forall k :: k in old(buckets) && k !in todo ==>
                    (k in buckets <==> !(old(buckets)[k].seen < cutoff))
        decreases todo
      {
        var k :| k in todo;
        if buckets[k].seen < cutoff {
          buckets := buckets - {k};
        }
        todo := todo - {k};
      }
    }
  }

  // ---------------------------------------------------------------- whole runs

  type Policies = string -> Policy

  function Always(p: Policy): Policies { _ => p }

  /** A history of calls, oldest innermost. */
  datatype History = Start | Then(past: History, call: Call)

  /** The bucket table after a history, from an empty table. */
  function TableAfter(maxKeys: nat, pol: Policies, h: History): Table {
    match h
    case Start => map[]
    case Then(past, c) => Step(TableAfter(maxKeys, pol, past), maxKeys, pol(c.key), c).0
  }

  /** The answer to the last call of a history. */
  function LastAnswer(maxKeys: nat, pol: Policies, h: History): Answer
    requires h.Then?
  {
    Step(TableAfter(maxKeys, pol, h.past), maxKeys, pol(h.call.key), h.call).1
  }

  function IdealAfter(pol: Policies, h: History): Table {
    match h
    case Start => map[]
    case Then(past, c) => IdealStep(IdealAfter(pol, past), pol(c.key), c).0
  }

  function IdealAnswer(pol: Policies, h: History): Answer
    requires h.Then?
  {
    IdealStep(IdealAfter(pol, h.past), pol(h.call.key), h.call).1
  }

  /** The calls of a history that were not refused for a full table. */
  function Served(maxKeys: nat, pol: Policies, h: History): History {
    match h
    case Start => Start
    case Then(past, c) =>
      if LastAnswer(maxKeys, pol, h).TableFull? then Served(maxKeys, pol, past)
      else Then(Served(maxKeys, pol, past), c)
  }

  /** Times never decrease from one call to the next. */
  predicate Monotone(h: History) {
    h.Then? ==> Monotone(h.past) && (h.past.Then? ==> h.past.call.now <= h.call.now)
  }

  function LastTime(h: History, default: real): real {
    if h.Then? then h.call.now else default
  }

  /** A drained bucket is full again after `idle` seconds. */
  ghost predicate RefillsWithin(pol: Policies, idle: real) {
    forall k :: pol(k).Enabled() ==> Earned(pol(k).rate, idle) >= pol(k).burst as real
  }

  /** An idle key has refilled completely by the time it may be evicted. */
  ghost predicate RefillsWhileIdle(pol: Policies) { RefillsWithin(pol, 600.0) }

  ghost predicate BucketOk(b: Bucket, p: Policy, last: real) {
    p.Enabled() && 0.0 <= b.tokens <= p.burst as real && b.seen <= last
  }

  ghost predicate TableOk(t: Table, pol: Policies, last: real) {
    forall k :: k in t ==> BucketOk(t[k], pol(k), last)
  }

  /** Bounded and ideal tables agree, except that the ideal one also holds keys idle past the cutoff. */
  ghost predicate Agrees(t: Table, ideal: Table, pol: Policies, last: real) {
    && TableOk(ideal, pol, last)
    && (forall k :: k in t ==> k in ideal && ideal[k] == t[k])
    && (forall k :: k in ideal && k !in t ==> ideal[k].seen < last - 600.0)
  }

  lemma ChargeOk(t: Table, key: string, b: Bucket, p: Policy, last: real, now: real)
    requires BucketOk(b, p, last) && last <= now
    ensures BucketOk(Charge(t, key, b, p, now).0[key], p, now)
  {
    if now > b.seen {
      EarnedNonNegative(p.rate, now - b.seen);
    }
  }

  lemma IdleIsFull(b: Bucket, p: Policy, last: real, now: real, idle: real)
    requires BucketOk(b, p, last) && idle >= 0.0 && b.seen < now - idle
    requires Earned(p.rate, idle) >= p.burst as real
    ensures Refilled(b, p, now) == Bucket(p.burst as real, now)
  {
    EarnedMonotone(p.rate, idle, now - b.seen);
  }

  /** One call keeps the two tables in agreement and, unless refused for a full table, is answered alike. */
  lemma StepAgrees(t: Table, ideal: Table, maxKeys: nat, pol: Policies, last: real, c: Call)
    requires RefillsWhileIdle(pol) && Agrees(t, ideal, pol, last) && last <= c.now
    ensures var (t', a) := Step(t, maxKeys, pol(c.key), c);
            var (i', b) := IdealStep(ideal, pol(c.key), c);
            if a.TableFull? then Agrees(t', ideal, pol, c.now)
            else a == b && Agrees(t', i', pol, c.now)
  {
    var p := pol(c.key);
    if p.Enabled() {
      var start := Bucket(p.burst as real, c.now);
      if c.key in ideal {
        ChargeOk(ideal, c.key, ideal[c.key], p, last, c.now);
        if c.key !in t {
          IdleIsFull(ideal[c.key], p, last, c.now, 600.0);
        }
      } else {
        ChargeOk(ideal, c.key, start, p, c.now, c.now);
      }
    }
  }

  lemma {:induction false} TablesAgree(maxKeys: nat, pol: Policies, h: History, start: real)
    requires RefillsWhileIdle(pol) && Monotone(h)
    ensures Agrees(TableAfter(maxKeys, pol, h), IdealAfter(pol, Served(maxKeys, pol, h)), pol, LastTime(h, start))
  {
    if h.Then? {
      var c := h.call;
      TablesAgree(maxKeys, pol, h.past, c.now);
      StepAgrees(TableAfter(maxKeys, pol, h.past), IdealAfter(pol, Served(maxKeys, pol, h.past)),
                 maxKeys, pol, LastTime(h.past, c.now), c);
    }
  }

  /** MAIN RESULT. Every call that the evicting bounded limiter does not refuse for a full table gets
      the answer of a never-evicting unbounded limiter that was fed the calls served before it, and the
      tokens of every bucket stay between none and `burst`. */
  lemma EvictionIsInvisible(maxKeys: nat, pol: Policies, h: History)
    requires RefillsWhileIdle(pol) && Monotone(h) && h.Then?
    ensures LastAnswer(maxKeys, pol, h).TableFull? ||
            LastAnswer(maxKeys, pol, h) == IdealAnswer(pol, Served(maxKeys, pol, h))
    ensures var t := TableAfter(maxKeys, pol, h); forall k :: k in t ==> 0.0 <= t[k].tokens <= pol(k).burst as real
  {
    TablesAgree(maxKeys, pol, h.past, h.call.now);
    StepAgrees(TableAfter(maxKeys, pol, h.past), IdealAfter(pol, Served(maxKeys, pol, h.past)),
               maxKeys, pol, LastTime(h.past, h.call.now), h.call);
    TableBounded(maxKeys, pol, h, h.call.now);
  }

  lemma {:induction false} SubsetSize<T>(a: set<T>, b: set<T>)
    requires a <= b
    ensures |a| <= |b|
  {
    if a != {} {
      var x :| x in a;
      SubsetSize(a - {x}, b - {x});
    }
  }

  lemma StepBounded(t: Table, maxKeys: nat, pol: Policies, last: real, c: Call)
    requires TableOk(t, pol, last) && last <= c.now && |t| <= maxKeys
    ensures TableOk(Step(t, maxKeys, pol(c.key), c).0, pol, c.now)
    ensures |Step(t, maxKeys, pol(c.key), c).0| <= maxKeys
  {
    var p := pol(c.key);
    var e := Evicted(t, c.now);
    SubsetSize(e.Keys, t.Keys);
    if p.Enabled() {
      if c.key in t {
        ChargeOk(t, c.key, t[c.key], p, last, c.now);
        assert Charge(t, c.key, t[c.key], p, c.now).0.Keys == t.Keys;
      } else {
        var room := if |t| >= maxKeys then e else t;
        ChargeOk(room, c.key, Bucket(p.burst as real, c.now), p, c.now, c.now);
      }
    }
  }

  /** The table never outgrows its bound, and every bucket holds between none and `burst` tokens. */
  lemma {:induction false} TableBounded(maxKeys: nat, pol: Policies, h: History, start: real)
    requires Monotone(h)
    ensures |TableAfter(maxKeys, pol, h)| <= maxKeys
    ensures TableOk(TableAfter(maxKeys, pol, h), pol, LastTime(h, start))
  {
    if h.Then? {
      TableBounded(maxKeys, pol, h.past, h.call.now);
      StepBounded(TableAfter(maxKeys, pol, h.past), maxKeys, pol, LastTime(h.past, h.call.now), h.call);
    }
  }

  // ---------------------------------------------------------------- rate guarantees

  /** Tokens a key could spend at `now`; an absent key starts with a full bucket. */
  function Credit(t: Table, key: string, p: Policy, now: real): real {
    if key in t then Refilled(t[key], p, now).tokens else p.burst as real
  }

  /** Every allowed call costs its key one token of credit; no call, and no eviction, changes another key's credit. */
  lemma StepSpendsCredit(t: Table, maxKeys: nat, pol: Policies, last: real, c: Call, key: string)
    requires RefillsWhileIdle(pol) && TableOk(t, pol, last) && last <= c.now && pol(key).Enabled()
    ensures var (t', a) := Step(t, maxKeys, pol(c.key), c);
            Credit(t', key, pol(key), c.now) + (if c.key == key && a.Allowed? then 1.0 else 0.0)
            == Credit(t, key, pol(key), c.now)
  {
    if key in t && key !in Evicted(t, c.now) {
      IdleIsFull(t[key], pol(key), c.now, c.now, 600.0);
    }
  }

  lemma CreditGrowth(t: Table, key: string, pol: Policies, last: real, now: real)
    requires TableOk(t, pol, last) && last <= now && pol(key).Enabled()
    ensures Credit(t, key, pol(key), now) <= Credit(t, key, pol(key), last) + Earned(pol(key).rate, now - last)
    ensures 0.0 <= Credit(t, key, pol(key), now) <= pol(key).burst as real
  {
    EarnedNonNegative(pol(key).rate, now - last);
    if key in t {
      var b := t[key];
      EarnedNonNegative(pol(key).rate, last - b.seen);
      EarnedAdds(pol(key).rate, last - b.seen, now - last);
      assert (last - b.seen) + (now - last) == now - b.seen;
    }
  }

  /** Calls on `key` allowed at time `since` or later. */
  function AllowedSince(maxKeys: nat, pol: Policies, h: History, key: string, since: real): nat {
    if h.Start? then 0
    else
      AllowedSince(maxKeys, pol, h.past, key, since)
      + (if h.call.key == key && since <= h.call.now && LastAnswer(maxKeys, pol, h).Allowed? then 1 else 0)
  }

  lemma {:induction false} NothingSince(maxKeys: nat, pol: Policies, h: History, key: string, since: real)
    requires Monotone(h) && (h.Then? ==> h.call.now < since)
    ensures AllowedSince(maxKeys, pol, h, key, since) == 0
  {
    if h.Then? {
      NothingSince(maxKeys, pol, h.past, key, since);
    }
  }

  /** What one call takes from a key's credit, seen across the pause before it. */
  lemma CreditStep(t: Table, maxKeys: nat, pol: Policies, last: real, c: Call, key: string, t': Table, a: Answer)
    returns (before: real, mid: real, after: real)
    requires RefillsWhileIdle(pol) && pol(key).Enabled() && TableOk(t, pol, last) && TableOk(t', pol, c.now) && last <= c.now
    requires (t', a) == Step(t, maxKeys, pol(c.key), c)
    ensures before == Credit(t, key, pol(key), last) && after == Credit(t', key, pol(key), c.now)
    ensures 0.0 <= after && after + (if c.key == key && a.Allowed? then 1.0 else 0.0) == mid <= pol(key).burst as real
    ensures mid <= before + Earned(pol(key).rate, c.now - last)
  {
    StepSpendsCredit(t, maxKeys, pol, last, c, key);
    CreditGrowth(t, key, pol, last, c.now);
    CreditGrowth(t', key, pol, c.now, c.now);
    before, mid, after := Credit(t, key, pol(key), last), Credit(t, key, pol(key), c.now), Credit(t', key, pol(key), c.now);
  }

  lemma LastCallCredit(maxKeys: nat, pol: Policies, h: History, key: string, last: real)
    returns (before: real, mid: real, after: real)
    requires RefillsWhileIdle(pol) && Monotone(h) && pol(key).Enabled() && h.Then? && last == LastTime(h.past, h.call.now)
    ensures before == Credit(TableAfter(maxKeys, pol, h.past), key, pol(key), last)
    ensures after == Credit(TableAfter(maxKeys, pol, h), key, pol(key), h.call.now)
    ensures 0.0 <= after
    ensures after + (if h.call.key == key && LastAnswer(maxKeys, pol, h).Allowed? then 1.0 else 0.0) == mid <= pol(key).burst as real
    ensures mid <= before + Earned(pol(key).rate, h.call.now - last)
  {
    TableBounded(maxKeys, pol, h.past, h.call.now);
    TableBounded(maxKeys, pol, h, h.call.now);
    before, mid, after := CreditStep(TableAfter(maxKeys, pol, h.past), maxKeys, pol, last, h.call, key,
                                     TableAfter(maxKeys, pol, h), LastAnswer(maxKeys, pol, h));
  }

  lemma BudgetStep(allowed: nat, spent: real, start: real, mid: real, after: real, burst: real,
                   rate: real, since: real, last: real, now: real)
    requires after + spent == mid <= start + Earned(rate, now - last)
    requires allowed as real + start <= burst + Earned(rate, last - since)
    ensures allowed as real + spent + after <= burst + Earned(rate, now - since)
  {
    EarnedAdds(rate, last - since, now - last);
    assert (last - since) + (now - last) == now - since;
  }

  lemma {:induction false} WindowCredit(maxKeys: nat, pol: Policies, h: History, key: string, since: real) returns (left: real)
    requires RefillsWhileIdle(pol) && Monotone(h) && pol(key).Enabled() && h.Then? && since <= h.call.now
    ensures left == Credit(TableAfter(maxKeys, pol, h), key, pol(key), h.call.now) >= 0.0
    ensures AllowedSince(maxKeys, pol, h, key, since) as real + left
            <= pol(key).burst as real + Earned(pol(key).rate, h.call.now - since)
  {
    var p, now, last := pol(key), h.call.now, LastTime(h.past, h.call.now);
    var spent := if h.call.key == key && LastAnswer(maxKeys, pol, h).Allowed? then 1.0 else 0.0;
    var before, mid, after := LastCallCredit(maxKeys, pol, h, key, last);
    left := after;
    if h.past.Then? && since <= last {
      var start := WindowCredit(maxKeys, pol, h.past, key, since);
      BudgetStep(AllowedSince(maxKeys, pol, h.past, key, since), spent, start, mid, after, p.burst as real, p.rate, since, last, now);
    } else {
      NothingSince(maxKeys, pol, h.past, key, since);
      EarnedNonNegative(p.rate, now - since);
    }
  }

  /** MAIN RESULT. From any moment on, a key is allowed at most `burst + rate * elapsed` times,
      whatever the other keys do and whatever is evicted. */
  lemma WindowBound(maxKeys: nat, pol: Policies, h: History, key: string, since: real)
    requires RefillsWhileIdle(pol) && Monotone(h) && pol(key).Enabled() && h.Then? && since <= h.call.now
    ensures AllowedSince(maxKeys, pol, h, key, since) as real
            <= pol(key).burst as real + Earned(pol(key).rate, h.call.now - since)
  {
    var left := WindowCredit(maxKeys, pol, h, key, since);
  }

  predicate CalledSince(h: History, key: string, since: real) {
    h.Then? && ((h.call.key == key && since <= h.call.now) || CalledSince(h.past, key, since))
  }

  /** Successive calls on `key` are at least one token's refill time apart. */
  predicate Spaced(h: History, key: string, rate: real) {
    h.Then? ==> Spaced(h.past, key, rate) && (h.call.key == key ==> ClearOf(h.past, key, rate, h.call.now))
  }

  predicate ClearOf(h: History, key: string, rate: real, now: real) {
    h.Then? ==> ClearOf(h.past, key, rate, now) && (h.call.key == key ==> Earned(rate, now - h.call.now) >= 1.0)
  }

  lemma {:induction false} ClearOfCalled(h: History, key: string, rate: real, now: real, since: real)
    requires rate > 0.0 && ClearOf(h, key, rate, now) && CalledSince(h, key, since)
    ensures Earned(rate, now - since) >= 1.0 && since < now
  {
    if h.call.key == key && since <= h.call.now {
      EarnedMonotone(rate, now - h.call.now, now - since);
      if now <= since {
        EarnedMonotone(rate, now - since, 0.0);
      }
    } else {
      ClearOfCalled(h.past, key, rate, now, since);
    }
  }

  /** MAIN RESULT. A caller that spaces its calls by at least 1/rate is never rate limited: each call
      passes unless the table is full. This holds whatever the eviction condition. */
  lemma {:induction false} SpacedCallerPasses(maxKeys: nat, pol: Policies, h: History, key: string)
    requires Monotone(h) && pol(key).Enabled() && Spaced(h, key, pol(key).rate)
    ensures key in TableAfter(maxKeys, pol, h) ==> CalledSince(h, key, TableAfter(maxKeys, pol, h)[key].seen)
    ensures h.Then? && h.call.key == key ==> LastAnswer(maxKeys, pol, h).Allowed? || LastAnswer(maxKeys, pol, h).TableFull?
  {
    if h.Then? {
      SpacedCallerPasses(maxKeys, pol, h.past, key);
      TableBounded(maxKeys, pol, h.past, h.call.now);
      var t := TableAfter(maxKeys, pol, h.past);
      if key in t && h.call.key == key {
        ClearOfCalled(h.past, key, pol(key).rate, h.call.now, t[key].seen);
        assert Refilled(t[key], pol(key), h.call.now).tokens >= 1.0;
      }
    }
  }
}
