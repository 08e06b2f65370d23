/** How far the limiter's eviction can be seen: the exact refill condition for every table size, and what
happens when calls refused for a full table are charged too. */
module EvictionLimits {
  import opened RateLimit

  // ---------------------------------------------------------------- histories that drain and fill

  /** `n` further calls `c`. */
  function Repeat(h: History, c: Call, n: nat): History {
    if n == 0 then h else Then(Repeat(h, c, n - 1), c)
  }

  function StartBucket(t: Table, c: Call, p: Policy): Bucket {
    if c.key in t then t[c.key] else Bucket(p.burst as real, c.now)
  }

  function Drained(t: Table, c: Call, p: Policy, n: nat): Table {
    if n == 0 then t else t[c.key := Bucket(StartBucket(t, c, p).tokens - n as real, c.now)]
  }

  predicate CanDrain(t: Table, maxKeys: nat, c: Call, p: Policy, n: nat) {
    && p.Enabled() && (c.key in t || |t| < maxKeys)
    && StartBucket(t, c, p).seen == c.now && StartBucket(t, c, p).tokens >= n as real
  }

  lemma DrainOne(t: Table, maxKeys: nat, p: Policy, c: Call, n: nat)
    requires n > 0 && CanDrain(t, maxKeys, c, p, n)
    ensures Step(Drained(t, c, p, n - 1), maxKeys, p, c) == (Drained(t, c, p, n), Allowed)
  {
    var left := Bucket(StartBucket(t, c, p).tokens - (n - 1) as real, c.now);
    assert StartBucket(Drained(t, c, p, n - 1), c, p) == left;
    assert Charge(Drained(t, c, p, n - 1), c.key, left, p, c.now).1 == Allowed;
    assert Drained(t, c, p, n - 1)[c.key := left.(tokens := left.tokens - 1.0)] == Drained(t, c, p, n);
  }

  ghost predicate NoneRefused(maxKeys: nat, p: Policy, h: History) {
    Served(maxKeys, Always(p), h) == h
  }

  /** `n` calls at one instant on a bucket holding at least `n` tokens are all allowed. The first call may
      find a table that treats it as `t` does. */
  lemma {:induction false} Drain(maxKeys: nat, p: Policy, h: History, c: Call, n: nat, t: Table)
    requires n > 0 && CanDrain(t, maxKeys, c, p, n) && NoneRefused(maxKeys, p, h)
    requires Step(TableAfter(maxKeys, Always(p), h), maxKeys, p, c) == Step(t, maxKeys, p, c)
    ensures TableAfter(maxKeys, Always(p), Repeat(h, c, n)) == Drained(t, c, p, n)
    ensures NoneRefused(maxKeys, p, Repeat(h, c, n))
    ensures LastAnswer(maxKeys, Always(p), Repeat(h, c, n)) == Allowed
  {
    DrainOne(t, maxKeys, p, c, n);
    if n > 1 {
      Drain(maxKeys, p, h, c, n - 1, t);
      OneCall(maxKeys, p, Repeat(h, c, n - 1), c, Drained(t, c, p, n));
    } else {
      assert Repeat(h, c, 1) == Then(h, c);
      OneCall(maxKeys, p, h, c, Drained(t, c, p, n));
    }
  }

  lemma OneCall(maxKeys: nat, p: Policy, h: History, c: Call, t': Table)
    requires NoneRefused(maxKeys, p, h) && Step(TableAfter(maxKeys, Always(p), h), maxKeys, p, c) == (t', Allowed)
    ensures TableAfter(maxKeys, Always(p), Then(h, c)) == t' && NoneRefused(maxKeys, p, Then(h, c))
    ensures LastAnswer(maxKeys, Always(p), Then(h, c)) == Allowed
  {}

  /** The names of a crowd, all longer than one letter and all different. */
  function Name(i: nat): (name: string)
    ensures |name| == i + 2
  {
    if i == 0 then "xx" else Name(i - 1) + "x"
  }

  /** One call by each of `n` names. */
  function Crowd(h: History, n: nat, now: real): History {
    if n == 0 then h else Then(Crowd(h, n - 1, now), Call(Name(n - 1), now))
  }

  predicate Shorter(name: string, length: nat) { |name| < length }

  /** A table of `size` buckets, all last seen at `now`, none with a name beyond the first `n`. */
  ghost predicate Crowded(t: Table, n: nat, size: nat, now: real) {
    |t| == size && forall k {:trigger k in t} :: k in t ==> t[k].seen == now && Shorter(k, n + 2)
  }

  lemma FreshStep(t: Table, maxKeys: nat, p: Policy, c: Call)
    requires p.Enabled() && c.key !in t && |t| < maxKeys
    ensures Step(t, maxKeys, p, c) == (t[c.key := Bucket(p.burst as real - 1.0, c.now)], Allowed)
  {}

  lemma CrowdGrows(t: Table, n: nat, size: nat, now: real, name: string, b: Bucket)
    requires Crowded(t, n, size, now) && |name| == n + 2 && b.seen == now
    ensures name !in t && Crowded(t[name := b], n + 1, size + 1, now)
  {
    assert name !in t;
    assert t[name := b].Keys == t.Keys + {name};
  }

  lemma CrowdStep(t: Table, maxKeys: nat, p: Policy, n: nat, size: nat, now: real) returns (t': Table)
    requires p.Enabled() && Crowded(t, n, size, now) && size < maxKeys
    ensures Step(t, maxKeys, p, Call(Name(n), now)) == (t', Allowed)
    ensures Crowded(t', n + 1, size + 1, now) && t'.Keys == t.Keys + {Name(n)}
  {
    t' := t[Name(n) := Bucket(p.burst as real - 1.0, now)];
    CrowdGrows(t, n, size, now, Name(n), Bucket(p.burst as real - 1.0, now));
    FreshStep(t, maxKeys, p, Call(Name(n), now));
  }

  /** The one-letter keys of `t` are keys of `base`. */
  ghost predicate NoNewLetters(base: Table, t: Table) {
    forall k {:trigger k in t} :: k in t && Shorter(k, 2) ==> k in base
  }

  /** The history leaves table `t` behind and has not been refused a call. */
  ghost predicate Reaches(maxKeys: nat, p: Policy, h: History, t: Table) {
    TableAfter(maxKeys, Always(p), h) == t && NoneRefused(maxKeys, p, h)
  }

  lemma CrowdNext(maxKeys: nat, p: Policy, h: History, n: nat, size: nat, now: real, base: Table, t: Table) returns (t': Table)
    requires p.Enabled() && size < maxKeys && Reaches(maxKeys, p, h, t) && Crowded(t, n, size, now) && NoNewLetters(base, t)
    ensures Reaches(maxKeys, p, Then(h, Call(Name(n), now)), t') && Crowded(t', n + 1, size + 1, now) && NoNewLetters(base, t')
  {
    t' := CrowdStep(t, maxKeys, p, n, size, now);
    OneCall(maxKeys, p, h, Call(Name(n), now), t');
  }

  lemma {:induction false} CrowdFills(maxKeys: nat, p: Policy, h: History, n: nat, size: nat, now: real, base: Table)
    returns (t: Table)
    requires p.Enabled() && Reaches(maxKeys, p, h, base) && Crowded(base, 0, size, now) && size + n <= maxKeys
    ensures Reaches(maxKeys, p, Crowd(h, n, now), t) && Crowded(t, n, size + n, now) && NoNewLetters(base, t)
  {
    if n == 0 {
      t := base;
    } else {
      var before := CrowdFills(maxKeys, p, h, n - 1, size, now, base);
      var h' := Crowd(h, n - 1, now);
      t := CrowdNext(maxKeys, p, h', n - 1, size + n - 1, now, base, before);
      assert Crowd(h, n, now) == Then(h', Call(Name(n - 1), now));
    }
  }

  /** A full table all of whose buckets have been idle gives way to one newcomer. */
  lemma NewcomerEvictsAll(t: Table, maxKeys: nat, p: Policy, seen: real, c: Call)
    requires p.Enabled() && maxKeys > 0 && c.key !in t && |t| == maxKeys
    requires (forall k :: k in t ==> t[k].seen == seen) && seen < c.now - 600.0
    ensures Step(t, maxKeys, p, c) == (map[c.key := Bucket(p.burst as real - 1.0, c.now)], Allowed)
    ensures Step(t, maxKeys, p, c) == Step(map[], maxKeys, p, c)
  {
    var none: Table := map[];
    assert Evicted(t, c.now) == none;
    assert none[c.key := Bucket(p.burst as real - 1.0, c.now)] == map[c.key := Bucket(p.burst as real - 1.0, c.now)];
  }

  // ---------------------------------------------------------------- the ideal limiter on the same histories

  predicate RunsDry(b: Bucket, p: Policy, now: real, n: nat) {
    var tokens := Refilled(b, p, now).tokens;
    tokens < (p.burst - n) as real || tokens < 1.0
  }

  lemma DryOne(t: Table, p: Policy, c: Call, n: nat)
    requires p.Enabled() && n < p.burst && c.key in t && RunsDry(t[c.key], p, c.now, n)
    ensures var (t', a) := IdealStep(t, p, c);
            c.key in t' && RunsDry(t'[c.key], p, c.now, n + 1) && (n + 1 == p.burst ==> a == Limited)
  {}

  /** An ideal bucket below `burst` tokens refuses the last of `burst` calls at one instant. */
  lemma {:induction false} IdealRunsDry(p: Policy, h: History, c: Call, n: nat)
    requires p.Enabled() && n <= p.burst
    requires var t := IdealAfter(Always(p), h); c.key in t && RunsDry(t[c.key], p, c.now, 0)
    ensures var t := IdealAfter(Always(p), Repeat(h, c, n)); c.key in t && RunsDry(t[c.key], p, c.now, n)
    ensures n == p.burst ==> IdealAnswer(Always(p), Repeat(h, c, n)) == Limited
  {
    if n > 0 {
      IdealRunsDry(p, h, c, n - 1);
      DryOne(IdealAfter(Always(p), Repeat(h, c, n - 1)), p, c, n - 1);
    }
  }

  /** `n` first calls of a key at one instant take `n` tokens. */
  lemma {:induction false} IdealDrain(p: Policy, h: History, c: Call, n: nat)
    requires p.Enabled() && 0 < n <= p.burst && c.key !in IdealAfter(Always(p), h)
    ensures var t := IdealAfter(Always(p), Repeat(h, c, n)); c.key in t && t[c.key] == Bucket((p.burst - n) as real, c.now)
  {
    if n > 1 {
      IdealDrain(p, h, c, n - 1);
    } else {
      assert Repeat(h, c, 1) == Then(h, c);
    }
  }

  /** A crowd leaves the ideal buckets of one-letter keys alone. */
  lemma {:induction false} IdealCrowd(p: Policy, h: History, n: nat, now: real, key: string)
    requires p.Enabled() && |key| == 1
    ensures var t, t' := IdealAfter(Always(p), h), IdealAfter(Always(p), Crowd(h, n, now));
            (key in t' <==> key in t) && (key in t ==> t'[key] == t[key])
  {
    if n > 0 {
      IdealCrowd(p, h, n - 1, now, key);
    }
  }

  lemma {:induction false} RepeatMonotone(h: History, c: Call, n: nat)
    requires Monotone(h) && LastTime(h, c.now) <= c.now
    ensures Monotone(Repeat(h, c, n)) && LastTime(Repeat(h, c, n), c.now) <= c.now
  {
    if n > 0 {
      RepeatMonotone(h, c, n - 1);
    }
  }

  lemma {:induction false} CrowdMonotone(h: History, n: nat, now: real)
    requires Monotone(h) && LastTime(h, now) <= now
    ensures Monotone(Crowd(h, n, now)) && LastTime(Crowd(h, n, now), now) <= now
  {
    if n > 0 {
      CrowdMonotone(h, n - 1, now);
    }
  }

  // ---------------------------------------------------------------- when eviction shows

  ghost predicate EvictionInvisible(maxKeys: nat, pol: Policies) {
    forall h: History :: Monotone(h) && h.Then? ==>
      LastAnswer(maxKeys, pol, h).TableFull? ||
      LastAnswer(maxKeys, pol, h) == IdealAnswer(pol, Served(maxKeys, pol, h))
  }

  /** "k" drains its bucket, `n` others fill the table, at `t1` "y" evicts them all, and from `t2` on "k"
      calls `burst` times again. */
  function Filled(p: Policy, n: nat): History
    requires p.Enabled()
  {
    Crowd(Repeat(Start, Call("k", 0.0), p.burst), n, 0.0)
  }

  function Probe(p: Policy, n: nat, t1: real, t2: real): History
    requires p.Enabled()
  {
    Repeat(Then(Filled(p, n), Call("y", t1)), Call("k", t2), p.burst)
  }

  lemma FilledTable(maxKeys: nat, p: Policy) returns (t: Table)
    requires p.Enabled() && maxKeys > 0
    ensures Reaches(maxKeys, p, Filled(p, maxKeys - 1), t)
    ensures |t| == maxKeys && "y" !in t && forall k :: k in t ==> t[k].seen == 0.0
  {
    DrainedTable(maxKeys, p);
    t := FillUp(maxKeys, p, Repeat(Start, Call("k", 0.0), p.burst));
  }

  lemma FillUp(maxKeys: nat, p: Policy, h: History) returns (t: Table)
    requires p.Enabled() && maxKeys > 0 && Reaches(maxKeys, p, h, map["k" := Bucket(0.0, 0.0)])
    ensures Reaches(maxKeys, p, Crowd(h, maxKeys - 1, 0.0), t)
    ensures |t| == maxKeys && "y" !in t && forall k :: k in t ==> t[k].seen == 0.0
  {
    var one: Table := map["k" := Bucket(0.0, 0.0)];
    OneIsCrowded();
    t := CrowdFills(maxKeys, p, h, maxKeys - 1, 1, 0.0, one);
    NewLetterIsOut(one, t, "y");
  }

  lemma NewLetterIsOut(base: Table, t: Table, letter: string)
    requires NoNewLetters(base, t) && |letter| == 1 && letter !in base
    ensures letter !in t
  {
    assert Shorter(letter, 2);
  }

  lemma OneIsCrowded()
    ensures Crowded(map["k" := Bucket(0.0, 0.0)], 0, 1, 0.0)
  {
    assert map["k" := Bucket(0.0, 0.0)].Keys == {"k"};
  }

  lemma DrainedTable(maxKeys: nat, p: Policy)
    requires p.Enabled() && maxKeys > 0
    ensures Reaches(maxKeys, p, Repeat(Start, Call("k", 0.0), p.burst), map["k" := Bucket(0.0, 0.0)])
  {
    var none: Table := map[];
    Drain(maxKeys, p, Start, Call("k", 0.0), p.burst, none);
    assert none["k" := Bucket(0.0, 0.0)] == map["k" := Bucket(0.0, 0.0)];
  }

  /** The bounded limiter allows every call of the probe. With one slot "k" must wait until "y" can be evicted. */
  lemma ProbeBounded(maxKeys: nat, p: Policy, t1: real, t2: real)
    requires p.Enabled() && maxKeys > 0 && t1 > 600.0 && t2 >= t1 && (maxKeys == 1 ==> t2 > t1 + 600.0)
    ensures LastAnswer(maxKeys, Always(p), Probe(p, maxKeys - 1, t1, t2)) == Allowed
    ensures NoneRefused(maxKeys, p, Probe(p, maxKeys - 1, t1, t2))
  {
    var n, k, y := maxKeys - 1, Call("k", t2), Call("y", t1);
    var full := FilledTable(maxKeys, p);
    NewcomerEvictsAll(full, maxKeys, p, 0.0, y);
    OneCall(maxKeys, p, Filled(p, n), y, map[y.key := Bucket(p.burst as real - 1.0, t1)]);
    var h, none: Table := Then(Filled(p, n), y), map[];
    var room: Table := map["y" := Bucket(p.burst as real - 1.0, t1)];
    assert room.Keys == {"y"};
    if maxKeys == 1 {
      NewcomerEvictsAll(room, 1, p, t1, k);
      Drain(1, p, h, k, p.burst, none);
    } else {
      Drain(maxKeys, p, h, k, p.burst, room);
    }
  }

  /** The ideal limiter refuses the last call of the probe when "k" cannot have refilled by `t2`. */
  lemma ProbeIdeal(p: Policy, n: nat, t1: real, t2: real)
    requires p.Enabled() && t2 > 0.0 && Earned(p.rate, t2) < p.burst as real
    ensures IdealAnswer(Always(p), Probe(p, n, t1, t2)) == Limited
  {
    var k, h := Call("k", 0.0), Then(Filled(p, n), Call("y", t1));
    IdealDrain(p, Start, k, p.burst);
    IdealCrowd(p, Repeat(Start, k, p.burst), n, 0.0, "k");
    assert IdealAfter(Always(p), Filled(p, n))["k"] == Bucket(0.0, 0.0);
    assert "k" in IdealAfter(Always(p), h) && IdealAfter(Always(p), h)["k"] == Bucket(0.0, 0.0);
    assert Refilled(Bucket(0.0, 0.0), p, t2).tokens < p.burst as real;
    IdealRunsDry(p, h, Call("k", t2), p.burst);
  }

  lemma ProbeMonotone(p: Policy, n: nat, t1: real, t2: real)
    requires p.Enabled() && 0.0 <= t1 <= t2
    ensures Monotone(Probe(p, n, t1, t2)) && Probe(p, n, t1, t2).Then?
  {
    RepeatMonotone(Start, Call("k", 0.0), p.burst);
    CrowdMonotone(Repeat(Start, Call("k", 0.0), p.burst), n, 0.0);
    RepeatMonotone(Then(Filled(p, n), Call("y", t1)), Call("k", t2), p.burst);
  }

  lemma IdleTooShort(rate: real, burst: real, idle: real) returns (t: real)
    requires rate > 0.0 && Earned(rate, idle) < burst
    ensures t > idle && Earned(rate, t) < burst
  {
    t := idle + (burst - Earned(rate, idle)) / (2.0 * rate);
    assert (burst - Earned(rate, idle)) / (2.0 * rate) * rate == (burst - Earned(rate, idle)) / 2.0;
  }

  /** How long a bucket has been idle, at least, when its key comes back after an eviction. With one slot
      somebody else has had it in between, and has been idle for as long again. */
  function IdleTime(maxKeys: nat): real { if maxKeys == 1 then 1200.0 else 600.0 }

  /** When a bucket idle for so long need not be full again, eviction hands out extra tokens. */
  lemma EvictionVisible(maxKeys: nat, p: Policy)
    requires p.Enabled() && maxKeys > 0 && Earned(p.rate, IdleTime(maxKeys)) < p.burst as real
    ensures !EvictionInvisible(maxKeys, Always(p))
  {
    var t2 := IdleTooShort(p.rate, p.burst as real, IdleTime(maxKeys));
    var t1 := if maxKeys == 1 then t2 / 2.0 else t2;
    ProbeBounded(maxKeys, p, t1, t2);
    ProbeIdeal(p, maxKeys - 1, t1, t2);
    ProbeMonotone(p, maxKeys - 1, t1, t2);
  }

  // ---------------------------------------------------------------- one slot

  /** With one slot an evicted key was last seen long before the key that took its place. */
  ghost predicate AgreesOne(t: Table, ideal: Table, pol: Policies, last: real) {
    && TableOk(ideal, pol, last) && |t| <= 1
    && (forall k :: k in t ==> k in ideal && ideal[k] == t[k])
    && (forall k :: k in ideal && k !in t ==> exists y :: y in t && ideal[k].seen < t[y].seen - 600.0)
  }

  lemma OnlyKey(t: Table, y: string)
    requires |t| <= 1 && y in t
    ensures t.Keys == {y}
  {
    assert t.Keys == {y} + (t.Keys - {y});
  }

  /** A newcomer finds the slot empty, or takes it from a key idle past the cutoff, or is refused. */
  lemma NewcomerAgrees(t: Table, ideal: Table, pol: Policies, last: real, c: Call, y: string)
    requires RefillsWithin(pol, 1200.0) && AgreesOne(t, ideal, pol, last) && last <= c.now && pol(c.key).Enabled()
    requires c.key !in t && y in t
    ensures var (t', a) := Step(t, 1, pol(c.key), c);
            var (i', b) := IdealStep(ideal, pol(c.key), c);
            if a.TableFull? then t' == t else a == b && AgreesOne(t', i', pol, c.now)
  {
    var p := pol(c.key);
    OnlyKey(t, y);
    if t[y].seen < c.now - 600.0 {
      assert Evicted(t, c.now) == map[];
      var i' := IdealStep(ideal, p, c).0;
      if c.key in ideal {
        ChargeOk(ideal, c.key, ideal[c.key], p, last, c.now);
        IdleIsFull(ideal[c.key], p, last, c.now, 1200.0);
      } else {
        ChargeOk(ideal, c.key, Bucket(p.burst as real, c.now), p, c.now, c.now);
      }
      var t' := Step(t, 1, p, c).0;
      assert t'.Keys == {c.key} && t'[c.key].seen == c.now;
      forall k | k in i' && k !in t' ensures i'[k].seen < t'[c.key].seen - 600.0 {
        assert k in ideal && (k != y ==> ideal[k].seen < t[y].seen - 600.0);
      }
    } else {
      assert Evicted(t, c.now) == t;
    }
  }

  lemma StepAgreesOne(t: Table, ideal: Table, pol: Policies, last: real, c: Call)
    requires RefillsWithin(pol, 1200.0) && AgreesOne(t, ideal, pol, last) && last <= c.now
    ensures var (t', a) := Step(t, 1, pol(c.key), c);
            var (i', b) := IdealStep(ideal, pol(c.key), c);
            if a.TableFull? then AgreesOne(t', ideal, pol, c.now)
            else a == b && AgreesOne(t', i', pol, c.now)
  {
    var p := pol(c.key);
    if p.Enabled() {
      if c.key in t {
        OnlyKey(t, c.key);
        ChargeOk(ideal, c.key, ideal[c.key], p, last, c.now);
        assert Step(t, 1, p, c).0.Keys == {c.key};
      } else if y :| y in t {
        NewcomerAgrees(t, ideal, pol, last, c, y);
      } else {
        assert ideal == map[] && t == map[];
        ChargeOk(ideal, c.key, Bucket(p.burst as real, c.now), p, c.now, c.now);
        assert Step(t, 1, p, c).0.Keys == {c.key};
      }
    }
  }

  lemma {:induction false} TablesAgreeOne(pol: Policies, h: History, start: real)
    requires RefillsWithin(pol, 1200.0) && Monotone(h)
    ensures AgreesOne(TableAfter(1, pol, h), IdealAfter(pol, Served(1, pol, h)), pol, LastTime(h, start))
  {
    if h.Then? {
      TablesAgreeOne(pol, h.past, h.call.now);
      StepAgreesOne(TableAfter(1, pol, h.past), IdealAfter(pol, Served(1, pol, h.past)), pol, LastTime(h.past, h.call.now), h.call);
    }
  }

  lemma OneSlotIsInvisible(pol: Policies, h: History)
    requires RefillsWithin(pol, 1200.0) && Monotone(h) && h.Then?
    ensures LastAnswer(1, pol, h).TableFull? || LastAnswer(1, pol, h) == IdealAnswer(pol, Served(1, pol, h))
  {
    TablesAgreeOne(pol, h.past, h.call.now);
    StepAgreesOne(TableAfter(1, pol, h.past), IdealAfter(pol, Served(1, pol, h.past)), pol, LastTime(h.past, h.call.now), h.call);
  }

  /** MAIN RESULT. For every table size and enabled policy, eviction can never be observed exactly when a
      drained bucket refills completely in the time its key must stay away: 600 seconds, or 1200 when the
      table holds a single key. */
  lemma EvictionInvisibleIff(maxKeys: nat, p: Policy)
    requires p.Enabled() && maxKeys > 0
    ensures EvictionInvisible(maxKeys, Always(p)) <==> Earned(p.rate, IdleTime(maxKeys)) >= p.burst as real
  {
    if Earned(p.rate, IdleTime(maxKeys)) < p.burst as real {
      EvictionVisible(maxKeys, p);
    } else {
      forall h: History | Monotone(h) && h.Then?
        ensures LastAnswer(maxKeys, Always(p), h).TableFull? ||
                LastAnswer(maxKeys, Always(p), h) == IdealAnswer(Always(p), Served(maxKeys, Always(p), h))
      {
        if maxKeys == 1 { OneSlotIsInvisible(Always(p), h); } else { EvictionIsInvisible(maxKeys, Always(p), h); }
      }
    }
  }

  // ---------------------------------------------------------------- charging refused calls

  /** "b" calls `burst` times while the table is full of keys too young to evict, and once more when they
      have just become old enough. */
  function Knocking(p: Policy, maxKeys: nat, late: real): History
    requires p.Enabled()
  {
    Then(Repeat(Crowd(Start, maxKeys, 0.0), Call("b", 600.0), p.burst), Call("b", late))
  }

  lemma {:induction false} KeepsKnocking(p: Policy, maxKeys: nat, n: nat)
    requires p.Enabled() && maxKeys > 0
    ensures var t := TableAfter(maxKeys, Always(p), Repeat(Crowd(Start, maxKeys, 0.0), Call("b", 600.0), n));
            |t| == maxKeys && "b" !in t && forall k :: k in t ==> t[k].seen == 0.0
    ensures n > 0 ==> LastAnswer(maxKeys, Always(p), Repeat(Crowd(Start, maxKeys, 0.0), Call("b", 600.0), n)) == TableFull
  {
    if n == 0 {
      var t := CrowdFills(maxKeys, p, Start, maxKeys, 0, 0.0, map[]);
      assert |"b"| == 1;
    } else {
      KeepsKnocking(p, maxKeys, n - 1);
      var t := TableAfter(maxKeys, Always(p), Repeat(Crowd(Start, maxKeys, 0.0), Call("b", 600.0), n - 1));
      assert Evicted(t, 600.0) == t;
    }
  }

  lemma LateKnockPasses(maxKeys: nat, p: Policy, late: real)
    requires p.Enabled() && maxKeys > 0 && late > 600.0
    ensures LastAnswer(maxKeys, Always(p), Knocking(p, maxKeys, late)) == Allowed
  {
    KeepsKnocking(p, maxKeys, p.burst);
    NewcomerEvictsAll(TableAfter(maxKeys, Always(p), Knocking(p, maxKeys, late).past), maxKeys, p, 0.0, Call("b", late));
  }

  lemma LateKnockIsCharged(maxKeys: nat, p: Policy, late: real)
    requires p.Enabled() && late > 600.0 && Earned(p.rate, late - 600.0) < 1.0
    ensures IdealAnswer(Always(p), Knocking(p, maxKeys, late)) == Limited
  {
    IdealCrowd(p, Start, maxKeys, 0.0, "b");
    IdealDrain(p, Crowd(Start, maxKeys, 0.0), Call("b", 600.0), p.burst);
  }

  /** MAIN RESULT. Whatever the policy and the table size, an ideal limiter that is charged for the calls
      refused for a full table ends up refusing a call the limiter allows: refused calls must not count. */
  lemma RefusedCallsMustNotBeCharged(maxKeys: nat, p: Policy) returns (h: History)
    requires p.Enabled() && maxKeys > 0
    ensures Monotone(h) && h.Then?
    ensures LastAnswer(maxKeys, Always(p), h) == Allowed && IdealAnswer(Always(p), h) == Limited
  {
    var wait := 1.0 / (2.0 * p.rate);
    assert Earned(p.rate, wait) == 0.5;
    h := Knocking(p, maxKeys, 600.0 + wait);
    CrowdMonotone(Start, maxKeys, 0.0);
    RepeatMonotone(Crowd(Start, maxKeys, 0.0), Call("b", 600.0), p.burst);
    LateKnockPasses(maxKeys, p, 600.0 + wait);
    LateKnockIsCharged(maxKeys, p, 600.0 + wait);
  }
}
