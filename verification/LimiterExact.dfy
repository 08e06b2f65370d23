/** Exactly when the limiter refuses a call, told from the earlier answers alone. */
module LimiterExact {
  import opened RateLimit

  /** What a key could be allowed at most from `since` to `now`, less what it was allowed. */
  function Room(maxKeys: nat, pol: Policies, h: History, key: string, since: real, now: real): real {
    pol(key).burst as real + Earned(pol(key).rate, now - since) - AllowedSince(maxKeys, pol, h, key, since) as real
  }

  /** Nothing is refilled past the bound, and below it exactly what time earns. */
  lemma CreditGrows(t: Table, key: string, pol: Policies, last: real, now: real)
    requires TableOk(t, pol, last) && last <= now && pol(key).Enabled()
    ensures var grown := Credit(t, key, pol(key), last) + Earned(pol(key).rate, now - last);
            Credit(t, key, pol(key), now) == if grown > pol(key).burst as real then pol(key).burst as real else grown
  {
    var p := pol(key);
    EarnedNonNegative(p.rate, now - last);
    if key in t {
      var b := t[key];
      EarnedNonNegative(p.rate, last - b.seen);
      EarnedAdds(p.rate, last - b.seen, now - last);
      assert (last - b.seen) + (now - last) == now - b.seen;
    }
  }

  lemma RoomLater(allowed: real, left: real, burst: real, rate: real, since: real, last: real, now: real)
    requires allowed + left <= burst + Earned(rate, last - since)
    ensures left + Earned(rate, now - last) <= burst + Earned(rate, now - since) - allowed
  {
    EarnedAdds(rate, last - since, now - last);
    assert (last - since) + (now - last) == now - since;
  }

  /** The credit never exceeds the room of any window. */
  lemma CreditWithinRoom(maxKeys: nat, pol: Policies, h: History, key: string, since: real, now: real)
    requires RefillsWhileIdle(pol) && Monotone(h) && pol(key).Enabled() && since <= now && LastTime(h, now) <= now
    ensures Credit(TableAfter(maxKeys, pol, h), key, pol(key), now) <= Room(maxKeys, pol, h, key, since, now)
  {
    var p := pol(key);
    TableBounded(maxKeys, pol, h, now);
    EarnedNonNegative(p.rate, now - since);
    CreditGrowth(TableAfter(maxKeys, pol, h), key, pol, LastTime(h, now), now);
    if h.Then? && since <= h.call.now {
      var left := WindowCredit(maxKeys, pol, h, key, since);
      RoomLater(AllowedSince(maxKeys, pol, h, key, since) as real, left, p.burst as real, p.rate, since, h.call.now, now);
    } else {
      NothingSince(maxKeys, pol, h, key, since);
    }
  }

  /** A full bucket, or one that is as low as the room of this window. */
  ghost predicate Tight(maxKeys: nat, pol: Policies, h: History, key: string, since: real, now: real) {
    since <= now && Credit(TableAfter(maxKeys, pol, h), key, pol(key), now) == Room(maxKeys, pol, h, key, since, now)
  }

  ghost predicate Full(maxKeys: nat, pol: Policies, h: History, key: string, now: real) {
    Credit(TableAfter(maxKeys, pol, h), key, pol(key), now) == pol(key).burst as real
  }

  /** Waiting keeps a window tight until the bucket is full. */
  lemma TightLater(maxKeys: nat, pol: Policies, h: History, key: string, since: real, last: real, now: real)
    requires pol(key).Enabled() && TableOk(TableAfter(maxKeys, pol, h), pol, last) && last <= now && Tight(maxKeys, pol, h, key, since, last)
    ensures Full(maxKeys, pol, h, key, now) || Tight(maxKeys, pol, h, key, since, now)
  {
    CreditGrows(TableAfter(maxKeys, pol, h), key, pol, last, now);
    EarnedAdds(pol(key).rate, last - since, now - last);
    assert (last - since) + (now - last) == now - since;
  }

  lemma FullLater(maxKeys: nat, pol: Policies, h: History, key: string, last: real, now: real)
    requires pol(key).Enabled() && TableOk(TableAfter(maxKeys, pol, h), pol, last) && last <= now && Full(maxKeys, pol, h, key, last)
    ensures Full(maxKeys, pol, h, key, now)
  {
    CreditGrows(TableAfter(maxKeys, pol, h), key, pol, last, now);
    EarnedNonNegative(pol(key).rate, now - last);
  }

  /** A window that is tight before a call is tight after it, and a full bucket that is drawn on starts one. */
  lemma TightAfterCall(maxKeys: nat, pol: Policies, h: History, key: string, since: real) returns (since': real)
    requires RefillsWhileIdle(pol) && Monotone(h) && pol(key).Enabled() && h.Then?
    requires Full(maxKeys, pol, h.past, key, h.call.now) || Tight(maxKeys, pol, h.past, key, since, h.call.now)
    ensures Full(maxKeys, pol, h, key, h.call.now) || Tight(maxKeys, pol, h, key, since', h.call.now)
  {
    var now, last := h.call.now, LastTime(h.past, h.call.now);
    TableBounded(maxKeys, pol, h.past, now);
    StepSpendsCredit(TableAfter(maxKeys, pol, h.past), maxKeys, pol, last, h.call, key);
    if Full(maxKeys, pol, h.past, key, now) {
      since' := now;
      CreditWithinRoom(maxKeys, pol, h.past, key, now, now);
      assert Earned(pol(key).rate, now - now) == 0.0;
    } else {
      since' := since;
    }
  }

  /** Unless its bucket is full, some window of the key is used up to its credit. */
  lemma {:induction false} SomeWindowTight(maxKeys: nat, pol: Policies, h: History, key: string, now: real) returns (since: real)
    requires RefillsWhileIdle(pol) && Monotone(h) && pol(key).Enabled() && LastTime(h, now) <= now
    ensures Full(maxKeys, pol, h, key, now) || Tight(maxKeys, pol, h, key, since, now)
  {
    since := now;
    if h.Then? {
      var before := SomeWindowTight(maxKeys, pol, h.past, key, h.call.now);
      since := TightAfterCall(maxKeys, pol, h, key, before);
      TableBounded(maxKeys, pol, h, now);
      if Full(maxKeys, pol, h, key, h.call.now) {
        FullLater(maxKeys, pol, h, key, h.call.now, now);
      } else {
        TightLater(maxKeys, pol, h, key, since, h.call.now, now);
      }
    }
  }

  lemma LimitedWithoutCredit(maxKeys: nat, pol: Policies, h: History)
    requires Monotone(h) && h.Then? && pol(h.call.key).Enabled()
    ensures LastAnswer(maxKeys, pol, h).Limited? <==>
              Credit(TableAfter(maxKeys, pol, h.past), h.call.key, pol(h.call.key), h.call.now) < 1.0
  {}

  /** One more call in this window would be more than the bucket and the rate give. */
  ghost predicate Exceeds(maxKeys: nat, pol: Policies, past: History, key: string, since: real, now: real) {
    since <= now
    && AllowedSince(maxKeys, pol, past, key, since) as real + 1.0 > pol(key).burst as real + (now - since) * pol(key).rate
  }

  lemma ExceedsWithoutRoom(maxKeys: nat, pol: Policies, past: History, key: string, since: real, now: real)
    ensures Exceeds(maxKeys, pol, past, key, since, now) <==> since <= now && Room(maxKeys, pol, past, key, since, now) < 1.0
  {
    var allowed, burst, earned := AllowedSince(maxKeys, pol, past, key, since) as real, pol(key).burst as real, Earned(pol(key).rate, now - since);
    assert earned == (now - since) * pol(key).rate;
    assert burst + earned - allowed < 1.0 <==> allowed + 1.0 > burst + earned;
  }

  /** MAIN RESULT. A call of a limited key is refused for its rate exactly when, for some moment before it, the
      calls allowed since then and this one would be more than `burst + rate * elapsed`. */
  lemma LimitedIff(maxKeys: nat, pol: Policies, h: History)
    requires RefillsWhileIdle(pol) && Monotone(h) && h.Then? && pol(h.call.key).Enabled()
    ensures LastAnswer(maxKeys, pol, h).Limited? <==> exists since :: Exceeds(maxKeys, pol, h.past, h.call.key, since, h.call.now)
  {
    var key, now := h.call.key, h.call.now;
    LimitedWithoutCredit(maxKeys, pol, h);
    if since :| Exceeds(maxKeys, pol, h.past, key, since, now) {
      ExceedsWithoutRoom(maxKeys, pol, h.past, key, since, now);
      CreditWithinRoom(maxKeys, pol, h.past, key, since, now);
    }
    if LastAnswer(maxKeys, pol, h).Limited? {
      var since := SomeWindowTight(maxKeys, pol, h.past, key, now);
      ExceedsWithoutRoom(maxKeys, pol, h.past, key, since, now);
    }
  }

  // ---------------------------------------------------------------- refusals for a full table

  /** The limited keys served, allowed or not, at time `since` or later. */
  function ServedKeys(maxKeys: nat, pol: Policies, h: History, since: real): set<string> {
    if h.Start? then {}
    else
      ServedKeys(maxKeys, pol, h.past, since)
      + if since <= h.call.now && (LastAnswer(maxKeys, pol, h).Allowed? || LastAnswer(maxKeys, pol, h).Limited?) then {h.call.key} else {}
  }

  predicate SeenSince(t: Table, k: string, since: real) { k in t && t[k].seen >= since }

  /** Within ten minutes no bucket is lost, and each tells when its key was served last. */
  lemma {:induction false} BucketsTellServed(maxKeys: nat, pol: Policies, h: History, since: real, start: real)
    requires Monotone(h) && since >= LastTime(h, start) - 600.0
    ensures forall k :: k in ServedKeys(maxKeys, pol, h, since) <==> SeenSince(TableAfter(maxKeys, pol, h), k, since)
  {
    if h.Then? {
      BucketsTellServed(maxKeys, pol, h.past, since, h.call.now);
      TableBounded(maxKeys, pol, h.past, h.call.now);
      StepTellsServed(TableAfter(maxKeys, pol, h.past), maxKeys, pol, LastTime(h.past, h.call.now), h.call, since);
    }
  }

  lemma StepTellsServed(t: Table, maxKeys: nat, pol: Policies, last: real, c: Call, since: real)
    requires TableOk(t, pol, last) && last <= c.now && since >= c.now - 600.0
    ensures var (t', a) := Step(t, maxKeys, pol(c.key), c);
            forall k :: SeenSince(t', k, since) <==> SeenSince(t, k, since) || (k == c.key && since <= c.now && (a.Allowed? || a.Limited?))
  {}

  predicate Called(h: History, key: string) { h.Then? && (h.call.key == key || Called(h.past, key)) }

  lemma {:induction false} UncalledIsAbsent(maxKeys: nat, pol: Policies, h: History, key: string)
    requires !Called(h, key)
    ensures key !in TableAfter(maxKeys, pol, h)
  {
    if h.Then? {
      UncalledIsAbsent(maxKeys, pol, h.past, key);
    }
  }

  lemma FullTableIff(t: Table, maxKeys: nat, p: Policy, c: Call, served: set<string>)
    requires p.Enabled() && c.key !in t && forall k :: k in served <==> SeenSince(t, k, c.now - 600.0)
    ensures Step(t, maxKeys, p, c).1.TableFull? <==> |served| >= maxKeys
  {
    assert Evicted(t, c.now).Keys == served;
    SubsetSize(served, t.Keys);
  }

  /** MAIN RESULT. A new key is refused for a full table exactly when at least `maxKeys` others were served within
      the last ten minutes. */
  lemma NewKeyRefusedIff(maxKeys: nat, pol: Policies, h: History)
    requires Monotone(h) && h.Then? && pol(h.call.key).Enabled() && !Called(h.past, h.call.key)
    ensures LastAnswer(maxKeys, pol, h).TableFull? <==> |ServedKeys(maxKeys, pol, h.past, h.call.now - 600.0)| >= maxKeys
  {
    UncalledIsAbsent(maxKeys, pol, h.past, h.call.key);
    BucketsTellServed(maxKeys, pol, h.past, h.call.now - 600.0, h.call.now);
    FullTableIff(TableAfter(maxKeys, pol, h.past), maxKeys, pol(h.call.key), h.call, ServedKeys(maxKeys, pol, h.past, h.call.now - 600.0));
  }
}
