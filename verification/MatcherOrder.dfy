/** What a batch is in terms of the queue alone: the group of the ticket that has waited longest among those that
can head one, with nobody passed over. */
module MatcherOrder {
  import opened Matcher
  import opened Ordering
  import Int64

  /** Queued longer, ties by id. */
  predicate QueuedBefore(a: Ticket, b: Ticket) {
    a.queuedAt < b.queuedAt || (a.queuedAt == b.queuedAt && StringLess(a.id, b.id))
  }

  predicate Rising(s: seq<Ticket>) {
    forall i, j :: 0 <= i < j < |s| ==> QueuedBefore(s[i], s[j])
  }

  lemma QueuedBeforeStrict(a: Ticket, b: Ticket)
    ensures !(QueuedBefore(a, b) && QueuedBefore(b, a)) && !QueuedBefore(a, a)
    ensures a.id != b.id ==> QueuedBefore(a, b) || QueuedBefore(b, a)
  {
    StringLessTotal(a.id, b.id);
    StringLessIrreflexive(a.id);
    if StringLess(a.id, b.id) { StringLessAsymmetric(a.id, b.id); }
  }

  // ---------------------------------------------------------------- who fits whom

  /** A ticket of full size in a region the policy admits. */
  lemma SeedableIff(t: Ticket, p: Policy)
    ensures Seedable(t, p) <==> |t.playerIds| == p.teamSize && (t.region in p.allowedRegions || (p.allowedRegions == {} && t.region != ""))
  {}

  /** The difference of two 64-bit ratings, as 64-bit arithmetic has it. */
  function Gap(a: int, b: int): int {
    var d := a - b;
    if d > Int64.LARGEST then d - 0x1_0000_0000_0000_0000 else if d < -Int64.LARGEST - 1 then d + 0x1_0000_0000_0000_0000 else d
  }

  /** Two tickets fit when they ask for the same match, both regions are admitted, the second is of full size, and
      their ratings are at most a window apart; a gap of exactly -2^63, which has no absolute value, fits too. */
  lemma CompatibleIff(a: Ticket, b: Ticket, p: Policy)
    requires Int64.InRange(a.rating) && Int64.InRange(b.rating) && p.ratingWindow >= 0
    ensures Compatible(a, b, p) <==>
              && (a.modeId, a.definitionRevision, a.build, a.capacity) == (b.modeId, b.definitionRevision, b.build, b.capacity)
              && CompatibleRegion(a, p) && Seedable(b, p)
              && (-p.ratingWindow <= Gap(a.rating, b.rating) <= p.ratingWindow || Gap(a.rating, b.rating) == -Int64.LARGEST - 1)
  {}

  // ---------------------------------------------------------------- the group without the sorted queue

  /** The tickets that could follow `t` in a group it heads. */
  function Followers(tickets: seq<Ticket>, p: Policy, t: Ticket): set<Ticket> {
    set x | x in tickets && QueuedBefore(t, x) && Compatible(t, x, p)
  }

  predicate CanHead(tickets: seq<Ticket>, p: Policy, t: Ticket) { Seedable(t, p) && |Followers(tickets, p, t)| >= p.teams - 1 }

  /** The group of the longest waiting ticket that can head one, in queue order, with nobody passed over. */
  predicate OldestGroup(tickets: seq<Ticket>, p: Policy, batch: seq<Ticket>) {
    if batch == [] then p.Valid() ==> forall t :: t in tickets ==> !CanHead(tickets, p, t)
    else
      && p.Valid() && |batch| == p.teams && Rising(batch) && batch[0] in tickets && Seedable(batch[0], p)
      && (forall k :: 1 <= k < |batch| ==> batch[k] in tickets && Compatible(batch[0], batch[k], p))
      && (forall t :: t in tickets && QueuedBefore(t, batch[0]) ==> !CanHead(tickets, p, t))
      && (forall t :: t in tickets && QueuedBefore(batch[0], t) && QueuedBefore(t, batch[|batch| - 1]) && Compatible(batch[0], t, p) ==> t in batch)
  }

  lemma QueueRises(tickets: seq<Ticket>)
    requires DistinctIds(tickets)
    ensures Rising(InQueueOrder(tickets)) && DistinctIds(InQueueOrder(tickets))
    ensures forall t :: t in InQueueOrder(tickets) <==> t in tickets
  {
    var q := InQueueOrder(tickets);
    EarlierIsWeak();
    SortedOrdered(Earlier, tickets);
    SortedPermutes(Earlier, tickets);
    SortedMembers(Earlier, tickets);
    DistinctIdsPermute(tickets, q);
    forall i, j | 0 <= i < j < |q| ensures QueuedBefore(q[i], q[j]) {
      QueuedBeforeStrict(q[i], q[j]);
    }
  }

  lemma {:induction false} PartnersAre(seed: Ticket, rest: seq<Ticket>, p: Policy)
    ensures forall x :: x in Partners(seed, rest, p) <==> x in rest && Compatible(seed, x, p)
  {
    if rest != [] {
      var n := |rest| - 1;
      PartnersAre(seed, rest[..n], p);
      assert rest == rest[..n] + [rest[n]];
    }
  }

  lemma {:induction false} PartnersRise(seed: Ticket, rest: seq<Ticket>, p: Policy)
    requires Rising(rest)
    ensures Rising(Partners(seed, rest, p))
  {
    if rest != [] {
      var n := |rest| - 1;
      PartnersRise(seed, rest[..n], p);
      PartnersAre(seed, rest[..n], p);
      RisesByOne(Partners(seed, rest[..n], p), rest, n);
    }
  }

  lemma RisesByOne(before: seq<Ticket>, rest: seq<Ticket>, n: nat)
    requires Rising(before) && Rising(rest) && n < |rest| && forall x :: x in before ==> x in rest[..n]
    ensures Rising(before + [rest[n]])
  {
    forall k | 0 <= k < |before| ensures QueuedBefore(before[k], rest[n]) {
      assert before[k] in rest[..n];
      var j :| 0 <= j < n && rest[..n][j] == before[k];
    }
  }

  function Members(s: seq<Ticket>): set<Ticket> { set x | x in s }

  lemma {:induction false} RisingCount(s: seq<Ticket>)
    requires Rising(s)
    ensures |Members(s)| == |s|
  {
    if s != [] {
      var n := |s| - 1;
      RisingCount(s[..n]);
      assert s == s[..n] + [s[n]];
      forall k | 0 <= k < n ensures s[k] != s[n] { QueuedBeforeStrict(s[k], s[n]); }
      assert Members(s) == Members(s[..n]) + {s[n]};
    }
  }

  /** Later in the queue is what comes behind in the order. */
  lemma BehindIsLater(ordered: seq<Ticket>, i: nat, x: Ticket)
    requires Rising(ordered) && i < |ordered|
    ensures x in ordered[i + 1..] <==> x in ordered && QueuedBefore(ordered[i], x)
  {
    if x in ordered[i + 1..] {
      var k :| 0 <= k < |ordered[i + 1..]| && ordered[i + 1..][k] == x;
      assert ordered[i + 1 + k] == x;
    }
    if x in ordered && QueuedBefore(ordered[i], x) {
      var k :| 0 <= k < |ordered| && ordered[k] == x;
      QueuedBeforeStrict(ordered[i], x);
      assert k > i;
      assert ordered[i + 1..][k - i - 1] == x;
    }
  }

  lemma FollowersArePartners(tickets: seq<Ticket>, ordered: seq<Ticket>, p: Policy, i: nat)
    requires Rising(ordered) && i < |ordered| && forall t :: t in ordered <==> t in tickets
    ensures Members(Partners(ordered[i], ordered[i + 1..], p)) == Followers(tickets, p, ordered[i])
    ensures Feasible(ordered, i, p) <==> CanHead(tickets, p, ordered[i])
  {
    var partners := Partners(ordered[i], ordered[i + 1..], p);
    PartnersAre(ordered[i], ordered[i + 1..], p);
    PartnersRise(ordered[i], ordered[i + 1..], p);
    forall x ensures x in Members(partners) <==> x in Followers(tickets, p, ordered[i]) {
      BehindIsLater(ordered, i, x);
    }
    RisingCount(partners);
  }

  /** The group at a position is the head with its first partners, none of them passed over. */
  lemma GroupIsOldest(tickets: seq<Ticket>, ordered: seq<Ticket>, p: Policy, i: nat)
    requires p.Valid() && Rising(ordered) && (forall t :: t in ordered <==> t in tickets) && EarliestFeasible(ordered, i, p)
    ensures OldestGroup(tickets, p, GroupAt(ordered, i, p))
  {
    var batch, partners := GroupAt(ordered, i, p), Partners(ordered[i], ordered[i + 1..], p);
    PartnersAre(ordered[i], ordered[i + 1..], p);
    PartnersRise(ordered[i], ordered[i + 1..], p);
    assert forall k :: 1 <= k < |batch| ==> batch[k] == partners[k - 1];
    forall k | 1 <= k < |batch| ensures batch[k] in tickets && Compatible(batch[0], batch[k], p) && QueuedBefore(batch[0], batch[k]) {
      assert batch[k] in partners;
      BehindIsLater(ordered, i, batch[k]);
    }
    forall t | t in tickets && QueuedBefore(t, batch[0]) ensures !CanHead(tickets, p, t) {
      var j :| 0 <= j < |ordered| && ordered[j] == t;
      QueuedBeforeStrict(t, batch[0]);
      FollowersArePartners(tickets, ordered, p, j);
    }
    forall t | t in tickets && QueuedBefore(batch[0], t) && QueuedBefore(t, batch[|batch| - 1]) && Compatible(batch[0], t, p) ensures t in batch {
      BehindIsLater(ordered, i, t);
      NotPassedOver(batch, partners, t);
    }
  }

  lemma NotPassedOver(batch: seq<Ticket>, partners: seq<Ticket>, t: Ticket)
    requires |batch| >= 1 && |partners| >= |batch| - 1 && (forall k :: 1 <= k < |batch| ==> batch[k] == partners[k - 1])
    requires Rising(partners) && t in partners && QueuedBefore(batch[0], t) && QueuedBefore(t, batch[|batch| - 1])
    ensures t in batch
  {
    var m :| 0 <= m < |partners| && partners[m] == t;
    QueuedBeforeStrict(batch[0], t);
    QueuedBeforeStrict(t, batch[|batch| - 1]);
    assert |batch| >= 2 && batch[|batch| - 1] == partners[|batch| - 2];
    assert m < |batch| - 2;
    assert batch[m + 1] == t;
  }

  lemma BatchIsOldest(tickets: seq<Ticket>, p: Policy, batch: seq<Ticket>)
    requires IsBatch(tickets, p, batch) && DistinctIds(tickets)
    ensures OldestGroup(tickets, p, batch)
  {
    var ordered := InQueueOrder(tickets);
    QueueRises(tickets);
    if batch == [] {
      forall t | p.Valid() && t in tickets ensures !CanHead(tickets, p, t) {
        var i :| 0 <= i < |ordered| && ordered[i] == t;
        FollowersArePartners(tickets, ordered, p, i);
      }
    } else {
      var i: nat :| EarliestFeasible(ordered, i, p) && batch == GroupAt(ordered, i, p);
      GroupIsOldest(tickets, ordered, p, i);
    }
  }

  // ---------------------------------------------------------------- there is only one such group

  /** Whoever heads an oldest group can head one. */
  lemma HeadCanHead(tickets: seq<Ticket>, p: Policy, g: seq<Ticket>)
    requires OldestGroup(tickets, p, g) && g != []
    ensures CanHead(tickets, p, g[0])
  {
    assert Rising(g[1..]);
    RisingCount(g[1..]);
    forall x | x in Members(g[1..]) ensures x in Followers(tickets, p, g[0]) {
      var k :| 0 <= k < |g[1..]| && g[1..][k] == x;
      assert g[k + 1] == x;
    }
    SubsetCount(Members(g[1..]), Followers(tickets, p, g[0]));
  }

  lemma SubsetCount(a: set<Ticket>, b: set<Ticket>)
    requires a <= b
    ensures |a| <= |b|
  {
    assert b == a + (b - a);
  }

  lemma SameId(tickets: seq<Ticket>, a: Ticket, b: Ticket)
    requires DistinctIds(tickets) && a in tickets && b in tickets && a.id == b.id
    ensures a == b
  {
    var i :| 0 <= i < |tickets| && tickets[i] == a;
    var j :| 0 <= j < |tickets| && tickets[j] == b;
  }

  lemma SameHead(tickets: seq<Ticket>, p: Policy, g: seq<Ticket>, h: seq<Ticket>)
    requires DistinctIds(tickets) && OldestGroup(tickets, p, g) && OldestGroup(tickets, p, h) && g != []
    ensures h != [] && g[0] == h[0]
  {
    HeadCanHead(tickets, p, g);
    if h != [] {
      HeadCanHead(tickets, p, h);
      QueuedBeforeStrict(g[0], h[0]);
      if g[0].id == h[0].id { SameId(tickets, g[0], h[0]); }
    }
  }

  /** If two groups agree up to a place, neither has an earlier ticket there. */
  lemma NotEarlier(tickets: seq<Ticket>, p: Policy, g: seq<Ticket>, h: seq<Ticket>, k: nat)
    requires OldestGroup(tickets, p, g) && OldestGroup(tickets, p, h) && g != [] && h != [] && 1 <= k < p.teams && g[..k] == h[..k]
    ensures !QueuedBefore(g[k], h[k])
  {
    if QueuedBefore(g[k], h[k]) {
      var last := |h| - 1;
      assert g[0] == g[..k][0] == h[..k][0] == h[0];
      if k < last { BeforeTransitive(g[k], h[k], h[last]); }
      assert QueuedBefore(g[0], g[k]) && Compatible(h[0], g[k], p) && g[k] in h;
      var m :| 0 <= m < |h| && h[m] == g[k];
      PlaceOf(g, h, k, m);
    }
  }

  lemma BeforeTransitive(a: Ticket, b: Ticket, c: Ticket)
    requires QueuedBefore(a, b) && QueuedBefore(b, c)
    ensures QueuedBefore(a, c)
  {
    if StringLess(a.id, b.id) && StringLess(b.id, c.id) { StringLessTransitive(a.id, b.id, c.id); }
  }

  /** The ticket at place k of one rising group is at no other place of a group that agrees up to k. */
  lemma PlaceOf(g: seq<Ticket>, h: seq<Ticket>, k: nat, m: nat)
    requires Rising(g) && Rising(h) && k < |g| && k < |h| && m < |h| && g[..k] == h[..k] && h[m] == g[k]
    ensures !QueuedBefore(g[k], h[k])
  {
    if m < k {
      assert g[m] == g[..k][m] == h[..k][m] == h[m];
      QueuedBeforeStrict(g[m], g[k]);
    }
    QueuedBeforeStrict(h[k], h[m]);
    QueuedBeforeStrict(h[m], h[k]);
  }

  lemma SameNext(tickets: seq<Ticket>, p: Policy, g: seq<Ticket>, h: seq<Ticket>, n: nat)
    requires DistinctIds(tickets) && OldestGroup(tickets, p, g) && OldestGroup(tickets, p, h) && g != [] && h != [] && 1 <= n < p.teams
    requires g[..n] == h[..n]
    ensures |g| == |h| == p.teams && g[n] == h[n]
  {
    NotEarlier(tickets, p, g, h, n);
    NotEarlier(tickets, p, h, g, n);
    QueuedBeforeStrict(g[n], h[n]);
    if g[n].id == h[n].id { SameId(tickets, g[n], h[n]); }
  }

  lemma OneMore(g: seq<Ticket>, h: seq<Ticket>, n: nat)
    requires n < |g| && n < |h| && g[..n] == h[..n] && g[n] == h[n]
    ensures g[..n + 1] == h[..n + 1]
  {
    assert g[..n + 1] == g[..n] + [g[n]] && h[..n + 1] == h[..n] + [h[n]];
  }

  lemma SameFirst(tickets: seq<Ticket>, p: Policy, g: seq<Ticket>, h: seq<Ticket>)
    requires DistinctIds(tickets) && OldestGroup(tickets, p, g) && OldestGroup(tickets, p, h) && g != []
    ensures |g| == |h| == p.teams >= 1 && g[..1] == h[..1]
  {
    SameHead(tickets, p, g, h);
    assert g[..1] == [g[0]] && h[..1] == [h[0]];
  }

  /** Two oldest groups agree up to any place. */
  lemma SameUpTo(tickets: seq<Ticket>, p: Policy, g: seq<Ticket>, h: seq<Ticket>, k: nat)
    requires DistinctIds(tickets) && OldestGroup(tickets, p, g) && OldestGroup(tickets, p, h) && g != [] && 1 <= k <= p.teams
    ensures |g| == |h| == p.teams && g[..k] == h[..k]
  {
    SameFirst(tickets, p, g, h);
    var n := 1;
    while n < k
      invariant 1 <= n <= k && |g| == |h| == p.teams && g[..n] == h[..n]
    {
      SameNext(tickets, p, g, h, n);
      OneMore(g, h, n);
      n := n + 1;
    }
  }

  /** MAIN RESULT. The batch of a queue with distinct ids is its oldest group, and nothing else is: the group of the
      longest waiting ticket that can head one, in the order of queue time and id, with nobody who fits passed
      over; and there is none exactly when no ticket can head a group. */
  lemma BatchIffOldest(tickets: seq<Ticket>, p: Policy, batch: seq<Ticket>, group: seq<Ticket>)
    requires IsBatch(tickets, p, batch) && DistinctIds(tickets)
    ensures OldestGroup(tickets, p, group) <==> group == batch
  {
    BatchIsOldest(tickets, p, batch);
    if OldestGroup(tickets, p, group) && p.Valid() {
      if group != [] {
        SameHead(tickets, p, group, batch);
        SameUpTo(tickets, p, group, batch, p.teams);
        assert group[..p.teams] == group && batch[..p.teams] == batch;
      } else if batch != [] {
        SameHead(tickets, p, batch, group);
      }
    }
  }
}
