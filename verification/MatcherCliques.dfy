/** When the members of a batch are compatible with each other, and not only with the first of them. */
module MatcherCliques {
  import opened Matcher
  import opened Ordering
  import Int64

  /** Each member accepts every other one. */
  predicate Mutual(batch: seq<Ticket>, p: Policy) {
    forall i, j :: 0 <= i < |batch| && 0 <= j < |batch| && i != j ==> Compatible(batch[i], batch[j], p)
  }

  /** Ratings are 64-bit numbers. */
  predicate Rated(tickets: seq<Ticket>) {
    forall i :: 0 <= i < |tickets| ==> Int64.InRange(tickets[i].rating)
  }

  /** How far the program finds two ratings apart; the subtraction and the negation can wrap. */
  function Distance(a: int, b: int): int { Abs64(Int64.Wrap(a - b)) }

  lemma WrapCases(x: int)
    requires -0x1_0000_0000_0000_0000 < x < 0x1_0000_0000_0000_0000
    ensures Int64.Wrap(x) == x || Int64.Wrap(x) == x - 0x1_0000_0000_0000_0000 || Int64.Wrap(x) == x + 0x1_0000_0000_0000_0000
  {}

  lemma DistanceFacts(a: int, b: int)
    requires Int64.InRange(a) && Int64.InRange(b)
    ensures Distance(a, b) == Distance(b, a) <= Int64.LARGEST
    ensures Distance(a, a) == 0
    ensures Distance(a, b) <= 0 ==> a == b || a == b + Int64.LARGEST + 1 || b == a + Int64.LARGEST + 1
    ensures a == b + Int64.LARGEST + 1 || b == a + Int64.LARGEST + 1 ==> Distance(a, b) <= 0
  {
    WrapCases(a - b);
    WrapCases(b - a);
  }

  /** Two ratings near a third are near each other if one of them is the third, if the window is zero (which
      also lets ratings half the range apart meet), or if it covers the range. */
  lemma NearSeedNearEachOther(s: int, a: int, b: int, window: int)
    requires Int64.InRange(s) && Int64.InRange(a) && Int64.InRange(b) && window >= 0
    requires (a == s || Distance(s, a) <= window) && (b == s || Distance(s, b) <= window)
    requires a == s || b == s || window == 0 || window >= Int64.LARGEST
    ensures Distance(a, b) <= window
  {
    DistanceFacts(s, a);
    DistanceFacts(s, b);
    DistanceFacts(a, b);
  }

  lemma FromDrop(ordered: seq<Ticket>, i: nat, t: Ticket)
    requires i <= |ordered| && t in ordered[i..]
    ensures t in ordered
  {}

  /** A batch is a seed with partners of it, taken from the queue. */
  lemma BatchAroundSeed(tickets: seq<Ticket>, p: Policy, batch: seq<Ticket>)
    requires IsBatch(tickets, p, batch) && batch != []
    ensures |batch| == p.teams && Seedable(batch[0], p)
    ensures forall k :: 1 <= k < |batch| ==> Compatible(batch[0], batch[k], p)
    ensures forall k :: 0 <= k < |batch| ==> batch[k] in tickets
  {
    var ordered := InQueueOrder(tickets);
    var i: nat :| EarliestFeasible(ordered, i, p) && batch == GroupAt(ordered, i, p);
    var partners := Partners(ordered[i], ordered[i + 1..], p);
    PartnersAreMembers(ordered[i], ordered[i + 1..], p);
    SortedMembers(Earlier, tickets);
    assert batch[0] == ordered[i];
    forall k | 1 <= k < |batch| ensures batch[k] in partners && batch[k] in ordered {
      assert batch[k] == partners[k - 1];
      FromDrop(ordered, i + 1, batch[k]);
    }
  }

  lemma MembersAgree(s: Ticket, a: Ticket, b: Ticket, p: Policy)
    requires Seedable(s, p) && (a == s || Compatible(s, a, p)) && (b == s || Compatible(s, b, p))
    ensures Compatible(a, b, p) <==> Distance(a.rating, b.rating) <= p.ratingWindow
  {}

  /** Where the seed's window relates any two of its partners, a batch is mutual. */
  lemma RelatedIsMutual(tickets: seq<Ticket>, p: Policy, batch: seq<Ticket>)
    requires IsBatch(tickets, p, batch) && Rated(tickets)
    requires p.teams <= 2 || p.ratingWindow == 0 || p.ratingWindow >= Int64.LARGEST
    ensures Mutual(batch, p)
  {
    if batch != [] {
      BatchAroundSeed(tickets, p, batch);
      forall i, j | 0 <= i < |batch| && 0 <= j < |batch| && i != j ensures Compatible(batch[i], batch[j], p) {
        assert batch[i] in tickets && batch[j] in tickets && batch[0] in tickets;
        PairIsMutual(batch[0], batch[i], batch[j], p, i, j);
      }
    }
  }

  lemma PairIsMutual(s: Ticket, a: Ticket, b: Ticket, p: Policy, i: nat, j: nat)
    requires Seedable(s, p) && p.Valid() && i != j && i < p.teams && j < p.teams
    requires (if i == 0 then a == s else Compatible(s, a, p)) && (if j == 0 then b == s else Compatible(s, b, p))
    requires Int64.InRange(s.rating) && Int64.InRange(a.rating) && Int64.InRange(b.rating)
    requires p.teams <= 2 || p.ratingWindow == 0 || p.ratingWindow >= Int64.LARGEST
    ensures Compatible(a, b, p)
  {
    NearSeedNearEachOther(s.rating, a.rating, b.rating, p.ratingWindow);
    MembersAgree(s, a, b, p);
  }

  /** A worker's snapshot carries no ratings, so all are equal, and then a batch is always mutual. */
  lemma EqualRatingsAreMutual(tickets: seq<Ticket>, p: Policy, batch: seq<Ticket>)
    requires IsBatch(tickets, p, batch) && EqualRatings(tickets)
    ensures Mutual(batch, p)
  {
    if batch != [] {
      BatchAroundSeed(tickets, p, batch);
      forall i, j | 0 <= i < |batch| && 0 <= j < |batch| && i != j ensures Compatible(batch[i], batch[j], p) {
        assert batch[i] in tickets && batch[j] in tickets && batch[i].rating == batch[j].rating;
        MembersAgree(batch[0], batch[i], batch[j], p);
      }
    }
  }

  // ---------------------------------------------------------------- a queue whose batch is not mutual

  ghost function SomeRegion(p: Policy): string {
    if p.allowedRegions == {} then "r" else var r: string :| r in p.allowedRegions; r
  }

  /** A name of this length. */
  function Name(length: nat): string { seq(length, _ => 'a') }

  /** Everybody fits the first ticket; the second is at the top of its window and the third below it. */
  ghost function SpreadTicket(p: Policy, k: nat): Ticket
    requires p.Valid()
  {
    Ticket(Name(k), "g", "e", seq(p.teamSize, i requires i >= 0 => Name(k * p.teamSize + i + 1)), "m", 1, "b", SomeRegion(p), 1,
           if k == 1 then p.ratingWindow else if k == 2 then -1 else 0, k)
  }

  ghost function Spread(p: Policy): seq<Ticket>
    requires p.Valid()
  {
    seq(p.teams, k requires 0 <= k < p.teams => SpreadTicket(p, k))
  }

  lemma {:induction false} AllPartners(seed: Ticket, rest: seq<Ticket>, p: Policy)
    requires forall k :: 0 <= k < |rest| ==> Compatible(seed, rest[k], p)
    ensures Partners(seed, rest, p) == rest
  {
    if rest != [] {
      AllPartners(seed, rest[..|rest| - 1], p);
    }
  }

  lemma SpreadFits(p: Policy, k: nat)
    requires p.Valid() && 0 < p.ratingWindow < Int64.LARGEST
    ensures Seedable(SpreadTicket(p, 0), p) && Compatible(SpreadTicket(p, 0), SpreadTicket(p, k), p)
    ensures Int64.InRange(SpreadTicket(p, k).rating)
    ensures !Compatible(SpreadTicket(p, 1), SpreadTicket(p, 2), p)
  {}

  lemma SpreadFitsAll(p: Policy)
    requires p.Valid() && 0 < p.ratingWindow < Int64.LARGEST
    ensures Rated(Spread(p)) && Seedable(Spread(p)[0], p)
    ensures Partners(Spread(p)[0], Spread(p)[1..], p) == Spread(p)[1..]
  {
    var q := Spread(p);
    forall k: nat | k < |q| ensures Compatible(q[0], q[k], p) && Int64.InRange(q[k].rating) && Seedable(q[0], p) {
      SpreadFits(p, k);
    }
    AllPartners(q[0], q[1..], p);
  }

  lemma SpreadIsBatch(p: Policy)
    requires p.Valid() && 0 < p.ratingWindow < Int64.LARGEST
    ensures IsBatch(Spread(p), p, Spread(p)) && Rated(Spread(p)) && DistinctIds(Spread(p))
  {
    var q := Spread(p);
    forall i, j | 0 <= i < j < |q| ensures q[i].id != q[j].id { assert |q[i].id| == i && |q[j].id| == j; }
    SpreadFitsAll(p);
    SpreadInOrder(p);
    FirstIsBatch(q, p);
  }

  lemma SpreadInOrder(p: Policy)
    requires p.Valid()
    ensures InQueueOrder(Spread(p)) == Spread(p)
  {
    var q := Spread(p);
    assert forall i, j :: 0 <= i < j < |q| ==> q[i].queuedAt < q[j].queuedAt;
    SortedFixed(Earlier, q);
  }

  /** A queue that is one group around its first ticket is its own batch. */
  lemma FirstIsBatch(q: seq<Ticket>, p: Policy)
    requires p.Valid() && |q| == p.teams && InQueueOrder(q) == q && Seedable(q[0], p) && Partners(q[0], q[1..], p) == q[1..]
    ensures IsBatch(q, p, q)
  {
    assert Feasible(q, 0, p) && EarliestFeasible(q, 0, p);
    assert GroupAt(q, 0, p) == [q[0]] + q[1..][..p.teams - 1] == q;
  }

  /** Every batch of every queue the ticket table can hold is mutual. */
  ghost predicate BatchesAreMutual(p: Policy) {
    forall tickets, batch :: DistinctIds(tickets) && Rated(tickets) && IsBatch(tickets, p, batch) ==> Mutual(batch, p)
  }

  /** MAIN RESULT. Only the seed is compared with the others. So every batch of every queue is a group of
      mutually compatible tickets exactly when a match has at most two teams, or the rating window is zero,
      or it covers the whole range; otherwise some queue gives a batch with two members too far apart. */
  lemma MutualIff(p: Policy)
    requires p.Valid()
    ensures BatchesAreMutual(p) <==> p.teams <= 2 || p.ratingWindow == 0 || p.ratingWindow >= Int64.LARGEST
  {
    if p.teams <= 2 || p.ratingWindow == 0 || p.ratingWindow >= Int64.LARGEST {
      forall tickets, batch | Rated(tickets) && IsBatch(tickets, p, batch) ensures Mutual(batch, p) {
        RelatedIsMutual(tickets, p, batch);
      }
    } else {
      SpreadIsBatch(p);
      SpreadFits(p, 0);
      assert !Compatible(Spread(p)[1], Spread(p)[2], p);
    }
  }
}
