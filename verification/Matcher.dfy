/** The deterministic greedy matcher: which tickets of a queue snapshot form the next match. */
module Matcher {
  import opened Ordering
  import Int64

  /** A queue snapshot entry; free-form properties play no part in matching and are left out. */
  datatype Ticket = Ticket(id: string, gameId: string, environment: string, playerIds: seq<string>, modeId: string,
                           definitionRevision: int, build: string, region: string, capacity: int,
                           rating: int, queuedAt: int)

  datatype Policy = Policy(teamSize: int, teams: int, ratingWindow: int, allowedRegions: set<string>) {
    predicate Valid() { teamSize > 0 && teams > 0 && ratingWindow >= 0 }
  }

  function Abs64(v: int): int { if v < 0 then Int64.Wrap(-v) else v }

  predicate CompatibleRegion(t: Ticket, p: Policy) {
    if p.allowedRegions == {} then t.region != "" else t.region in p.allowedRegions
  }

  predicate Compatible(a: Ticket, b: Ticket, p: Policy) {
    && a.modeId == b.modeId && a.definitionRevision == b.definitionRevision && a.build == b.build
    && a.capacity == b.capacity && CompatibleRegion(a, p) && CompatibleRegion(b, p)
    && Abs64(Int64.Wrap(a.rating - b.rating)) <= p.ratingWindow && |b.playerIds| == p.teamSize
  }

  predicate Seedable(t: Ticket, p: Policy) {
    CompatibleRegion(t, p) && |t.playerIds| == p.teamSize
  }

  predicate Earlier(a: Ticket, b: Ticket) {
    if a.queuedAt != b.queuedAt then a.queuedAt < b.queuedAt else StringLess(a.id, b.id)
  }

  function InQueueOrder(tickets: seq<Ticket>): (r: seq<Ticket>)
    ensures |r| == |tickets|
  {
    Sorted(Earlier, tickets)
  }

  /** The tickets of `rest` that `seed` accepts, in order. */
  function Partners(seed: Ticket, rest: seq<Ticket>, p: Policy): (r: seq<Ticket>)
    ensures |r| <= |rest|
  {
    if rest == [] then []
    else
      var n := |rest| - 1;
      Partners(seed, rest[..n], p) + (if Compatible(seed, rest[n], p) then [rest[n]] else [])
  }

  /** The ticket at `i` can head a full group of itself and later tickets. */
  predicate Feasible(ordered: seq<Ticket>, i: nat, p: Policy) {
    i < |ordered| && Seedable(ordered[i], p) && |Partners(ordered[i], ordered[i + 1..], p)| >= p.teams - 1
  }

  /** The seed at `i` followed by the first compatible later tickets. */
  function GroupAt(ordered: seq<Ticket>, i: nat, p: Policy): (r: seq<Ticket>)
    requires p.Valid() && Feasible(ordered, i, p)
    ensures |r| == p.teams
  {
    [ordered[i]] + Partners(ordered[i], ordered[i + 1..], p)[..p.teams - 1]
  }

  /** What `Batch` promises: the group of the earliest feasible seed, or nothing. */
  ghost predicate IsBatch(tickets: seq<Ticket>, p: Policy, batch: seq<Ticket>) {
    if batch == [] then
      p.Valid() ==> forall i: nat :: !Feasible(InQueueOrder(tickets), i, p)
    else
      && p.Valid()
      && exists i: nat :: EarliestFeasible(InQueueOrder(tickets), i, p) && batch == GroupAt(InQueueOrder(tickets), i, p)
  }

  ghost predicate EarliestFeasible(ordered: seq<Ticket>, i: nat, p: Policy) {
    Feasible(ordered, i, p) && forall j: nat :: j < i ==> !Feasible(ordered, j, p)
  }

  lemma {:induction false} PartnersGrow(seed: Ticket, rest: seq<Ticket>, p: Policy, k: nat)
    requires k <= |rest|
    ensures |Partners(seed, rest[..k], p)| <= |Partners(seed, rest, p)|
    ensures Partners(seed, rest, p)[..|Partners(seed, rest[..k], p)|] == Partners(seed, rest[..k], p)
  {
    if k < |rest| {
      PartnersGrow(seed, rest[..|rest| - 1], p, k);
      assert rest[..|rest| - 1][..k] == rest[..k];
    } else {
      assert rest[..k] == rest;
    }
  }

  function Group(seed: Ticket, rest: seq<Ticket>, p: Policy): seq<Ticket>
    requires p.Valid()
  {
    var partners := Partners(seed, rest, p);
    [seed] + (if |partners| < p.teams then partners else partners[..p.teams - 1])
  }

  /** The inner loop: collects compatible candidates until the group is full. */
  method Gather(seed: Ticket, rest: seq<Ticket>, policy: Policy) returns (batch: seq<Ticket>)
    requires policy.Valid()
    ensures batch == Group(seed, rest, policy)
  {
    batch := [seed];
    var k := 0;
    while k < |rest| && |batch| < policy.teams
      invariant 0 <= k <= |rest|
      invariant batch == [seed] + Partners(seed, rest[..k], policy) && |batch| <= policy.teams
    {
      if Compatible(seed, rest[k], policy) {
        batch := batch + [rest[k]];
      }
      assert rest[..k + 1][..k] == rest[..k];
      k := k + 1;
    }
    PartnersGrow(seed, rest, policy, k);
    assert k == |rest| ==> rest[..k] == rest;
  }

  lemma GroupFull(ordered: seq<Ticket>, i: nat, p: Policy)
    requires p.Valid() && i < |ordered| && Seedable(ordered[i], p)
    ensures |Group(ordered[i], ordered[i + 1..], p)| == p.teams <==> Feasible(ordered, i, p)
    ensures Feasible(ordered, i, p) ==> Group(ordered[i], ordered[i + 1..], p) == GroupAt(ordered, i, p)
  {
    var partners := Partners(ordered[i], ordered[i + 1..], p);
    if |partners| == p.teams - 1 {
      assert partners[..p.teams - 1] == partners;
    }
  }

  lemma TooFew(tickets: seq<Ticket>, p: Policy)
    requires !p.Valid() || |tickets| < p.teams
    ensures IsBatch(tickets, p, [])
  {
    var ordered := InQueueOrder(tickets);
    forall i: nat | p.Valid() ensures !Feasible(ordered, i, p) {
      if i < |ordered| {
        assert |Partners(ordered[i], ordered[i + 1..], p)| <= |ordered| - i - 1;
      }
    }
  }

  /** Sorts a copy, so that the input stays as it is. */
  method OrderQueue(tickets: seq<Ticket>) returns (ordered: seq<Ticket>)
    ensures ordered == InQueueOrder(tickets)
  {
    var copy := new Ticket[|tickets|](i requires 0 <= i < |tickets| => tickets[i]);
    assert copy[..] == tickets;
    SortInPlace(Earlier, copy);
    ordered := copy[..];
  }

  /** One turn of the outer loop: the full group around a seed, or nothing. */
  method TrySeed(ordered: seq<Ticket>, i: nat, policy: Policy) returns (batch: seq<Ticket>)
    requires policy.Valid() && i < |ordered|
    ensures if Feasible(ordered, i, policy) then batch == GroupAt(ordered, i, policy) else batch == []
  {
    if !CompatibleRegion(ordered[i], policy) || |ordered[i].playerIds| != policy.teamSize { return []; }
    batch := Gather(ordered[i], ordered[i + 1..], policy);
    GroupFull(ordered, i, policy);
    if |batch| != policy.teams { return []; }
  }

  /** The outer loop: the group of the earliest feasible seed. */
  method FirstGroup(ordered: seq<Ticket>, policy: Policy) returns (batch: seq<Ticket>)
    requires policy.Valid()
    ensures batch == [] ==> forall i: nat :: !Feasible(ordered, i, policy)
    ensures batch != [] ==> exists i: nat :: EarliestFeasible(ordered, i, policy) && batch == GroupAt(ordered, i, policy)
  {
    var i := 0;
    while i < |ordered|
      invariant 0 <= i <= |ordered|
      invariant forall j: nat :: j < i ==> !Feasible(ordered, j, policy)
    {
      batch := TrySeed(ordered, i, policy);
      if batch != [] {
        assert EarliestFeasible(ordered, i, policy);
        return;
      }
      i := i + 1;
    }
    batch := [];
  }

  /** The matcher: sorts a copy of the tickets, then tries each in turn as the seed of a group. */
  method Batch(tickets: seq<Ticket>, policy: Policy) returns (batch: seq<Ticket>)
    ensures IsBatch(tickets, policy, batch)
  {
    if !policy.Valid() || |tickets| < policy.teams {
      TooFew(tickets, policy);
      return [];
    }
    var ordered := OrderQueue(tickets);
    batch := FirstGroup(ordered, policy);
  }

  // ---------------------------------------------------------------- determinism

  lemma EarlierIsWeak()
    ensures WeakOrder(Earlier)
  {
    StringOrderIsWeak();
  }

  predicate DistinctIds(tickets: seq<Ticket>) {
    forall i, j :: 0 <= i < j < |tickets| ==> tickets[i].id != tickets[j].id
  }

  lemma BatchUnique(tickets: seq<Ticket>, p: Policy, a: seq<Ticket>, b: seq<Ticket>)
    requires IsBatch(tickets, p, a) && IsBatch(tickets, p, b)
    ensures a == b
  {
    var ordered := InQueueOrder(tickets);
    if a != [] && b != [] {
      var i: nat :| EarliestFeasible(ordered, i, p) && a == GroupAt(ordered, i, p);
      var j: nat :| EarliestFeasible(ordered, j, p) && b == GroupAt(ordered, j, p);
      assert i == j;
    }
  }

  lemma QueueOrderIndependent(tickets: seq<Ticket>, shuffled: seq<Ticket>)
    requires multiset(tickets) == multiset(shuffled) && DistinctIds(tickets)
    ensures InQueueOrder(tickets) == InQueueOrder(shuffled)
  {
    EarlierIsWeak();
    forall x, y | x in tickets && y in tickets ensures x == y || Earlier(x, y) || Earlier(y, x) {
      StringLessTotal(x.id, y.id);
    }
    SortedUnique(Earlier, tickets, shuffled);
  }

  /** MAIN RESULT. With distinct ids, the order in which the tickets are handed over does not matter. */
  lemma BatchOrderIndependent(tickets: seq<Ticket>, shuffled: seq<Ticket>, p: Policy, a: seq<Ticket>, b: seq<Ticket>)
    requires multiset(tickets) == multiset(shuffled) && DistinctIds(tickets)
    requires IsBatch(tickets, p, a) && IsBatch(shuffled, p, b)
    ensures a == b
  {
    QueueOrderIndependent(tickets, shuffled);
    BatchUnique(tickets, p, a, b);
  }

  // ---------------------------------------------------------------- completeness

  /** Positions of `count` distinct tickets, in increasing order. */
  predicate Positions(ordered: seq<Ticket>, at: seq<nat>) {
    && (forall k :: 0 <= k < |at| ==> at[k] < |ordered|)
    && (forall k, m :: 0 <= k < m < |at| ==> at[k] < at[m])
  }

  /** Tickets that could all play together: each may head the group and accepts every other one. */
  predicate Clique(ordered: seq<Ticket>, at: seq<nat>, p: Policy)
    requires Positions(ordered, at)
  {
    && (forall k :: 0 <= k < |at| ==> Seedable(ordered[at[k]], p))
    && (forall k, m :: 0 <= k < m < |at| ==> Compatible(ordered[at[k]], ordered[at[m]], p))
  }

  lemma {:induction false} PartnersAtLeast(seed: Ticket, rest: seq<Ticket>, p: Policy, at: seq<nat>)
    requires Positions(rest, at) && forall k :: 0 <= k < |at| ==> Compatible(seed, rest[at[k]], p)
    ensures |Partners(seed, rest, p)| >= |at|
  {
    if rest != [] {
      var n := |rest| - 1;
      if at != [] && at[|at| - 1] == n {
        PartnersAtLeast(seed, rest[..n], p, at[..|at| - 1]);
      } else {
        forall k | 0 <= k < |at| ensures at[k] < n {
          assert at[k] <= at[|at| - 1];
        }
        PartnersAtLeast(seed, rest[..n], p, at);
      }
    }
  }

  lemma CliqueHeadFeasible(ordered: seq<Ticket>, at: seq<nat>, p: Policy)
    requires p.Valid() && Positions(ordered, at) && Clique(ordered, at, p) && |at| == p.teams
    ensures Feasible(ordered, at[0], p)
  {
    var first := at[0];
    var rest := ordered[first + 1..];
    forall k | 1 <= k < |at| ensures first < at[k] < |ordered| {}
    var others: seq<nat> := seq(p.teams - 1, k requires 0 <= k < p.teams - 1 => at[k + 1] - first - 1);
    forall k | 0 <= k < |others| ensures others[k] < |rest| && rest[others[k]] == ordered[at[k + 1]] {}
    PartnersAtLeast(ordered[first], rest, p, others);
  }

  /** MAIN RESULT. A queue holding a full group of mutually compatible tickets is never left unmatched. */
  lemma BatchFindsCliques(tickets: seq<Ticket>, p: Policy, at: seq<nat>, batch: seq<Ticket>)
    requires p.Valid() && IsBatch(tickets, p, batch)
    requires Positions(InQueueOrder(tickets), at) && Clique(InQueueOrder(tickets), at, p) && |at| == p.teams
    ensures |batch| == p.teams
  {
    CliqueHeadFeasible(InQueueOrder(tickets), at, p);
  }

  /** Members of the queue's class of `t`: seedable tickets agreeing with `t` on mode, revision, build and capacity. */
  function ClassOf(tickets: seq<Ticket>, t: Ticket, p: Policy): seq<Ticket> {
    if tickets == [] then []
    else
      var n := |tickets| - 1;
      ClassOf(tickets[..n], t, p) + (if SameClass(tickets[n], t) && Seedable(tickets[n], p) then [tickets[n]] else [])
  }

  predicate SameClass(a: Ticket, b: Ticket) {
    a.modeId == b.modeId && a.definitionRevision == b.definitionRevision && a.build == b.build && a.capacity == b.capacity
  }

  predicate EqualRatings(tickets: seq<Ticket>) {
    forall i, j :: 0 <= i < |tickets| && 0 <= j < |tickets| ==> tickets[i].rating == tickets[j].rating
  }

  lemma {:induction false} ClassOfIsPartners(seed: Ticket, rest: seq<Ticket>, p: Policy)
    requires p.Valid() && Seedable(seed, p) && EqualRatings([seed] + rest)
    ensures Partners(seed, rest, p) == ClassOf(rest, seed, p)
  {
    if rest != [] {
      var n := |rest| - 1;
      assert ([seed] + rest)[n + 1] == rest[n] && ([seed] + rest)[0] == seed;
      assert forall i :: 0 <= i < n + 1 ==> ([seed] + rest[..n])[i] == ([seed] + rest)[i];
      ClassOfIsPartners(seed, rest[..n], p);
    }
  }

  lemma {:induction false} ClassOfConcat(a: seq<Ticket>, b: seq<Ticket>, t: Ticket, p: Policy)
    ensures ClassOf(a + b, t, p) == ClassOf(a, t, p) + ClassOf(b, t, p)
  {
    if b == [] {
      assert a + b == a;
    } else {
      var n := |b| - 1;
      ClassOfConcat(a, b[..n], t, p);
      assert (a + b)[..|a| + n] == a + b[..n];
    }
  }

  /** The class of `t` in queue order, from its first member on. */
  lemma {:induction false} FirstOfClass(ordered: seq<Ticket>, t: Ticket, p: Policy) returns (i: nat)
    requires ClassOf(ordered, t, p) != []
    ensures i < |ordered| && SameClass(ordered[i], t) && Seedable(ordered[i], p) && ClassOf(ordered[..i], t, p) == []
  {
    var n := |ordered| - 1;
    if ClassOf(ordered[..n], t, p) == [] {
      i := n;
    } else {
      i := FirstOfClass(ordered[..n], t, p);
      assert ordered[..n][..i] == ordered[..i];
    }
  }

  lemma {:induction false} SameClassSameMembers(tickets: seq<Ticket>, a: Ticket, b: Ticket, p: Policy)
    requires SameClass(a, b)
    ensures ClassOf(tickets, a, p) == ClassOf(tickets, b, p)
  {
    if tickets != [] {
      SameClassSameMembers(tickets[..|tickets| - 1], a, b, p);
    }
  }

  function InClass(x: Ticket, t: Ticket, p: Policy): nat { if SameClass(x, t) && Seedable(x, p) then 1 else 0 }

  lemma ClassWithout(b: seq<Ticket>, k: nat, t: Ticket, p: Policy)
    requires k < |b|
    ensures |ClassOf(b, t, p)| == |ClassOf(b[..k] + b[k + 1..], t, p)| + InClass(b[k], t, p)
  {
    assert b == b[..k] + [b[k]] + b[k + 1..];
    ClassOfConcat(b[..k], [b[k]], t, p);
    ClassOfConcat(b[..k] + [b[k]], b[k + 1..], t, p);
    ClassOfConcat(b[..k], b[k + 1..], t, p);
    assert [b[k]][..0] == [];
  }

  lemma MultisetWithout(b: seq<Ticket>, k: nat)
    requires k < |b|
    ensures multiset(b[..k] + b[k + 1..]) == multiset(b) - multiset{b[k]}
  {
    assert b == b[..k] + [b[k]] + b[k + 1..];
  }

  lemma {:induction false} ClassSizePermutes(a: seq<Ticket>, b: seq<Ticket>, t: Ticket, p: Policy)
    requires multiset(a) == multiset(b)
    ensures |ClassOf(a, t, p)| == |ClassOf(b, t, p)|
  {
    if a == [] {
      assert |multiset(b)| == |b|;
    } else {
      var n := |a| - 1;
      assert a == a[..n] + [a[n]];
      assert a[n] in multiset(b);
      var k :| 0 <= k < |b| && b[k] == a[n];
      MultisetWithout(b, k);
      ClassWithout(b, k, t, p);
      assert multiset(a[..n]) == multiset(a) - multiset{a[n]};
      ClassSizePermutes(a[..n], b[..k] + b[k + 1..], t, p);
    }
  }

  /** MAIN RESULT. When all ratings are equal, as in every snapshot the worker reads, the matcher gives
      up exactly when no class of interchangeable tickets has enough members for a match. */
  lemma NilIffNoFullClass(tickets: seq<Ticket>, p: Policy, batch: seq<Ticket>)
    requires p.Valid() && IsBatch(tickets, p, batch) && EqualRatings(tickets)
    ensures batch == [] <==> forall t: Ticket :: |ClassOf(tickets, t, p)| < p.teams
  {
    var ordered := InQueueOrder(tickets);
    SortedPermutes(Earlier, tickets);
    RatingsPermute(tickets, ordered);
    if batch == [] {
      forall t: Ticket ensures |ClassOf(tickets, t, p)| < p.teams {
        ClassSizePermutes(tickets, ordered, t, p);
        if |ClassOf(ordered, t, p)| >= p.teams {
          var i := FirstOfClass(ordered, t, p);
          SeedFromClass(ordered, i, t, p);
        }
      }
    } else {
      var i: nat :| EarliestFeasible(ordered, i, p) && batch == GroupAt(ordered, i, p);
      FeasibleClass(ordered, i, p);
      ClassSizePermutes(tickets, ordered, ordered[i], p);
    }
  }

  lemma RatingsPermute(a: seq<Ticket>, b: seq<Ticket>)
    requires multiset(a) == multiset(b) && EqualRatings(a)
    ensures EqualRatings(b)
  {
    forall i, j | 0 <= i < |b| && 0 <= j < |b| ensures b[i].rating == b[j].rating {
      assert b[i] in multiset(a) && b[j] in multiset(a);
      assert b[i] in a && b[j] in a;
    }
  }

  lemma SplitAt(ordered: seq<Ticket>, i: nat, t: Ticket, p: Policy)
    requires i < |ordered| && SameClass(ordered[i], t) && Seedable(ordered[i], p)
    ensures ClassOf(ordered, t, p) == ClassOf(ordered[..i], t, p) + [ordered[i]] + ClassOf(ordered[i + 1..], t, p)
  {
    assert [ordered[i]][..0] == [];
    assert ClassOf([ordered[i]], t, p) == [ordered[i]];
    assert ordered == ordered[..i] + [ordered[i]] + ordered[i + 1..];
    ClassOfConcat(ordered[..i], [ordered[i]], t, p);
    ClassOfConcat(ordered[..i] + [ordered[i]], ordered[i + 1..], t, p);
  }

  lemma SeedFromClass(ordered: seq<Ticket>, i: nat, t: Ticket, p: Policy)
    requires p.Valid() && EqualRatings(ordered) && i < |ordered| && SameClass(ordered[i], t) && Seedable(ordered[i], p)
    requires ClassOf(ordered[..i], t, p) == [] && |ClassOf(ordered, t, p)| >= p.teams
    ensures Feasible(ordered, i, p)
  {
    SplitAt(ordered, i, t, p);
    SameClassSameMembers(ordered[i + 1..], ordered[i], t, p);
    ClassOfIsPartners(ordered[i], ordered[i + 1..], p);
  }

  lemma FeasibleClass(ordered: seq<Ticket>, i: nat, p: Policy)
    requires p.Valid() && EqualRatings(ordered) && Feasible(ordered, i, p)
    ensures |ClassOf(ordered, ordered[i], p)| >= p.teams
  {
    var t := ordered[i];
    SplitAt(ordered, i, t, p);
    ClassOfIsPartners(t, ordered[i + 1..], p);
  }

  // ---------------------------------------------------------------- what a batch consists of

  lemma {:induction false} PartnersAreMembers(seed: Ticket, rest: seq<Ticket>, p: Policy)
    ensures forall t :: t in Partners(seed, rest, p) ==> t in rest && Compatible(seed, t, p)
    ensures DistinctIds(rest) ==> DistinctIds(Partners(seed, rest, p))
  {
    if rest != [] {
      var n := |rest| - 1;
      PartnersAreMembers(seed, rest[..n], p);
      if DistinctIds(rest) {
        forall t | t in rest[..n] ensures t.id != rest[n].id {
          var i :| 0 <= i < n && rest[..n][i] == t;
          assert rest[i].id != rest[n].id;
        }
      }
    }
  }

  lemma DistinctIdsPermute(a: seq<Ticket>, b: seq<Ticket>)
    requires multiset(a) == multiset(b) && DistinctIds(a)
    ensures DistinctIds(b)
  {
    forall i, j | 0 <= i < j < |b| ensures b[i].id != b[j].id {
      if b[i].id == b[j].id {
        assert b[i] in multiset(a) && b[j] in multiset(a);
        var x :| 0 <= x < |a| && a[x] == b[i];
        var y :| 0 <= y < |a| && a[y] == b[j];
        assert x == y;
        OccursTwice(b, i, j);
        OccursOnce(a, x);
      }
    }
  }

  lemma OccursTwice(s: seq<Ticket>, i: nat, j: nat)
    requires i < j < |s| && s[i] == s[j]
    ensures multiset(s)[s[i]] >= 2
  {
    assert s == s[..i] + [s[i]] + s[i + 1..j] + [s[j]] + s[j + 1..];
  }

  lemma OccursOnce(s: seq<Ticket>, i: nat)
    requires i < |s| && DistinctIds(s)
    ensures multiset(s)[s[i]] == 1
  {
    assert s == s[..i] + [s[i]] + s[i + 1..];
    assert s[i] !in s[..i] && s[i] !in s[i + 1..];
    assert s[i] !in multiset(s[..i]) && s[i] !in multiset(s[i + 1..]);
  }

  lemma GroupIds(ordered: seq<Ticket>, i: nat, p: Policy)
    requires p.Valid() && Feasible(ordered, i, p) && DistinctIds(ordered)
    ensures DistinctIds(GroupAt(ordered, i, p))
    ensures forall t :: t in GroupAt(ordered, i, p) ==> t in ordered && |t.playerIds| == p.teamSize && SameClass(t, ordered[i])
  {
    var rest := ordered[i + 1..];
    var partners := Partners(ordered[i], rest, p);
    PartnersAreMembers(ordered[i], rest, p);
    forall t | t in partners ensures t.id != ordered[i].id && t in ordered {
      var k :| 0 <= k < |rest| && rest[k] == t;
      assert ordered[i + 1 + k] == t;
    }
    var batch := GroupAt(ordered, i, p);
    forall k | 1 <= k < |batch| ensures batch[k] == partners[k - 1] {}
    forall t | t in batch ensures t in ordered && |t.playerIds| == p.teamSize && SameClass(t, ordered[i]) {
      assert t == ordered[i] || t in partners;
    }
  }

  /** A non-empty batch is a full group of snapshot tickets, each of team size, with distinct ids. */
  lemma BatchMembers(tickets: seq<Ticket>, p: Policy, batch: seq<Ticket>)
    requires IsBatch(tickets, p, batch) && batch != [] && DistinctIds(tickets)
    ensures |batch| == p.teams && DistinctIds(batch)
    ensures forall t :: t in batch ==> t in tickets && |t.playerIds| == p.teamSize && SameClass(t, batch[0])
  {
    var ordered := InQueueOrder(tickets);
    var i: nat :| EarliestFeasible(ordered, i, p) && batch == GroupAt(ordered, i, p);
    SortedPermutes(Earlier, tickets);
    DistinctIdsPermute(tickets, ordered);
    GroupIds(ordered, i, p);
    forall t | t in batch ensures t in tickets {
      assert t in multiset(ordered);
      assert t in multiset(tickets);
    }
  }
}
