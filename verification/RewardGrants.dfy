/** Exactly when the grants of a claimed reward can all be paid. */
module RewardGrants {
  import opened Commands
  import opened CommandArguments
  import opened CommandEffects
  import opened Economy
  import BalanceBounds
  import Conservation
  import Int64
  import Roster

  /** How many of the first `n` grants are of this item. */
  function Times(grants: seq<Grant>, n: nat, item: string): nat
    requires n <= |grants|
  {
    if n == 0 then 0 else Times(grants, n - 1, item) + if grants[n - 1].currency == "" && grants[n - 1].item == item then 1 else 0
  }

  function Version(t: Tables, player: string, item: string): int { if (player, item) in t.stacks then t.stacks[(player, item)].version else 0 }

  /** Grant `i`, after those before it: a currency has to take the amount, with a ledger transaction of its own number;
      an item has to take the quantity. */
  predicate Pays(t: Tables, request: string, player: string, grants: seq<Grant>, i: nat)
    requires i < |grants|
  {
    var g := grants[i];
    if g.currency != "" then
      && g.amount >= 1 && Storable(Balance(t, player, g.currency) + Conservation.Paid(grants, i + 1, g.currency))
      && request + ":reward:" + Roster.Itoa(i) !in t.transactions
    else
      g.item != "" ==>
        Storable(Quantity(t, player, g.item) + Conservation.Given(grants, i + 1, g.item)) && Storable(Version(t, player, g.item) + Times(grants, i + 1, g.item))
  }

  lemma {:induction false} ItoaInjective(m: nat, n: nat)
    requires Roster.Itoa(m) == Roster.Itoa(n)
    ensures m == n
  {
    Roster.ItoaDigits(m);
    Roster.ItoaDigits(n);
  }

  lemma RequestsDiffer(request: string, m: nat, n: nat)
    requires m != n
    ensures request + ":reward:" + Roster.Itoa(m) != request + ":reward:" + Roster.Itoa(n)
  {
    var head := request + ":reward:";
    if head + Roster.Itoa(m) == head + Roster.Itoa(n) {
      assert (head + Roster.Itoa(m))[|head|..] == Roster.Itoa(m) && (head + Roster.Itoa(n))[|head|..] == Roster.Itoa(n);
      ItoaInjective(m, n);
      assert false;
    }
  }

  /** The ledger transactions of the first `n` grants. */
  function Booked(request: string, grants: seq<Grant>, n: nat): set<string>
    requires n <= |grants|
  {
    set i | 0 <= i < n && grants[i].currency != "" :: request + ":reward:" + Roster.Itoa(i)
  }

  ghost predicate MoneyAt(t: Tables, t': Tables, player: string, grants: seq<Grant>, n: nat)
    requires n <= |grants|
  {
    forall c :: c != "" ==> Balance(t', player, c) == Balance(t, player, c) + Conservation.Paid(grants, n, c)
  }

  ghost predicate ItemsAt(t: Tables, t': Tables, player: string, grants: seq<Grant>, n: nat)
    requires n <= |grants|
  {
    forall i :: i != "" ==>
      && Quantity(t', player, i) == Quantity(t, player, i) + Conservation.Given(grants, n, i)
      && Version(t', player, i) == Version(t, player, i) + Times(grants, n, i)
  }

  /** Where the first `n` grants leave the player. */
  ghost predicate Leaves(t: Tables, t': Tables, request: string, player: string, grants: seq<Grant>, n: nat)
    requires n <= |grants|
  {
    MoneyAt(t, t', player, grants, n) && ItemsAt(t, t', player, grants, n)
    && t'.transactions.Keys == t.transactions.Keys + Booked(request, grants, n)
  }

  lemma NotBooked(request: string, grants: seq<Grant>, n: nat)
    requires n <= |grants|
    ensures request + ":reward:" + Roster.Itoa(n) !in Booked(request, grants, n)
  {
    forall i: nat | i < n ensures request + ":reward:" + Roster.Itoa(i) != request + ":reward:" + Roster.Itoa(n) {
      RequestsDiffer(request, i, n);
    }
  }

  /** One currency grant more. */
  lemma MoneyNext(t: Tables, t1: Tables, request: string, player: string, grants: seq<Grant>, n: nat)
    requires n < |grants| && grants[n].currency != "" && Leaves(t, t1, request, player, grants, n)
    ensures var s := GrantOne(t1, request, player, grants[n], n);
            && (s.Success? <==> Pays(t, request, player, grants, n))
            && (s.Success? ==> Leaves(t, s.tables, request, player, grants, n + 1))
  {
    NotBooked(request, grants, n);
    MoneyRows(t1, request, player, grants[n], n);
    var id, s := request + ":reward:" + Roster.Itoa(n), GrantOne(t1, request, player, grants[n], n);
    assert id in t1.transactions.Keys <==> id in t.transactions.Keys;
    if s.Success? { MoneyLeaves(t, t1, s.tables, request, player, grants, n); }
  }

  lemma MoneyLeaves(t: Tables, t1: Tables, t2: Tables, request: string, player: string, grants: seq<Grant>, n: nat)
    requires n < |grants| && grants[n].currency != "" && Leaves(t, t1, request, player, grants, n)
    requires t2.stacks == t1.stacks && t2.transactions.Keys == t1.transactions.Keys + {request + ":reward:" + Roster.Itoa(n)}
    requires forall c :: Balance(t2, player, c) == Balance(t1, player, c) + if c == grants[n].currency then grants[n].amount else 0
    ensures Leaves(t, t2, request, player, grants, n + 1)
  {
    BookedNext(request, grants, n);
    ItemsStay(t, t1, t2, player, grants, n);
    forall c | c != "" ensures Balance(t2, player, c) == Balance(t, player, c) + Conservation.Paid(grants, n + 1, c) {}
  }

  lemma ItemsStay(t: Tables, t1: Tables, t2: Tables, player: string, grants: seq<Grant>, n: nat)
    requires n < |grants| && grants[n].currency != "" && t2.stacks == t1.stacks && ItemsAt(t, t1, player, grants, n)
    ensures ItemsAt(t, t2, player, grants, n + 1)
  {
    forall i | i != ""
      ensures Quantity(t2, player, i) == Quantity(t, player, i) + Conservation.Given(grants, n + 1, i)
              && Version(t2, player, i) == Version(t, player, i) + Times(grants, n + 1, i)
    {
      assert Quantity(t2, player, i) == Quantity(t1, player, i) && Version(t2, player, i) == Version(t1, player, i);
    }
  }

  lemma BookedNext(request: string, grants: seq<Grant>, n: nat)
    requires n < |grants| && grants[n].currency != ""
    ensures Booked(request, grants, n + 1) == Booked(request, grants, n) + {request + ":reward:" + Roster.Itoa(n)}
  {}

  lemma MoneyRows(t: Tables, request: string, player: string, g: Grant, n: nat)
    requires g.currency != ""
    ensures var s, id := GrantOne(t, request, player, g, n), request + ":reward:" + Roster.Itoa(n);
            && (s.Success? <==> g.amount >= 1 && Storable(Balance(t, player, g.currency) + g.amount) && id !in t.transactions)
            && (s.Success? ==>
                  && s.tables.stacks == t.stacks && s.tables.transactions.Keys == t.transactions.Keys + {id}
                  && forall c :: Balance(s.tables, player, c) == Balance(t, player, c) + if c == g.currency then g.amount else 0)
  {}

  lemma ItemRows(t: Tables, request: string, player: string, g: Grant, n: nat)
    requires g.currency == "" && g.item != ""
    ensures var s := GrantOne(t, request, player, g, n);
            && (s.Success? <==> Storable(Quantity(t, player, g.item) + g.quantity) && Storable(Version(t, player, g.item) + 1))
            && (s.Success? ==>
                  && s.tables.wallets == t.wallets && s.tables.transactions == t.transactions
                  && (forall i :: Quantity(s.tables, player, i) == Quantity(t, player, i) + if i == g.item then g.quantity else 0)
                  && forall i :: Version(s.tables, player, i) == Version(t, player, i) + if i == g.item then 1 else 0)
  {}

  lemma ItemNext(t: Tables, t1: Tables, request: string, player: string, grants: seq<Grant>, n: nat)
    requires n < |grants| && grants[n].currency == "" && Leaves(t, t1, request, player, grants, n)
    ensures var s := GrantOne(t1, request, player, grants[n], n);
            && (s.Success? <==> Pays(t, request, player, grants, n))
            && (s.Success? ==> Leaves(t, s.tables, request, player, grants, n + 1))
  {
    var s := GrantOne(t1, request, player, grants[n], n);
    if grants[n].item != "" {
      ItemRows(t1, request, player, grants[n], n);
      if s.Success? { ItemLeaves(t, t1, s.tables, request, player, grants, n); }
    } else {
      NothingLeaves(t, t1, request, player, grants, n);
    }
  }

  lemma ItemLeaves(t: Tables, t1: Tables, t2: Tables, request: string, player: string, grants: seq<Grant>, n: nat)
    requires n < |grants| && grants[n].currency == "" && Leaves(t, t1, request, player, grants, n)
    requires t2.wallets == t1.wallets && t2.transactions == t1.transactions
    requires forall i :: Quantity(t2, player, i) == Quantity(t1, player, i) + if i == grants[n].item then grants[n].quantity else 0
    requires forall i :: Version(t2, player, i) == Version(t1, player, i) + if i == grants[n].item then 1 else 0
    ensures Leaves(t, t2, request, player, grants, n + 1)
  {
    assert Booked(request, grants, n + 1) == Booked(request, grants, n);
    forall c | c != "" ensures Balance(t2, player, c) == Balance(t, player, c) + Conservation.Paid(grants, n + 1, c) {
      assert Balance(t2, player, c) == Balance(t1, player, c);
    }
  }

  lemma NothingLeaves(t: Tables, t1: Tables, request: string, player: string, grants: seq<Grant>, n: nat)
    requires n < |grants| && grants[n].currency == "" && grants[n].item == "" && Leaves(t, t1, request, player, grants, n)
    ensures Leaves(t, t1, request, player, grants, n + 1)
  {
    assert Booked(request, grants, n + 1) == Booked(request, grants, n);
  }

  lemma NextGrant(t: Tables, t1: Tables, request: string, player: string, grants: seq<Grant>, n: nat)
    requires n < |grants| && Leaves(t, t1, request, player, grants, n)
    ensures var s := GrantOne(t1, request, player, grants[n], n);
            && (s.Success? <==> Pays(t, request, player, grants, n))
            && (s.Success? ==> Leaves(t, s.tables, request, player, grants, n + 1))
  {
    if grants[n].currency != "" { MoneyNext(t, t1, request, player, grants, n); } else { ItemNext(t, t1, request, player, grants, n); }
  }

  /** The first `n` grants can be paid, each after those before it. */
  predicate AllPay(t: Tables, request: string, player: string, grants: seq<Grant>, n: nat)
    requires n <= |grants|
  {
    forall i :: 0 <= i < n ==> Pays(t, request, player, grants, i)
  }

  lemma AllPayNext(t: Tables, request: string, player: string, grants: seq<Grant>, n: nat)
    requires n < |grants|
    ensures AllPay(t, request, player, grants, n + 1) <==> AllPay(t, request, player, grants, n) && Pays(t, request, player, grants, n)
  {}

  /** They are all paid exactly then. */
  lemma {:induction false} PaidIff(t: Tables, request: string, player: string, grants: seq<Grant>, n: nat)
    requires n <= |grants|
    ensures var s := GrantFirst(t, request, player, grants, n);
            && (s.Success? <==> AllPay(t, request, player, grants, n))
            && (s.Success? ==> Leaves(t, s.tables, request, player, grants, n))
  {
    if n > 0 {
      PaidIff(t, request, player, grants, n - 1);
      AllPayNext(t, request, player, grants, n - 1);
      var before := GrantFirst(t, request, player, grants, n - 1);
      if before.Success? { NextGrant(t, before.tables, request, player, grants, n - 1); }
    }
  }

  /** MAIN RESULT. A claim succeeds exactly when it is a duplicate, or every grant of its reward can be paid after those
      before it: currencies take their amounts, items their quantities, and the request's numbered ledger
      transactions are unused. */
  lemma ClaimSucceedsIff(defs: Definitions, t: Tables, e: Envelope, player: string, id: string, source: string, d: Definition, k: nat)
    requires e.operation == "reward.claim" && ActsFor(e, player) && TextIs(e, "rewardId", id) && TextIs(e, "sourceId", source)
    requires Defined(defs, e, d) && FirstReward(d.rewards, k, id)
    ensures var o, grants := Handle(defs, t, e), d.rewards[k].grants;
            o.Done? && o.result.status == "succeeded" <==>
              AlreadyHeld(t, e, player, d.rewards[k], source) || AllPay(t, e.requestId, player, grants, |grants|)
  {
    MoneyNames();
    HandleIs(defs, t, e, player, Claim);
    TextIsIff(e, "rewardId", id);
    TextIsIff(e, "sourceId", source);
    RewardFound(d.rewards, k, id);
    assert LoadReward(Good(d), e) == Found(d.rewards[k]);
    ClaimGoes(t, d, e, player, d.rewards[k], source);
    var s := RewardClaim(t, Good(d), player, e);
    StepSucceedsIff(t, e, player, d.rewards[k], source, s);
    Codes();
    ConcludedIs(s, e);
  }

  lemma SamePays(t: Tables, t1: Tables, request: string, player: string, grants: seq<Grant>)
    requires t1.wallets == t.wallets && t1.stacks == t.stacks && t1.transactions == t.transactions
    ensures AllPay(t1, request, player, grants, |grants|) <==> AllPay(t, request, player, grants, |grants|)
  {
    forall i | 0 <= i < |grants| ensures Pays(t1, request, player, grants, i) <==> Pays(t, request, player, grants, i) {}
  }

  lemma StepSucceedsIff(t: Tables, e: Envelope, player: string, reward: Reward, source: string, s: Step)
    requires ClaimStep(t, e, player, reward, source, s)
    ensures s.Success? <==> AlreadyHeld(t, e, player, reward, source) || AllPay(t, e.requestId, player, reward.grants, |reward.grants|)
  {
    var t1 := t.(claims := t.claims[(player, reward.id, source) := e.requestId]);
    SamePays(t, t1, e.requestId, player, reward.grants);
    PaidIff(t1, e.requestId, player, reward.grants, |reward.grants|);
  }
}
