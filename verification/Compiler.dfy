/** The catalog checks a definition passes before it is published, and what the economy gains from them. */
module Compiler {
  import opened Economy
  import Conservation

  /** The first `n` currencies are within bounds and named once. */
  predicate FirstCurrencies(cs: seq<Currency>, n: nat)
    requires n <= |cs|
  {
    && (forall i :: 0 <= i < n ==> cs[i].id != "" && 0 <= cs[i].precision <= 18 && 0 <= cs[i].minBalance <= cs[i].maxBalance)
    && (forall i, j :: 0 <= i < j < n ==> cs[i].id != cs[j].id)
  }

  predicate CurrenciesValid(cs: seq<Currency>) { FirstCurrencies(cs, |cs|) }

  predicate FirstItems(items: seq<Item>, n: nat)
    requires n <= |items|
  {
    && (forall i :: 0 <= i < n ==> items[i].id != "" && items[i].stackLimit >= 1)
    && (forall i, j :: 0 <= i < j < n ==> items[i].id != items[j].id)
  }

  predicate ItemsValid(items: seq<Item>) { FirstItems(items, |items|) }

  /** A grant names either an item or a currency. */
  predicate GrantValid(g: Grant) {
    (g.item == "") != (g.currency == "") && g.quantity >= 0 && g.amount >= 0
  }

  predicate GrantsValid(grants: seq<Grant>) {
    forall i :: 0 <= i < |grants| ==> GrantValid(grants[i])
  }

  predicate FirstRewards(rewards: seq<Reward>, n: nat)
    requires n <= |rewards|
  {
    && (forall i :: 0 <= i < n ==> rewards[i].id != "" && GrantsValid(rewards[i].grants))
    && (forall i, j :: 0 <= i < j < n ==> rewards[i].id != rewards[j].id)
  }

  predicate RewardsValid(rewards: seq<Reward>) { FirstRewards(rewards, |rewards|) }

  predicate CatalogValid(d: Definition) {
    CurrenciesValid(d.currencies) && ItemsValid(d.items) && RewardsValid(d.rewards)
  }

  method CheckCurrencies(cs: seq<Currency>) returns (ok: bool)
    ensures ok == CurrenciesValid(cs)
  {
    var seen: set<string> := {};
    var i := 0;
    while i < |cs|
      invariant 0 <= i <= |cs| && FirstCurrencies(cs, i)
      invariant forall id :: id in seen <==> exists k :: 0 <= k < i && cs[k].id == id
    {
      if cs[i].id == "" || cs[i].id in seen { return false; }
      seen := seen + {cs[i].id};
      if cs[i].precision < 0 || cs[i].precision > 18 || cs[i].minBalance < 0 || cs[i].maxBalance < cs[i].minBalance { return false; }
      i := i + 1;
    }
    ok := true;
  }

  method CheckItems(items: seq<Item>) returns (ok: bool)
    ensures ok == ItemsValid(items)
  {
    var seen: set<string> := {};
    var i := 0;
    while i < |items|
      invariant 0 <= i <= |items| && FirstItems(items, i)
      invariant forall id :: id in seen <==> exists k :: 0 <= k < i && items[k].id == id
    {
      if items[i].id == "" || items[i].id in seen { return false; }
      seen := seen + {items[i].id};
      if items[i].stackLimit < 1 { return false; }
      i := i + 1;
    }
    ok := true;
  }

  method CheckGrants(grants: seq<Grant>) returns (ok: bool)
    ensures ok == GrantsValid(grants)
  {
    var i := 0;
    while i < |grants|
      invariant 0 <= i <= |grants| && forall k :: 0 <= k < i ==> GrantValid(grants[k])
    {
      if (grants[i].item == "") == (grants[i].currency == "") || grants[i].quantity < 0 || grants[i].amount < 0 { return false; }
      i := i + 1;
    }
    ok := true;
  }

  method CheckRewards(rewards: seq<Reward>) returns (ok: bool)
    ensures ok == RewardsValid(rewards)
  {
    var seen: set<string> := {};
    var i := 0;
    while i < |rewards|
      invariant 0 <= i <= |rewards| && FirstRewards(rewards, i)
      invariant forall id :: id in seen <==> exists k :: 0 <= k < i && rewards[k].id == id
    {
      if rewards[i].id == "" || rewards[i].id in seen { return false; }
      seen := seen + {rewards[i].id};
      var granted := CheckGrants(rewards[i].grants);
      if !granted { return false; }
      i := i + 1;
    }
    ok := true;
  }

  method CheckCatalog(d: Definition) returns (ok: bool)
    ensures ok == CatalogValid(d)
  {
    ok := CheckCurrencies(d.currencies);
    if !ok { return; }
    ok := CheckItems(d.items);
    if !ok { return; }
    ok := CheckRewards(d.rewards);
  }

  // ---------------------------------------------------------------- what the checks buy

  /** In a checked catalog a look-up finds the one currency of that name, wherever it stands. */
  lemma {:induction false} CurrencyLookupExact(cs: seq<Currency>, c: Currency)
    requires CurrenciesValid(cs)
    ensures c in cs <==> FindCurrency(cs, c.id) == Good(c)
    ensures c in cs ==> 0 <= c.minBalance <= c.maxBalance
  {
    if cs != [] {
      CurrencyLookupExact(cs[1..], c);
      assert forall k :: 0 < k < |cs| ==> cs[k] == cs[1..][k - 1];
      assert c in cs <==> c == cs[0] || c in cs[1..];
      if c in cs[1..] {
        var k :| 0 <= k < |cs[1..]| && cs[1..][k] == c;
        assert cs[0].id != cs[k + 1].id;
      }
    }
  }

  lemma {:induction false} RewardLookupExact(rewards: seq<Reward>, r: Reward)
    requires RewardsValid(rewards)
    ensures r in rewards <==> FindReward(rewards, r.id) == Good(r)
    ensures r in rewards ==> GrantsValid(r.grants)
  {
    if rewards != [] {
      RewardLookupExact(rewards[1..], r);
      assert forall k :: 0 < k < |rewards| ==> rewards[k] == rewards[1..][k - 1];
      assert r in rewards <==> r == rewards[0] || r in rewards[1..];
      if r in rewards[1..] {
        var k :| 0 <= k < |rewards[1..]| && rewards[1..][k] == r;
        assert rewards[0].id != rewards[k + 1].id;
      }
    }
  }

  /** The check lets a currency grant of zero through, and that is the only way a checked reward can be
      refused when it is claimed. */
  lemma {:induction false} CheckedRewardRefusedIff(t: Tables, request: string, player: string, grants: seq<Grant>, n: nat)
    requires GrantsValid(grants) && n <= |grants| && !GrantFirst(t, request, player, grants, n).Fault?
    ensures GrantFirst(t, request, player, grants, n).Business?
       <==> exists i :: 0 <= i < n && grants[i].currency != "" && grants[i].amount == 0
  {
    if n > 0 {
      if !GrantFirst(t, request, player, grants, n - 1).Fault? {
        CheckedRewardRefusedIff(t, request, player, grants, n - 1);
        if GrantFirst(t, request, player, grants, n - 1).Success? {
          var i := n - 1;
          assert GrantFirst(t, request, player, grants, n).Business? <==> grants[i].currency != "" && grants[i].amount == 0;
        }
      }
    }
  }

  /** With a checked definition a claimed reward never takes anything away. */
  lemma {:induction false} CheckedRewardNeverTakes(grants: seq<Grant>, n: nat, c: string, i: string)
    requires GrantsValid(grants) && n <= |grants|
    ensures Conservation.Paid(grants, n, c) >= 0 && Conservation.Given(grants, n, i) >= 0
  {
    if n > 0 {
      CheckedRewardNeverTakes(grants, n - 1, c, i);
    }
  }
}
