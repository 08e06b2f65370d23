/** Which limits the definitions may give a reward for its claims to stay unique, and for interleaved claims
to stay serial. */
module RewardRaces {
  import opened RewardClaims
  import opened RewardSerial

  // ---------------------------------------------------------------- some runs

  lemma AfterTwo(run: Run, a: Step, b: Step, key: LockKey)
    ensures After(Then(Then(run, a), b), key) == Apply(Apply(After(run, key), a, key), b, key)
  {}

  /** An unlimited claim from its begin to its commit. */
  function AloneRun(run: Run, id: nat, c: Claim): Run {
    Then(Then(Then(Then(run, Begin(id, [c])), Insert(id)), Finish(id)), End(id))
  }

  lemma AloneInserts(s: State, id: nat, c: Claim, key: LockKey)
    requires id !in s.flight && !c.once && NobodyInserting(s, id, c) && !Conflicts(s.rows, c)
    ensures Apply(Apply(s, Begin(id, [c]), key), Insert(id), key)
         == s.(flight := s.flight[id := Tx([c], Paying(0), {}, map[c.Key() := c.request], multiset{}, Empty)])
  {
    var s1 := Apply(s, Begin(id, [c]), key);
    assert s1.rows + map[] == s.rows && NobodyInserting(s1, id, c);
    assert map[][c.Key() := c.request] == map[c.Key() := c.request];
    assert s1.flight[id := Tx([c], Paying(0), {}, map[c.Key() := c.request], multiset{}, Empty)]
        == s.flight[id := Tx([c], Paying(0), {}, map[c.Key() := c.request], multiset{}, Empty)];
  }

  /** A claim whose row is in goes on to commit. */
  lemma PayingEnds(s: State, id: nat, c: Claim, held: set<int>, key: LockKey)
    requires id in s.flight && s.flight[id] == Tx([c], Paying(0), held, map[c.Key() := c.request], multiset{}, Empty)
    ensures var s' := Apply(Apply(s, Finish(id), key), End(id), key);
            && s'.rows == s.rows[c.Key() := c.request] && s'.flight == s.flight - {id}
            && s'.order == Commit(s.order, Noted(Empty, c, true))
  {
    var s1 := Apply(s, Finish(id), key);
    assert s1.flight[id] == Tx([], Fresh, held, map[c.Key() := c.request], multiset{}, Noted(Empty, c, true)) by {
      assert [c][1..] == [];
    }
    assert s1.flight - {id} == s.flight - {id};
    assert s.rows + map[c.Key() := c.request] == s.rows[c.Key() := c.request];
  }

  lemma AloneCommits(run: Run, id: nat, c: Claim, key: LockKey, s: State)
    requires s == After(run, key) && id !in s.flight && !c.once && NobodyInserting(s, id, c) && !Conflicts(s.rows, c)
    ensures var s' := After(AloneRun(run, id, c), key);
            && s'.rows == s.rows[c.Key() := c.request] && s'.flight == s.flight
            && s'.order == Commit(s.order, Noted(Empty, c, true))
  {
    AfterTwo(run, Begin(id, [c]), Insert(id), key);
    AfterTwo(Then(Then(run, Begin(id, [c])), Insert(id)), Finish(id), End(id), key);
    AloneInserts(s, id, c, key);
    var s2 := s.(flight := s.flight[id := Tx([c], Paying(0), {}, map[c.Key() := c.request], multiset{}, Empty)]);
    PayingEnds(s2, id, c, {}, key);
    assert s2.flight - {id} == s.flight;
  }

  /** A limited claim that has taken its lock and found nothing. */
  function CheckedRun(c: Claim): Run { Then(Then(Then(Nil, Begin(1, [c])), Lock(1)), Check(1)) }

  function CheckedTx(c: Claim, key: LockKey): Tx { Tx([c], Checked, {key(c.player, c.reward)}, map[], multiset{}, Empty) }

  lemma AfterChecked(c: Claim, key: LockKey)
    requires c.once
    ensures After(CheckedRun(c), key) == State(map[1 := CheckedTx(c, key)], map[], multiset{}, Nothing)
  {
    AfterTwo(Then(Nil, Begin(1, [c])), Lock(1), Check(1), key);
    var s1 := After(Then(Nil, Begin(1, [c])), key);
    var s2 := Apply(s1, Lock(1), key);
    assert s2.flight[1] == Tx([c], Locked, {key(c.player, c.reward)}, map[], multiset{}, Empty);
    assert Apply(s2, Check(1), key).flight == map[1 := CheckedTx(c, key)];
  }

  /** It is overtaken by a whole claim that is not limited, and then goes on. */
  function MixedRun(limited: Claim, unlimited: Claim): Run {
    Then(Then(Then(AloneRun(CheckedRun(limited), 2, unlimited), Insert(1)), Finish(1)), End(1))
  }

  predicate Rivals(a: Claim, b: Claim) {
    a.player == b.player && a.reward == b.reward && a.source != b.source && a.request != b.request
  }

  lemma OvertakenEnds(limited: Claim, unlimited: Claim, key: LockKey, overtaken: Run)
    requires limited.once && !unlimited.once && Rivals(limited, unlimited) && overtaken == AloneRun(CheckedRun(limited), 2, unlimited)
    ensures var s := After(overtaken, key);
            && s.flight == map[1 := CheckedTx(limited, key)] && s.rows == map[unlimited.Key() := unlimited.request]
            && s.order == Commit(Nothing, Noted(Empty, unlimited, true))
  {
    AfterChecked(limited, key);
    var checked := CheckedRun(limited);
    var s := State(map[1 := CheckedTx(limited, key)], map[], multiset{}, Nothing);
    assert NobodyInserting(s, 2, unlimited) && !Conflicts(s.rows, unlimited);
    AloneCommits(checked, 2, unlimited, key, s);
    assert map[][unlimited.Key() := unlimited.request] == map[unlimited.Key() := unlimited.request];
  }

  lemma MixedRunEnds(limited: Claim, unlimited: Claim, key: LockKey)
    requires limited.once && !unlimited.once && Rivals(limited, unlimited)
    ensures var s := After(MixedRun(limited, unlimited), key);
            && s.rows == map[unlimited.Key() := unlimited.request][limited.Key() := limited.request]
            && s.order == Commit(Commit(Nothing, Noted(Empty, unlimited, true)), Noted(Empty, limited, true))
  {
    var overtaken := AloneRun(CheckedRun(limited), 2, unlimited);
    OvertakenEnds(limited, unlimited, key, overtaken);
    LastThree(overtaken, limited, key, After(overtaken, key));
  }

  lemma LastThree(run: Run, c: Claim, key: LockKey, s: State)
    requires s == After(run, key) && s.flight == map[1 := CheckedTx(c, key)] && !Conflicts(s.rows, c)
    ensures var s' := After(Then(Then(Then(run, Insert(1)), Finish(1)), End(1)), key);
            s'.rows == s.rows[c.Key() := c.request] && s'.order == Commit(s.order, Noted(Empty, c, true))
  {
    CheckedInserts(s, c, key);
    AfterTwo(Then(run, Insert(1)), Finish(1), End(1), key);
    PayingEnds(Apply(s, Insert(1), key), 1, c, {key(c.player, c.reward)}, key);
  }

  lemma CheckedInserts(s: State, c: Claim, key: LockKey)
    requires s.flight == map[1 := CheckedTx(c, key)] && !Conflicts(s.rows, c)
    ensures var s' := Apply(s, Insert(1), key);
            && s'.flight == map[1 := Tx([c], Paying(0), {key(c.player, c.reward)}, map[c.Key() := c.request], multiset{}, Empty)]
            && s'.rows == s.rows && s'.order == s.order
  {
    assert s.rows + map[] == s.rows && NobodyInserting(s, 1, c);
    assert map[][c.Key() := c.request] == map[c.Key() := c.request];
  }

  /** Revisions that disagree break both: the player ends up with two claims, where making the claims one
      after the other, in the order in which they were committed, refuses the limited one. */
  lemma MixedRevisionsBreakSeriality(limited: Claim, unlimited: Claim, key: LockKey)
    requires limited.once && !unlimited.once && Rivals(limited, unlimited)
    ensures var s := After(MixedRun(limited, unlimited), key);
            && limited.Key() in s.rows && unlimited.Key() in s.rows
            && s.rows != SerialRows(s.order) && !SerialAnswers(s.order)
  {
    MixedRunEnds(limited, unlimited, key);
    var first: Rows := map[][unlimited.Key() := unlimited.request];
    assert unlimited.Key() in first && HasRow(first, limited.player, limited.reward);
    var s := After(MixedRun(limited, unlimited), key);
    assert SerialRows(Commit(Nothing, Noted(Empty, unlimited, true))) == Replay(map[], Noted(Empty, unlimited, true));
    assert Replay(map[], Noted(Empty, unlimited, true)) == first by {
      assert Replay(map[], Empty) == map[] && !Refuses(map[], unlimited);
    }
    assert Replay(first, Empty) == first && Refuses(first, limited);
    assert SerialRows(s.order) == first && limited.Key() !in first;
  }

  // ---------------------------------------------------------------- what the revisions offer

  /** The limits the revisions give each reward. */
  type Revisions = string -> set<bool>

  predicate Offered(claims: seq<Claim>, offered: Revisions) {
    forall i :: 0 <= i < |claims| ==> claims[i].once in offered(claims[i].reward)
  }

  predicate StepOffered(step: Step, offered: Revisions) { step.Begin? ==> Offered(step.claims, offered) }

  /** Every claim carries a limit that some revision offers. */
  predicate OffersAll(run: Run, offered: Revisions) {
    run.Then? ==> OffersAll(run.past, offered) && StepOffered(run.step, offered)
  }

  lemma OffersTwo(run: Run, a: Step, b: Step, offered: Revisions)
    requires OffersAll(run, offered) && StepOffered(a, offered) && StepOffered(b, offered)
    ensures OffersAll(Then(Then(run, a), b), offered)
  {}

  lemma AloneOffers(run: Run, id: nat, c: Claim, offered: Revisions)
    requires OffersAll(run, offered) && c.once in offered(c.reward)
    ensures OffersAll(AloneRun(run, id, c), offered)
  {
    OffersTwo(run, Begin(id, [c]), Insert(id), offered);
    OffersTwo(Then(Then(run, Begin(id, [c])), Insert(id)), Finish(id), End(id), offered);
  }

  lemma MixedOffers(limited: Claim, unlimited: Claim, offered: Revisions)
    requires limited.once in offered(limited.reward) && unlimited.once in offered(unlimited.reward)
    ensures OffersAll(MixedRun(limited, unlimited), offered)
  {
    assert OffersAll(Then(Nil, Begin(1, [limited])), offered) by { assert Offered([limited], offered); }
    OffersTwo(Then(Nil, Begin(1, [limited])), Lock(1), Check(1), offered);
    AloneOffers(CheckedRun(limited), 2, unlimited, offered);
    var overtaken := AloneRun(CheckedRun(limited), 2, unlimited);
    OffersTwo(overtaken, Insert(1), Finish(1), offered);
  }

  // ---------------------------------------------------------------- one claim per player

  predicate TwoRows(run: Run, key: LockKey, player: string, reward: string, a: string, b: string) {
    (player, reward, a) in After(run, key).rows && (player, reward, b) in After(run, key).rows
  }

  ghost predicate OneClaimEver(key: LockKey, reward: string, offered: Revisions) {
    forall run, player, a, b :: OffersAll(run, offered) && TwoRows(run, key, player, reward, a, b) ==> a == b
  }

  lemma {:induction false} OffersLimited(run: Run, reward: string, offered: Revisions)
    requires OffersAll(run, offered) && false !in offered(reward)
    ensures AlwaysLimited(run, reward)
  {
    if run.Then? {
      OffersLimited(run.past, reward, offered);
    }
  }

  /** Two unlimited claims, one after the other. */
  lemma TwoAlone(one: Claim, two: Claim, key: LockKey, offered: Revisions) returns (run: Run)
    requires Rivals(one, two) && !one.once && !two.once && false in offered(one.reward)
    ensures OffersAll(run, offered) && TwoRows(run, key, one.player, one.reward, one.source, two.source)
  {
    var first := AloneRun(Nil, 1, one);
    assert NobodyInserting(START, 1, one) && !Conflicts(START.rows, one);
    AloneCommits(Nil, 1, one, key, START);
    AloneOffers(Nil, 1, one, offered);
    var s := After(first, key);
    assert s.rows.Keys == {one.Key()} && s.flight == map[];
    AloneCommits(first, 2, two, key, s);
    AloneOffers(first, 2, two, offered);
    run := AloneRun(first, 2, two);
  }

  /** MAIN RESULT. A player can never have two claims of a reward exactly when no revision offers the reward
      without its limit. */
  lemma OneClaimIff(key: LockKey, reward: string, offered: Revisions)
    ensures OneClaimEver(key, reward, offered) <==> false !in offered(reward)
  {
    if false !in offered(reward) {
      forall run, player, a, b | OffersAll(run, offered) && TwoRows(run, key, player, reward, a, b) ensures a == b {
        OffersLimited(run, reward, offered);
        ClaimedOncePerPlayer(run, key, player, reward);
      }
    } else {
      var one, two := Claim("p", reward, "a", "x", false, 0), Claim("p", reward, "b", "y", false, 0);
      assert "a"[0] != "b"[0] && "x"[0] != "y"[0];
      var run := TwoAlone(one, two, key, offered);
    }
  }

  // ---------------------------------------------------------------- serial claims

  predicate IsSerial(s: State) { s.rows == SerialRows(s.order) && SerialAnswers(s.order) }

  ghost predicate SerialEver(key: LockKey, offered: Revisions) {
    forall run :: OffersAll(run, offered) ==> IsSerial(After(run, key))
  }

  /** No reward is limited in one revision and not in another. */
  ghost predicate Agreeing(offered: Revisions) {
    forall reward :: !(true in offered(reward) && false in offered(reward))
  }

  function PolicyOf(offered: Revisions): Policy { reward => true in offered(reward) }

  lemma {:induction false} AgreeingFollows(run: Run, offered: Revisions)
    requires OffersAll(run, offered) && Agreeing(offered)
    ensures RunFollows(run, PolicyOf(offered))
  {
    if run.Then? {
      AgreeingFollows(run.past, offered);
    }
  }

  /** MAIN RESULT. Interleaved claims always give the rows and the answers of making them one transaction
      after the other, in the order of the commits, exactly when the revisions agree on every reward's limit. */
  lemma SerialIff(key: LockKey, offered: Revisions)
    ensures SerialEver(key, offered) <==> Agreeing(offered)
  {
    if Agreeing(offered) {
      forall run | OffersAll(run, offered) ensures IsSerial(After(run, key)) {
        AgreeingFollows(run, offered);
        ClaimsAreSerial(run, key, PolicyOf(offered));
      }
    } else {
      var reward :| true in offered(reward) && false in offered(reward);
      var limited, unlimited := Claim("p", reward, "a", "x", true, 0), Claim("p", reward, "b", "y", false, 0);
      assert "a"[0] != "b"[0] && "x"[0] != "y"[0];
      MixedRevisionsBreakSeriality(limited, unlimited, key);
      MixedOffers(limited, unlimited, offered);
    }
  }
}
