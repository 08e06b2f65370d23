# GameService control plane: a verified model

The control plane is a set of small transactional state machines over database tables, plus a few algorithms.
This project models them in Dafny and proves what they promise, over every run and every input. Where
transactions can get in each other's way their statements are interleaved: request reservations, transfers,
reward claims, match rows, ticket locks, matchmaking workers and outbox workers. The other command handlers are
modelled as one serial transaction each.

Tables are maps, a transaction is a working copy that is committed or dropped, and an SQL statement with its
guard is one atomic step. Concurrent code is a step machine: `Apply(state, step)` performs one statement of
one transaction or worker, a step that has to wait or does not apply changes nothing, and a `Run` or `History`
is any finite list of steps. The main results hold after every run. Code that changes things in place is a
class whose methods are proved against specification functions; the lemmas are about those functions.

| file | component |
|---|---|
| `RateLimit.dfy`, `EvictionLimits.dfy`, `LimiterExact.dfy` | token-bucket limiter with a bounded key table; when its eviction can be seen; exactly which calls it refuses |
| `Ordering.dfy`, `Int64.dfy` | byte order on text, stable in-place sorting; 64-bit wrap-around |
| `Matcher.dfy`, `MatcherCliques.dfy`, `MatcherOrder.dfy` | `Batch`, the greedy group finder; when batches are mutual; which group it is, told by queue times and ids |
| `Roster.dfy`, `RosterText.dfy` | building, printing and parsing a match roster; what any roster text is read as |
| `Matches.dfy`, `MatchLifecycle.dfy` | transition table, guarded writers; one match under interleaved transactions |
| `FinalizerAlone.dfy` | a submission run alone against the serial one |
| `MatchWorker.dfy`, `WorkerService.dfy`, `TicketHistory.dfy` | the multi-worker ticket protocol; one worker as a program; how tickets come by their status and attempts |
| `TicketLocks.dfy`, `TicketRequeues.dfy`, `TicketOrigins.dfy` | ticket creation under advisory locks, and waiting; players with two active tickets; whose requests tickets come from |
| `Commands.dfy`, `CommandStore.dfy`, `SubmitRaces.dfy` | envelopes; exactly-once execution with stored replay; submissions racing for one request id |
| `Economy.dfy`, `EconomyService.dfy` | command handlers as functions of the tables; the same as statements in a transaction |
| `CommandArguments.dfy`, `CommandEffects.dfy`, `RewardGrants.dfy`, `PlayerScope.dfy`, `StoredAnswers.dfy` | what an envelope asks for; the exact effect of each command; when a claimed reward can be paid; what commands can do to other players; what stored answers tell |
| `Frames.dfy`, `Ledger.dfy`, `Conservation.dfy`, `Progression.dfy`, `Compiler.dfy` | what commands leave alone; wallet against ledger, `Scan`; conserved quantities; experience, objectives and entitlements; checked catalogs |
| `BalanceBounds.dfy` | when balances leave their bounds, and drift from the ledger |
| `TransferRaces.dfy`, `TransferLimits.dfy` | transfers under read-committed isolation, statement by statement; when their answers and bounds can be trusted |
| `RewardClaims.dfy`, `RewardSerial.dfy`, `RewardRaces.dfy`, `RewardDeadlocks.dfy` | reward claims interleaved statement by statement: their invariants, serial order, mixed revisions, waits |
| `ResultFinalizer.dfy`, `ResultService.dfy`, `ResultAcceptance.dfy` | match results and their rewards; the result endpoint as a program; exactly which posts are accepted, repeated or filed |
| `Outbox.dfy`, `OutboxLeases.dfy`, `OutboxHistory.dfy` | leases, attempts and dead letters; when leases exclude each other; which events are handed out, and which never again |
| `OutboxService.dfy`, `OutboxPasses.dfy` | one worker as a program, draining; its pass as protocol steps |

`dafny verify dfyconfig.toml` checks everything.

Findings worth knowing, each stated as a lemma below:

- A wallet credit or debit refused with CURRENCY_LIMIT is still committed without ledger entries. That is the
  only source of drift between wallets and ledger, and `Scan` reports exactly it. A command drifts exactly when
  it is a credit or debit that can be made and takes the wallet out of bounds; with transactions interleaved the
  balance that counts is the one it leaves as it commits.
- Histories keep a currency's wallets within its bounds exactly when the bounds allow every number the column
  holds. Refused credits and debits, transfers below the sender's minimum, and rewards take wallets out of them.
- The limiter equals an ideal unbounded one only when a call refused for lack of table space is not charged to
  the ideal one, and exactly when a drained bucket is full again by the time it can be evicted
  (600 * rate >= burst, or 1200 * rate >= burst for a table of one key).
- A batch is a group around its first ticket. Its members are always mutually compatible exactly when a match
  has at most two teams, the rating window is zero, or the window covers the whole 64-bit range. Workers see no
  ratings, so their batches always are.
- A transfer to a player without a wallet row is not protected by its row lock: if the row is created in between,
  its answer is wrong and the balance can pass the maximum. Transfers never make or lose money, even then.
- A once-per-player reward can be claimed twice exactly when some revision offers it without the limit, and
  claims are serial exactly when the revisions agree on every reward's limit.
- Sorted advisory locks exclude deadlock, for tickets and for the claims of match results, exactly when players
  that share a lock key have no player of another key between them in the order.
- A `matching` ticket can leave that state exactly when a worker holds it; tickets a worker abandons, by a crash
  or by an update that fails, stay `matching` for good.
- A ticket that a worker puts back can give a player two active tickets: exactly when it is unexpired and meets
  another live ticket, or a creation that has already checked the shared members and will go through.
- An outbox lease does not protect against a worker that records its outcome late: that clears the lease of the
  current holder, and a further claim makes two live deliveries. This happens exactly when a recorded outcome
  leaves the event open while another live delivery of it is under way; punctual workers never do that.
- The SQL writers allow Ready to Abandoned, Completed to Disputed and Running to itself, which the declared
  transition table does not. The model follows the writers.

## Model

| member | source | states |
|---|---|---|
| RateLimit.Limiter.constructor | internal/ratelimit/limiter.go:27-32 | a new limiter has no buckets and falls back to 10000 keys |
| RateLimit.Limiter.Allow | internal/ratelimit/limiter.go:34-64 | the answer and the new bucket table are those of the abstract step, for every rate, burst and time |
| RateLimit.Limiter.Evict | internal/ratelimit/limiter.go:66-73 | exactly the buckets idle for more than ten minutes are dropped |
| RateLimit.EvictionIsInvisible | internal/ratelimit/limiter.go:34-73 | with 600 * rate >= burst for every key, every call served is answered as by a never-evicting unbounded token bucket fed the served calls, and tokens stay within 0 and burst |
| RateLimit.TableBounded | internal/ratelimit/limiter.go:40-47 | the table never holds more than maxKeys keys, whatever the calls |
| EvictionLimits.EvictionInvisibleIff | internal/ratelimit/limiter.go:27-86 | for every enabled rate and burst and every table size, eviction is invisible if and only if 600 * rate >= burst, or 1200 * rate >= burst when the table holds one key |
| EvictionLimits.RefusedCallsMustNotBeCharged | internal/ratelimit/limiter.go:40-47 | for every enabled policy and every table size there is a run in which charging full-table refusals to the ideal limiter makes it refuse a call the limiter allows |
| RateLimit.WindowBound | internal/ratelimit/limiter.go:48-63 | in any window on one key at most burst + rate * (last - first) calls are allowed |
| RateLimit.SpacedCallerPasses | internal/ratelimit/limiter.go:34-64 | a caller whose calls are at least 1/rate apart is refused only for a full table |
| LimiterExact.LimitedIff | internal/ratelimit/limiter.go:34-64 | with 600 * rate >= burst for every key, a call on an enabled key is answered Limited if and only if in some window ending now, counting it as allowed, more than burst + rate * (now - since) calls would have been allowed |
| LimiterExact.NewKeyRefusedIff | internal/ratelimit/limiter.go:40-47 | the first call of a key is refused for a full table if and only if at least maxKeys keys were served in the last ten minutes |
| Ordering.SortInPlace | internal/matchmaking/matcher.go:37-43 | the array ends as the stable ordering of its old contents |
| Ordering.SortedIsStable | internal/matchmaking/matcher.go:37-43 | elements that tie keep their input order |
| Ordering.SortedUnique | internal/matchmaking/matcher.go:37-43 | without ties the ordering of a multiset of elements is unique |
| Ordering.StringLessIff | internal/matchmaking/matcher.go:42 | a text comes before another if and only if they agree up to some place where the first ends or has the smaller character |
| Matcher.Batch | internal/matchmaking/matcher.go:33-62 | returns the group of the earliest feasible seed in (queuedAt, id) order followed by the first compatible later tickets, or nothing when no seed is feasible |
| Matcher.Gather | internal/matchmaking/matcher.go:48-58 | the inner loop stops with the seed and its first compatible followers |
| Matcher.BatchOrderIndependent | internal/matchmaking/matcher.go:31-62 | with distinct ids every permutation of the queue gives the same batch |
| Matcher.BatchFindsCliques | internal/matchmaking/matcher.go:33-62 | if some Teams tickets of full team size are pairwise compatible, the batch is not empty |
| MatcherOrder.BatchIffOldest | internal/matchmaking/matcher.go:33-62 | for every queue with distinct ids, told by queue times and ids alone: a group is the batch if and only if its members stand in that order, the first is the earliest seedable ticket with enough compatible tickets after it, and the others are its first compatible followers, none left out |
| MatcherOrder.SeedableIff | internal/matchmaking/matcher.go:45-47 | a ticket can head a group exactly when its region is allowed and it has a full team |
| MatcherOrder.CompatibleIff | internal/matchmaking/matcher.go:64-80 | two tickets are compatible exactly when mode, revision, build and capacity agree, regions are allowed, the candidate has a full team, and the 64-bit rating gap is within the window or is -2^63, which has no absolute value |
| Matcher.NilIffNoFullClass | internal/matchmaking/matcher.go:33-66 | when all ratings are equal the batch is empty exactly when no compatibility class has Teams members |
| MatcherCliques.MutualIff | internal/matchmaking/matcher.go:33-66 | every batch of every queue with distinct ids and 64-bit ratings is pairwise compatible if and only if there are at most two teams, the window is zero, or the window is at least 2^63 - 1 |
| MatcherCliques.EqualRatingsAreMutual | internal/matchmaking/matcher.go:64-66 | with equal ratings every batch is pairwise compatible |
| Matcher.BatchMembers | internal/matchmaking/matcher.go:33-62 | a batch consists of Teams distinct tickets of the queue, each of team size, all like the first in mode, revision, build and capacity |
| Roster.BuildRoster | internal/matchmaking/worker.go:65-74 | the nested loops build the roster function of the batch |
| Roster.RosterSlots | internal/matchmaking/worker.go:65-74 | slots are 0 to Teams * TeamSize - 1 once each, slot i belongs to team i / TeamSize, and a team's players take its slots in sorted order |
| Roster.RosterHoldsBatch | internal/matchmaking/worker.go:65-74 | the roster seats exactly the players of the batch |
| Roster.ParseRoster | cmd/simulator-server/main.go:155-168 | the parsing loop computes the item-by-item map, later items winning and malformed ones skipped |
| Roster.RosterRoundTrip | cmd/simulator-server/main.go:155-168 | parsing a printed roster gives back its player-to-slot map if and only if no player id is blank or contains a comma or a colon |
| RosterText.ReadIff | cmd/simulator-server/main.go:155-168 | for any text at all, a player is read with a slot if and only if the last item naming him, up to its first colon, with a number that is not negative gives that slot |
| RosterText.AtoiIff | cmd/simulator-server/main.go:162-163 | the slot numbers read are exactly the 64-bit integers written with an optional sign and leading zeros |
| RosterText.SplitIsCut | cmd/simulator-server/main.go:157-158 | the items are the text cut at every comma, nothing lost |
| Matches.WritersVersusTable | internal/matches/state.go:21-34 | each SQL state writer stays within the declared table except for the listed pairs, and never lowers the rank |
| Matches.MatchStore.Create | internal/matches/store.go:57-91 | a match with its whole roster is stored, or nothing is: exactly when data are complete, the id is new and the roster names players and slots once |
| Matches.MatchStore.Write | internal/matches/store.go:93-102 | a guarded writer changes state and version together, and only from its states |
| Matches.MatchStore.WriteAsMember | internal/matches/store.go:173-182 | starting and abandoning also need the actor on the roster |
| Matches.MatchStore.Heartbeat | internal/matches/store.go:196-205 | only Ready and Running matches are kept fresh, and neither state nor version changes |
| Matches.MatchStore.Recover | internal/reconciliation/reconciliation.go:15-58 | exactly the stale matches time out, each once, with one notice each; all other rows are untouched |
| MatchLifecycle.OneResult | internal/matches/results.go:74-192 | under every interleaving with crashes a committed match is never Finalizing, has at most one result, has one exactly when Completed or Disputed, and has exactly one accepted and one completed event for it |
| MatchLifecycle.DisputedHasConflict | internal/matches/results.go:31-53 | a Disputed match has a stored conflict; every stored conflict sets a different digest against the accepted one |
| MatchLifecycle.StepMovesForward | internal/matches/results.go:96-184 | every committed change raises the version, keeps the rank order, lies within the declared table plus three pairs, leaves no final state, and leaves Completed only for Disputed |
| MatchLifecycle.FinalizerMarksIff | internal/matches/results.go:74-101 | with the row free and no result under its sequence, a submission gets to Finalizing exactly when the match is Running, and otherwise leaves no trace |
| MatchLifecycle.MarkedCloses | internal/matches/results.go:102-192 | from there an uninterrupted, paid finalizer closes the match with its result |
| MatchLifecycle.ConflictDisputes | internal/matches/results.go:81-90 | a submission that meets another digest ends with a filed conflict, and a Completed match becomes Disputed |
| MatchLifecycle.NeverBack | internal/matches/commands.go:54-62 | over whole runs rank and version never fall, final states and accepted results are permanent |
| FinalizerAlone.SubmittedIsRecord | internal/matches/results.go:74-192 | run alone, the statements accept a new result exactly when the serial submission does, and leave the match's row, results and announced events as it does |
| FinalizerAlone.RepeatedIsDuplicate | internal/matches/results.go:81-90 | run alone, a submission of a stored digest changes nothing, and the serial one answers duplicate |
| FinalizerAlone.ConflictIsReport | internal/matches/results.go:34-53 | run alone, a conflicting submission leaves the match and its filed conflict as the serial conflict report does |
| MatchWorker.HeldByOne | internal/matchmaking/worker.go:36-64 | no ticket is held by two workers, and every held ticket is matching |
| MatchWorker.FinishHitsAll | internal/matchmaking/worker.go:117-124 | the final update hits every claimed ticket, so the mismatch error cannot occur |
| MatchWorker.MatchedTicketsAreSeated | internal/matchmaking/worker.go:108-134 | a matched ticket names an existing match whose roster seats all its members; a queued or matching ticket has fewer attempts than the limit |
| MatchWorker.BatchesAreFull | internal/matchmaking/worker.go:47-50 | a worker's batch always has Teams tickets |
| MatchWorker.AbandonStrandsIff | internal/matchmaking/worker.go:59-124 | a step leaves a ticket matching with no holder exactly when the worker that holds it abandons it: it crashes, or its put-back or final update fails |
| MatchWorker.StrandedForever | internal/matchmaking/worker.go:160-182 | no later step of anyone takes such a ticket out of matching |
| MatchWorker.LeavesIffHeld | internal/matchmaking/worker.go:59-182 | a matching ticket can still leave that state if and only if some worker holds it |
| MatchWorker.WorkerBatchesAreMutual | internal/matchmaking/worker.go:189-212 | the members of a worker's batch are pairwise compatible, since the queue it reads carries no ratings |
| TicketHistory.StatusChanges | internal/matchmaking/worker.go:36-182 | in every run a ticket changes its status only by its cancel, an unexpired claim, its holder putting back, charging or matching it, or the recovery of its match; a failed allocation, and nothing else, adds exactly one attempt |
| TicketHistory.AttemptsAreFailures | internal/matchmaking/worker.go:127-144 | in every run the attempts of a ticket are the failed allocations of the batches it was in, never more than the limit, and at the limit it has expired |
| TicketHistory.ClaimIff | internal/matchmaking/worker.go:160-177 | a claim goes through if and only if every ticket of the batch is queued and unexpired; then exactly those tickets are matching, and otherwise nothing is written |
| TicketHistory.RecoveryExpires | internal/reconciliation/reconciliation.go:15-58 | a recovery that times its match out expires exactly the tickets taken by it |
| TicketHistory.StoresIff | internal/matchmaking/worker.go:109-112 | a match is stored if and only if the statement goes through, its id is new and its roster can be seated; otherwise the matching tickets of the batch, and no others, are queued again |
| TicketHistory.MatchesAreSeatable | internal/matchmaking/worker.go:65-72 | in every run each stored match has named players, each once, on slots of their own |
| WorkerService.Worker.ReadQueue | internal/matchmaking/worker.go:184-212 | the snapshot is the oldest tickets of the unexpired queue in (created_at, id) order at full precision, up to the limit |
| WorkerService.QueueIsOldest | internal/matchmaking/worker.go:189 | told by creation times and ids alone: nobody who waits is left out unless the snapshot is full and nobody in it is younger |
| TicketHistory.SecondsRound | internal/matchmaking/worker.go:189 | the queue time the matcher sees is the creation time rounded to the nearest second, halves away from zero, and keeps its order |
| WorkerService.Worker.Claim | internal/matchmaking/worker.go:160-177 | the claim takes all tickets of the batch or none, and succeeds exactly when all are queued and unexpired |
| WorkerService.Worker.Update | internal/matchmaking/worker.go:179-182 | a guarded multi-row update rewrites exactly the rows it hits and returns their number |
| WorkerService.Worker.RecordAllocationFailure | internal/matchmaking/worker.go:127-144 | each matching ticket is charged an attempt and expires at the limit, three by default |
| WorkerService.Worker.Serve | internal/matchmaking/worker.go:65-124 | after the claim the tables change as the protocol's steps say; the pass reports success exactly when the match was stored and marked |
| WorkerService.Worker.RunOnce | internal/matchmaking/worker.go:36-125 | one pass is the protocol's steps on the batch of the queue snapshot; undisturbed it reports a match exactly when there is a batch, a server, and a match that can be stored and marked |
| TicketLocks.Validate | internal/matchmaking/store.go:53-82 | accepts exactly the requests with all fields, distinct named players including the actor, and an expiry within half an hour |
| TicketRequeues.RequeueKeepsIff | internal/matchmaking/worker.go:179-182 | after a requeue no player has two live tickets if and only if none had before, and the ticket was not matching, has expired, or has no member with another live ticket |
| TicketRequeues.OneActiveTicket | internal/matchmaking/store.go:96-131 | if every requeue is safe, no player is ever in two queued unexpired tickets, under every interleaving and even if lock keys collide |
| TicketOrigins.TicketsAreAskedFor | internal/matchmaking/store.go:53-131 | under every interleaving a stored ticket has exactly the players and the expiry of a valid request that one of them made at most half an hour before that expiry, and a cancelled one was cancelled by one of its players |
| TicketOrigins.ChecksAsOfStart | internal/matchmaking/store.go:114-120 | a member is refused if and only if he is in a queued ticket that was unexpired as the transaction began |
| TicketRequeues.AlwaysOneActiveIff | internal/matchmaking/worker.go:127-182 | in a run, and however its moments may go on without another requeue, no player has two live tickets if and only if every ticket put back was not matching or has expired, or meets neither a live ticket nor an unexpired creation that is past its checks of the shared members |
| TicketRequeues.RequeueBreaks | internal/matchmaking/store.go:114-120 | any player gets two live tickets by creating a second one while the first is claimed, once the first is put back |
| TicketRequeues.CreatesAlone | internal/matchmaking/store.go:96-131 | run alone, the statements of a creation end as the store's Create does |
| TicketLocks.NoWaitCycle | internal/matchmaking/store.go:108-119 | while players in flight that share a lock key have nobody of another key between them, no chain of waits returns to its start |
| TicketLocks.SomeoneMoves | internal/matchmaking/store.go:108-131 | then some creating transaction can always take its next statement |
| TicketLocks.NeverCyclesIff | internal/matchmaking/store.go:108-119 | for every lock key function, no run ever reaches a cycle of waits if and only if no names p < q < r have key(p) == key(r) != key(q) |
| TicketLocks.SplitDeadlocks | internal/matchmaking/store.go:108-113 | with such names the tickets [p, q] and [q, r] can wait for each other |
| TicketLocks.TicketStore.Create | internal/matchmaking/store.go:96-131 | a ticket is queued exactly when the request is acceptable, its id new, and no member has an active ticket |
| TicketLocks.TicketStore.Cancel | internal/matchmaking/store.go:157-166 | only a member cancels, and only a queued ticket |
| CommandStore.IdempotencyStore.GetOrPut | internal/idempotency/store.go:12-21 | a known key returns its value; a new one stores and returns the created value |
| CommandStore.Repository.SubmitWith | internal/commandstore/postgres.go:72-137 | one submission replays a stored result, commits tables, result and event together, or rolls back when the handler or any statement fails; the answer of a commit may be lost |
| CommandStore.ExactlyOnce | internal/commandstore/postgres.go:72-137 | after any history, with submissions failing before their commit or unanswered after it, the state is that of running the handler once per request id at its first submission that got through, with exactly those results and events stored |
| CommandStore.ReplyIsFirstResult | internal/commandstore/postgres.go:82-102 | a submission that meets no trouble is answered with the first result of its id, marked as a duplicate exactly when it is not its own; otherwise with an error |
| CommandStore.RefinesGetOrPut | internal/commandstore/postgres.go:72-137 | stored results and replies are those of the in-memory GetOrPut store |
| CommandStore.StoredForever | internal/commandstore/postgres.go:82-102 | a stored result never changes |
| CommandStore.OneEventEach | internal/commandstore/postgres.go:121-136 | command events correspond one to one with stored requests |
| StoredAnswers.StoredIff | internal/commandstore/postgres.go:72-137 | a new command whose handler succeeds is stored, with its effects and one event, if and only if none of its statements fails; otherwise nothing is written |
| StoredAnswers.RepeatIff | internal/commandstore/postgres.go:88-100 | a repeated command writes nothing and gets the stored result whenever its look-up and commit go through |
| StoredAnswers.StoredIsAnswer | internal/commandstore/postgres.go:108-122 | over any history the stored answer of an economy command is the one its handler gave; only a rejection gets the general event |
| StoredAnswers.BlanksAreFilled | internal/commandstore/postgres.go:108-122 | a stored result keeps every field its handler filled; blank ones come from the envelope, or are those of a plain success |
| StoredAnswers.EventIsNamed | internal/economy/service.go:158-160 | over any history the stored answer of an accepted command names the one event of its operation, and that of a rejected one the general event |
| SubmitRaces.RacesExecuteOnce | internal/commandstore/postgres.go:78-136 | with submissions interleaved statement by statement and failing anywhere, no handler runs for a request id that another holds or has stored, each stored request has one event, and all answers heard are the stored result |
| SubmitRaces.CommitIsGetOrPut | internal/idempotency/store.go:12-21 | each commit of racing submissions is one call of the in-memory GetOrPut store, with its value and flag |
| SubmitRaces.RunIsGetOrPut | internal/idempotency/store.go:12-21 | over whole runs the stored results are those of the in-memory store called in commit order |
| SubmitRaces.HolderMoves | internal/commandstore/postgres.go:82-86 | whoever makes a submission wait can take its own next statement |
| SubmitRaces.AloneIsSubmit | internal/commandstore/postgres.go:72-137 | run alone, the statements store, append and answer what the serial submission does |
| EconomyService.LookUpCurrency | internal/economy/service.go:642-649 | finds the first currency of that id |
| EconomyService.LookUpItem | internal/economy/service.go:651-658 | finds the first item of that id |
| EconomyService.Transaction.UpsertWallet | internal/economy/service.go:250 | the balance is added to and returned, or the column constraint aborts |
| EconomyService.Transaction.DebitWallet | internal/economy/service.go:252-255 | the guarded debit finds no row exactly when the balance is missing or too small |
| EconomyService.Transaction.AppendEntries | internal/economy/service.go:173-190 | the entries are appended in order |
| EconomyService.Transaction.ChangeWallet | internal/economy/service.go:230-278 | credit and debit end with the tables, answer or failure of the specification, including the wallet row a rejected change leaves behind |
| EconomyService.Transaction.TransferWallet | internal/economy/service.go:280-341 | the transfer ends as specified, with the receiver's sum computed in 64 bits |
| EconomyService.Transaction.ChangeInventory | internal/economy/service.go:364-401 | grants and consumption end as specified, including the stack a rejected grant leaves behind |
| EconomyService.Transaction.TransferInventory | internal/economy/service.go:403-458 | the item transfer ends as specified |
| EconomyService.Transaction.PayGrants | internal/economy/service.go:588-609 | the grant loop applies the grants in order up to the first failure |
| EconomyService.Transaction.ClaimReward | internal/economy/service.go:560-611 | the claim ends as specified: duplicate, or a new claim row and its grants |
| EconomyService.Transaction.HandleCommand | internal/economy/service.go:22-75 | a business error becomes a rejected result without an error and keeps the writes made before it; a database error stays an error |
| CommandArguments.StrangersAreRefused | internal/economy/service.go:77-86 | a command acts for the player it names, or else for its actor; a player naming anybody else, or nobody at all, is answered INVALID_ARGUMENT and nothing is written |
| CommandArguments.PlayersActForThemselves | internal/economy/service.go:82-84 | a player whose playerId argument is not his own id is answered INVALID_ARGUMENT and nothing is written |
| CommandArguments.UnsupportedIff | internal/economy/service.go:39-74 | every operation but the sixteen named ones is answered UNSUPPORTED_OPERATION |
| CommandArguments.MalformedIsRefused | internal/economy/service.go:115-156 | a supported command with a missing or malformed argument is answered INVALID_ARGUMENT and nothing is written, whatever is defined |
| PlayerScope.OthersAreSpared | internal/economy/service.go:22-86 | a command lowers no balance or stack of a player it does not act for, and leaves his claims, entitlements, experience and objectives alone |
| PlayerScope.OnlyOwnersSpend | internal/economy/service.go:22-86 | over any history a balance or stack falls only by a newly stored command that acts for its owner; if a player sent it, it was the owner |
| CommandEffects.WalletGetExact | internal/economy/service.go:203-228 | a read answers the true balance, or CURRENCY_LIMIT out of bounds, and changes nothing |
| CommandEffects.WalletChangeExact | internal/economy/service.go:230-278 | a credit adds its amount and a debit takes it if the player has it, with the two entries; out of bounds it is refused but the wallet stays changed; every other case is given too |
| CommandEffects.WalletTransferExact | internal/economy/service.go:280-341 | a transfer takes its amount from the sender and gives it to the target exactly when the sender has it and the true sum is within the bounds |
| CommandEffects.ItemGrantExact | internal/economy/service.go:364-401 | a grant adds its quantity to that stack alone, even when STACK_LIMIT then refuses it, and answers the new quantity |
| CommandEffects.ItemConsumeExact | internal/economy/service.go:364-401 | a consumption takes its quantity exactly when the player has it, and answers what is left |
| CommandEffects.ItemTransferExact | internal/economy/service.go:403-458 | an item transfer goes through exactly when the sender has the quantity and the true sum is within the stack limit and can be stored; then the sender has that many fewer and the target that many more, nothing else changes, and the answer says so |
| CommandEffects.ClaimExact | internal/economy/service.go:560-611 | a claim is a duplicate exactly when its limit, its source or its request id is used up; otherwise it is recorded and pays the grants before the first refused one |
| RewardGrants.ClaimSucceedsIff | internal/economy/service.go:560-611 | a claim succeeds if and only if it is a duplicate or each grant can be paid after those before it: a currency takes its positive amount, an item its quantity, and the numbered ledger transaction of the grant is unused |
| CommandEffects.PreviewExact | internal/economy/service.go:552-558 | a preview names the reward and its limit and changes nothing |
| CommandEffects.UnknownIsRefused | internal/economy/service.go:88-113 | a well-formed command for a currency, item or reward its definition does not know is refused with the code of that kind, unless the name itself contains INSUFFICIENT_FUNDS or INSUFFICIENT_ITEMS, which then decides the code |
| Ledger.CommandGap | internal/economy/service.go:230-278 | one command moves the difference of wallet and ledger of every account by exactly its CURRENCY_LIMIT amount |
| Ledger.GapIsDrift | internal/economy/service.go:23-33 | after any history through the command store each wallet is ahead of its ledger by exactly the credits and debits whose stored result is CURRENCY_LIMIT |
| BalanceBounds.CommandDriftsIff | internal/economy/service.go:230-278 | a command moves the gap of an account if and only if it is a credit or debit of it that can be made and takes the wallet out of bounds |
| BalanceBounds.DriftsNowIff | internal/economy/service.go:230-278 | a submission moves the drift of an account if and only if its result is stored now and its command overruns the wallet as found |
| BalanceBounds.LeavesBoundsIff | internal/economy/service.go:230-341 | a command takes a wallet out of bounds if and only if it is a credit or debit that overruns them, a transfer that goes through and leaves its sender below the minimum, or a new claim whose paid grants exceed them, even if a later grant is refused |
| BalanceBounds.KeepsBoundsIff | internal/economy/service.go:250-261 | every history keeps a currency's wallets within the bounds of a revision if and only if its minimum is at most 0 and its maximum at least 2^63 - 1 |
| Ledger.DriftHappens | internal/economy/service.go:259-261 | a single rejected credit that leaves drift |
| Ledger.Scan | internal/reconciliation/reconciliation.go:120-150 | the scan collects every mismatching account once, in order, and fails only if a ledger sum leaves 64 bits |
| Ledger.ScanReportsDrift | internal/reconciliation/reconciliation.go:118-150 | after any history without a player posing as the system account, the scan is empty exactly when nothing drifted, and each finding is its account's drift |
| StoredAnswers.DifferenceIsDrift | internal/reconciliation/reconciliation.go:120-149 | a finding reports the wallet, the ledger sum and, as far as it fits 64 bits, the drift of its account |
| Conservation.EconomyStaysSound | internal/economy/service.go:169-190 | after any history the entries of each ledger transaction sum to zero per currency and no balance or stack is negative |
| Conservation.TransferExact | internal/economy/service.go:280-341 | run alone, a transfer happens exactly when the sender has the amount and the true sum is within bounds; it stores that sum, touches no other wallet and keeps every currency's total |
| TransferRaces.CommittedTransfer | internal/economy/service.go:299-340 | under every interleaving with other transfers, credits, debits and grants, each with bounds of its own, a committing transfer moves its amount and nothing else; its answer is right exactly when its query found the target's row or the target has nothing at the commit, and with the row found the balance is within bounds |
| TransferRaces.MoneyIsConserved | internal/economy/service.go:328-340 | in every run a currency's total is the starting total and what credits, debits and grants committed; no balance is negative |
| TransferRaces.GapIsOverruns | internal/economy/service.go:248-275 | in every run a wallet is ahead of its ledger by exactly the signed sum of the committed credits and debits that leave it outside their own bounds as they commit; grants and transfers leave no gap |
| TransferRaces.CommittedChange | internal/economy/service.go:248-275 | a committing credit or debit leaves the balance its write returned, and has its ledger entries exactly when that balance is within its bounds |
| TransferLimits.ExactIff | internal/economy/service.go:299-331 | transfers into a wallet always answer with the balance they leave if and only if the wallet has a row from the start or none of the bounds they may have let an amount into an empty one |
| TransferLimits.WithinIff | internal/economy/service.go:320-331 | they always leave it within their bounds if and only if the wallet has a row from the start or all bounds that let an amount into an empty one reach the largest 64-bit number |
| TransferLimits.BothPass | internal/economy/service.go:299-331 | two transfers of any allowed x and y to a wallet without a row both pass; the second leaves x + y and answers y |
| TransferLimits.AloneIsTheHandler | internal/economy/service.go:280-341 | run alone, the statements leave the wallets the command handler leaves |
| TransferLimits.ChangeAloneIsTheHandler | internal/economy/service.go:230-278 | run alone, the statements of a credit or debit leave the wallets the command handler leaves, and move the gap as it does |
| Conservation.WrapRefused | internal/economy/service.go:316-319 | a sum that leaves 64 bits comes out negative, so it cannot pass a lower bound of zero |
| Conservation.ItemTransferConserves | internal/economy/service.go:403-458 | item transfers keep every item's total |
| Conservation.GrantsPay | internal/economy/service.go:588-609 | a reward's grants pay its player exactly what they list and nobody else anything |
| Frames.DispatchKeepsClaims | internal/economy/service.go:22-75 | no command removes or changes a reward claim |
| Progression.ProfileIsEarned | internal/economy/service.go:482-551 | after any history experience is the sum of the accepted additions with the level it gives, an objective is completed exactly when an accepted command completed it, and an entitlement is held exactly when its last accepted change was a grant |
| Progression.DuplicateIffCompleted | internal/economy/service.go:536-551 | a completion is answered as a duplicate exactly when an earlier command had completed the objective |
| Progression.PreviewForetells | internal/economy/service.go:552-611 | a preview fails exactly as the claim would before it looks at its source; a claim whose preview succeeds is refused for a missing source without a write, or otherwise only for an invalid grant |
| StoredAnswers.ProgressIsTold | internal/economy/service.go:502-534 | over any history an accepted read of a track, and an accepted addition, answers the experience earned by accepted additions and the level that follows |
| StoredAnswers.AdditionGoesIff | internal/economy/service.go:519-534 | an addition is accepted if and only if the new total and the version of its row can be stored |
| StoredAnswers.BalanceIsTold | internal/economy/service.go:203-228 | over any history an accepted read of a balance answers the sum of the ledger plus the drift |
| StoredAnswers.DuplicateClaimIff | internal/economy/service.go:560-611 | over any history an accepted claim is answered as a duplicate if and only if it changed nothing |
| Compiler.CheckCatalog | internal/compiler/compiler.go:128-160 | accepts exactly the catalogs whose currencies, items and rewards are named once and within bounds, precision included |
| Compiler.CurrencyLookupExact | internal/compiler/compiler.go:128-137 | in a checked catalog look-up finds the one currency of a name, with 0 <= minimum <= maximum |
| Compiler.RewardLookupExact | internal/compiler/compiler.go:148-160 | the same for rewards and their grants |
| Compiler.CheckedRewardRefusedIff | internal/economy/service.go:588-593 | a checked reward is refused when claimed exactly when it has a currency grant of zero, which the check lets through |
| Compiler.CheckedRewardNeverTakes | internal/compiler/compiler.go:154-158 | a checked reward never takes money or items away |
| RewardSerial.ClaimsAreSerial | internal/economy/service.go:569-587 | if every revision agrees on each reward's limit, interleaved claims give the rows and answers of making them one transaction after the other in commit order |
| RewardClaims.ClaimedOncePerPlayer | internal/economy/service.go:569-587 | a reward limited in every revision has at most one committed claim per player, and each grant is paid at most once, whatever other rewards do |
| RewardClaims.PaidOncePerSource | internal/economy/service.go:581-609 | in every run any reward is paid at most once per player, source and grant, and only with a claim |
| RewardRaces.MixedRevisionsBreakSeriality | internal/economy/service.go:569-587 | a limited and an unlimited claim of one reward by one player, with any different sources and requests, have an interleaving whose rows or answers no serial replay in commit order gives |
| RewardRaces.OneClaimIff | internal/economy/service.go:569-587 | a player never has two claims of a reward if and only if no revision offers it without the limit |
| RewardRaces.SerialIff | internal/economy/service.go:569-587 | every interleaving is serial in commit order if and only if the revisions agree on every reward's limit |
| RewardSerial.RewardClaimIsReplay | internal/economy/service.go:560-611 | run alone, the statements give the claims and the duplicate flag of the command handler |
| RewardDeadlocks.CommandsNeverDeadlock | internal/economy/service.go:569-587 | while claims of commands are in flight one of them can always go on |
| RewardDeadlocks.SortedClaimsNeverDeadlock | internal/matches/results.go:145-180 | transactions that claim for sorted rosters can always go on, too, while claims that share a lock key have none of another key between their players |
| RewardDeadlocks.NeverStuckIff | internal/matches/results.go:145-180 | for every lock key function, results that claim one reward for sorted rosters never get stuck in any run if and only if no players p < q < r have key(p) == key(r) != key(q) |
| ResultFinalizer.FinalizationPays | internal/matches/results.go:118-192 | an accepted result closes the match, and in the same commit exactly the roster players with a fresh claim are paid exactly the mode's reward |
| ResultFinalizer.RosterHoldsClaims | internal/matches/results.go:145-180 | afterwards a roster player holds a claim exactly when he held one before or his request id was unused |
| ResultFinalizer.OnlyFinalizationPays | cmd/control-api/main.go:502-531 | any other post pays nothing and stores no result; at most it files a conflict with the stored digest and disputes the match |
| ResultFinalizer.SubmitRefusals | internal/matches/results.go:55-95 | a digest mismatch that carries an accepted digest comes from a stored result of other content |
| ResultFinalizer.ReplayChangesNothing | internal/matches/results.go:81-90 | after any history since its acceptance, sending a result again changes nothing; it is answered as a duplicate exactly when the match is still Completed, and refused when it is Disputed |
| ResultFinalizer.FinalizedAtMostOnce | internal/matches/results.go:74-192 | over any history of posts, commands and other match writers a match is finalized at most once, and exactly once if it has a result |
| ResultFinalizer.ClaimsNeverLost | internal/economy/service.go:581-587 | no operation removes or changes a claim |
| ResultFinalizer.GrantedOnce | internal/economy/service.go:569-609 | over any history a post changes wallets only by paying exactly the reward of each claim it grants, and no two operations grant the same (player, reward, source) |
| ResultService.CheckPlayers | internal/matches/results.go:203-225 | accepts exactly non-empty lists of distinct, named players |
| ResultService.CheckRoster | internal/matches/results.go:227-238 | accepts exactly players on the match's roster |
| ResultService.Endpoint.PayRewards | internal/matches/results.go:145-180 | the roster loop claims for each player in order and stops at the first answer that is not a success |
| ResultService.Endpoint.SubmitResult | internal/matches/results.go:118-192 | the statements of a submission give the specified verdict and, when accepted, the specified tables |
| ResultService.Endpoint.ReportConflict | internal/matches/results.go:34-53 | a conflict is filed and the match disputed, or the report is refused |
| ResultService.Endpoint.PostResult | cmd/control-api/main.go:468-531 | the endpoint commits, rolls back and reports conflicts as specified |
| ResultAcceptance.FinalizesIff | internal/matches/results.go:118-192 | a post finalizes its match if and only if the match is Running or Finalizing, its revision defines its mode, the submission is complete with no digest or its own, its players are listed once each and on the roster, its sequence is unused, and the reward claims of the sorted roster succeed one after the other |
| ResultAcceptance.FinalizedWorld | internal/matches/results.go:93-192 | a finalization stores the digest of its own payload, completes the match, posts the two events of this result and leaves the economy as the roster's claims left it |
| ResultAcceptance.RepeatsIff | internal/matches/results.go:79-89 | a post is answered as a duplicate if and only if it is presentable and its sequence holds the same digest |
| ResultAcceptance.DisputesIff | cmd/control-api/main.go:508-523 | a conflict is filed, and the match disputed, if and only if the submission is presentable and its sequence holds another digest |
| ResultAcceptance.OtherwiseUnchanged | cmd/control-api/main.go:484-531 | in every other case the post changes nothing at all |
| Outbox.AttemptsDistinct | internal/outbox/worker.go:66-100 | the attempt numbers given out for an event are 1 to its attempts, each exactly once, under any crashes and late finishers |
| Outbox.DeadLetters | internal/outbox/worker.go:112-118 | an event is dead-lettered exactly when a failure of attempt maxAttempts or later was recorded; a live event has fewer than maxAttempts recorded failures |
| Outbox.MarksMeanAccepted | internal/outbox/worker.go:102-111 | a checkpoint or published mark means the publisher accepted the event |
| OutboxHistory.ClaimsIff | internal/outbox/worker.go:63-75 | a claim hands its events out, each with the next attempt and its lease, if and only if each is alive, unleased and not published (or, for a typed worker, of its type and not checkpointed by its consumer) |
| OutboxHistory.SettlementTells | internal/outbox/worker.go:102-119 | the last update publishes an accepted event for untyped workers only, dead-letters a refusal from the limit on, and gives the lease back |
| OutboxHistory.NeverHandedOutAgain | internal/outbox/worker.go:63-75 | in every run, once an event is dead, published, or checkpointed by a typed consumer, no later claim hands it out to that kind of worker |
| OutboxHistory.TypedDeliveries | internal/outbox/worker.go:63-111 | in every run typed workers deliver only events of their type, and an event is published only after an untyped worker claimed it |
| OutboxHistory.PassTells | internal/outbox/worker.go:102-119 | after an undisturbed pass a claimed event is published exactly when the publisher accepted it, and dead exactly when it refused an attempt from the limit on |
| OutboxLeases.SecondClaimIff | internal/outbox/worker.go:66-77 | in every reachable state some claim can open a second live delivery of an event if and only if it has a live one, is neither dead nor published for good, and its row bears no unexpired lease |
| OutboxLeases.PunctualIsExclusive | internal/outbox/worker.go:66-119 | while outcomes are recorded no later than their leases end, no event has two live deliveries |
| OutboxLeases.AlwaysExclusiveIff | internal/outbox/worker.go:102-119 | leases exclude each other in a run, and however its moments may go on punctually, if and only if every recorded outcome closes its event or meets no other live delivery of it |
| OutboxLeases.LateFinisherDoubles | internal/outbox/worker.go:102-119 | a delivery that fails after its lease ended gives any event two live deliveries |
| OutboxService.Worker.Choose | internal/outbox/worker.go:66-77 | the claim takes the first claimable events in id order, up to the batch size |
| OutboxService.Worker.Deliver | internal/outbox/worker.go:102-119 | the publisher's answer becomes a checkpoint and a mark, a dead letter, or a released lease |
| OutboxService.Worker.RunOnce | internal/outbox/worker.go:38-100 | one pass gives each claimed event its final row and mark and leaves the others alone |
| OutboxService.PassFalls | internal/outbox/worker.go:58-119 | while anything is pending a pass claims something and lowers the deliveries left, whatever the publisher answers |
| OutboxService.PassesDrain | internal/outbox/worker.go:58-119 | enough passes of one worker publish or dead-letter every event |
| OutboxPasses.PassIsSteps | internal/outbox/worker.go:38-119 | undisturbed, the protocol's steps leave the rows and checkpoints of the worker's pass |

## Left out

- HTTP routing, authentication, signatures, metrics, tracing, the allocator and publisher themselves, and deployment: the allocator and the publisher are arbitrary answers.
- JSON, YAML and digests: a payload comes with its canonical text and player list, and digests are injective.
- Floating point: the limiter computes in real numbers, with nondecreasing times. Elapsed time is not saturated.
- Interleaving inside the handlers other than wallet changes and claims: each such submission is one serial transaction. In `SubmitRaces` the outcome of a handler is arbitrary, because tables it shares with others may change.
- Error messages beyond their codes, the entries of inventory and entitlement listings, and the grants shown by a reward preview.
- Account deletion, which renames ledger accounts and deletes wallets and tickets.
- Definition activation, approvals, the audit chain, join claims, and match-mode and metadata checks of a definition.
- Fields of the model that are 64-bit in the database (versions of matches, attempts, claim counters) are unbounded; balances, stacks, progress and argument parsing are not.
- RateLimit.EvictionIsInvisible: speaks of served calls only, because charging refused calls makes it false (EvictionLimits.RefusedCallsMustNotBeCharged).
- RewardSerial.ClaimsAreSerial: needs each reward's limit to agree in all revisions, because otherwise it is false (RewardRaces.SerialIff).
- RewardDeadlocks.SortedClaimsNeverDeadlock: needs claims of one lock key to be neighbours in the order, because otherwise it is false (RewardDeadlocks.NeverStuckIff); results in flight at once belong to different matches, so they share no source or request id.
- TicketRequeues.OneActiveTicket: needs safe requeues, because otherwise it is false (TicketRequeues.RequeueBreaks); AlwaysOneActiveIff is the exact condition. A batch goes back ticket by ticket.
- OutboxLeases.PunctualIsExclusive: needs punctual outcomes, because otherwise it is false (OutboxLeases.LateFinisherDoubles); AlwaysExclusiveIff is the exact condition.
- BalanceBounds.KeepsBoundsIff: is about currencies whose id is not blank, the ones a command can name.
- TransferRaces.GapIsOverruns: leaves out the system account's side of the ledger, as the scan does.
- TicketLocks.NoWaitCycle: needs players of one lock key to be neighbours in the order, because otherwise it is false (TicketLocks.SplitDeadlocks).
- Conservation.TransferExact: holds for a transfer that runs alone; what holds in races is in `TransferRaces`.
- Outbox.AttemptsDistinct: deliveries of one worker may interleave in the model, which allows more runs than its sequential loop.
- Compiler.CheckCatalog: covers currencies, items and rewards, the parts the economy relies on, and not match modes.
- Matches.MatchStore.Recover: marks the matches; the tickets that expire with them are in the recovery step of `MatchWorker`.
