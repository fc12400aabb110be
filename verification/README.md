# Verified accounting core of the AI gateway

A Dafny model of the parts of the gateway that count money and quota under
concurrency, with proofs about every run of them. `dafny verify dfyconfig.toml`
checks the whole project.

Five components are modelled, each as values with specification functions and,
where the program updates state in place, as classes and loops proved against
those functions.

**Budget ledger** (`BudgetModel`, `BudgetInvariant`, `BudgetProtocol`,
`BudgetSafety`, `BudgetBook`, `BudgetAnswers`, `BudgetDatabase`, `BudgetOperations`).
Reserve, settle and reap are transactions of separate reads and one guarded commit. Any
interleaving of any number of them, stale reads included, keeps every balance equal
to the sums and ledger folds it stands for, and is linearizable: it refines an atomic
ledger that stores no balances, versions or locks, answer by answer. When each statement
gives each of its answers is stated exactly, so a commit is retried only for a reason, and
an operation that nobody interferes with does at once what the atomic ledger does. Two
things came out of the proof. First, the idempotency lookup, the account read and the commit of a
reserve happen at different instants, so a concurrent duplicate can be refused although
its key is already held: for lack of budget at the second read, because of the hold of
its own twin, or as invalid at the commit, when its time runs out meanwhile. A refusal
at either place is the atomic answer exactly when the key is still free there, and these
are the only answers that are not atomic. Second, the branches for "reserved below
reservation" cannot be reached, because settle and reap hold the reservation's row lock.

**Limiters** (`LimitScopes`, `RedisConcurrency*`, `RedisTpm*`, `RedisEncoding`,
`LocalLimiter*`). Each Lua script is one atomic step of a server with a clock and
key lifetimes; the scripts are also written out command by command. Live leases and
set members agree exactly, counters are exactly the charges of their reservations,
and every reachable reply is accepted by the Go parsers, except that a stored expiry
beyond 2^53-1 makes a lease unreadable, and a settlement is refused as corrupt
exactly when it would push a counter past 2^53-1. The comment on `ReserveTPM`
promises that retrying the same plan returns the original reservation without double
use. The code keeps that promise exactly as long as the server is in the same minute
and the reservation has not been settled: after a settlement the retry is a conflict,
and in another minute with room it takes its tokens again. The model follows the code.
The process-local limiter shows the admissions of the minute less exactly those made
before a scope was last neither configured nor leased: dropped and listed again within
a minute, it admits its whole limit twice.

**Metering pipeline** (`Pricing`, `MeteringModel`, `MeteringSafety`,
`MeteringCost`, `MeteringAggregate`, `MeteringIdentifiers`, `MeteringAnswers`,
`MeteringStore`, `MeteringDrivers`). One state machine from the terminal transition of an
attempt through outbox, relay, topic, consumer and corrections to the cost of a request.
The aggregate is, per currency, the ceiling price of every priced dimension plus all
corrections, and the dimensions are those that the completions of the run carried; it can
fail only on overflow, and once a request is finished it moves by corrections alone.
Corrections and usage events share the ledger's `event_id`, and a correction's is chosen
by its author. If one carries the identifier of an event that is not yet priced, the
event can never be priced, its record conflicts as soon as there is a price for it, and,
if it corrects the same attempt, the completeness barrier takes it for the event's row
and opens early. Behind the barrier a request is complete exactly when no correction of
one of its attempts carries the identifier of one of its events. And once the record of
such an event is on the topic, the committed offset never passes it.

**Request lifecycle and failover** (`Execution`, `Failover`). The recorder's rows
only move forward whatever handles and lost replies it meets. The recorder alone
would allow two open attempts; a run has at most one in every state exactly if every
start that takes effect meets only ended attempts. The failover loop keeps to that, and
for every environment it is known where it ends: if all its calls to the recorder are
answered, along a course that is stated independently of it, with every attempt and the
request on record as what they were; otherwise broken off at the first unanswered call,
with what is then on record stated exactly.

**Stream normalizer and active health** (`StreamModel`, `StreamRuns`,
`StreamNormalizer`, `HealthScheduler`, `HealthTracker`). A stream is read without an
error exactly if it is well formed and every chunk it turns into is accepted, and then
the run is those chunks. After an error the code reads on when called again, and after a
`done_without_finish` error it answers end-of-file; a stream that ends after errors is
still faithful exactly when the refused events lost nothing. What they lose is told by
guards on the event and on what was queued and noted before it: a delta, unless the
event can be read, has one good choice and all that this turns into is accepted; a first
finish or usage, unless the event gets that far. So several choices in one event, or a
block that the decoder refuses, lose every delta they hold. A due probe target with k
ahead of it is taken by dispatch k / size + 1, refreshes or not, and a target is
unhealthy exactly when its history says so.

`Sums` and `Wrappers` hold finite sums and the option type.

Assumptions common to all modules: identifiers drawn at random are fresh and SHA-256
digests are injective; clocks, network, provider and policy behaviour are
parameters that range over everything; a database transaction takes effect at one
instant or not at all, at the isolation the SQL text shows.

## Model

| member | source | states |
|---|---|---|
| BudgetModel.Difference | internal/budget/model.go:274-279 | Released and overage of a settlement balance reserved against actual, and at most one of them is positive |
| BudgetInvariant.HoldKeepsInvariant | internal/budget/postgres_reserver.go:143-201 | Placing a hold keeps rows, index, balances, ledger folds and evidence consistent |
| BudgetInvariant.FinishKeepsInvariant | internal/budget/postgres_settler.go:118-180 | A terminal transition keeps all of them consistent, overage included |
| BudgetInvariant.PendingHoldIsCovered | internal/budget/postgres_settler.go:98-103 | A pending hold never exceeds its account's reserved balance, so the guard against it is idle |
| BudgetProtocol.FindEntry | internal/budget/postgres_settler.go:234-245 | The ledger lookup of a replay finds a matching entry exactly when there is one |
| BudgetSafety.StepKeepsInvariant | internal/budget/postgres_reserver.go:101-210 | Every step of every transaction, with any stale read, keeps the tables consistent and only grows them |
| BudgetSafety.EveryRunIsSafe | internal/budget/postgres_settler.go:60-189 | The same over every interleaving of any number of transactions |
| BudgetSafety.EveryInterleavingBalances | internal/budget/postgres_reaper.go:73-166 | From fresh accounts, after any interleaving: reserved is the sum of pending holds, committed the sum of terminal actuals, both are the folds of the ledger, every entry reports its own prefix in time order, the hard limit is passed by settled overage at most, one key has one reservation, and each reservation has one reserve entry and one terminal entry at most |
| BudgetSafety.CommittedReserveFits | internal/budget/postgres_reserver.go:143-181 | A newly committed reserve leaves committed plus reserved at or below the hard limit and is the first under its key |
| BudgetSafety.FinishStepCommits | internal/budget/postgres_settler.go:118-160 | A settle or reap that commits finishes exactly the locked row, still pending |
| BudgetBook.LookupIsAtomic | internal/budget/postgres_reserver.go:212-250 | Whatever the idempotency lookup answers is the atomic answer; an agreeing repeat gets the original reservation and ledger entry |
| BudgetBook.ReplayReadsAgree | internal/budget/postgres_reserver.go:225-250 | A replay reads reservation, account and ledger entry one after the other; whatever commits in between, it answers as if it had read all three at the first |
| BudgetBook.RejectionIsAtomicIffKeyStillAbsent | internal/budget/postgres_reserver.go:114-131 | A refusal made on the second read is the atomic answer if and only if the key is still free then |
| BudgetBook.DuplicateCanBeRefused | internal/budget/postgres_reserver.go:114-131 | A concrete interleaving in which a duplicate is refused although its key is already held |
| BudgetBook.DuplicateCanBeInvalid | internal/budget/postgres_reserver.go:164-167 | A concrete interleaving in which a duplicate with room is refused as invalid at its commit although its key is already held |
| BudgetBook.VersionCheckAloneAdmitsDuplicate | internal/budget/postgres_reserver.go:143-181 | A concrete interleaving that only the unique index stops from holding one key twice |
| BudgetBook.ReserveCommitIsAtomic | internal/budget/postgres_reserver.go:143-210 | A committed reserve does to the current tables what the atomic ledger does |
| BudgetBook.CommitRefusalIsAtomicIffKeyStillAbsent | internal/budget/postgres_reserver.go:143-190 | A refusal made at the commit is the atomic answer if and only if the key is still free then |
| BudgetBook.SettleLookupIsAtomic | internal/budget/postgres_settler.go:72-92 | Whatever the locking read of a settlement answers is the atomic answer |
| BudgetBook.FinishReadIsAtomic | internal/budget/postgres_settler.go:94-111 | On the account read only exact-amount overflow can refuse; the other branches are dead |
| BudgetBook.SettleCommitIsAtomic | internal/budget/postgres_settler.go:118-189 | A committed settlement is the atomic settlement of the current tables |
| BudgetBook.ReapCommitIsAtomic | internal/budget/postgres_reaper.go:100-166 | A committed reap is the atomic expiry of a pending hold whose time has come |
| BudgetBook.EveryRunRefines | internal/budget/postgres_reserver.go:101-210 | Every interleaving has the effect of the atomic ledger performing the answered operations one after the other, and every answer, success, replay or refusal, is the one the atomic ledger gives there, except for exactly the reserves refused after a twin took their key |
| BudgetAnswers.LookupIsExact | internal/budget/postgres_reserver.go:212-250 | A malformed or late reserve is invalid; one with a free key goes on; one whose key is held gets the stored hold exactly if request, amount and expiry agree, and a conflict otherwise |
| BudgetAnswers.ReserveReadIsExact | internal/budget/postgres_reserver.go:114-131 | The account read refuses exactly for a missing account, one out of force, and one that committed plus reserved plus amount would push over its hard limit |
| BudgetAnswers.ReserveCommitIsExact | internal/budget/postgres_reserver.go:143-210 | A reserve commit retries exactly if the account moved since it was read, left its period, or the key was taken; it refuses exactly a hold that would expire at once or whose identifier exists; otherwise it writes exactly this hold |
| BudgetAnswers.SettleLockIsExact | internal/budget/postgres_settler.go:72-92 | Each answer of the locking read of a settlement has its exact condition on the row, the request status and the command |
| BudgetAnswers.ReapLockIsExact | internal/budget/postgres_reaper.go:168-176 | A reap takes a row exactly if it is there, pending, expired and not locked |
| BudgetAnswers.FinishReadIsExact | internal/budget/postgres_settler.go:94-111 | The account read of a settle or reap goes on, unless a settlement would pass the exact-integer range |
| BudgetAnswers.FinishCommitIsExact | internal/budget/postgres_settler.go:118-189 | A settle commit retries exactly if the account moved since it was read, a reap commit also if it comes too early for the account; otherwise exactly this hold ends, with released or overage, its ledger kind and both balances written |
| BudgetDatabase.Database.DoReserveLookup | internal/budget/postgres_reserver.go:212-250 | The lookup on the tables is the lookup step |
| BudgetDatabase.Database.DoReserveRead | internal/budget/postgres_reserver.go:118-131 | The account read on the tables is the read step |
| BudgetDatabase.Database.DoReserveCommit | internal/budget/postgres_reserver.go:143-210 | The guarded update and inserts on the tables are the commit step |
| BudgetDatabase.Database.DoSettleLock | internal/budget/postgres_settler.go:72-92 | The locking read on the tables is the lock step |
| BudgetDatabase.Database.DoReapLock | internal/budget/postgres_reaper.go:168-176 | Locking an expired pending row is the reap step |
| BudgetDatabase.Database.DoFinishRead | internal/budget/postgres_settler.go:94-111 | The account read of a settle or reap is the read step |
| BudgetDatabase.Database.DoFinishCommit | internal/budget/postgres_settler.go:118-189 | The guarded updates and insert are the commit step |
| BudgetOperations.PlayRuns | internal/budget/postgres_reserver.go:101-210 | A transaction among any moves of others is a run of the protocol and answers what its last statement did |
| BudgetOperations.RetryingRuns | internal/budget/postgres_reserver.go:79-98 | A retried operation is a run too; it is exhausted only after every attempt ended in a conflict, and otherwise answers what its last statement did |
| BudgetOperations.ReserveAlone | internal/budget/postgres_reserver.go:101-210 | A reserve that nobody interferes with ends in a conflict exactly if the account leaves its period between read and commit, and else does and answers what the atomic ledger does |
| BudgetOperations.SettleAlone | internal/budget/postgres_settler.go:60-189 | A settlement that nobody interferes with does and answers at once what the atomic ledger does |
| BudgetOperations.ReapAlone | internal/budget/postgres_reaper.go:73-166 | A reap that nobody interferes with expires the reservation due first, exactly if the account's own time has reached its expiry too |
| BudgetOperations.ReserveOnce | internal/budget/postgres_reserver.go:101-210 | Among any moves of others, one attempt plays lookup, read and commit of this command until one answers; a new hold is within the limit |
| BudgetOperations.Reserve | internal/budget/postgres_reserver.go:69-99 | The retry loop plays the attempts one after the other and answers what its last statement did unless every attempt ended in a conflict; a success is the stored hold of this account, key, request, amount and expiry; alone, one attempt gives the atomic answer |
| BudgetOperations.SettleOnce | internal/budget/postgres_settler.go:60-189 | Among any moves of others, one attempt plays locking read, account read and commit of this settlement until one answers |
| BudgetOperations.Settle | internal/budget/postgres_settler.go:34-58 | The same retry loop; a success is the terminal reservation with this outcome's status and cost, and its one ledger entry; alone, the first attempt gives the atomic answer |
| BudgetOperations.LoadNextExpired | internal/budget/postgres_reaper.go:168-176 | The unlocked expired reservation that is due first, or none exactly when there is none |
| BudgetOperations.ReapOnce | internal/budget/postgres_reaper.go:73-166 | One reap transaction plays the expiry of the reservation due first and records it, or finds nothing exactly when there is nothing to reap |
| BudgetOperations.Reap | internal/budget/postgres_reaper.go:35-71 | A batch is look after look; it expires distinct reservations, each recorded, is at capacity exactly when full, fails only after the allowed conflicts, and otherwise ends on a look that found nothing to reap |
| BudgetOperations.ActualMicros | internal/budget/settlement.go:97-126 | Charges are accepted exactly when sources are distinct, the exact total fits and the kinds fit the outcome; then the total is their sum |
| LimitScopes.NormalizeScopes | internal/limits/local.go:377-404 | Accepts exactly the arrangements of the four scopes of one hierarchy, and returns it |
| LimitScopes.NormalizationIgnoresOrder | internal/limits/local.go:377-404 | The order in which a caller lists scopes does not matter |
| LimitScopes.ScopeIsValidIff | internal/limits/local.go:325-347 | A scope is valid exactly if it names its tenant, project and key down to its own level and no further |
| RedisConcurrencySafety.SetsMatchLeases | internal/limits/redis_concurrency.go:604-693 | A lease hash is active and unexpired over a scope exactly when its id is a live member of that scope's set, with its stored expiry |
| RedisConcurrencySafety.WaitingKeeps | internal/limits/redis_concurrency.go:683-692 | No set or hash evaporates while it represents a live lease |
| RedisConcurrencySafety.AcquireIsSafe | internal/limits/redis_concurrency.go:604-693 | Every answer to an acquire is readable unless the stored expiry is too large, says exactly what happened, and keeps counts within the limits |
| RedisConcurrencySafety.RenewIsSafe | internal/limits/redis_concurrency.go:695-755 | The same for renew |
| RedisConcurrencySafety.ReleaseIsSafe | internal/limits/redis_concurrency.go:757-820 | The same for release, which frees exactly the lease's own slots, once |
| RedisConcurrencySafety.DamageIsNamed | internal/limits/redis_concurrency.go:604-820 | Whatever the keys hold, the scripts name the first level whose set differs from the lease record, and change no record |
| RedisConcurrencySafety.BadRecordIsNamed | internal/limits/redis_concurrency.go:614-623 | A lease record whose expiry is out of range is named as level 0, and nothing changes |
| RedisConcurrencySafety.ServeKeeps | internal/limits/redis_concurrency.go:604-820 | Any script keeps the invariant, and an ended lease never becomes active while its hash exists |
| RedisConcurrencySafety.EveryRunIsSafe | internal/limits/redis_concurrency.go:604-820 | The same over every run with a clock that never goes back |
| RedisConcurrencySafety.EmptyServerIsReady | internal/limits/redis_concurrency.go:154-172 | An empty server satisfies the invariant |
| RedisConcurrencySafety.FirstLeaseReadableIffExact | internal/limits/redis_concurrency.go:683-692 | A first lease is granted at any time and can be renewed at once exactly if it was not to expire past the exact integers |
| RedisConcurrencySafety.AcquireReplyIsStrict | internal/limits/redis_concurrency.go:330-407 | An acquire reply is accepted only in its one form and read back as it was written |
| RedisConcurrencySafety.LifecycleReplyIsStrict | internal/limits/redis_concurrency.go:409-446 | The same for the replies to renew and release |
| RedisConcurrencyServer.FirstScore | internal/limits/redis_concurrency.go:666-675 | The first of a sorted set is its earliest expiry |
| RedisConcurrencyServer.Server.AcquireScript | internal/limits/redis_concurrency.go:604-693 | The script, command by command over the four levels, does and answers what the acquire step does |
| RedisConcurrencyServer.Server.RenewScript | internal/limits/redis_concurrency.go:695-755 | The same for renew |
| RedisConcurrencyServer.Server.ReleaseScript | internal/limits/redis_concurrency.go:757-820 | The same for release |
| RedisTpmSafety.ReserveIsSafe | internal/limits/redis_tpm.go:664-737 | A reserve keeps counters conserved and bounded, its reply is always readable, and it is new, repeated, denied, conflicting or misdated exactly when it says so |
| RedisTpmSafety.SettleIsSafe | internal/limits/redis_tpm.go:739-799 | A settlement never drives a counter negative, corrects by exactly actual minus reserved, and is refused as corrupt exactly on overflow |
| RedisTpmSafety.ReserveNamesTheDamage | internal/limits/redis_tpm.go:691-709 | Whatever the hash holds, a reserve in its minute names the first counter that is out of range, and changes nothing |
| RedisTpmSafety.SettleNamesTheDamage | internal/limits/redis_tpm.go:758-771 | The same for a settlement, for which a missing counter counts too |
| RedisTpmSafety.EveryRunIsSafe | internal/limits/redis_tpm.go:664-799 | After any run, policies changing as they may, each counter is the pending reserved plus settled actual tokens under its scope, at most the largest limit offered plus settled overage |
| RedisTpmSafety.EachMutatesOnce | internal/limits/redis_tpm.go:715-737 | Over any run, one reservation of one minute moves counters at most once on reserve and once on settle |
| RedisTpmSafety.RetryIsIdempotentIff | internal/limits/redis_tpm.go:173-227 | After any calls of anybody, a retried plan returns its original reservation if and only if the server is in the same minute and the reservation was not settled meanwhile; settled, it conflicts; it takes tokens again exactly in another minute that does not know it and has room |
| RedisTpmSafety.RetryAfterSettlementConflicts | internal/limits/redis_tpm.go:714-718 | Any plan reserved, settled and retried within a minute gets a conflict |
| RedisTpmSafety.AnyPoliciesConserve | internal/limits/redis_tpm.go:664-799 | From an empty server, whatever limits the plans carry and however they change, counters are the charges of their reservations and each reservation moves them once on reserve and once on settle |
| RedisTpmSafety.AnyReplyIsTrue | internal/limits/redis_tpm.go:664-799 | In every such state each reply to a valid plan or handle is readable and says exactly what happened |
| RedisTpmSafety.OverflowIsReachable | internal/limits/redis_tpm.go:779-786 | Two reservations that fill a counter to 2^53-1, one settled a token above its reservation: refused as corrupt |
| RedisTpmSafety.ReserveReplyIsStrict | internal/limits/redis_tpm.go:330-443 | A reserve reply is accepted only in its one form, for the window and the limits that were asked for |
| RedisTpmSafety.SettleReplyIsStrict | internal/limits/redis_tpm.go:445-476 | A settle reply is accepted only for the amounts that were settled |
| RedisTpmServer.Server.ReserveScript | internal/limits/redis_tpm.go:664-737 | The script, command by command, does and answers what the reserve step does |
| RedisTpmServer.Server.SettleScript | internal/limits/redis_tpm.go:739-799 | The same for settle |
| RedisTpmServer.Server.ReserveTpm | internal/limits/redis_tpm.go:175-227 | The clock loop, among any scripts of others, computes the chain of attempts |
| RedisTpmServer.ReserveLoopIsSafe | internal/limits/redis_tpm.go:187-226 | The loop keeps the invariant, never sees an unreadable reply, and gives up on the clock exactly when every attempt met another minute than it asked for |
| RedisTpmServer.GivingUpTakesMinutes | internal/limits/redis_tpm.go:187-226 | Giving up after n attempts takes more than n - 2 minutes of server time |
| RedisEncoding.DecimalParsesBack | internal/limits/redis_tpm.go:605-611 | Decimal texts read back as the number they were written from |
| RedisEncoding.RecordTextIsFaithful | internal/limits/redis_tpm.go:605-611 | With an injective digest, equal record texts mean equal records |
| RedisEncoding.FieldsNeverCollide | internal/limits/redis_rpm.go:393-406 | Field names of scopes are distinct, and none is a reservation's, whatever its identifier |
| LocalLimiterSafety.EveryHistoryIsSafe | internal/limits/local.go:173-201 | After any history, slots in use at a scope are its unreleased leases, counters exist only for configured or leased scopes, and none can overflow |
| LocalLimiterSafety.FreshIsSafe | internal/limits/local.go:160-170 | A new limiter satisfies this |
| LocalLimiterSafety.ParentIsSumOfChildren | internal/limits/local.go:215-281 | Platform, tenant and project concurrency is the sum over tenants, projects and keys |
| LocalLimiterSafety.AcquireIsExact | internal/limits/local.go:239-281 | Admission is exactly room at all four levels in the current minute; a rejection names the first level and resource without room, with its usage |
| LocalLimiterSafety.AdmittedFits | internal/limits/local.go:406-434 | An admission leaves all four levels within their hard limits |
| LocalLimiterSafety.AdmittedIff | internal/limits/local.go:215-281 | After any history of a new limiter a request is admitted exactly if a configuration was published, its tokens are in range, and each of its scopes is configured with room for the admissions of the clock minute since it was last abandoned and for its unreleased leases |
| LocalLimiterSafety.RejectionEndsWithTheMinute | internal/limits/local.go:436-454 | A rate rejection resets at the end of the clock minute, within sixty seconds, and says in how long |
| LocalLimiterSafety.RefusalIsInvisible | internal/limits/local.go:239-265 | After an acquire that is not admitted and any later history, the same was admitted, and every later acquire and snapshot gets the answer it would have got without it |
| LocalLimiterSafety.SnapshotCountsTheMinute | internal/limits/local.go:284-321 | With a clock that never goes back, after any history a scope shows the requests and tokens admitted in the current clock minute, less exactly those admitted before it was last in no published policy with no lease on it, and one slot for each unreleased lease |
| LocalLimiterSafety.RelistedStartsAfresh | internal/limits/local.go:193-199 | Two published replacements without and with a scope not in use leave its whole limit free, whatever it admitted in this minute |
| LocalLimiterSafety.WholeLimitTwice | internal/limits/local.go:173-281 | A run in which a key with a limit of one request a minute is dropped and listed again, and two requests are admitted in one minute |
| LocalLimiterSafety.ReplaceIsExact | internal/limits/local.go:173-201 | Exactly a valid, strictly newer configuration is published, as listed, and exactly idle unlisted counters are dropped |
| LocalLimiter.Bind | internal/limits/local.go:177-186 | Bindings are collected exactly when all are valid and distinct |
| LocalLimiter.Limiter.Replace | internal/limits/local.go:173-201 | The method publishes what the specification does |
| LocalLimiter.Limiter.Acquire | internal/limits/local.go:215-281 | For any order of the scopes the method decides and changes what the specification does; a lease comes with an admission and only then |
| LocalLimiter.Limiter.GiveBack | internal/limits/local.go:362-375 | Releasing gives back one slot at each level and drops counters nobody needs |
| LocalLimiter.Limiter.Snapshot | internal/limits/local.go:284-321 | A snapshot shows and rolls what the specification does |
| LocalLimiter.Lease.Release | internal/limits/local.go:351-360 | A lease is given back at most once |
| Pricing.ChargeIsCeiling | internal/metering/price.go:58-75 | A charge is the exact ceiling, refused exactly when that passes 2^53-1 |
| Pricing.PriceIsMonotone | internal/metering/price.go:58-75 | A larger quantity never costs less and never turns a refusal into a charge |
| Pricing.FreeOnlyAtZeroRate | internal/metering/price.go:56-57 | A charge is zero exactly at a zero rate |
| Pricing.TotalExceedsByLessThanN | internal/metering/price.go:58-75 | The total of n facts is at least the exact price and exceeds it by less than n micros |
| Pricing.SplittingNeverSaves | internal/metering/price.go:58-75 | The total of facts at one rate is at least the price of the merged quantity |
| Pricing.ValidateRates | internal/metering/price.go:128-138 | Rates are accepted exactly when all are valid and their token types distinct |
| Pricing.FindRate | internal/metering/price.go:150-155 | The one rate of a token type is found exactly when there is one |
| Pricing.RateIsValidIff | internal/metering/price.go:79-87 | A rate is valid exactly if its amounts are in the exact range and its kind of token can be billed in its unit |
| MeteringSafety.EveryRunIsSafe | internal/meteringoutbox/relay.go:125-306 | Every run of executions, claims, deliveries, marks, crashes, sessions, commits and corrections keeps the pipeline's invariant |
| MeteringSafety.EveryRunChargesOnce | internal/meteringconsumer/processor.go:66-137 | After any run: published events are on the topic; receipts and ledger rows are paired, one per event, holding the event as reported and its exact price; every record below the committed offset has one; corrected values are in range |
| MeteringSafety.ProcessIsSafe | internal/meteringconsumer/processor.go:66-137 | A record of the topic is recognised exactly if priced, priced exactly if there is a price and no correction carries its identifier, in conflict exactly if there is a price and one does, and waits for a price otherwise |
| MeteringSafety.PricedAtLatestVersion | internal/meteringconsumer/processor.go:231-275 | A new row is priced at the latest version in force when the usage was seen |
| MeteringSafety.LostStaysLost | internal/meteringoutbox/relay.go:175-306 | A lease once lost on a row is lost in every later state |
| MeteringSafety.ReclaimedRelayIsPowerless | internal/meteringoutbox/relay.go:185-292 | After an event was reclaimed, in every later state of every run, a mark by the relay that had held it changes no row |
| MeteringSafety.ApplyIsSafe | internal/meteringadjustment/postgres.go:36-110 | A correction brings its target to exactly the values asked for, within range; a target is invalid exactly if it is a correction, the writer's other doubts about its own chain are idle; everything else appends nothing |
| MeteringSafety.ReplayAppendsNothing | internal/meteringadjustment/postgres.go:183-232 | Repeating a correction returns it and appends nothing |
| MeteringAnswers.StartIsExact | internal/execution/postgres.go:127-182 | An attempt starts exactly on an open request and under a new identifier, last among its attempts |
| MeteringAnswers.CompleteIsExact | internal/execution/postgres.go:237-330 | A completion records the usage it carries, with one event of that quantity for each positive dimension and for no other; one that cannot take effect changes nothing |
| MeteringAnswers.RepeatIsExact | internal/meteringadjustment/postgres.go:183-232 | A correction under a used key is the earlier one exactly if identifier, target, evidence and both results agree, and a conflict otherwise |
| MeteringAnswers.ApplyIsExact | internal/meteringadjustment/postgres.go:36-110 | Under a new key a correction changes nothing exactly if both current values are asked for, conflicts exactly if its identifier is taken, and else appends exactly the deltas to what is asked for; every other row stands where it did |
| MeteringAnswers.BadTargetIsExact | internal/meteringadjustment/postgres.go:124-157 | Any other target is invalid exactly if it is a correction that the caller can see, and else not found |
| MeteringAnswers.PriceIsExact | internal/meteringconsumer/processor.go:231-275 | An event is priced at the version that took effect last before its usage was seen, at the ceiling of its rate, exactly if that is in range |
| MeteringAnswers.NoPriceIsExact | internal/meteringconsumer/processor.go:231-275 | Without any version in force for it an event waits |
| MeteringAnswers.ForeignRecordIsExact | internal/meteringconsumer/processor.go:204-275 | In any state, a record whose request or deployment is not that of its attempt waits too, and one with a receipt is replayed exactly if it is equal to it |
| MeteringAnswers.ClaimIsExact | internal/meteringoutbox/relay.go:175-240 | A claim takes effect exactly if all it reclaims had run out and all it takes is available; it moves those rows and no others |
| MeteringAnswers.DeliveryIsExact | internal/meteringoutbox/relay.go:146-151 | A delivery puts the event in hand on the topic, whether or not the relay hears of it |
| MeteringAnswers.PublishedIsExact | internal/meteringoutbox/relay.go:269-277 | Only what the relay heard of is marked as published, and only under its lease |
| MeteringAnswers.RetryIsExact | internal/meteringoutbox/relay.go:279-292 | Only what it did not hear of is put back, once more, and only under its lease |
| MeteringAnswers.SessionIsExact | internal/meteringconsumer/kafka.go:123-161 | A session starts at the committed offset and commits past a record exactly once it is processed |
| MeteringCost.Ordered | internal/meteringcost/model.go:302-317 | Totals are listed in ascending order of currency exactly when all are within range |
| MeteringCost.SortFacts | internal/meteringcost/model.go:178-206 | Facts are bucketed and summed exactly when they are valid, distinct and of known attempts |
| MeteringCost.SortAttempts | internal/meteringcost/model.go:155-157 | The attempts are brought into the order of their numbers |
| MeteringCost.BuildRequestCost | internal/meteringcost/model.go:141-233 | Whatever order its attempts come in, a cost is built exactly for an orderly request with representable amounts, and reports them by attempt in number order, request level and in total |
| MeteringCost.TotalSplitsByAttempt | internal/meteringcost/model.go:183-206 | Per currency the total is the request-level total plus the attempt totals |
| MeteringAggregate.AggregateIsExact | internal/meteringcost/postgres.go:33-81 | The total per currency is the locked price of every priced dimension of every attempt plus all corrections; behind the barrier every positive dimension is priced if and only if no correction of the same attempt carries the identifier of one of the request's events |
| MeteringAggregate.BarrierIsTrueIff | internal/meteringcost/postgres.go:132-157 | Behind the barrier a request is complete if and only if no correction of the same attempt carries the identifier of one of its events, which the corrections alone tell |
| MeteringAggregate.PriceIsLocked | internal/meteringconsumer/processor.go:99-120 | Each of those prices is the ceiling at the rate stored with the row |
| MeteringAggregate.NeverNegative | internal/meteringcost/model.go:302-317 | The rows about any events add up to their current amounts, never below zero |
| MeteringAggregate.OnlyOverflowCanFail | internal/meteringcost/model.go:183-221 | In every reachable state the facts are in order and amounts are representable exactly when no currency total overflows |
| MeteringAggregate.FinishedForGood | internal/meteringcost/postgres.go:132-157 | Once a request is terminal, its attempts ended and its usage priced, it stays so in every later state, and its charges never change |
| MeteringAggregate.OnlyCorrectionsMoveTotals | internal/meteringcost/postgres.go:33-81 | From then on its totals move by the corrections appended since and nothing else |
| MeteringAnswers.UsageIsAsTold | internal/execution/postgres.go:237-330 | After any run an attempt has exactly the usage that its effective completion carried, and has ended exactly if there was one |
| MeteringAnswers.RunIsCharged | internal/meteringcost/postgres.go:33-81 | After any run the cost of a request in each currency is the charge for every positive dimension that its attempts' completions carried, plus its corrections; behind the barrier all of that is priced if and only if no correction stands in for an event |
| MeteringAnswers.ChargeIsForTheReport | internal/meteringconsumer/processor.go:99-120 | Each such charge is the price, rounded up, of the quantity that the completion carried, at the rate of a version in force when the usage was seen |
| MeteringIdentifiers.BarrierOpensEarly | internal/meteringcost/postgres.go:132-157 | A run from an empty system in which a correction carries the identifier of an unpriced event and the barrier of its request is open |
| MeteringIdentifiers.LatePriceConflicts | internal/meteringconsumer/processor.go:105-129 | There, the record of that event conflicts once it has a price |
| MeteringIdentifiers.CarriedIsNeverPriced | internal/meteringconsumer/processor.go:277-283 | In every later state of every run such an event is unpriced and its request unfinished |
| MeteringIdentifiers.CarriedStopsTheConsumer | internal/meteringconsumer/kafka.go:141-160 | If the record of such an event is on the topic, the committed offset and every session stay at or before it in every later state of every run |
| MeteringIdentifiers.CorrectionIsNoTarget | internal/meteringadjustment/postgres.go:151-156 | A correction of that correction is refused as an invalid target |
| MeteringStore.NewUsageEvents | internal/metering/event.go:77-132 | One event for each positive dimension, refused exactly when a dimension is out of range |
| MeteringStore.RetryDelay | internal/meteringoutbox/relay.go:308-320 | The delay is the doubled minimum capped at the maximum |
| MeteringStore.Store.ClaimBatch | internal/meteringoutbox/relay.go:175-267 | The claim transaction on the rows is the claim step |
| MeteringStore.Store.MarkAsPublished | internal/meteringoutbox/relay.go:269-277 | The guarded update is the published step and counts a row exactly when the lease still held |
| MeteringStore.Store.MarkForRetry | internal/meteringoutbox/relay.go:279-292 | The same for a retry |
| MeteringStore.Store.SelectRate | internal/meteringconsumer/processor.go:231-275 | The query finds the effective version |
| MeteringStore.Store.ProcessRecord | internal/meteringconsumer/processor.go:66-137 | The consumer transaction on the tables is the process step |
| MeteringStore.Store.Complete | internal/execution/postgres.go:237-330 | An attempt ends together with its usage events, and with its request unless it is retried |
| MeteringStore.Store.ApplyCorrection | internal/meteringadjustment/postgres.go:36-110 | The correction on the tables is the correction step |
| MeteringDrivers.RelayOnce | internal/meteringoutbox/relay.go:125-168 | The claimed events are relayed one after the other: published counts the acknowledged ones, which are published for good and on the topic, each other one is put back for the delay its own attempts call for, and the relay stops exactly at the first row that is no longer its own |
| MeteringDrivers.RelayingWell | internal/meteringoutbox/relay.go:139-166 | The same of every batch over every environment, as a property of the batch as a function |
| MeteringDrivers.RunSession | internal/meteringconsumer/kafka.go:123-161 | Record by record processed and then committed; every record committed is priced, and a session fails exactly at a record that has no price or whose identifier a correction carries |
| MeteringDrivers.OutboxComplete | internal/meteringcost/postgres.go:132-157 | As many joined as expected events means that all are joined; then, in every reachable state, all are priced if and only if no correction of the same attempt carries the identifier of one of them |
| MeteringDrivers.LoadLedger | internal/meteringcost/postgres.go:159-220 | Every row of the request is loaded once |
| MeteringDrivers.Aggregate | internal/meteringcost/postgres.go:33-81 | In every reachable state the aggregate is not found exactly for a missing request or one of another scope, pending exactly behind a closed barrier, and otherwise succeeds exactly when all attempts ended and what is due fits; then it reports what is due in all and by attempt, and the request is finished if and only if no correction of the same attempt carries the identifier of one of its events |
| Execution.EveryRunIsForward | internal/execution/postgres.go:81-330 | For any calls with any handles and lost replies, attempts stay numbered 1, 2, ..., terminal rows never change, and a succeeded attempt means a succeeded request |
| Execution.RecorderAllowsTwoOpenAttempts | internal/execution/postgres.go:127-182 | The recorder alone does not force earlier attempts to end |
| Execution.OneOpenIffDisciplined | internal/execution/postgres.go:127-182 | In every state of a run at most one attempt is open if and only if it is so at first and every start that takes effect meets only ended attempts |
| Execution.OutcomeIsValidIff | internal/execution/model.go:148-190 | An outcome is accepted exactly if it is a success without an error, or a failure with one whose request ends as its attempt did |
| Execution.MayEndIff | internal/execution/postgres.go:487-515 | Only an open attempt ends, and one that streams has a response and cannot just fail |
| Execution.RequestCallsAreExact | internal/execution/postgres.go:81-124 | Routing and failing take effect exactly on a fresh handle in a status that allows it |
| Execution.StartIsExact | internal/execution/postgres.go:127-182 | An attempt starts exactly on a fresh handle of a routing or running request, as the next of its attempts |
| Execution.StreamingIsExact | internal/execution/postgres.go:184-234 | An attempt is marked as streaming exactly while it connects |
| Execution.EndIsExact | internal/execution/postgres.go:237-330 | An attempt ends with its request, or alone to be tried again, exactly with fresh handles and an outcome that fits |
| Failover.OutcomesAreValid | internal/gateway/execution_record.go:108-162 | Every outcome the driver builds passes the recorder's validation and says what the failure was: cancelled for a cancellation, retryable for a timeout, a transport failure and a retryable provider error, failed for the rest |
| Failover.Recorder.Start | internal/execution/postgres.go:127-182 | The guarded update and insert are the start transition |
| Failover.Recorder.Complete | internal/execution/postgres.go:237-289 | Attempt and request end together or not at all |
| Failover.Recorder.CompleteThenRetry | internal/execution/postgres.go:291-330 | Only the attempt ends |
| Failover.Recorder.Fail | internal/execution/postgres.go:100-124 | The guarded update is the fail transition |
| Failover.SelectNext | internal/gateway/failover.go:274-300 | Selection avoids what was tried, and under different-deployment-only never returns it |
| Failover.MakeAttempt | internal/gateway/failover.go:139-207 | An attempt whose two calls are answered is on record as what it was, and so is the request: succeeded, ended as a table over the failure says, or retryably failed and tried again exactly if the policy wants it, the limit allows it and the decision was recorded; one that is not is broken off in an exactly known state |
| Failover.CancelledIff | internal/gateway/failover.go:329-346 | A request is cancelled exactly if its last attempt was, or if the caller had left when no route was found at first, or while the next attempt was waited for |
| Failover.Execute | internal/gateway/failover.go:102-246 | If and only if all the calls its course takes are answered, a request ends terminal with all attempts terminal, at most the maximum of them, every one but the last retryably failed and the last and the request on record as what they were, a response exactly if the request succeeded, no reuse under different-deployment-only, and exactly the deployments and result its course prescribes; otherwise it is refused, with exactly the attempts and the end that the first unanswered call allows; in no state of any run are two attempts open |
| StreamModel.NextIs | internal/openaiadapter/stream.go:138-200 | With nothing queued and the stream not done, exactly when a call fails and exactly when it ends |
| StreamRuns.EventIsTaken | internal/openaiadapter/stream.go:158-197 | An event is taken exactly if it is well formed for the phase and all it turns into is accepted, and then turns into exactly that |
| StreamRuns.CleanIff | internal/openaiadapter/stream.go:138-200 | A stream is read to its done marker without an error if and only if it is well formed and every chunk it turns into is accepted |
| StreamRuns.CleanIsFaithful | internal/openaiadapter/stream.go:235-389 | Events read without an error have left exactly the provider's deltas in order and one end made of its first finish and usage |
| StreamRuns.ChoiceIsRendered | internal/openaiadapter/stream.go:293-344 | A choice turns into a start exactly for the assistant's role, a content delta exactly for some content, and its tool calls, in this order |
| StreamRuns.EofIsFaithfulIff | internal/openaiadapter/stream.go:150-188 | Of a stream that ends after any errors, what was delivered is faithful to the provider if and only if every event that holds a delta can be read, has one good choice and has all that it turns into accepted, and the finish and usage noted are the first that the provider sent |
| StreamRuns.OutlineHolds | internal/openaiadapter/stream.go:235-389 | How many chunks are queued, which finish and usage are noted and whether the end was sent follow from guards on each event, taken or refused, and the end is made of what was noted |
| StreamRuns.LostIffOneLoses | internal/openaiadapter/stream.go:235-291 | Once the end was sent nothing is lost if no event loses a delta, the first finish or the first usage, and only then if the provider reports each once |
| StreamRuns.SeveralChoicesLose | internal/openaiadapter/stream.go:252-254 | A run past an event with several choices and any delta is never faithful |
| StreamRuns.TwoChoicesLose | internal/openaiadapter/stream.go:235-291 | Such a stream answers an error, the end and end-of-file, without a word of the two choices |
| StreamRuns.BlankErrorsLoseNothing | internal/openaiadapter/stream.go:235-291 | Refusing events that carry no delta, finish or usage loses nothing |
| StreamRuns.DoneWithoutFinish | internal/openaiadapter/stream.go:180-190 | A done marker without a finish: the call fails, the next one ends the stream, and what was delivered is not faithful |
| StreamRuns.DoneAlone | internal/openaiadapter/stream.go:180-190 | The stream of a done marker alone answers an error and then the end |
| StreamNormalizer.Stream.EnqueueTerminal | internal/openaiadapter/stream.go:365-389 | The terminal chunk is made of the pending finish and usage, which are then spent |
| StreamNormalizer.Stream.ParseChoice | internal/openaiadapter/stream.go:293-344 | A choice queues start, content and tool deltas up to the first that is bad or refused |
| StreamNormalizer.Stream.ParseData | internal/openaiadapter/stream.go:235-291 | A data event leaves behind what the specification says, refused or not |
| StreamNormalizer.Stream.Next | internal/openaiadapter/stream.go:138-200 | Each call, after errors too, delivers the next queued chunk or reads on; it fails exactly if after silent events the input breaks off or an event is refused, and ends exactly if after them the done marker follows the end |
| StreamNormalizer.Drain | internal/openaiadapter/stream.go:138-200 | A run is error-free exactly for a well-formed stream whose chunks are all accepted; then the chunks are numbered 0, 1, ..., exactly what the events up to the first done marker turn into, with the provider's deltas in order and one end with its finish and usage, followed by heartbeats |
| HealthScheduler.TakenIffNear | internal/activehealth/scheduler.go:173-187 | A due target is taken exactly when fewer than a batch are ahead of it |
| HealthScheduler.TakeIs | internal/activehealth/scheduler.go:173-187 | A batch holds no target twice, in order, the earliest due |
| HealthScheduler.BatchIsEarliest | internal/activehealth/scheduler.go:173-187 | In a batch, and before all that is due and not in it, comes what is due earlier, and at the same time the smaller identifier |
| HealthScheduler.NoStarvation | internal/activehealth/scheduler.go:167-193 | A due target with k ahead of it is taken by dispatch k / size + 1 whatever refreshes come between that list it unchanged after its due time, and at exactly that one without any |
| HealthScheduler.RefreshSpares | internal/activehealth/scheduler.go:136-153 | A refresh later than a target's due time that lists it unchanged leaves it in its place and puts nothing ahead of it |
| HealthScheduler.Scheduler.DispatchBatch | internal/activehealth/scheduler.go:173-193 | The selection and rescheduling loops take and move what the specification does |
| HealthScheduler.Scheduler.Refresh | internal/activehealth/scheduler.go:98-153 | Membership is replaced exactly when the list is bounded, valid and distinct; unchanged targets keep their place |
| HealthTracker.CountersAreRuns | internal/activehealth/tracker.go:230-249 | The counters are the trailing runs, capped |
| HealthTracker.TotalsAreCounts | internal/activehealth/tracker.go:230-249 | The totals count the probes and their results up to 2^64-1, and the last time is that of the last probe |
| HealthTracker.UnhealthyIffCondemned | internal/activehealth/tracker.go:200-252 | Unhealthy exactly when the history holds a failure run with no later recovery run, whatever saturates |
| HealthTracker.FindOldest | internal/activehealth/tracker.go:312-322 | Eviction picks the least recently observed target |
| HealthTracker.Tracker.Observe | internal/activehealth/tracker.go:200-252 | One probe extends one history, leaves all others alone, and evicts the oldest target only when all places are taken, counting the eviction up to saturation |
| HealthTracker.Tracker.Read | internal/activehealth/tracker.go:256-301 | An unknown target is healthy, a stale one is reported stale and healthy, any other is unhealthy exactly if its history condemns it |

## Left out

- The requests-per-minute script of the distributed limiter: the token script with an amount of one and no records, so it would only repeat easier members.
- Soft thresholds and the retry-after times that admissions report: derived from counters whose values are proved.
- Scanning, error wrapping, cancellation and context plumbing of the PostgreSQL, Redis and Kafka drivers: their effect is modelled as atomic guarded steps, row locks, unique keys and lost replies.
- Errors raised by single statements inside the reserve, settle and reap loops: in the interleavings any transaction may abort at any point, while the loops themselves end only as the tables decide.
- Database triggers and the unique key of the budget ledger table: the schema is not part of this model; only guards in the SQL text and the named reservation index are relied on.
- Partitions of the topic: one partition is modelled, with any number of sessions on it.
- JSON and canonicalization of usage events on the wire: records are the events themselves, so the default for a missing billing unit and the UTC conversion are not captured.
- Tenants in the metering tables: a project scope on the request stands for tenant and project together.
- The lookup of a correction's key before the target is locked: the correction is one step under the row lock, and races between different targets under one key fall to the event and key checks at that instant.
- Completion of an attempt whose estimated usage no longer matches its deployment's metadata: the refusal writes nothing, so it appears as a completion that does not happen.
- Streaming attempts of the gateway: the recorder's streaming transition is modelled, the handler that drives it is not.
- Failure classification inside the retry package beyond the attempt limit: an oracle that ranges over all decisions.
- Probe execution, worker concurrency and jitter of the health scheduler: cadence is any positive duration.
- The mock provider stream: the same machine as the one modelled.
- The line-by-line decoder of server-sent events: the stream is modelled from its results on; a block that it refuses carries what its lines held until then, and the lines after the refused one are the next event.
- BudgetOperations.LoadNextExpired: reads the tables at one instant, so rows locked or committed by others during the scan are not captured.
- RedisConcurrencyServer.Server.AcquireScript: an emptied sorted set stays as an empty set instead of a deleted key, which no reply can tell apart.
- MeteringStore.Store.ClaimBatch: takes the rows it managed to lock as arguments, so batch size and order of the two claim queries are not captured.
- Failover.Execute: the fresh handle is the stored row, so a request changed by somebody else between calls appears only as a call that failed.
