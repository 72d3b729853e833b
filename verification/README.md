# Capacity ledger: model and proofs

This project models the capacity reservation ledger of the cloud management plane and proves what its
design relies on: pool counters, customer quotas, requests with their lines, holds, dedications and
events, the idempotency index and its cache, and the sweeper with its advisory lock.

`dafny verify dfyconfig.toml` checks everything.

## How the model is built

The files come in five layers.

1. **Values.** `Domain` holds the record types, `Ledger` the meaning of each SQL statement and of the
   transactions built from them (`ReserveTx`, `RejectTx`, `ConfirmTx`, `ReleaseTx`, `ExtendTx`), and
   `Intake` the way from a request body to its fingerprint and its sorted plan. A transaction either
   commits or gives back the database it started from, as `WithinTx` in
   `internal/repository/postgres/db.go:46-60` does; the in-memory `Tx`, which does not roll back, is not
   followed. Idempotency is keyed by the pair (customer, key), as the schema's UNIQUE constraint is.
2. **The invariant** (`Invariant`, `Settle`, `Conservation`, `Reserve`). `DbOk` ties every counter to
   sums over the records, every request's child rows and audit trail to its status, and the index to the
   rows. `GoodBase` is the state it starts from: no requests yet, unique non-empty kinds, nothing
   reserved, dedicated within effective capacity, quotas within their limits.
3. **Runs.** `Interleaving` is a state machine in which any number of creates, confirms, cancels,
   extends and sweeps proceed at the grain of whole transactions; what a call read before its transaction
   may be arbitrarily old by the time it commits, a call may crash between its steps and any cache entry
   may be evicted at any moment. `Guarantees` states what holds after every such run. `Serial` and
   `Sweep` add what holds only when calls run one at a time. `Locks` goes down to the row locks of single
   statements, `Statements` to creates, rejections and confirms interleaved statement by statement under
   READ COMMITTED, `Progress` shows that these never block each other for good, `StaleList` to releases whose list of holds was overtaken, `AdvisoryLock` to the
   sessions behind the sweeper's lock, and `CacheFault` to the customers that share a cache text.
4. **Answers.** The functions of the first layer are the model, so what they mean is stated once more
   without them. `Answers` and `CreateAnswers` tell in the fields of the records, of the body and of the
   catalogue which calls change something, what exactly, and how every other call is answered, with the
   documented bounds as numbers. `Uninterrupted` proves that a call of `Interleaving` whose steps nothing
   interrupts does and answers what the serial call does, and states in fields what each read lets through
   and what each commit writes.
5. **Objects** (`Stores`, `Service`). The stores as mutable classes, one method per SQL statement, and
   the service as a class whose loops, early returns and rollbacks follow the code. Every method is
   proved equal to the function of layer 1 or to the serial call (`CreateCall`, `ConfirmCall`, ...) that
   the run theorems are about, and the transactions also to the lock sequence that `Locks` orders; the
   public calls also promise the answers of layer 4 outright.

A UUID is its big-endian value; `UuidOrder` proves that the order of the values, of the 16 bytes and of
the lower-case text of section 4 of RFC 9562 is one order. A hold's id is its request's id and an index,
and the request a create call inserts has the id of the call: both stand for fresh UUIDs. The body hash
is taken as injective, so a request stores the fingerprint itself.

## Where the code falls short of its description

- `README.md:72` of the repository says that conditional updates prevent races between confirm or cancel
  and expiry. `releaseReserved` discards the results of its updates
  (`internal/service/capacity.go:828`, `:855`). When its list of holds has been overtaken it subtracts
  from the pools, and refunds the quota, a second time. `StaleList.StaleReleaseConserves` gives the exact
  condition under which pools and quotas stay right: the request is still RESERVED, or every pool guard
  refuses and no quota row it refunds shows any use. `StaleList.DoubleCancelLosesAHold` is a concrete
  cancel overtaken by a cancel, and `StaleList.StaleCancelRefundsACompletedRequest` one overtaken by a
  confirm, where the pools stay right and the quota of a COMPLETED request is given back.
  `StaleList.AbortingReleaseIsSafe` is the repair the description implies. Cancel and expire are therefore
  claimed to conserve at the grain of transactions only; creates and confirms also at the grain of
  statements (`Statements.StatementsAreSerializable`).
- The bound check on a product template comes after a 64-bit multiplication
  (`internal/service/capacity.go:493-494`). `Arithmetic.CheckedRightBelowLimit` gives the exact bound on
  template values below which it is right, and `Arithmetic.WrappedProductIsAccepted` a value above it.
- The cache and the in-memory store file a pair under one joined text, so a customer can be answered with
  another customer's request: "a" uses the key "b:k", "a:b" then asks with the key "k" and the same body
  (`CacheFault.WrongCustomerIsAnswered`). `CacheFault.AnsweredForIff` says for which customers that can
  ever happen: exactly when one name extends the other by a colon. For every other customer the cache is
  transparent. The model's cache is keyed by the text, as in the code.

## Model

| member | source | states |
|---|---|---|
| Guarantees.CountersMatchRecords | internal/service/capacity.go:341-401 | After any interleaved run each pool's reserved_amount is the sum of its ACTIVE holds, dedicated_amount its initial value plus its dedications, and together the records never exceed effective capacity |
| Guarantees.QuotaMatchesRecords | internal/repository/postgres/quotas.go:49-81 | After any run used_amount is its initial value plus the customer's ACTIVE and DEDICATED holds of that kind, within the unchanged limit, and a charged key has a row |
| Guarantees.GuardsNeverSkip | internal/service/capacity.go:819-830 | After any run, at every hold the loops of confirm and release reach, the guard reserved_amount >= amount holds, the kind lookup hits and the refund's clamp at zero does not fire |
| Guarantees.CountersFitInt64 | internal/repository/memory/memory.go:82-87 | After any run no sum or difference formed by the next counter statement with an admissible amount leaves int64 |
| Guarantees.RecordsFollowStatus | internal/service/capacity.go:645-672 | After any run a request's hold statuses and its dedications are determined by its lines and status; dedications match the holds one by one in pool and amount |
| Guarantees.TerminalStatesAbsorb | internal/domain/helpers.go:17-30 | Between any two moments of a run a status stays or makes a permitted transition; a terminal request and all its records never change again; events are only appended |
| Guarantees.AuditTrailDeterminesStatus | internal/repository/postgres/requests.go:135-207 | After any run replaying a request's events gives its stored status, the events have the shape of that status, and extension_count is at most the number of extended events even when stale extends overwrite each other |
| Guarantees.ReplayIsTheGrammar | internal/repository/postgres/requests.go:109-189 | Event lists that replay to a status are exactly those matching "rejected" or "reserved extended* (confirmed, cancelled or expired)?" |
| Guarantees.ExpiryIsBounded | internal/service/capacity.go:719-749 | After any run expires_at = created_at + (1 + extension_count) * TTL, extension_count is at most MaxExtensions, expires_at is at most created_at + max(TTL, wall time), and an older reservation is overdue |
| Invariant.ExpiryClosedForm | internal/service/capacity.go:735-741 | The expiry built up extension by extension equals the closed form |
| Guarantees.PairNeverRebound | internal/repository/postgres/requests.go:91-96 | A (customer, key) pair names at most one request and is never bound to another |
| Guarantees.CreateReturnsItsRequest | internal/service/capacity.go:185-221 | A successful create returns a stored request of the same body filed under the text of its pair; when no stored customer is related to the caller, it is the request bound to that pair |
| Guarantees.CreatesAgree | internal/service/capacity.go:185-221 | All successful creates of a pair return the same stored request, had the same body, and at most one of them inserted it, whether the racers were reserved or rejected; the customer must not be related to another stored one, and `CacheFault.AnsweredForIff` shows that this is exact |
| Guarantees.FailedCreateLeavesNothing | internal/service/capacity.go:202-213 | A create that failed has inserted no request |
| Guarantees.BoundPairChangesNothing | internal/service/capacity.go:244-259 | Once a pair is bound, no step of any create for it changes the database, whatever its body |
| Guarantees.ReplayFindsTheWinner | internal/service/capacity.go:244-259 | After any run the lookup after a lost insert finds the winner: it answers with that request or refuses the different body, and never reports it missing |
| Guarantees.CacheIsTransparent | internal/service/capacity.go:261-286 | After any run with any evictions every entry points at a stored request whose pair has that text, and for a customer not related to another stored one the lookup through the cache gives what the store alone gives |
| Guarantees.ReleaseUndoesReserve | internal/service/capacity.go:798-858 | Reserving and then cancelling or expiring restores every pool exactly and every quota up to newly created default rows |
| Interleaving.RunOk | internal/service/capacity.go:171-222 | The invariant on database, cache and what every call in flight knows holds after every run |
| Interleaving.RunForward | internal/repository/postgres/requests.go:138-207 | From any moment of a run to a later one rows only move forward and bindings stay |
| Interleaving.NextIsSafe | internal/service/capacity.go:171-222 | Every single step of every kind of call keeps the invariant |
| Interleaving.CallFrame | internal/service/capacity.go:688-704 | What a call has read stays usable under any steps of others: a stale snapshot still names the right customer and creation time and an expiry in closed form |
| Conservation.ReservedIsCovered | internal/service/capacity.go:645-648 | For a RESERVED request every pool and quota holds at least what its holds add up to |
| Conservation.ConfirmExact | internal/service/capacity.go:639-674 | Confirm commits iff the request is RESERVED, and then moves exactly the sum of its holds from reserved to dedicated on each pool |
| Conservation.ConfirmKeepsInvariant | internal/service/capacity.go:639-674 | Confirm keeps the invariant |
| Conservation.ReleaseExact | internal/service/capacity.go:798-858 | A release subtracts and refunds exactly what create consumed if the request is RESERVED, and changes nothing otherwise |
| Conservation.ReleaseKeepsInvariant | internal/service/capacity.go:798-858 | A release keeps the invariant |
| Conservation.ExtendKeepsInvariant | internal/repository/postgres/requests.go:191-207 | An extend computed from a stale snapshot keeps the invariant, including the closed form of the expiry |
| Conservation.WriteKeepsInvariant | internal/repository/postgres/requests.go:82-207 | Writing one row keeps the invariant when the counters move by exactly the change in that row's shares |
| Settle.ListedHolds | internal/repository/postgres/requests.go:269-289 | The ACTIVE holds listed for a request are all its holds, in ascending pool order, if it is RESERVED and none otherwise |
| Settle.ReleaseAllExact | internal/repository/postgres/pools.go:64-73 | The guarded release loop subtracts exactly the sum of a covered list |
| Settle.MoveAllExact | internal/repository/postgres/pools.go:76-87 | The guarded move loop moves exactly the sum of a covered list |
| Settle.RefundAllExact | internal/repository/postgres/quotas.go:72-81 | The refund loop gives back exactly what the list charges |
| Settle.KindByPoolHits | internal/service/capacity.go:810-813 | The table built from the lines has each line's kind at its pool |
| Settle.MarkListed | internal/repository/postgres/requests.go:292-300 | Updating every listed hold succeeds for each and leaves all holds in the new status |
| Reserve.LoopRefinesSimultaneousCheck | internal/service/capacity.go:341-368 | The sequential loop succeeds iff every line fits its pool and its quota (or the default limit) in the state before it, then adds each amount once; otherwise it stops at the first line that does not fit, with that line's reason |
| Reserve.LineOrderIsIrrelevant | internal/service/capacity.go:298-325 | The order of the lines decides neither whether a reservation succeeds nor what it writes |
| Reserve.ReserveKeepsInvariant | internal/service/capacity.go:327-411 | The reserve transaction keeps the invariant |
| Reserve.RejectKeepsInvariant | internal/service/capacity.go:413-463 | Persisting a rejection outside the rolled-back transaction keeps the invariant, counters included |
| Reserve.StoppedStays | internal/service/capacity.go:347-354 | A loop that has refused a line returns the same refusal whatever follows |
| Intake.FingerprintCanonical | internal/service/capacity.go:567-594 | Two bodies have equal fingerprints iff they name the same product and normalised quantity or are permutations of the same lines |
| Intake.SortSorts | internal/service/capacity.go:580-585 | Sorting by kind and amount gives a sorted permutation |
| Intake.SortedUnique | internal/service/capacity.go:580-585 | A sorted list is determined by its multiset, so every correct sort gives the same fingerprint |
| Intake.PlanUnique | internal/service/capacity.go:298-325 | For given amounts and pools there is at most one plan, whatever order the map is visited in |
| Intake.EqualFingerprintsSamePlan | internal/service/capacity.go:298-325 | Bodies with equal fingerprints come to the identical sorted plan against the same catalogue |
| Intake.PlanIsOk | internal/service/capacity.go:477-554 | A plan built from a validated body has positive bounded amounts, pools of the right kinds and ascending pool ids |
| Intake.RefusedIffUnplannable | internal/service/capacity.go:304-322 | The plan loop has a line to refuse iff some kind has no pool its amount is aligned to |
| Intake.PlannedIsNotRefused | internal/service/capacity.go:304-322 | Amounts that have a plan are refused in no order of the map |
| Arithmetic.CheckedRightBelowLimit | internal/service/capacity.go:488-500 | The check after the 64-bit product is right for all template values up to a bound and all valid quantities iff the bound is below WRAP_LIMIT, which lies above 2^53 - 1 and below 2^63 - 1 |
| Arithmetic.ResolveIsExact | internal/service/capacity.go:477-503 | Below that limit resolving a product accepts exactly when all true products are in [1, 2^53 - 1] and yields the true products |
| Arithmetic.WrappedProductIsAccepted | internal/service/capacity.go:493-494 | A template value above the limit whose wrapped product is accepted |
| Serial.SerialRunOk | internal/service/capacity.go:171-222 | Serial runs keep the invariant, exact extension counts and the active-hold cap |
| Serial.CapAndCounts | internal/service/capacity.go:224-242 | On serial runs with a positive limit a customer never has more RESERVED requests with ACTIVE holds than the limit, and extension_count equals the number of extended events |
| Serial.DoSafe | internal/service/capacity.go:688-753 | Every serial call keeps those properties |
| Sweep.TickExpiresTheBatch | internal/service/capacity.go:755-796 | A tick expires exactly the listed min(100, overdue) requests, returns that count, leaves every other request as it was and the rest of the backlog overdue |
| Sweep.TickSkipsFailures | internal/service/capacity.go:775-787 | Whatever requests fail, a tick expires and counts exactly the others of its batch and keeps the invariant |
| Sweep.TicksDrainTheBacklog | internal/service/capacity.go:755-796 | k ticks take 100 * k off the backlog until it is empty |
| Sweep.NothingStaysPinned | internal/service/capacity.go:739-741 | After ceil(overdue / 100) ticks no reservation older than max(TTL, wall time) is RESERVED |
| Sweep.ShownIsAdmitted | internal/domain/types.go:80-113 | With a free pair a plan commits iff each amount is at most the shown Available, or min(Available, 10000) where the customer has no quota row |
| Sweep.CallAdmitsWhatIsShown | internal/service/capacity.go:145-155 | The same for a whole create call past the replay and cap checks: its new request is RESERVED iff every amount is within what is promised and REJECTED otherwise |
| Answers.ConfirmAnswers | internal/service/capacity.go:619-686 | A confirm changes something iff the row exists, is RESERVED and now is before its expiry: then it is COMPLETED, every hold dedicated with a dedication of its pool and amount, one event appended, exactly its amounts moved on each pool and nothing else touched; every other confirm changes nothing and is answered with the request (COMPLETED), expired, conflict or not found |
| Answers.CancelAnswers | internal/service/capacity.go:688-709 | A cancel of a RESERVED request leaves it CANCELLED with all holds RELEASED and one event, and gives back exactly its amounts to each pool and each quota; every other cancel changes nothing, and each answer is fixed |
| Answers.ReleaseIs | internal/service/capacity.go:798-858 | A release does that to a RESERVED request with the hold status and event of its kind, CANCELLED or EXPIRED, and nothing to any other |
| Answers.ExtendAnswers | internal/service/capacity.go:711-753 | An extend succeeds iff the request is RESERVED, now is before its expiry, its count is below the limit and one more TTL stays within the wall time; it then writes that expiry, the count plus one and an event; each refusal is that of the first condition that fails |
| Answers.ListingAnswers | internal/repository/postgres/requests.go:209-228 | Every listed id is RESERVED with an expiry before now, earliest first, none left out that expires earlier, and all such ids are listed if the limit is not reached |
| Answers.TickAnswers | internal/service/capacity.go:755-796 | A tick moves exactly the listed requests that do not fail to EXPIRED, at most 100 and all past their expiry, counts them, and leaves every request that is not past its expiry as it was |
| Answers.EveryTickAnswers | internal/service/capacity.go:755-796 | The listing is as described on any state, the tick on any state with the invariant |
| Answers.CallsAnswer | internal/service/capacity.go:619-753 | Confirm, cancel and extend are answered so on every state with the invariant, whatever it started from |
| Answers.BatchExists | internal/repository/postgres/requests.go:209-228 | Every table has a batch as the listing promises it |
| Answers.TicksExist | internal/service/capacity.go:755-796 | Any number of ticks can be made, so the drain of the backlog is not an empty promise |
| CreateAnswers.RefusesBadInput | internal/service/capacity.go:171-180 | Validation accepts exactly a key, a customer and a body within the documented numbers; anything else is refused without effect with the reason of the first check that fails |
| CreateAnswers.ReplayAnswers | internal/service/capacity.go:244-296 | A create whose pair a stored row has changes nothing and returns that row iff its fingerprint is the body's, else it is refused for the reused key; so is the lookup after a lost insert |
| CreateAnswers.ReplayComparesBodies | internal/service/capacity.go:288-296 | Whether it is returned is a comparison of the two bodies as sent: product and effective quantity, or the lines as a multiset |
| CreateAnswers.NothingFound | internal/service/capacity.go:261-286 | When no row has the pair both lookups find nothing |
| CreateAnswers.CheckComparesBodies | internal/service/capacity.go:261-296 | Through any valid cache: what is returned is a stored row of the pair's text made from the same body, a refusal names a row of that text with a different one, and nothing is found only if no row has the pair |
| CreateAnswers.PlanAnswers | internal/service/capacity.go:298-325 | A plan has ascending pools and distinct kinds, each line on the pool of its kind, within the bounds and a whole number of grains, with exactly the amounts of the body's lines or of the template times the quantity in 64-bit arithmetic |
| CreateAnswers.RefusalAnswers | internal/service/capacity.go:304-322 | A body without a plan is refused for an unknown product, no lines, a template amount out of bounds, a wanted kind without a pool, or a wanted amount off its pool's grain |
| CreateAnswers.CreateAnswers | internal/service/capacity.go:185-222 | A create of a pair no row has: refused over the cap or without a plan; RESERVED iff every line has room, created now, due one TTL later, with one ACTIVE hold per line and each pool and quota charged its amount; else REJECTED for the first line without room, for capacity before quota, with no counter touched |
| CreateAnswers.CallAnswers | internal/service/capacity.go:171-222 | All of these in one statement for every create |
| CreateAnswers.ActiveRequestsAre | internal/repository/postgres/requests.go:302-315 | What counts against the cap is exactly the customer's RESERVED requests with an ACTIVE hold |
| CreateAnswers.CapInRecords | internal/service/capacity.go:224-242 | On serial runs no set of such requests of one customer is larger than the limit |
| Uninterrupted.CreateIsSerial | internal/service/capacity.go:171-222 | The steps of an interleaved create, run without interruption, end with the database and the answer of the serial create for what the idempotency check found through the cache |
| Uninterrupted.ConfirmIsSerial | internal/service/capacity.go:619-686 | So do the steps of a confirm |
| Uninterrupted.CancelIsSerial | internal/service/capacity.go:688-709 | So do the steps of a cancel |
| Uninterrupted.ExtendIsSerial | internal/service/capacity.go:711-753 | So do the steps of an extend |
| Uninterrupted.SweepIsSerial | internal/service/capacity.go:755-796 | So do the steps of a sweep over any listed batch |
| Uninterrupted.ConfirmGate | internal/service/capacity.go:619-637 | In any run a confirm goes on to its transaction iff the row it read is RESERVED and not yet due |
| Uninterrupted.CancelGate | internal/service/capacity.go:688-704 | In any run a cancel goes on iff the row it read is RESERVED |
| Uninterrupted.ExtendGate | internal/service/capacity.go:711-741 | In any run an extend goes on iff the row it read meets the four conditions |
| Uninterrupted.SweepGate | internal/service/capacity.go:766-774 | In any run a sweep takes up at most 100 requests, all RESERVED and past their expiry when listed |
| Uninterrupted.ConfirmCommitWrites | internal/service/capacity.go:639-678 | In any run the confirm transaction completes everything iff the request is still RESERVED, else nothing and a conflict |
| Uninterrupted.CancelCommitWrites | internal/service/capacity.go:704-709 | In any run the cancel transaction releases everything iff the request is still RESERVED, else nothing, and reports success either way |
| Uninterrupted.SweepCommitWrites | internal/service/capacity.go:775-791 | In any run the sweeper's transaction expires the request iff it is still RESERVED, else nothing |
| Uninterrupted.ExtendCommitWrites | internal/service/capacity.go:742-749 | In any run an extend writes what it computed from the row as read iff that is still RESERVED, else nothing and a conflict |
| Locks.CreateInOrder | internal/service/capacity.go:342-368 | A create takes its row locks in strictly ascending order |
| Locks.ConfirmInOrder | internal/service/capacity.go:645-666 | A confirm takes its row locks in strictly ascending order |
| Locks.ReleaseInOrder | internal/service/capacity.go:819-850 | A release takes its row locks in strictly ascending order |
| Locks.OneLayoutServesAll | internal/repository/postgres/requests.go:269-273 | One order of pools, quotas and holds serves all transactions of a run |
| Locks.NoWaitCycle | internal/service/capacity.go:34 | Running transactions with ascending locks have no wait-for cycle of any length |
| Locks.SomeoneCanStep | internal/service/capacity.go:34 | While any transaction runs, some transaction can take its next step |
| Locks.GrantDecreases | internal/repository/postgres/db.go:46-60 | Each step lowers the number of locks left, and is bounded below |
| Locks.EveryScheduleEnds | internal/repository/postgres/db.go:46-60 | Every schedule is bounded by the locks left, and one that is stuck has finished every transaction |
| Locks.ServiceNeverDeadlocks | internal/service/capacity.go:323 | Any creates, confirms and releases of a run, with lists read at different times and rollbacks anywhere, always all complete under every schedule |
| Locks.SomeScheduleFinishes | internal/repository/postgres/db.go:46-60 | From every state there is a schedule that finishes every transaction |
| UuidOrder.ThreeOrdersAgree | internal/service/capacity.go:323 | The order of UUID.String() is the byte order Postgres uses and the order of the values |
| StaleList.StaleReleaseConserves | internal/service/capacity.go:819-830 | A release on an overtaken list keeps the whole invariant iff the request is still RESERVED, or every listed pool's guard refuses and every quota row it refunds shows no use |
| StaleList.OvertakenRelease | internal/service/capacity.go:819-830 | For a request that has moved on: the pools stay conserved iff every guard refuses, the quotas iff nothing is used, and no record changes |
| StaleList.CompletedIsRefunded | internal/service/capacity.go:823-827 | A release on a list that a confirm has overtaken always breaks the quota ledger, whatever the pool guards do |
| StaleList.ConfirmThenStaleRelease | internal/service/capacity.go:798-858 | On any database: listing, then a committed confirm, then the release refunds the whole charge of the COMPLETED request |
| StaleList.StaleCancelRefundsACompletedRequest | internal/service/capacity.go:823-830 | A concrete confirm and cancel after which the pools are right and the quota of a COMPLETED request reads zero |
| StaleList.DoubleCancelLosesAHold | internal/service/capacity.go:828-855 | A concrete pair of overlapping cancels after which the counter misses an ACTIVE hold |
| StaleList.DoubleCancel | internal/service/capacity.go:819-855 | On any database two releases on one list subtract twice and break conservation whenever the counter covers the amount twice |
| StaleList.StaleConfirmIsSafe | internal/service/capacity.go:649-672 | Confirm's writes on any earlier list keep the invariant and commit iff the request is still RESERVED |
| Statements.StatementsAreSerializable | internal/service/capacity.go:639-674 | Any statement-by-statement interleaving of creates, rejections and confirms, with lists however old, ends in the state of the committed transactions run one after another in commit order, each of which commits there too, and keeps the invariant |
| Statements.CreateCommits | internal/service/capacity.go:341-401 | At its commit a create's buffered writes are exactly those of the whole transaction on the database as it is then |
| Statements.ConfirmCommits | internal/service/capacity.go:644-672 | At its commit a confirm's buffered writes are exactly those of the whole transaction then, and the request is still RESERVED |
| Statements.StatementKeeps | internal/service/capacity.go:342-368 | Every statement keeps what its transaction relies on: guards passed, rows locked, values written |
| Statements.CreateTouches | internal/repository/postgres/db.go:46-60 | A create's commit leaves alone every row another transaction has locked |
| Statements.ConfirmTouches | internal/repository/postgres/db.go:46-60 | So does a confirm's; two confirms of one request past their first hold share a lock |
| Statements.StatementsFollowLocks | internal/service/capacity.go:323 | The statements ask for their locks in the sequences of `Locks`, so its deadlock freedom covers these runs |
| Statements.StatementDecides | internal/service/capacity.go:342-368 | A statement aborts its transaction exactly when what is committed refuses it: no room in pool or quota, the pair taken, the hold no longer ACTIVE, the request no longer RESERVED |
| Statements.CreateRunsAlone | internal/service/capacity.go:341-401 | A create's statements on their own commit exactly when the whole transaction does and with its result, else they leave what was there |
| Statements.ConfirmRunsAlone | internal/service/capacity.go:639-674 | So do a confirm's |
| Progress.SomeoneGetsOn | internal/service/capacity.go:323 | After any statement-by-statement run that leaves transactions open, one of them does not wait for a lock, and its turn leaves fewer statements to run |
| Progress.EveryRunCanEnd | internal/repository/postgres/db.go:46-60 | From any such run the open transactions can all be brought to their end without starting a new one |
| StaleList.AbortingReleaseIsSafe | README.md:70-72 | A release that rolled back on a lost hold update, which the service does not do, would keep the invariant on any earlier list |
| AdvisoryLock.AtMostOneSweeper | internal/repository/postgres/locker.go:23-58 | On every run of any number of Lockers at most one has a pinned connection, the lock is held by exactly that session and once, and by none in the pool |
| AdvisoryLock.MoveKeeps | internal/repository/postgres/locker.go:23-58 | Every step of a Locker or of the connection pool keeps that |
| AdvisoryLock.TryLockIsMoves | internal/repository/postgres/locker.go:23-45 | The contract of TryLock is what its moves do to that machine, on any connection the pool may hand out, and nothing else changes |
| AdvisoryLock.UnlockIsMoves | internal/repository/postgres/locker.go:47-58 | The contract of Unlock is what its moves do to that machine |
| AdvisoryLock.GrantedIffNobodySweeps | internal/repository/postgres/locker.go:23-45 | On every run a free Locker is granted the lock exactly when no Locker is sweeping |
| AdvisoryLock.UnlockFrees | internal/repository/postgres/locker.go:47-58 | On every run the Unlock of the sweeping Locker leaves the lock without owner |
| AdvisoryLock.Locker.TryLock | internal/repository/postgres/locker.go:23-45 | False without effect when a connection is already pinned or none can be had; otherwise it pins the connection iff the session gets the lock |
| AdvisoryLock.Locker.Unlock | internal/repository/postgres/locker.go:47-58 | Gives one level back on the pinned session and forgets the connection; without one it does nothing |
| CacheFault.AnsweredForIff | internal/repository/redisx/redis.go:69-71 | Some run answers a create of one customer with a request of another iff one of the two names extends the other by a colon |
| CacheFault.WrongCustomerIsAnswered | internal/service/capacity.go:261-273 | A run in which customer "a:b" with key "k" is answered with the request customer "a" created with key "b:k" |
| CacheFault.SecondCreate | internal/service/capacity.go:261-286 | For any two pairs of one text: the second customer's create returns the first's request, while the store alone finds none |
| CacheKey.SameText | internal/repository/redisx/redis.go:69-71 | Pairs of customers that are not related share a text only if they are one pair |
| CacheKey.CollisionIff | internal/repository/redisx/redis.go:69-71 | Two customers can share a joined cache text iff one name extends the other by a colon |
| CacheKey.InjectivePerCustomer | internal/repository/memory/memory.go:277-279 | One customer's keys never collide |
| Stores.PoolStore.GetByKind | internal/repository/postgres/pools.go:37-49 | Returns a pool of the kind, or None only when there is none |
| Stores.PoolStore.TryReserve | internal/repository/postgres/pools.go:52-62 | Adds the amount iff it fits what is left of effective capacity, otherwise changes nothing; locks the pool row |
| Stores.PoolStore.ReleaseReserved | internal/repository/postgres/pools.go:64-73 | Subtracts the amount if reserved_amount covers it, otherwise changes nothing |
| Stores.PoolStore.MoveReservedToDedicated | internal/repository/postgres/pools.go:76-87 | Moves the amount if reserved_amount covers it, otherwise changes nothing |
| Stores.QuotaStore.TryConsume | internal/repository/postgres/quotas.go:49-59 | Charges an existing row iff the amount fits, otherwise changes nothing |
| Stores.QuotaStore.EnsureAndTryConsume | internal/repository/postgres/quotas.go:61-70 | Creates a missing row with the default limit, then charges it iff the amount fits |
| Stores.QuotaStore.Release | internal/repository/postgres/quotas.go:72-81 | Lowers used_amount, not below zero, if the row exists |
| Stores.RequestStore.FindByIdempotency | internal/repository/postgres/requests.go:19-32 | The stored request of that customer and key, or None only when no row has them |
| Stores.RequestStore.Create | internal/repository/postgres/requests.go:82-136 | Inserts the request with its child rows and binding iff neither its id nor its pair is taken |
| Stores.RequestStore.ListActiveHolds | internal/repository/memory/memory.go:423-433 | Exactly the ACTIVE holds, in stored order |
| Stores.RequestStore.UpdateHoldStatus | internal/repository/memory/memory.go:435-450 | True iff the hold exists in the expected status; then exactly that hold changes |
| Stores.RequestStore.Confirm | internal/repository/postgres/requests.go:138-163 | Completes a RESERVED request with its dedications and event, otherwise false without effect |
| Stores.RequestStore.MarkTerminal | internal/repository/postgres/requests.go:173-189 | Ends a RESERVED request with its event, otherwise false without effect |
| Stores.RequestStore.Extend | internal/repository/postgres/requests.go:191-207 | Overwrites expiry and count of a RESERVED request with its event, otherwise false without effect |
| Stores.RequestStore.ListExpiredIDs | internal/repository/postgres/requests.go:209-228 | Distinct RESERVED requests with an expiry before now, as many as the limit allows, sorted by expiry, none left out that expires earlier |
| Stores.CountActiveHoldsByCustomer | internal/repository/postgres/requests.go:302-315 | The number of the customer's RESERVED requests with an ACTIVE hold |
| Stores.HasActiveHold | internal/repository/memory/memory.go:460-465 | True iff the list of ACTIVE holds is not empty |
| Service.ValidateCreateInput | internal/service/capacity.go:513-554 | Accepts exactly the valid bodies: quantity bounds and no lines with a product, else at most 50 distinct named kinds with amounts in [1, 2^53 - 1] |
| Service.ComputeBodyHash | internal/service/capacity.go:567-594 | The canonical fingerprint, from any correct sort |
| Service.ResolveProduct | internal/service/capacity.go:488-500 | The wrapped products if all are in bounds, refused otherwise, whatever the order of the template |
| Service.ResolveLines | internal/service/capacity.go:477-511 | The amounts per kind or the refusal for an unknown product, out-of-bounds product or empty body |
| Service.SortByPool | internal/service/capacity.go:323 | The same lines in strictly ascending pool order |
| Service.BuildHolds | internal/service/capacity.go:874-888 | One ACTIVE hold per plan line with its pool and amount |
| Service.CapacityService.BuildReservationPlan | internal/service/capacity.go:298-325 | The unique sorted plan of the resolved amounts, or a refusal that a kind without pool or a misaligned amount justifies |
| Service.CapacityService.ReserveWithinTx | internal/service/capacity.go:327-411 | The loop with its early refusals, the inserts and the rollback are the reserve transaction; the row locks it takes are the create sequence or a prefix of it |
| Service.CapacityService.Rollback | internal/repository/postgres/db.go:46-60 | Restores pools, quotas, requests and bindings to the state at the start of the transaction |
| Service.CapacityService.PersistRejected | internal/service/capacity.go:413-463 | Inserts the REJECTED request iff its id and pair are free |
| Service.CapacityService.CheckIdempotentReplay | internal/service/capacity.go:261-296 | The answer through the text-keyed cache with its write-back; for a customer not related to another stored one, the answer of the store alone |
| Service.CapacityService.ReplayAfterDuplicate | internal/service/capacity.go:244-259 | The stored request, the refusal of a different body, or a conflict when none is found |
| Service.CapacityService.EnforceActiveHoldsLimit | internal/service/capacity.go:224-242 | Refuses iff the limit is positive and reached |
| Service.CapacityService.Create | internal/service/capacity.go:171-222 | The whole call, in the code's order of checks, is the serial create with the plan it built and the answer of the idempotency check, which is the store's for a customer not related to another stored one; for such a customer the effect and the answer are those of `CreateAnswers.CallAnswers` |
| Service.CapacityService.ReserveLine | internal/service/capacity.go:342-368 | The pool statement and then the quota statement of one line, with the reason of the one that refuses and the locks taken so far |
| Service.CapacityService.InsertReserved | internal/repository/postgres/requests.go:82-110 | The inserts of a reservation, or a rollback to the snapshot when id or pair is taken |
| Service.CapacityService.WriteCreate | internal/service/capacity.go:198-216 | Reservation, rejection outside the rolled-back transaction and both replays are the serial ones |
| Service.CapacityService.CreateFresh | internal/service/capacity.go:198-221 | The same with the cache write of recordOutcome, after which every entry still names a request of its text |
| Service.CapacityService.DedicateHolds | internal/service/capacity.go:644-666 | The confirm loop stops exactly at the first hold that has moved on; otherwise pools, holds and dedications are those of the fold over the list |
| Service.CapacityService.ConfirmWithinTx | internal/service/capacity.go:639-674 | The loop with its aborts, the status update and the rollback are the confirm transaction, with its lock sequence |
| Service.CapacityService.Confirm | internal/service/capacity.go:619-686 | The whole call is the serial confirm; on every state with the invariant its effect and answer are those of `Answers.ConfirmAnswers` |
| Service.CapacityService.KindsByPool | internal/service/capacity.go:810-813 | The loop builds the lookup table from the lines |
| Service.CapacityService.ReleaseHolds | internal/service/capacity.go:819-831 | The release loop leaves pools, quotas, holds and locks as the fold over the list |
| Service.CapacityService.ReleaseReserved | internal/service/capacity.go:798-858 | The loops and the status update are the release transaction, with its lock sequence |
| Service.CapacityService.Cancel | internal/service/capacity.go:688-709 | The whole call is the serial cancel; on every state with the invariant its effect and answer are those of `Answers.CancelAnswers` |
| Service.CapacityService.NextExpiry | internal/service/capacity.go:719-741 | The new expiry, or the refusal the code's order of checks gives |
| Service.CapacityService.Extend | internal/service/capacity.go:711-753 | The whole call is the serial extend; on every state with the invariant its effect and answer are those of `Answers.ExtendAnswers` |
| Service.CapacityService.ExpireEach | internal/service/capacity.go:774-791 | The sweeper's loop releases and counts each listed request that exists and whose read and release do not fail |
| Service.CapacityService.ExpireDue | internal/service/capacity.go:755-796 | With the lock it expires one batch, earliest expiry first, except the requests for which the store fails, returns the count and lets the lock go; the batch and the effect are those of `Answers.EveryTickAnswers`; without the lock or the list nothing changes and the count is zero |

## Left out

- StaleList.AbortingReleaseIsSafe: describes a release the service does not have; conservation of cancel and expire at the grain of single statements is false of the code, see `StaleList.StaleReleaseConserves`.
- Guarantees.CountersMatchRecords: stated at the grain of transactions and from a state with no requests; capacity dedicated at the start is allowed.
- Guarantees.CacheIsTransparent: claimed for customers not related to another stored one, because it is false of the others, see `CacheFault.AnsweredForIff`; `Guarantees.CreatesAgree` carries the same condition.
- Statements.StatementsAreSerializable: covers creates, rejections and confirms; cancel and expire are not serializable at that grain, see `StaleList.StaleReleaseConserves`, and extend, a single statement, is left to `Interleaving`.
- Serial.CapAndCounts: the cap is not claimed for interleaved runs, because the count is read outside the transaction; "a successful cancel returns CANCELLED" and "a just-extended request is not expired" are left out for the same kind of reason.
- Sweep.NothingStaysPinned: for ticks that get the lock, see no store error and read one clock value.
- Locks.ServiceNeverDeadlocks: foreign-key share locks, and locks of the single-statement extend and rejection, are not modelled; neither waits while holding another contended lock.
- Service.CapacityService.ConfirmWithinTx: assumes the request row exists, which its caller has read and which is never deleted.
- Stores.RequestStore.ListActiveHolds: returns stored order; that this is the order by pool id is proved from the invariant in `Settle.ListedHolds`.
- Store errors outside the sweeper appear only as a call that stops between two of its steps; failures of BEGIN and COMMIT are rollbacks.
- Extend's UPDATE with its event, and the three inserts of a rejection, are single steps; a crash between them is not modelled.
- The body hash is injective and ids are fresh by assumption; rows with an empty stored hash from before that column existed are not part of the starting state.
- Effective capacity is a fixed integer per pool; the floating-point factor, totals and policies never change in the service.
- Not recorded: product id, quantity, correlation id, updated_at, the ids, reasons and times of events, and error messages and details.
- The reads after a transaction that only format the answer.
- Cache expiry times and the capacity view cache, which some calls invalidate only under the key "all".
- HTTP, JSON, metrics, logging, configuration, migrations, product and request listings: no hard property.
