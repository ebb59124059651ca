# Verified model of the e-commerce services

Dafny models of five parts of a microservices shop, with proofs about whole runs of them: the stock reservation
protocol of the inventory service, the category hierarchy of the orders service, its circuit breaker, the rate
limiters of three services, and the outbox processor. `dafny verify dfyconfig.toml` checks the project.

Code that changes state step by step is modelled by classes and methods proved equal to functions on values; the
theorems about those functions are lemmas. What several clients do to shared state is a state machine whose steps are
the single accesses to a store, and the theorems speak about every sequence of steps.

## The parts

**Stock reservations** (inventory service, Go). `InventoryItems` and `Reservations` are the entities, with Go's 64-bit
wrap-around and the 32-bit columns and CHECK constraints of the migrations. `Repositories` are the two tables.
`UseCaseRules` states once what reserve, confirm, release, restock, decrement and both expiry paths do; `UseCases` and
`ExpiryBatch` are the imperative forms. Two regimes are kept apart:

- *Interleaved* (`Interleaving`, `InterleavingProofs`, `InterleavingTheorems`, `Interruptions`, `SoloRuns`, `SoloCache`,
  `Settlements`, `ReservedDrift`): any number of clients take turns between reading the reservation, reading the cache, reading the
  item, filling the cache, the compare-and-swap of the item row, invalidating the cache and writing the reservation row;
  any may crash anywhere, any access may fail. A ghost history of rows and commits carries the results about item rows.
  Reservation rows have no version, so one reservation can be settled twice, and the reserved count then drifts.
  `Settlements` says which runs settle a reservation at most once, and exactly when a second settlement goes through;
  `ReservedDrift` accounts for every unit of the drift and says which runs end without any.
- *Atomic* (`ReservationSums`, `ReservationLifetime`, `ExpiryBatch`): each use case is one transaction, as the comment
  in the confirm use case asks for. Here reserved is the sum of the pending reservations, and the model says exactly
  which failure breaks that if the two writes are not in one transaction.

`CachedRepository` is the cache-aside decorator, called one call at a time, compared with the repository it decorates.

**Category hierarchy** (orders service, TypeScript). `CategoryForest` is the theory of the parent-pointer table.
`CategoryRules` states what create, update, remove and (de)activate do, `CategoryEffects` when they succeed and what
they leave behind; `CategoryDescent` what the breadth-first descent and the climb should find; `CategoriesService` is
the service with its loops. `CategoryEntities` are the loaded objects that climb their parents, `CategoryTree` the
recursive tree builder, `CategoryHierarchy` the two passes that attach the categories of a page to each other, `Slug`
the slug generator. Each call is one atomic step.

**Circuit breaker** (`CircuitBreaker`, `BreakerRuns`, `BreakerRecovery`): calls overlap and finish in any order, timers are never cleared,
clock readings do not go back.

**Rate limiters**: `RateLimiters` (a counter whose expiry is renewed on every hit), `GatewayLimiter` (a fixed window
whose expiry is a second command) and `SmsProvider` (a sliding window checked before and recorded after a wait). Each
has its own exact bound.

**Outbox** (`Outbox`, `OutboxProgress`, `OutboxRouting`, `OutboxRuns`): polls that may overlap, rows that arrive at any time, queues and saves that fail or
lose their reply, and crashes of the one process that polls.

## Choices

- Clocks, fresh ids, locale order, lower-casing and every failure of a store, cache or queue are parameters; each
  theorem holds for all of them. What the theorems need of lower-casing is stated in `Slug.LowerCases`.
- UUIDs are numbers that can only be compared; times are integers in the unit of the clock.
- A query without an order returns its rows in any order (`QueryChildren`, `QueryListed`, and ties in `FindExpired` and
  in a batch of outbox events).
- Queues, Redis and the databases are values: a log of jobs, keys with a count and an expiry, maps of rows. The pipeline
  of the inventory service's `Increment` is one step that may be cut short after its first command.
- The window of a limiter is the time to live that Redis is given: whole seconds for the gateway.

Where the code and its comments or documentation differ, the model follows the code:

- `redis.go` says that the expiry is set for a new key; it is renewed on every hit (`NoPauseNoAdmission`).
- `validateHierarchy` looks the child up with inactive rows included, but then asks for its descendants through a look-up
  without them, so that an inactive category cannot be moved (`ValidateHierarchyExact`).
- `getCategoryPath` says that it loads all ancestors; it stops below the first inactive one (`ActivePathIsWholeIff`).
- The service checks slugs against live rows only, the unique index spans deleted ones; the clash is a bad request.
- The outbox query speaks of a backoff; no failed attempt leaves a time behind (`RetryDelayNeverApplies`). Events of an
  unknown type are kept as not processed.
- The rollback in the confirm use case re-reserves and does not restore the quantity (`ConfirmRollbackLosesStock`).

## Model

| member | source | states |
|---|---|---|
| InventoryItems.OperationKeepsBounds | services/inventory-service/internal/domain/entity/inventory_item.go:59-152 | on a stored row (0 <= reserved <= quantity, 32-bit columns) a successful operation moves the counts by exactly its amount, and nothing but a restock can leave the bounds |
| InventoryItems.OperationSucceedsIff | services/inventory-service/internal/domain/entity/inventory_item.go:59-152 | exactly when each operation succeeds on a stored row; the further stock check of confirm never decides |
| InventoryItems.OperationFailsWith | services/inventory-service/internal/domain/entity/inventory_item.go:59-152 | which error each operation reports on a stored row when it does not succeed |
| InventoryItems.ConfirmKeepsAvailable | services/inventory-service/internal/domain/entity/inventory_item.go:93-118 | confirming takes stock away and leaves what is available as it was |
| InventoryItems.ReleaseUndoesReserve | services/inventory-service/internal/domain/entity/inventory_item.go:59-91 | releasing the reserved amount gives back the very item |
| InventoryItems.ConfirmRollbackLosesStock | services/inventory-service/internal/application/usecase/confirm_reservation.go:90-95 | the in-memory rollback of confirm succeeds exactly when the amount is still available, restores the reservation and never the quantity |
| InventoryItems.InventoryItem.Reserve | services/inventory-service/internal/domain/entity/inventory_item.go:59-71 | the object changes as the operation on its row says, with its error and no change on failure |
| InventoryItems.InventoryItem.ReleaseReservation | services/inventory-service/internal/domain/entity/inventory_item.go:79-91 | likewise for a release |
| InventoryItems.InventoryItem.ConfirmReservation | services/inventory-service/internal/domain/entity/inventory_item.go:101-118 | likewise for a confirm, which moves both counts |
| InventoryItems.InventoryItem.AddStock | services/inventory-service/internal/domain/entity/inventory_item.go:124-132 | likewise for a restock |
| InventoryItems.InventoryItem.DecrementStock | services/inventory-service/internal/domain/entity/inventory_item.go:140-152 | likewise for a direct sale, which may not touch reserved units |
| Reservations.SettlesOnce | services/inventory-service/internal/domain/entity/reservation.go:110-154 | over every sequence of confirm, release and expire requests a reservation leaves Pending at most once, by the first request that is accepted, and nothing but its status changes |
| Reservations.ConfirmXorExpire | services/inventory-service/internal/domain/entity/reservation.go:94-154 | a pending reservation can at every instant be confirmed or expired, never both, and always be released |
| Reservations.ReservationEntity.Confirm | services/inventory-service/internal/domain/entity/reservation.go:113-124 | the object makes the transition or reports expiry before status |
| Reservations.ReservationEntity.Release | services/inventory-service/internal/domain/entity/reservation.go:129-137 | releases a pending reservation, expired or not |
| Reservations.ReservationEntity.MarkAsExpired | services/inventory-service/internal/domain/entity/reservation.go:142-154 | expires a pending reservation past its deadline only |
| Reservations.ReservationEntity.Extend | services/inventory-service/internal/domain/entity/reservation.go:159-175 | prolongs an active reservation and refuses any other |
| Repositories.UpdateWritesOneRow | services/inventory-service/internal/infrastructure/persistence/repository/inventory_repository_impl.go:90-124 | a successful optimistic update replaces the one row whose version the copy carries, adds one to the version and keeps the constraints |
| Repositories.SecondUpdateFails | services/inventory-service/internal/infrastructure/persistence/repository/inventory_repository_impl.go:93-118 | of two updates from copies of one version the second is refused as a lock failure |
| Repositories.InsertItemExact | services/inventory-service/internal/infrastructure/persistence/repository/inventory_repository_impl.go:61-81 | a new item is stored exactly if its id and product are free and its columns fit, as it is but for version 0 stored as 1; and the error otherwise |
| Repositories.UpdateItemExact | services/inventory-service/internal/infrastructure/persistence/repository/inventory_repository_impl.go:90-124 | an update is stored exactly over a row of its own version whose new columns fit, with one more version; a missing row is told from a stale copy |
| Repositories.DeleteAndIncrementExact | services/inventory-service/internal/infrastructure/persistence/repository/inventory_repository_impl.go:127-139 | removing an item and adding one to its version need only the row; the effect on all rows |
| Repositories.ReservationWritesExact | services/inventory-service/internal/infrastructure/persistence/repository/reservation_repository_impl.go:61-114 | a reservation is inserted exactly if its id is new, its order has none and its quantity fits, and overwritten exactly if it is there |
| Repositories.InventoryRepository.Update | services/inventory-service/internal/infrastructure/persistence/repository/inventory_repository_impl.go:90-124 | compare-and-swap of the row on id and version; the entity gets the new version only on success; a missing row and a stale version are told apart |
| Repositories.InventoryRepository.Save | services/inventory-service/internal/infrastructure/persistence/repository/inventory_repository_impl.go:61-81 | inserts a row unless its product or id is taken; a zero version is stored as one |
| Repositories.InventoryRepository.Delete | services/inventory-service/internal/infrastructure/persistence/repository/inventory_repository_impl.go:127-139 | removes the row or reports that there is none |
| Repositories.InventoryRepository.IncrementVersion | services/inventory-service/internal/infrastructure/persistence/repository/inventory_repository_impl.go:240-278 | adds one to the version of a row and to nothing else |
| Repositories.InventoryRepository.FindByProductID | services/inventory-service/internal/infrastructure/persistence/repository/inventory_repository_impl.go:46-58 | finds the one row of a product |
| Repositories.ReservationRepository.Save | services/inventory-service/internal/infrastructure/persistence/repository/reservation_repository_impl.go:61-81 | inserts a reservation unless its order has one |
| Repositories.ReservationRepository.Update | services/inventory-service/internal/infrastructure/persistence/repository/reservation_repository_impl.go:90-114 | overwrites the row whatever has happened to it since it was read: there is no version |
| Repositories.ReservationRepository.FindExpired | services/inventory-service/internal/infrastructure/persistence/repository/reservation_repository_impl.go:156-179 | returns pending reservations past their deadline, each once, earliest first, leaving out only later ones and only when the limit is reached |
| InterleavingProofs.EveryRunKeepsInv | services/inventory-service/internal/application/usecase/reserve_stock.go:63-122 | in every run of interleaved use-case steps with crashes, cache races and storage failures: rows meet their constraints, a version identifies a row content, cached entries and copies are past rows, each client commits at most once |
| InterleavingProofs.SameVersionSameRow | services/inventory-service/internal/infrastructure/persistence/repository/inventory_repository_impl.go:95-104 | a copy that carries the current version is the current row |
| InterleavingTheorems.NoLostUpdate | services/inventory-service/internal/infrastructure/persistence/repository/inventory_repository_impl.go:90-124 | a row changes only by one version, through an operation computed from exactly the row it replaces, or by a bare version increment |
| InterleavingTheorems.TrailFolds | services/inventory-service/internal/domain/entity/inventory_item.go:44-152 | the last row of a history is the fold of its commits, with quantity and reserved accounted for unit by unit |
| InterleavingTheorems.UnitLedger | services/inventory-service/internal/domain/entity/inventory_item.go:44-152 | in every reachable state each row is the fold of its commits in commit order, 0 <= reserved <= quantity, quantity = first + restocked - confirmed - decremented, reserved = first + reserved - confirmed - released |
| InterleavingTheorems.LedgerStart | services/inventory-service/internal/infrastructure/persistence/repository/inventory_repository_impl.go:61-81 | the ledger of an item starts at the row found in the database or at its first saved row, which has nothing reserved |
| InterleavingTheorems.TrailRowsWereCurrent | services/inventory-service/internal/infrastructure/persistence/repository/cached_inventory_repository.go:38-93 | every row in a history was the current row at some moment of the run |
| InterleavingTheorems.CacheHoldsPastRows | services/inventory-service/internal/infrastructure/persistence/repository/cached_inventory_repository.go:38-93 | whatever fills, evictions and invalidations race, a cached entry is a row of the item its key names as it was at some moment of the run |
| InterleavingTheorems.OneCommitPerVersion | services/inventory-service/internal/infrastructure/persistence/repository/inventory_repository_impl.go:95-118 | no two commits of an item were computed from rows of the same version |
| InterleavingTheorems.CommitsOnlyGrow | services/inventory-service/internal/infrastructure/persistence/repository/inventory_repository_impl.go:90-124 | the commits of an item are only ever added to |
| InterleavingTheorems.CommitsNext | services/inventory-service/internal/infrastructure/persistence/repository/inventory_repository_impl.go:90-124 | a client that holds a copy and commits later makes the very next commit on the item |
| InterleavingTheorems.AtMostOneOfTwoCommits | services/inventory-service/internal/infrastructure/persistence/repository/inventory_repository_impl.go:90-124 | of two clients that both hold a copy of an item at most one ever commits, whatever happens next |
| Interruptions.IncrementRefuses | services/inventory-service/internal/infrastructure/persistence/repository/inventory_repository_impl.go:240-278 | once the version of an item has been incremented, no client that held a copy of it ever commits |
| Interruptions.CrashIsFinal | services/inventory-service/internal/application/usecase/confirm_reservation.go:97-108 | a client that has crashed never moves again, and commits nothing more |
| SoloRuns.ReservationsStaySettled | services/inventory-service/internal/infrastructure/persistence/repository/reservation_repository_impl.go:90-114 | no interleaving duplicates an order, edits anything but a status, or makes a settled reservation pending again |
| SoloRuns.OnlyVersionCheckRejects | services/inventory-service/internal/infrastructure/persistence/repository/inventory_repository_impl.go:93-118 | a decided write goes through exactly when the row has not moved on, the version is not the last one and a restock fits its column: no other constraint ever stops it |
| SoloRuns.AloneMeansAtomic | services/inventory-service/internal/application/usecase/confirm_reservation.go:53-108 | a use case whose client is left alone does what the transaction its comments ask for would do, failing access for failing access and whatever the cache does, as long as an entry it is answered from is the current row |
| SoloRuns.StaleMeansRefused | services/inventory-service/internal/infrastructure/persistence/repository/cached_inventory_repository.go:38-93 | a client answered from a stale entry ends in an error and changes neither table: in the error of the rules on the stale copy, or else in a lock failure, if the database can be reached |
| SoloCache.AloneKeepsCoherent | services/inventory-service/internal/infrastructure/persistence/repository/cached_inventory_repository.go:38-181 | a client left alone on a cache whose entries are current, with its invalidation working, leaves it so, whatever else fails |
| SoloCache.RestCoherentIff | services/inventory-service/internal/infrastructure/persistence/repository/cached_inventory_repository.go:166-181 | after the write of a client left alone the entries are current exactly if nothing was written, the invalidation worked, or there was no entry of the item |
| SoloCache.FillsCache | services/inventory-service/internal/infrastructure/persistence/repository/cached_inventory_repository.go:38-93 | a client that reads the store fills the key it was asked for and then the other with the current row |
| SoloCache.NewItemSaved | services/inventory-service/internal/infrastructure/persistence/repository/inventory_repository_impl.go:61-81 | a new item is stored with nothing reserved and version 1 exactly if its quantity is not negative and fits and neither id nor product is taken; the error otherwise |
| SoloRuns.SoloConfirm | services/inventory-service/internal/application/usecase/confirm_reservation.go:78-108 | an admitted confirm that goes on alone without the cache deducts its units exactly if that many are reserved on the item now, whatever has become of its reservation since |
| SoloRuns.TwoConfirms | services/inventory-service/internal/application/usecase/confirm_reservation.go:63-108 | on one schedule, two confirms that both read one reservation as active and then go on alone one after the other without the cache, both go through exactly when twice its quantity is reserved, and then deduct it twice; `Settlements` has the other schedules |
| SoloRuns.SettledTwice | services/inventory-service/internal/application/usecase/confirm_reservation.go:97-108 | from any consistent database with twice the units reserved an interleaved run confirms one reservation twice |
| SoloRuns.DoubleSettlementHappens | services/inventory-service/internal/application/usecase/confirm_reservation.go:97-108 | a run in which two confirms of one reservation use up the units of another: at most one settlement per reservation does not hold of every run |
| Settlements.SettledOnceIfOrderly | services/inventory-service/internal/application/usecase/confirm_reservation.go:63-108 | over every run of any clients, if the settlements of a reservation (confirm, release, either expiry) never overlap between admission and their last write, and none crashes or fails between its two writes, at most one of them writes the item |
| Settlements.SettlesIff | services/inventory-service/internal/infrastructure/persistence/repository/inventory_repository_impl.go:93-118 | in every reachable state the write of a client settles its reservation exactly if storage works, its copy is the current row of the item, the units are reserved there, the clock allows it and the version is not the last; the row of the reservation plays no part |
| Settlements.SettlingTakesUnits | services/inventory-service/internal/domain/entity/inventory_item.go:79-118 | each such write takes the units of the reservation from the item, a second one takes them again |
| Settlements.SettledTwiceIff | services/inventory-service/internal/application/usecase/confirm_reservation.go:97-108 | a run settles a reservation more than once exactly if two of its events are working writes of clients that are ready in that sense |
| Settlements.SecondSettlementIff | services/inventory-service/internal/application/usecase/confirm_reservation.go:63-108 | after one settlement another event settles the reservation exactly if it is the working write of a client that is ready; from readiness it follows that this is another client, which was admitted while the row was pending and has read the item since the first settlement wrote it |
| Settlements.SecondSettlement | services/inventory-service/internal/application/usecase/confirm_reservation.go:63-108 | of two settlements the second is by such a client, with the event that admitted it |
| Settlements.AdmittedWhilePending | services/inventory-service/internal/application/usecase/confirm_reservation.go:64-76 | whoever decides on a reservation was admitted on its row, as it holds it, while that was pending |
| Settlements.BrokenOffSettlesAgain | services/inventory-service/internal/application/usecase/confirm_reservation.go:97-108 | once a client has written the item and crashes, a later confirm left alone deducts the units again exactly if that many are still reserved: the second condition cannot be dropped |
| ReservedDrift.EventDrifts | services/inventory-service/internal/application/usecase/confirm_reservation.go:97-108 | what one event of the interleaved machine does to the reserved count less the pending units of an item: item writes, reservation writes, refusals and crashes |
| ReservedDrift.DriftAccounts | services/inventory-service/internal/application/usecase/confirm_reservation.go:53-108 | in every interleaved run and for every item, reserved less pending units is what it was at the start, plus the units of reserves between their two writes, plus those of reserves broken off there, plus what bare adjustments reserved, less for each reservation its quantity times its settlements beyond the one that took it out of Pending |
| ReservedDrift.SumsAgreeAtRestIff | services/inventory-service/internal/application/usecase/reserve_stock.go:111-122 | from a consistent database, once nobody is between two writes, reserved is the sum of the pending reservations exactly if for every item the units left by broken-off reserves and adjustments equal those settled once too often |
| ReservedDrift.OrderlyRunKeepsSums | services/inventory-service/internal/application/usecase/confirm_reservation.go:53-62 | if the settlements of each reservation are orderly, no reserve breaks off half-way and adjustments only restock or decrement, an interleaved run from a consistent database is consistent whenever nobody is between two writes |
| ReservedDrift.SurplusNonnegative | services/inventory-service/internal/application/usecase/confirm_reservation.go:97-108 | in every run a reservation that leaves Pending has been settled in that run: no surplus is negative |
| ReservedDrift.SettledFromStart | services/inventory-service/internal/application/usecase/confirm_reservation.go:64-76 | a reservation that is settled from the start is not settled again by any run |
| ReservationSums.PendingIsCovered | services/inventory-service/internal/application/usecase/confirm_reservation.go:84-88 | when reserved is the sum of the pending reservations, confirming or releasing any of them never fails on stock counts |
| ReservationSums.PerformKeepsSumsIff | services/inventory-service/internal/application/usecase/reserve_stock.go:111-122 | the two writes of an admitted use case break the sum exactly when the database takes the item write (it works, a version number is left, a restock fits its column) and the reservation write fails; the items change exactly in the former case |
| ReservationSums.TransactKeepsSumsIff | services/inventory-service/internal/application/usecase/release_reservation.go:94-105 | a whole use case breaks the sum exactly when it is admitted, its item can be read, the rules allow the change, the item write goes through and the reservation write fails; that failure is always reported, so rolling back on every error is enough |
| ReservationSums.AtomicRunKeepsSums | services/inventory-service/internal/application/usecase/confirm_reservation.go:53-62 | through every sequence of atomic use cases, item creations and version increments, with failures, each reserved count is the sum of the pending reservations and each order has one reservation |
| ReservationSums.ConfirmSucceedsIff | services/inventory-service/internal/application/usecase/confirm_reservation.go:63-108 | a confirm succeeds exactly when its reservation exists and is active both times the clock is read; its error otherwise, expiry ahead of status; its effect on all rows |
| ReservationSums.ReleaseSucceedsIff | services/inventory-service/internal/application/usecase/release_reservation.go:63-105 | a release succeeds exactly when its reservation exists and is pending; its error otherwise; its effect on all rows |
| ReservationSums.ReserveSucceedsIff | services/inventory-service/internal/application/usecase/reserve_stock.go:63-122 | a reserve succeeds exactly for a positive quantity and duration, a new order, and a product with that much available |
| ReservationSums.ReserveEffect | services/inventory-service/internal/application/usecase/reserve_stock.go:63-122 | the first check that fails, in order, is the error of a reserve; a successful one adds the quantity to the reserved count of the one item and inserts a pending row that expires after the given duration or fifteen minutes |
| ReservationSums.JobSettlesIff | services/inventory-service/internal/application/job/expire_reservations.go:70-118 | the job gives a reservation back and calls it expired exactly when it is pending and past its deadline, and otherwise changes nothing |
| ReservationSums.SweepSettlesIff | services/inventory-service/internal/application/usecase/release_expired_reservations.go:126-157 | the batch gives it back and calls it released under the same condition |
| ReservationSums.AdjustEffect | services/inventory-service/internal/domain/entity/inventory_item.go:124-152 | a restock or direct sale succeeds exactly for a positive amount that fits or is available, and moves the quantity alone |
| ReservationSums.FaultsStop | services/inventory-service/internal/application/usecase/confirm_reservation.go:63-108 | a failing storage access stops a use case there: nothing has changed before the item write, no reservation after it, and a success that wrote something met no failure |
| ReservationLifetime.LifetimeLaw | services/inventory-service/internal/domain/entity/reservation.go:48-67 | a reservation made at t for a duration d (fifteen minutes if none is given) can be confirmed exactly up to t + d at both clock readings, is found as expired and given back by either expiry path exactly after it, and can be released at any time |
| ReservationLifetime.ReserveComesToNothing | services/inventory-service/internal/domain/entity/inventory_item.go:59-118 | a reserve that is released or expires leaves all counts as they were before it; one that is confirmed takes its quantity out of the stock and leaves the reserved count as it was |
| UseCases.ReserveStockUseCase.Execute | services/inventory-service/internal/application/usecase/reserve_stock.go:63-122 | the step sequence over the two repositories does what the transaction function says, fault by fault |
| UseCases.ConfirmReservationUseCase.Execute | services/inventory-service/internal/application/usecase/confirm_reservation.go:63-108 | likewise, with the clock read twice |
| UseCases.ReleaseReservationUseCase.Execute | services/inventory-service/internal/application/usecase/release_reservation.go:63-105 | likewise |
| ExpiryBatch.SweepPartitions | services/inventory-service/internal/application/usecase/release_expired_reservations.go:90-110 | whatever fails, the released and the failed reservations partition those found, in order |
| ExpiryBatch.SweepSettlesAll | services/inventory-service/internal/application/usecase/release_expired_reservations.go:126-157 | without failures a sweep settles every reservation found, keeps the sum and touches nothing else |
| ExpiryBatch.BatchSettlesEarliest | services/inventory-service/internal/application/usecase/release_expired_reservations.go:68-110 | a fault-free batch fails none and settles exactly the earliest min(limit, n) due reservations |
| ExpiryBatch.EarliestFirst | services/inventory-service/internal/infrastructure/persistence/repository/reservation_repository_impl.go:159-166 | settling the earliest due leaves, of those due by an earlier time, all but the limit |
| ExpiryBatch.BatchesDrain | services/inventory-service/internal/application/usecase/release_expired_reservations.go:63-124 | m fault-free batches of 1000 leave max(0, n - 1000 m) of the n reservations that were due, so ceil(n / 1000) clear them |
| ExpiryBatch.ReleaseExpiredReservationsUseCase.Execute | services/inventory-service/internal/application/usecase/release_expired_reservations.go:63-124 | one batch: what the query finds is settled as the sweep says, with both result lists |
| ExpiryBatch.ReleaseExpiredReservationsUseCase.ReleaseAll | services/inventory-service/internal/application/usecase/release_expired_reservations.go:90-110 | the loop goes on after failures and keeps the two lists the sweep says |
| ExpiryBatch.ReleaseExpiredReservationsUseCase.ReleaseReservation | services/inventory-service/internal/application/usecase/release_expired_reservations.go:127-157 | one release of the batch |
| ExpiryBatch.ExpireReservationsJob.Execute | services/inventory-service/internal/application/job/expire_reservations.go:32-67 | the job settles everything due, without a limit, and counts both outcomes |
| ExpiryBatch.ExpireReservationsJob.ProcessExpiredReservation | services/inventory-service/internal/application/job/expire_reservations.go:70-122 | one expiry of the job, which reads the reservation again first |
| CachedRepository.AnswersAlike | services/inventory-service/internal/infrastructure/persistence/repository/cached_inventory_repository.go:38-223 | while every entry is the current row of its key, a call writes as the bare repository does and answers as it does, except exactly that an answer from the cache hides a failure of the database |
| CachedRepository.CoherentIffPolite | services/inventory-service/internal/infrastructure/persistence/repository/cached_inventory_repository.go:151-223 | a call keeps the entries current exactly if an item is saved with its version set, no update moves a cached item to another product, and an increment could read its row |
| CachedRepository.CacheIsTransparent | services/inventory-service/internal/infrastructure/persistence/repository/cached_inventory_repository.go:38-223 | through every sequence of such calls, with entries vanishing and cache reads and fills failing at will, all answers are those of the bare repository under the database failures that are met; with none, its own |
| CachedRepository.MovedItemIsStale | services/inventory-service/internal/infrastructure/persistence/repository/cached_inventory_repository.go:166-175 | after an update that moves a cached item to another product, the old product is answered from the cache and is gone from the store |
| CachedRepository.BareAnswersTruly | services/inventory-service/internal/infrastructure/persistence/repository/inventory_repository_impl.go:27-58 | what the repository without a cache answers: the row under an id, a row of a product if there is one, and that one exists exactly if it can be found |
| CachedRepository.FindAndSaveFill | services/inventory-service/internal/infrastructure/persistence/repository/cached_inventory_repository.go:38-163 | a finder that asks the store, and a save, leave the row cached under both keys unless the fills are lost |
| CachedRepository.CachedIsFound | services/inventory-service/internal/infrastructure/persistence/repository/cached_inventory_repository.go:38-143 | a row cached under both keys is found under either without the store |
| CachedRepository.WritesDrop | services/inventory-service/internal/infrastructure/persistence/repository/cached_inventory_repository.go:166-223 | a successful update or deletion drops exactly the two keys of the item, a failing one leaves the cache alone; an increment drops those it knows |
| CachedRepository.CachedInventoryRepository.FindByID | services/inventory-service/internal/infrastructure/persistence/repository/cached_inventory_repository.go:38-65 | cache first, then the store, which may fail, filling both keys |
| CachedRepository.CachedInventoryRepository.FindByProductID | services/inventory-service/internal/infrastructure/persistence/repository/cached_inventory_repository.go:68-93 | likewise by product |
| CachedRepository.CachedInventoryRepository.ExistsByProductID | services/inventory-service/internal/infrastructure/persistence/repository/cached_inventory_repository.go:133-143 | a cached product exists; otherwise the store is asked, which may fail |
| CachedRepository.CachedInventoryRepository.Save | services/inventory-service/internal/infrastructure/persistence/repository/cached_inventory_repository.go:151-163 | the new item is cached under both keys |
| CachedRepository.CachedInventoryRepository.Update | services/inventory-service/internal/infrastructure/persistence/repository/cached_inventory_repository.go:166-181 | both keys are dropped after a successful write only |
| CachedRepository.CachedInventoryRepository.Delete | services/inventory-service/internal/infrastructure/persistence/repository/cached_inventory_repository.go:184-205 | both keys of the row read before are dropped |
| CachedRepository.CachedInventoryRepository.IncrementVersion | services/inventory-service/internal/infrastructure/persistence/repository/cached_inventory_repository.go:208-223 | keys are dropped before the increment, only the id key if the row cannot be read |
| CategoryForest.ForestIsRanked | services/orders-service/src/modules/categories/categories.service.ts:473-490 | a table without cycles can be ranked by the number of ancestors, so climbing always ends |
| CategoryForest.RankedIsForest | services/orders-service/src/modules/categories/categories.service.ts:395-419 | a ranked table has no cycles |
| CategoryForest.DistanceUnique | services/orders-service/src/modules/categories/entities/category.entity.ts:109-118 | the distance from a row to an ancestor is unique |
| CategoryForest.LevelExists | services/orders-service/src/modules/categories/entities/category.entity.ts:120-135 | in a forest every live row has a level |
| CategoryForest.LevelUnique | services/orders-service/src/modules/categories/entities/category.entity.ts:120-135 | and only one |
| CategoryForest.MoveKeepsForestIff | services/orders-service/src/modules/categories/categories.service.ts:395-419 | a move under a live row leaves a forest exactly when it is not under the row itself or one of its descendants |
| CategoryRules.ValidateHierarchyExact | services/orders-service/src/modules/categories/categories.service.ts:395-419 | the move check accepts exactly the moves of an active row under a live row that leave a forest; an inactive category cannot be moved at all |
| CategoryRules.CallKeepsForest | services/orders-service/src/modules/categories/categories.service.ts:249-349 | each create, update, remove and (de)activate keeps every live parent live and the parents acyclic |
| CategoryRules.RunKeepsForest | services/orders-service/src/modules/categories/categories.service.ts:249-349 | so does every sequence of them, which also keeps slugs unique, deleted rows included |
| CategoryRules.CallKeepsSlugsUnique | services/orders-service/src/modules/categories/categories.service.ts:260-268 | a successful call never duplicates a slug |
| CategoryRules.CallTouchesOneRow | services/orders-service/src/modules/categories/categories.service.ts:249-356 | a call touches one row at most, a deleted row never changes again, and a row is deleted only by a removal, without live children and products |
| CategoryRules.RacingMovesKeepForestIff | services/orders-service/src/modules/categories/categories.service.ts:249-258 | two moves that each passed the check on the same table, made one after the other, leave a forest exactly unless each goes into the subtree the other moves |
| CategoryRules.RacingMovesMakeCycle | services/orders-service/src/modules/categories/categories.service.ts:255-258 | such a pair: each of two rows moved under the other, both accepted, form a cycle |
| CategoryRules.CallKeepsSiblingNamesIff | services/orders-service/src/modules/categories/categories.service.ts:270-277 | a successful call keeps the names within each level distinct exactly unless it sets a null parent without a name while a root has the name |
| CategoryRules.NullParentDuplicatesAName | services/orders-service/src/modules/categories/categories.service.ts:270-277 | such a call: two roots of one name |
| CategoryEffects.CreateExact | services/orders-service/src/modules/categories/categories.service.ts:33-82 | a create succeeds exactly if its slug, given or generated, is unused, its parent is live and its name free there; it leaves a live, active row with the given name and parent and the given or zero order; and which failure otherwise |
| CategoryEffects.UpdateExact | services/orders-service/src/modules/categories/categories.service.ts:249-298 | an update succeeds exactly if its row is live and the new place, slug and name are allowed; the row then has the new parent, none, or the old one as asked, the given or else the old name, slug and order, and the old flags; and which failure otherwise |
| CategoryEffects.RemoveExact | services/orders-service/src/modules/categories/categories.service.ts:300-349 | a removal succeeds exactly for a live row without live children and products and leaves it deleted |
| CategoryEffects.StatusExact | services/orders-service/src/modules/categories/categories.service.ts:587-624 | a status call succeeds exactly for a live row and sets its flag to the argument and nothing else |
| CategoryEffects.UpdateMovesSubtree | services/orders-service/src/modules/categories/categories.service.ts:249-298 | of any two live rows, whether the one is above the other after a successful update: the subtree of the row moves as a whole, and under a new parent exactly it is newly below that and what is above that |
| CategoryEffects.UpdateExtendsPath | services/orders-service/src/modules/categories/categories.service.ts:249-298 | after a move the path of the row is the path of its new parent and then its own name, one level deeper |
| CategoryDescent.DescentComplete | services/orders-service/src/modules/categories/categories.service.ts:699-727 | when a level is empty the rows found are exactly the descendants |
| CategoryDescent.DescentRound | services/orders-service/src/modules/categories/categories.service.ts:705-724 | one round adds exactly the next level, in order and without repetition, and leaves fewer rows to find |
| CategoryDescent.ActivePathIsWholeIff | services/orders-service/src/modules/categories/categories.service.ts:360-381 | the path through active rows is the path of the entity exactly when every ancestor is active |
| CategoriesService.CategoriesService.FindDescendants | services/orders-service/src/modules/categories/categories.service.ts:699-727 | the loop ends and returns each live row one to maxDepth steps below (all of them without a limit) exactly once, level by level |
| CategoriesService.CategoriesService.GetDescendants | services/orders-service/src/modules/categories/categories.service.ts:383-393 | the same for an active category, and not found for an inactive one |
| CategoriesService.CategoriesService.ValidateHierarchy | services/orders-service/src/modules/categories/categories.service.ts:395-419 | the failure of a move, decided by descending |
| CategoriesService.CategoriesService.GetCategoryPath | services/orders-service/src/modules/categories/categories.service.ts:360-381 | the names from the highest row reached through active rows down to the category |
| CategoriesService.CategoriesService.FindOne | services/orders-service/src/modules/categories/categories.service.ts:166-182 | the row with its level and path as climbing gives them |
| CategoriesService.CategoriesService.BuildCategoryTree | services/orders-service/src/modules/categories/categories.service.ts:213-247 | the tree holds exactly the live (or active) rows whose whole chain of ancestors is listed and at most ten long, each once and at its level, with siblings in order |
| CategoriesService.CategoriesService.ValidateUniqueNameInLevel | services/orders-service/src/modules/categories/categories.service.ts:558-585 | a conflict exactly when another live row has the name and the parent |
| CategoriesService.CategoriesService.Create | services/orders-service/src/modules/categories/categories.service.ts:33-82 | the new table or the failure of a creation, checks in order, and the forest kept |
| CategoriesService.CategoriesService.Update | services/orders-service/src/modules/categories/categories.service.ts:249-298 | the new table or the failure of an update, checks in order, and the forest kept |
| CategoriesService.CategoriesService.Remove | services/orders-service/src/modules/categories/categories.service.ts:300-349 | soft-deletes a category without live children and products |
| CategoriesService.CategoriesService.UpdateStatus | services/orders-service/src/modules/categories/categories.service.ts:587-624 | sets the flag of a live category and nothing else |
| CategoryEntities.CategoryEntity.IsDescendantOf | services/orders-service/src/modules/categories/entities/category.entity.ts:109-118 | true exactly when an ancestor on the chain of loaded parents has the id |
| CategoryEntities.CategoryEntity.GetAncestors | services/orders-service/src/modules/categories/entities/category.entity.ts:120-128 | the chain, root first |
| CategoryEntities.CategoryEntity.GetLevel | services/orders-service/src/modules/categories/entities/category.entity.ts:130-135 | the length of the chain, or the level set before |
| CategoryEntities.CategoryEntity.GetPath | services/orders-service/src/modules/categories/entities/category.entity.ts:137-143 | the names along the chain, root first, and its own |
| CategoryEntities.ChainIsAncestors | services/orders-service/src/modules/categories/entities/category.entity.ts:109-118 | climbing a fully loaded object finds exactly the rows it is a descendant of in the table |
| CategoryEntities.LoadAncestors | services/orders-service/src/modules/categories/categories.service.ts:473-490 | extends what is loaded to the whole chain of ancestors, up to the root |
| CategoryTree.TreeExact | services/orders-service/src/modules/categories/categories.service.ts:656-697 | a row is in the flattened tree at a level exactly when it is listed and its chain of listed ancestors reaches a root in that many steps, at most ten |
| CategoryTree.TreeHasNoDuplicates | services/orders-service/src/modules/categories/categories.service.ts:656-697 | no row is in the tree twice, even if the list hides cycles |
| CategoryTree.TreeIsWellShaped | services/orders-service/src/modules/categories/categories.service.ts:676-694 | siblings are in order, children hang one level below their parent, and the flag says whether there are any |
| CategoryTree.SortSorts | services/orders-service/src/modules/categories/categories.service.ts:676-682 | the sort is by sort order and then name, and loses or adds nothing |
| CategoryTree.SortIsStable | services/orders-service/src/modules/categories/categories.service.ts:676-682 | ties stay in the order of the input |
| CategoryTree.ListedLevel | services/orders-service/src/modules/categories/categories.service.ts:217-227 | the level in the active-only list is the level in the table, for exactly the rows with active ancestors |
| CategoryHierarchy.BuildHierarchyForCategories | services/orders-service/src/modules/categories/categories.service.ts:626-654 | the passes over the index give every category exactly the page filtered by parent, in page order, and return the parentless ones |
| CategoryHierarchy.PagePartitions | services/orders-service/src/modules/categories/categories.service.ts:626-654 | each category of the page is exactly one of root, child of one listed category, or orphan |
| CategoryHierarchy.ListedInPageOrder | services/orders-service/src/modules/categories/categories.service.ts:626-654 | roots and children come in the order of the page |
| Slug.SlugJoinsWords | services/orders-service/src/modules/categories/categories.service.ts:421-428 | the chain of replacements gives the words of the lower-cased name, other characters dropped, joined by hyphens |
| Slug.SlugOfTwoWords | services/orders-service/src/modules/categories/categories.service.ts:421-428 | between two words white space, an underscore or a hyphen becomes a hyphen, and any other character is dropped |
| Slug.SlugIsNormal | services/orders-service/src/modules/categories/categories.service.ts:421-428 | every slug is empty or matches the pattern of the request type |
| Slug.SlugKeepsNormal | services/orders-service/src/modules/categories/dto/create-category.dto.ts:46-50 | a string that matches the pattern is its own slug |
| Slug.SlugIdempotent | services/orders-service/src/modules/categories/categories.service.ts:421-428 | generating twice is generating once |
| CircuitBreaker.CircuitBreaker.Begin | services/orders-service/src/common/utils/circuit-breaker.util.ts:69-92 | counts the call and admits it, rejects it, or half-opens the circuit |
| CircuitBreaker.CircuitBreaker.OnSuccess | services/orders-service/src/common/utils/circuit-breaker.util.ts:122-143 | effect of a success on all fields in each state |
| CircuitBreaker.CircuitBreaker.OnFailure | services/orders-service/src/common/utils/circuit-breaker.util.ts:148-165 | effect of a failure on all fields in each state |
| CircuitBreaker.CircuitBreaker.ForceOpen | services/orders-service/src/common/utils/circuit-breaker.util.ts:206-209 | opens the circuit and sets the time of the next attempt |
| CircuitBreaker.CircuitBreaker.ForceClose | services/orders-service/src/common/utils/circuit-breaker.util.ts:214-217 | closes the circuit and clears the counts |
| BreakerRuns.RunKeepsCounters | services/orders-service/src/common/utils/circuit-breaker.util.ts:43-193 | in every reachable state with calls in flight: calls = rejected + successes + failures + in flight; timeouts + pending timers + thrown = admitted; CLOSED and HALF_OPEN stay below their thresholds; the next attempt is set exactly when not CLOSED |
| BreakerRuns.TimeoutsCountEveryCall | services/orders-service/src/common/utils/circuit-breaker.util.ts:107-117 | timeouts never exceed admitted calls; in every reachable state they stay within the failures exactly if the successful and the open calls are no more than the pending timers and the calls that threw at once; once everything has finished every call that did not throw at once counts as a timeout |
| BreakerRuns.TimeoutsExceedFailures | services/orders-service/src/common/utils/circuit-breaker.util.ts:107-117 | a run with more timeouts than failures: timers of successful calls fire too |
| BreakerRuns.NoCallBeforeRecovery | services/orders-service/src/common/utils/circuit-breaker.util.ts:69-92 | after the circuit opens at t, through any overlapping calls and timers, no protected function starts before t + recoveryTimeout unless the circuit was closed by force |
| BreakerRecovery.RecoversExactly | services/orders-service/src/common/utils/circuit-breaker.util.ts:69-92 | counted from the last event that opens the circuit at t, with no forced close and no call once the attempt is due, a call goes through exactly if it comes at t + recoveryTimeout or later, and makes the circuit half-open; an earlier one is rejected |
| BreakerRecovery.PassableAdmits | services/orders-service/src/common/utils/circuit-breaker.util.ts:69-92 | after a forced close, or from a state that is not open, every call goes through until something opens the circuit |
| BreakerRecovery.OpensIff | services/orders-service/src/common/utils/circuit-breaker.util.ts:148-165 | the circuit opens exactly by force, on a failure while half-open, or on the failure that makes the threshold |
| BreakerRecovery.CountersCountEvents | services/orders-service/src/common/utils/circuit-breaker.util.ts:69-165 | in every run the counters are the numbers of calls, rejected calls, successes, failures and fired timers |
| BreakerRecovery.NoEarlyTimeout | services/orders-service/src/common/utils/circuit-breaker.util.ts:97-117 | no timeout is counted before the time-out of its call is over |
| BreakerRuns.ClosesIff | services/orders-service/src/common/utils/circuit-breaker.util.ts:126-135 | the circuit closes, other than by force, exactly on the last of max(1, successThreshold) successes since it became half-open, with no failure in between |
| BreakerRuns.LeavesClosedIff | services/orders-service/src/common/utils/circuit-breaker.util.ts:148-165 | the circuit leaves CLOSED, other than by force, exactly on the last of max(1, failureThreshold) failures in a row |
| RateLimiters.WindowBound | services/inventory-service/internal/interfaces/http/middleware/rate_limit.go:49-80 | in any half-open interval of the window length at most `limit` hits on a key are admitted by their count, whatever the counter was; hits that could not be counted come on top |
| RateLimiters.WindowBoundReached | services/inventory-service/internal/interfaces/http/middleware/rate_limit.go:49-80 | the bound is reached |
| RateLimiters.KeyBound | services/inventory-service/internal/infrastructure/cache/redis.go:149-160 | the bound for each key of a store that serves many keys and limits |
| RateLimiters.KeysAreIndependent | services/inventory-service/internal/infrastructure/cache/redis.go:149-160 | hits on other keys do not matter |
| RateLimiters.NoPauseNoAdmission | services/inventory-service/internal/infrastructure/cache/redis.go:148-160 | because every hit renews the expiry, a client over its limit that never pauses for a window is never admitted again, lost replies included |
| RateLimiters.NextHitAdmittedIff | services/inventory-service/internal/infrastructure/cache/redis.go:148-160 | past the limit the next counted hit is admitted exactly if it comes no earlier than a window after the last renewal |
| RateLimiters.NoPauseNoAdmissionIff | services/inventory-service/internal/infrastructure/cache/redis.go:148-160 | past the limit none of a sequence of counted hits is admitted exactly if no pause is as long as the window |
| RateLimiters.AdmittedIffStreak | services/inventory-service/internal/interfaces/http/middleware/rate_limit.go:49-80 | from a fresh key, a counted hit is admitted exactly if the hits since the last pause of a whole window, itself included, are no more than the limit |
| RateLimiters.FaultyHits | services/inventory-service/internal/infrastructure/cache/redis.go:148-160 | a lost hit leaves no trace, one whose expiry is not renewed still counts, and every hit that cannot be counted is let through |
| RateLimiters.RedisClient.Increment | services/inventory-service/internal/infrastructure/cache/redis.go:149-160 | increments the living counter or starts at one, and renews the expiry, with partial failures |
| RateLimiters.RateLimiter.Middleware | services/inventory-service/internal/interfaces/http/middleware/rate_limit.go:43-82 | the verdict by client address; lets through what cannot be counted |
| RateLimiters.MethodBasedRateLimiter.Middleware | services/inventory-service/internal/interfaces/http/middleware/method_rate_limit.go:45-102 | the verdict by client address and method, with the read or the write limit |
| RateLimiters.MethodKeysDiffer | services/inventory-service/internal/interfaces/http/middleware/method_rate_limit.go:60-61 | two clients or methods never share a counter |
| GatewayLimiter.WindowBound | services/api-gateway/src/middleware/rateLimiter.ts:61-96 | in any half-open interval of the window length at most 2 * limit - 1 requests of a client are admitted by their count, however INCR and EXPIRE of concurrent requests interleave |
| GatewayLimiter.WindowBoundReached | services/api-gateway/src/middleware/rateLimiter.ts:61-96 | the bound is reached by a burst at the end of one window and one at the start of the next |
| GatewayLimiter.LostExpiryBlocksForEver | services/api-gateway/src/middleware/rateLimiter.ts:65-68 | a counter whose EXPIRE was lost admits over all time no more than what is left of its limit |
| GatewayLimiter.AdmittedAgainIff | services/api-gateway/src/middleware/rateLimiter.ts:61-68 | a client that has used up its limit can be admitted by its count again exactly if its counter has an expiry or an EXPIRE is still due |
| GatewayLimiter.WindowAdmitsIff | services/api-gateway/src/middleware/rateLimiter.ts:61-96 | after a first hit, its EXPIRE and n further hits the next is admitted by its count exactly if n + 1 is below the limit or the window since the EXPIRE is over |
| GatewayLimiter.BlockedStateIsReached | services/api-gateway/src/middleware/rateLimiter.ts:61-68 | a first hit whose EXPIRE fails and hits up to the limit lead from a fresh key to a counter that admits nobody again |
| GatewayLimiter.Gateway.Increment | services/api-gateway/src/middleware/rateLimiter.ts:61-68 | the INCR of a request, its verdict, and whether an EXPIRE follows |
| GatewayLimiter.Gateway.ExpireFirst | services/api-gateway/src/middleware/rateLimiter.ts:65-68 | the EXPIRE of a first hit |
| SmsProvider.WindowBound | services/orders-service/src/modules/notifications/providers/sms.provider.ts:59-79 | with at most k sends to a number in flight at once at most 4 + k are recorded in any minute, although check and record are separated by a wait |
| SmsProvider.WindowBoundReached | services/orders-service/src/modules/notifications/providers/sms.provider.ts:59-79 | for every k of at least one a run from the start reaches the bound, with at least 50 ms between check and record: four sends, then k that are all checked before the first is recorded |
| SmsProvider.CheckExactly | services/orders-service/src/modules/notifications/providers/sms.provider.ts:195-207 | over every run a check lets a send through exactly if fewer than five sends were recorded in the minute before it, and always if none was |
| SmsProvider.LogIsRecords | services/orders-service/src/modules/notifications/providers/sms.provider.ts:212-217 | the log those results speak of is the times of the recorded sends, in order |
| SmsProvider.ValidMessageExactly | services/orders-service/src/modules/notifications/providers/sms.provider.ts:24-56 | a message needs something other than white space in subject and content, and no more than 160 characters |
| SmsProvider.SMSProvider.Begin | services/orders-service/src/modules/notifications/providers/sms.provider.ts:24-66 | the failures before sending, in order, and the pruned record of the number |
| SmsProvider.SMSProvider.CheckRateLimit | services/orders-service/src/modules/notifications/providers/sms.provider.ts:195-207 | keeps the sends of the last minute and says whether fewer than five of those recorded are younger than a minute |
| SmsProvider.SMSProvider.RecordSend | services/orders-service/src/modules/notifications/providers/sms.provider.ts:212-217 | adds the time of a send to its number only |
| SmsProvider.SMSProvider.ValidatePhoneNumber | services/orders-service/src/modules/notifications/providers/sms.provider.ts:134-168 | accepts exactly a plus sign and seven to fifteen digits |
| Outbox.FaultFreeBatch | services/orders-service/src/modules/events/processors/outbox.processor.ts:134-136 | without faults a batch queues each event that has a queue once and in order, processes its known events, and touches no other row |
| Outbox.LeavesUnknownPending | services/orders-service/src/modules/events/processors/outbox.processor.ts:189-196 | a fault-free batch leaves pending exactly its events of an unknown aggregate type |
| Outbox.ProgressIff | services/orders-service/src/modules/events/processors/outbox.processor.ts:152-169 | a fault-free batch changes something exactly when it holds an event of a known type |
| Outbox.StuckForEver | services/orders-service/src/modules/events/processors/outbox.processor.ts:152-169 | fifty unknown events created before all pending known ones come back for ever: no number of fault-free polls changes a row or queues a job |
| OutboxProgress.ProgressPossibleIff | services/orders-service/src/modules/events/processors/outbox.processor.ts:152-169 | fault-free polls can change something, now or ever, exactly if a known event is pending and no fifty unknown ones were created before all of those; some batch the database may return at once then holds a known event |
| OutboxProgress.ProgressCertainIff | services/orders-service/src/modules/events/processors/outbox.processor.ts:152-169 | while a known event is pending, every batch the database may return holds one exactly if there are no fifty pending unknown events of which none was created after a known one |
| OutboxProgress.PollsDrain | services/orders-service/src/modules/events/processors/outbox.processor.ts:113-169 | with fewer than fifty unknown events pending each fault-free poll processes a known one: after as many polls as there are known events none is left |
| Outbox.OutboxProcessor.ProcessOne | services/orders-service/src/modules/events/processors/outbox.processor.ts:175-228 | what happens to one event, with lost jobs, lost replies and failed saves |
| Outbox.OutboxProcessor.ProcessPendingEvents | services/orders-service/src/modules/events/processors/outbox.processor.ts:112-147 | a poll processes its batch in order unless another is under way, and always gives the guard back |
| OutboxRuns.BatchesNeverOverlap | services/orders-service/src/modules/events/processors/outbox.processor.ts:117-146 | over every run with crashes and overlapping polls at most one batch is under way |
| OutboxRuns.ProcessedNeverReverts | services/orders-service/src/modules/events/processors/outbox.processor.ts:343-347 | a processed row never changes again |
| OutboxRuns.Accounts | services/orders-service/src/modules/events/processors/outbox.processor.ts:175-228 | every event with a queue has one job if it is processed, one if it waits for its save, and one for each step of the run that lost a save; Order events and unknown ones have none |
| OutboxRouting.TypesDecide | services/orders-service/src/modules/events/processors/outbox.processor.ts:175-228 | over every run: an Order event has no job; an Inventory or Payment event has one if processed, one if it waits for its save and one for each save lost; an event of any other type has none and is never processed |
| OutboxRouting.JobsFollowTypes | services/orders-service/src/modules/events/processors/outbox.processor.ts:233-266 | every job of a run is of a stored Inventory or Payment event, in the queue of that aggregate, with the job type its event type is mapped to |
| OutboxRouting.HeadStep | services/orders-service/src/modules/events/processors/outbox.processor.ts:175-228 | the next step of a poll: an Order event is saved as processed with no job, an Inventory or Payment event is enqueued and then saved, any other is saved as it was |
| OutboxRouting.BatchIsOldest | services/orders-service/src/modules/events/processors/outbox.processor.ts:152-169 | a batch is the oldest pending events, at most fifty, by creation and then sequence number; what is left out comes no earlier |
| OutboxRouting.BatchIsDue | services/orders-service/src/modules/events/processors/outbox.processor.ts:152-162 | only pending events are fetched, and after an attempt that left its time not for a second |
| OutboxRuns.HarmlessLosesNothing | services/orders-service/src/modules/events/processors/outbox.processor.ts:205-227 | a run without jobs taken silently, refused saves and crashes loses no save |
| OutboxRuns.UnknownStaysPending | services/orders-service/src/modules/events/processors/outbox.processor.ts:192-196 | an event of an unknown aggregate type is never marked as processed |
| OutboxRuns.RetryDelayNeverApplies | services/orders-service/src/modules/events/processors/outbox.processor.ts:152-162 | every pending event is due at once: no attempt leaves behind the time that the retry delay is measured from |
| OutboxRuns.BatchRuns | services/orders-service/src/modules/events/processors/outbox.processor.ts:134-136 | a batch whose steps are not interrupted does what processing its events one after the other does |
| OutboxRuns.WholePollRuns | services/orders-service/src/modules/events/processors/outbox.processor.ts:112-147 | a poll that finds no other under way and is not interrupted does what processing its batch does, and lets the next one in |

## Left out

- Controllers, handlers, proxies, guards, request validation beyond the two facts used (name length and slug pattern), logging, metrics and health checks: they carry no state that the results depend on.
- Event publishing in the inventory use cases: its failure is ignored by design and it touches neither store.
- Response objects of the category calls, apart from level and path (`FindOne`); description, metadata and timestamps of rows.
- Paging, searching and the page query of `findAll`; `maxDepth` there is not used by the code that attaches children.
- Concurrent calls of the categories service: each call is one step. `RacingMovesKeepForestIff` says what two moves checked on the same table would do.
- The low-stock query and its cache, bulk queries, counts and `DeleteExpired`: `Save` and `IncrementVersion` do not invalidate the former, the last removes rows without giving stock back, and no use case calls them.
- Deleting items while use cases are under way: the interleaved machine has no such step; the decorated repository has it, one call at a time.
- Reservations that are prolonged: `Extend` is modelled on the entity, but no use case calls it and the interleaved machine has no such step.
- One expiry batch as a single client in the interleaved machine: there each release or expiry of a batch is a client of its own.
- Redis evicting or restarting, and the order of two commands of one pipeline against those of other clients: a pipeline is one step.
- The extraction of client addresses from headers: it is a parameter of the limiters.
- `clearRateLimits` of the SMS provider, message ids and message statuses: the first is for test code, the others are written and read once.
- Several outbox processors side by side: the guard is a field of one process, and the results are about one.
- Job payloads of the outbox, apart from queue, job type and event id; statistics; start and stop.
- The RabbitMQ consumer, the saga state, payments, e-mail and notification templates.
- The last-failure and last-success times of the circuit breaker, which are only reported.
- A failure of the count that tells a missing item from a stale version after an update that matched no row: the source then reports a missing item instead of a lock failure; no row is affected.
- CategoryRules.CallKeepsSiblingNamesIff: assumes that a name given in an update has the two characters that request validation demands.
