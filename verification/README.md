# Iris ARK shop: verified delivery and catalog model

A Dafny 4.11 model of the parts of the Iris ARK shop where a mistake costs a player an asset or a
buyer money, with proofs. `dafny verify dfyconfig.toml` checks everything.

**Crash-safe delivery (the ARK plugin).** `Journal` is the durable record of every delivery key (absent,
prepared, mutating, completed) as the class the plugin uses: memory, file, and writes that may fail.
`Delivery` is the protocol around it as a step system: journal calls, units handed out and messages are
single steps, writes fail at will, the process crashes between any two steps, and the backend re-sends
anything. `HeartShop` is the poll loop as code; its object is tied to the step system, so what holds of
every run holds of the code, and `Polls` says what each entry of a poll must come to: its claim, the record
it leaves, what is asked of the game and what the backend is told. Three protocols hang on the journal:
`CatalogDino` (the cryopod steps), `DinoListing` (selling a live dino, with recovery) and `PermissionSync`
(group membership jobs, which are run again instead of parked; `PermissionRuns` is one such job over crashes
and re-sends, and `PermissionJobs` its code, tied to those runs). `SharedJournal` runs deliveries, sales and
permission jobs on one journal and shows that each run of the three together is a run of each.
`ItemDelivery` is the slot pre-flight and the give loop.

**Exact algorithms.** `Fingerprints` (64-bit FNV-1a), `Calendar` and `Timestamps` (civil dates, ISO 8601
parsing, printing), `Base64` (strict decoding), `EditDistance` (the one-row loop), `StableJson`
(canonical JSON text).

**HTTP client.** `RequestPolicies` is the circuit breaker and retry policy; `HttpClient` is any number of
requests interleaved over it.

**Catalog engine.** `CatalogPlan` plans which rows to add; `CatalogApply`, `ItemApply` and `DinoApply`
compute the change of one row against the live product, and `CatalogDelivery` is what the backend later
reads out of that product when it is bought. `Options` and `Numbers` are helpers.

## What the proofs found

- An order whose record is left unfinished (a failed journal write, a partial give, a crash) is parked
  for good: `Delivery.DeliverableIffAbsent` says a job can still be handed out exactly when its key has no
  record. For orders this is the design; an operator has to reconcile them.
- A lock lives ten minutes, and the backend refuses a confirmation after that for good. A sale that the
  backend does not hear of in time (a crash, an outage) leaves a dino that is neither alive nor ever listed;
  its payload stays in the journal and is sent again at every poll (`DinoListing.ExpiredLockStrandsADino`). A
  dino a sale destroyed can still be listed exactly when it is listed, or its lock has not expired and no
  listing carries its fingerprint (`DinoListing.TakenCanBeFinishedExactly`).
- A crash between recording a sale as mutating and destroying the dino leaves a live dino on record
  (`DinoListing.CrashLeavesALiveDinoOnRecord`). If it is sold again before the next poll drops that record,
  the poll finds the dino gone and confirms the first lock too: one dino, two listings, with every lock
  fresh (`DinoListing.TwoListingsFromTheStart`). An idle plugin can come to that by a re-sale exactly when a
  mutating record whose lock has not expired names the live dino, with a fingerprint of its own
  (`DinoListing.ResaleListsTwiceExactly`); without a re-sale of a dino on a mutating record there is one
  listing for each dino, whatever else is sold or dies (`DinoListing.OneListingPerDino`). A listed lock whose
  sale never took its dino needs such a record too (`DinoListing.ListedUntakenExactly`).
- The abort after a failed sale names the lock whether or not this sale owns the record, so a reused lock
  loses a taken dino (`DinoListing.CancelLosesExactly`, `DinoListing.ReusedLockLosesADino`).
- A half-open circuit whose probe thread cannot be started is never left again; it can close exactly while
  some request may still report (`HttpClient.RecoversIffSomeoneReports`). Every client can come to that,
  however it is configured (`HttpClient.FailedThreadLeavesProbeOut`).
- A circuit is closed with its counter at the threshold exactly after a permanent error on a half-open one,
  until a success or a transient failure is reported (`RequestPolicies.OverAfterCall`,
  `RequestPolicies.ClosedAtThresholdExactly`, `RequestPolicies.ClosedAtThresholdRun`).
- A half-open circuit admits a call without looking at the window again. Since a request reads the clock
  before it takes the lock, an acquire that comes late with an early time is admitted inside the open
  window (`RequestPolicies.LateAcquireIsAdmittedEarly`); that is the only way
  (`RequestPolicies.WindowsExactly`), and it cannot happen while the acquires come in the order of their
  times (`RequestPolicies.OrderedAcquiresRespectWindows`).
- The item plan looks an owner up by its external key, and an empty key counts as no owner. A draft of the
  same blueprint, quantity and quality as a kept product whose key is the empty text becomes a second row for
  it (`CatalogPlan.EmptyKeyIsNoOwner`), and only so (`CatalogPlan.KeptIdentityIsSoldAgainExactly`); new rows
  are told apart in any case.
- With an older group plugin, one without timed groups, a timed grant is a permanent one, a revoke of the
  timed kind does nothing and is acknowledged, and a revoke of every kind leaves a timed hold. A whole grant
  before its end lands on that end exactly when the plugin knows timed groups and the time left fits an int
  (`PermissionSync.TimedGrantConverges`, `PermissionSync.RevokeRemovesItsScope`,
  `PermissionSync.OlderPluginOutlivesTheEnd`).
- A second apply of an item plan writes nothing, but reports a skip instead of a noop for a catalog row
  kept while inactive: the first run gave it a catalog payload, and it is now taken for one the owner
  switched off (`ItemApply.SecondRunWritesNothing`). That needs the payload column to return the text that
  was written: when keys come back in another order, as PostgreSQL's `jsonb` may return them (the column is
  declared so in `backend/prisma/migrations/20260711010000_typed_cluster_catalog/migration.sql:6`), every
  later run writes the payload again (`ItemApply.PayloadMustComeBackAsWritten`).
- A dino the owner switches off is switched on again by the next apply of an activate row, and of a create
  row whose key is taken, which skips the drift check as it carries no current row
  (`DinoApply.SwitchedOffComesBack`). An item comes back by the same two kinds of row, but a product that
  still has a catalog payload only by an owner's row (`ItemApply.GoesOnSaleExactly`).

## What is taken for granted

- A failed write leaves the journal file as it was (temporary file and atomic replace).
- Game steps are honest: a step that reports success took effect, one that reports failure changed
  nothing; a unit call that faults gave nothing, and the engine's two measurements of a template
  increment never overstate. Exceptions thrown after a live dino was placed are not modelled.
- Dino sales: the backend grants each lock once, `Destroy` takes effect and is final, a lookup by the two
  dino ids is exact, and no claimed delivery carries the type `dino_listing`. The dino callbacks run on
  the game thread one after another. Where a result says that the backend can list a dino, trading is
  enabled, the seller has an account and the payload passes the backend's checks.
- Requests acquire from the policy in the order of the times they read; only the result about open windows
  needs it.
- The group plugin answers as its messages in `PermissionSync.cpp` say, and ends a timed hold at its second.
- In `PermissionRuns` every claim of the job carries the same payload, and nothing else changes the player's
  membership of the group.

## Model

| member | source | states |
|---|---|---|
| `Journal.DeliveryJournal.PersistLocked` | ark-plugin/src/DeliveryJournal.cpp:214-248 | a write replaces the file by the memory copy or leaves the file alone |
| `Journal.DeliveryJournal.Load` | ark-plugin/src/DeliveryJournal.cpp:17-47 | after a successful load file and memory agree; a missing file is created from memory; a bad file stays as it is, and memory may then hold anything |
| `Journal.DeliveryJournal.Begin` | ark-plugin/src/DeliveryJournal.cpp:49-90 | every outcome, and memory and file both unchanged unless the record was durably started |
| `Journal.DeliveryJournal.MarkMutating` | ark-plugin/src/DeliveryJournal.cpp:146-166 | true exactly when a prepared record is now durably mutating; rolled back otherwise |
| `Journal.DeliveryJournal.Complete` | ark-plugin/src/DeliveryJournal.cpp:92-118 | true exactly when the record is now durably completed; rolled back otherwise |
| `Journal.DeliveryJournal.Abort` | ark-plugin/src/DeliveryJournal.cpp:120-144 | true when the key is durably absent; a completed record is refused and kept |
| `Journal.DeliveryJournal.Pending` | ark-plugin/src/DeliveryJournal.cpp:168-189 | lists every unfinished record of a type, each once, and nothing else |
| `Journal.JournalRun` | ark-plugin/src/DeliveryJournal.cpp:49-166 | over any run of operations and write failures the file equals memory, completed records survive, other keys are untouched |
| `Journal.KeysDoNotClash` | ark-plugin/src/DeliveryJournal.cpp:191-196 | type and id are recovered from a key |
| `Journal.ChangedPayloadIsCaught` | ark-plugin/src/DeliveryJournal.cpp:57-66 | a payload differing in one byte from the recorded one is a mismatch and changes nothing |
| `Fingerprints.Fingerprint` | ark-plugin/src/DeliveryJournal.cpp:198-212 | the loop computes the FNV-1a hash and prints it as 16 hexadecimal digits |
| `Fingerprints.PublishedHashes` | ark-plugin/src/DeliveryJournal.cpp:202-206 | the hashes of no byte and of the letter a are the published FNV-1a values, which fixes basis, prime and the order of mixing and multiplying |
| `Fingerprints.HexAt` | ark-plugin/src/DeliveryJournal.cpp:207-211 | each printed digit is the hexadecimal digit of its place, most significant first |
| `Fingerprints.XorBitsAt` | ark-plugin/src/DeliveryJournal.cpp:204 | the arithmetic exclusive or is the bitwise one |
| `Fingerprints.StepInjective` | ark-plugin/src/DeliveryJournal.cpp:202-206 | one hash step is injective in the hash and in the byte |
| `Fingerprints.OneByteChangesFingerprint` | ark-plugin/src/DeliveryJournal.cpp:198-212 | every single-byte change of a payload changes its printed fingerprint |
| `Delivery.AtMostOnce` | ark-plugin/src/HeartShop.cpp:1908-2247 | over every run at most one give ever hands anything out under a key, and no more than its job's units |
| `Delivery.AckIsTruthful` | ark-plugin/src/HeartShop.cpp:2163-2194 | the backend is told complete only for a key durably completed whose every unit was handed out, and for a payload with the fingerprint of the one given |
| `Delivery.MemoryEqualsDisk` | ark-plugin/src/DeliveryJournal.cpp:74-117 | in every reachable state a loaded journal equals the file |
| `Delivery.StepKeepsInv` | ark-plugin/src/HeartShop.cpp:1908-2247 | each step keeps: what was handed out has a mutating or completed record on disk, at most once, completed means everything was given |
| `Delivery.ParkedForGood` | ark-plugin/src/HeartShop.cpp:1971-1979 | an unfinished record nobody works on is never touched, given or acknowledged again |
| `Delivery.CompletedForGood` | ark-plugin/src/HeartShop.cpp:1917-1937 | a completed record stays completed and nothing more is handed out |
| `Delivery.DeliverableIffAbsent` | ark-plugin/src/HeartShop.cpp:2743-2803 | an idle plugin can still deliver and acknowledge a job if and only if its key has no record |
| `Delivery.GivableKeysAreOwned` | ark-plugin/src/DeliveryJournal.cpp:191-196 | the keys of the three givable types are those the delivery protocol owns |
| `Delivery.OtherProtocolsOwnNothing` | ark-plugin/src/DeliveryJournal.cpp:191-196 | permission and listing records never share a key with a givable delivery |
| `HeartShop.Plugin.constructor` | ark-plugin/src/HeartShop.cpp:351-368 | a process started over any earlier run's file is in a protocol state of that run, with a journal that holds a readable file's records, and none over an unreadable file |
| `HeartShop.Plugin.PrepareDelivery` | ark-plugin/src/HeartShop.cpp:2743-2803 | execute exactly when the journal is loaded, the key is new and the write succeeds, and then the new record is on file; otherwise no record changes and the reply is what the key's record calls for |
| `HeartShop.Plugin.MarkMutating` | ark-plugin/src/HeartShop.cpp:1968-1979 | the game is touched only after the record is durably mutating; a failed write leaves it prepared and the lease is handed back |
| `HeartShop.Plugin.GiveOrder` | ark-plugin/src/HeartShop.cpp:2007-2078 | what the give loop handed out is what the protocol logged; the flags are those of the end the game calls for, and every line is asked for in order |
| `HeartShop.Plugin.GiveCatalogDino` | ark-plugin/src/HeartShop.cpp:2108-2156 | success, deferral and failure exactly as the pre-flight and the failed steps call for |
| `HeartShop.Plugin.Give` | ark-plugin/src/HeartShop.cpp:1981-2161 | for each type the flags are those of the end the player, the pre-flight and the game call for: everything given, nothing given, or uncertain |
| `HeartShop.Plugin.Settle` | ark-plugin/src/HeartShop.cpp:2163-2247 | without a failed write: completed and acknowledged, gone and released or failed, or left mutating and released; what a failed write leaves and sends otherwise; the message is sent, and no other record changes |
| `HeartShop.Plugin.ProcessDelivery` | ark-plugin/src/HeartShop.cpp:1885-2247 | one claimed delivery is logged and takes only protocol steps; its record and its message are those the journal, the player and the game call for, and the inventory is asked for its lines only when it may start |
| `HeartShop.Plugin.ProcessPermission` | ark-plugin/src/HeartShop.cpp:1860-1870 | its reply from the journal, the request, the allow list and how the calls and writes went; its membership is what the calls so far leave; other records stay and an acknowledgement needs a durable completion |
| `HeartShop.Plugin.PollPendingOrders` | ark-plugin/src/HeartShop.cpp:1833-2255 | every entry before the first bad player id is handled in order, each as it must be from the state the entry before it left: claimed, recorded, given and answered |
| `Polls.EveryDeliveryIsClaimed` | ark-plugin/src/HeartShop.cpp:1846-1890 | the claims a poll logs are exactly those of the deliveries it comes to, in order; an incomplete entry does not end it, and no step is a crash or a start |
| `Polls.EveryEntryIsAnswered` | ark-plugin/src/HeartShop.cpp:1857-2247 | a poll sends its replies in order and no other message; every permission entry has one, and every delivery unless one of its journal writes failed |
| `Polls.OtherRecordsStay` | ark-plugin/src/HeartShop.cpp:1833-2255 | records of keys no entry names are as they were |
| `Polls.FirstOfItsKey` | ark-plugin/src/HeartShop.cpp:1908-2247 | the first delivery of a key whose writes succeed is answered from the journal the poll began with: by its record, or by how its own give ends |
| `Polls.GoodOrderIsDelivered` | ark-plugin/src/HeartShop.cpp:1908-2194 | a new order for a free online player with room, in a game without a fault, is asked for line by line, completed and acknowledged by the poll that brings it |
| `HeartShop.Plugin.AtMostOnceHere` | ark-plugin/src/HeartShop.cpp:1833-2255 | the run results read off a live plugin: given at most once, acknowledged means completed in its own journal |
| `CatalogDino.RunCryopodDelivery` | ark-plugin/src/CatalogDino.cpp:238-322 | a live dino and a pod of it never exist together; which outcome the buyer gets is told exactly by the pre-flight and the steps that failed, and a pod tried for and not handed over is discarded once |
| `DinoListing.StepKeepsInv` | ark-plugin/src/HeartShop.cpp:249-349 | each step keeps: a taken dino is secured on disk, a confirmed one is gone |
| `DinoListing.SaleConservesDinos` | ark-plugin/src/Commands.cpp:546-561 | over every run a taken dino has its payload on disk, mutating or completed; a confirmed or listed one is not alive |
| `DinoListing.RecoveryDropsOnlyLiveDinos` | ark-plugin/src/HeartShop.cpp:294-349 | recovery drops a mutating record only while its dino lives, and otherwise confirms it |
| `DinoListing.TakenCanBeFinishedExactly` | backend/src/controllers/plugin.controller.ts:1129-1175 | a taken dino can still be listed, and its record completed, if and only if it is listed or its lock has not expired and no listing has its fingerprint |
| `DinoListing.ExpiredLockStrandsADino` | backend/src/controllers/plugin.controller.ts:1053-1153 | a run from the first start ends with a dino that is taken, dead and never listable |
| `DinoListing.CancelLosesExactly` | ark-plugin/src/Commands.cpp:547-554 | the abort after a failed sale loses a taken dino if and only if that lock already holds one, unfinished, and the write succeeds |
| `DinoListing.ReusedLockLosesADino` | ark-plugin/src/Commands.cpp:547-554 | a reused lock does lose one |
| `DinoListing.OneListingPerDino` | ark-plugin/src/HeartShop.cpp:294-349 | over every run with fresh locks no two listings name a dino that is not sold again while it lives and a mutating record names it |
| `DinoListing.ResaleListsTwiceExactly` | ark-plugin/src/HeartShop.cpp:294-349 | a sale of a live dino, with no second re-sale after it, can end in two listings of it if and only if a mutating record names it whose lock has not expired, and its fingerprint, that of the new sale or one more such record, and those of all listings differ |
| `DinoListing.ResoldDinoIsListedTwice` | ark-plugin/src/HeartShop.cpp:330-345 | from two such records, one of which may be the new sale's, a re-sale lists the dino under two fresh locks |
| `DinoListing.TwoListingsFromTheStart` | ark-plugin/src/HeartShop.cpp:330-345 | one crash and one re-sale with another fingerprint list a dino twice from the first start |
| `DinoListing.CrashLeavesALiveDinoOnRecord` | ark-plugin/src/Commands.cpp:548-559 | one crash reaches that state from the first start |
| `DinoListing.ListedUntakenExactly` | ark-plugin/src/HeartShop.cpp:330-345 | an idle plugin can come to have a lock listed whose sale took no dino if and only if it is listed, or its record is mutating, its lock has not expired and no listing has its fingerprint |
| `DinoListing.ListedMeansTaken` | ark-plugin/src/HeartShop.cpp:294-349 | without re-sales and deaths of dinos on mutating records every listed lock belongs to a sale that took its dino |
| `DinoListing.Marketplace.constructor` | ark-plugin/src/HeartShop.cpp:351-368 | a process started over any earlier run's file is in a protocol state of that run, with a journal that holds a readable file's records |
| `DinoListing.Marketplace.FinishSale` | ark-plugin/src/Commands.cpp:516-562 | a sale goes through exactly when the dino is alive, the journal is loaded and no write fails; then the dino is gone, its payload is on record as mutating and the confirmation is sent; otherwise the dino lives and at most a prepared record stays |
| `DinoListing.Marketplace.RecordSale` | ark-plugin/src/Commands.cpp:546-554 | both begin and mark succeed exactly when the journal is loaded and no write fails; otherwise at most a prepared record stays and the sale goes to the cancel |
| `DinoListing.Marketplace.RecoverOne` | ark-plugin/src/HeartShop.cpp:303-347 | a record that was prepared, or mutating with a live dino, is dropped unless its write fails; one mutating with its dino gone has its confirmation sent; nothing else changes |
| `DinoListing.Marketplace.RecoverPendingDinoListings` | ark-plugin/src/HeartShop.cpp:294-349 | a pass drops exactly the records to be dropped but for the failed writes, which it returns, and sends exactly one confirmation for every mutating record whose dino is gone, with its payload and fingerprint; no other record changes and no dino is taken |
| `DinoListing.Marketplace.OnConfirmed` | ark-plugin/src/HeartShop.cpp:249-292 | the record is completed if and only if the backend listed the dino, the record exists and the write succeeds; nothing else changes |
| `PermissionSync.AnswersAreSuccess` | ark-plugin/src/PermissionSync.cpp:410-436 | every answer of a carried-out call counts as success, and "already in state" means nothing changed |
| `PermissionSync.ErrorExactly` | ark-plugin/src/PermissionSync.cpp:410-436 | only the empty answer means applied, and every other answer is an error exactly when it does not say that the player was in that state already |
| `PermissionSync.BuildPlan` | ark-plugin/src/PermissionSync.cpp:360-408 | nothing is planned exactly for a no-op, and every grant that does anything is checked afterwards |
| `PermissionSync.TimedGrantConverges` | ark-plugin/src/PermissionSync.cpp:360-392 | from any membership, after any cut-off tries, one whole try before the end leaves no permanent hold and the absolute end if and only if the group plugin knows timed groups and the time left fits an int; what it leaves otherwise |
| `PermissionSync.OlderPluginOutlivesTheEnd` | ark-plugin/src/PermissionSync.cpp:384-402 | with an older group plugin a timed grant outlives its end and a timed revoke |
| `PermissionSync.NeverStacked` | ark-plugin/src/PermissionSync.cpp:375-385 | half-run tries never leave more time than one try asked for |
| `PermissionSync.RemovalIsNeeded` | ark-plugin/src/PermissionSync.cpp:377-384 | without the removal a second try would stack the time |
| `PermissionSync.RevokeRemovesItsScope` | ark-plugin/src/PermissionSync.cpp:394-408 | a revoke removes the permanent hold exactly when in scope; the timed one, when in scope, if and only if the group plugin knows timed groups or it was gone; a kind out of scope is as it was |
| `PermissionSync.WholeGrantIsInForce` | ark-plugin/src/PermissionSync.cpp:363-392 | a whole grant before its end puts the player in the group |
| `PermissionJobs.Execute` | ark-plugin/src/PermissionsBridge.cpp:255-342 | success exactly when the group plugin is healthy and no call was refused or faulted, and then the whole plan ran, a grant was checked and is in force; the other statuses exactly by what went wrong; otherwise what some prefix of the plan leaves, and nothing is called while unhealthy; its calls are steps of a run |
| `PermissionJobs.BeginJournal` | ark-plugin/src/PermissionSync.cpp:438-477 | an unfinished record is run again exactly when the writes succeed, from a durably mutating record; a completed one is acknowledged and another payload's refused, unchanged; other keys are kept |
| `PermissionJobs.RunJob` | ark-plugin/src/HeartShop.cpp:1780-1831 | acknowledged exactly when the plugin is healthy, nothing went wrong in a call and no write failed; failed exactly for a refused call; a job not acknowledged leaves no record while writes succeed |
| `PermissionJobs.ProcessPermissionDelivery` | ark-plugin/src/HeartShop.cpp:1723-1831 | the one reply each job must get, and the membership it leaves: as it was unless the job may run; its steps are a run, acknowledged exactly when the reply is |
| `PermissionRuns.StepKeepsInv` | ark-plugin/src/HeartShop.cpp:1723-1831 | each step keeps: the membership is what the tries so far make of the first one, and a completed record means the latest ran whole |
| `PermissionRuns.AckMeansDone` | ark-plugin/src/HeartShop.cpp:1780-1831 | over every run of crashes, failed writes and re-sends, acknowledged means the latest try ran whole and the membership is still what it left |
| `PermissionRuns.Trace.AckMeansDoneHere` | ark-plugin/src/HeartShop.cpp:1723-1831 | the same read off the trace the code keeps |
| `PermissionRuns.AckedTimedGrant` | ark-plugin/src/PermissionSync.cpp:360-392 | an acknowledged timed grant, last tried before its end, holds to the absolute end and no longer |
| `PermissionRuns.NeverParked` | ark-plugin/src/PermissionSync.cpp:438-477 | whatever the record says, an idle plugin with a loaded journal can acknowledge the job from its next claim on |
| `SharedJournal.ListingStepFits` | ark-plugin/src/HeartShop.cpp:249-349 | every step of a sale or of recovery keeps the records of the delivery protocol |
| `SharedJournal.DeliveryStepFits` | ark-plugin/src/HeartShop.cpp:1885-2247 | every step of a claimed delivery keeps the records of the listing protocol |
| `SharedJournal.GivableKeysAreNoListings` | ark-plugin/src/DeliveryJournal.cpp:191-196 | a givable delivery never has a listing's key |
| `SharedJournal.PermissionKeysAreNeither` | ark-plugin/src/DeliveryJournal.cpp:191-196 | a permission record never has a key of either protocol |
| `SharedJournal.RunFits` | ark-plugin/src/HeartShop.cpp:1833-2255 | every run of deliveries, sales and permission jobs on one journal is a run of each protocol |
| `SharedJournal.DeliveriesStayOnce` | ark-plugin/src/HeartShop.cpp:1908-2247 | at most once, over every run of all three together |
| `SharedJournal.SalesStillConserve` | ark-plugin/src/Commands.cpp:546-561 | a taken dino has its payload on disk, over every run of all three together |
| `ItemDelivery.SlotsAreFewest` | ark-plugin/src/ItemDelivery.cpp:154-172 | the slots of a line are the fewest that hold its quantity at its stack size: at most k if and only if k slots hold it |
| `ItemDelivery.FreeSlots` | ark-plugin/src/ItemDelivery.cpp:174-182 | the rest of a capped inventory, nothing of an over-full one, and the largest 64-bit number without a cap |
| `ItemDelivery.LineFits` | ark-plugin/src/ItemDelivery.cpp:154-187 | a line whose slots are free goes in whole and uses no more of them |
| `ItemDelivery.PreflightSuffices` | ark-plugin/src/HeartShop.cpp:2572-2605 | if the summed slots fit, every line of any order goes in whole and each item's count grows by what was ordered |
| `ItemDelivery.SlotsAreTight` | ark-plugin/src/ItemDelivery.cpp:159-172 | for one line of a new item the pre-flight is necessary too |
| `ItemDelivery.GivePerUnit` | ark-plugin/src/HeartShop.cpp:2630-2665 | counts exactly the units given and whether anything was touched, also when a fault follows a unit; complete exactly when nothing went wrong, and every unit is asked for as the line says |
| `ItemDelivery.GiveItemsToPlayer` | ark-plugin/src/HeartShop.cpp:2540-2727 | deferred exactly for a busy player or no room, delivered exactly when the give may start and nothing goes wrong, partial exactly when it starts, something goes wrong and something was touched; delivered means every line asked for in order and in full, failed or deferred means untouched |
| `Calendar.CivilOfDays` | ark-plugin/src/PermissionSync.cpp:30-52 | every valid date survives the trip through its day number |
| `Calendar.DaysOfCivil` | ark-plugin/src/PermissionSync.cpp:30-52 | every integer survives the trip through a valid date |
| `Calendar.NextDayIsNextNumber` | ark-plugin/src/PermissionSync.cpp:30-38 | the next calendar day has the next number; 1 January 1970 is day 0 |
| `Calendar.DayNumbersAreUnique` | ark-plugin/src/PermissionSync.cpp:30-38 | two dates share a number exactly when they are one date |
| `Calendar.YearOfEraInverts` | ark-plugin/src/PermissionSync.cpp:40-45 | the year-of-era formula inverts the day-of-era formula on every day of an era |
| `Calendar.EraIsUnique` | ark-plugin/src/PermissionSync.cpp:33 | the written-out rounding is the quotient rounded down |
| `Timestamps.ReadDigits` | ark-plugin/src/PermissionSync.cpp:54-67 | succeeds exactly on that many digits and computes their value |
| `Timestamps.ParseIso8601` | ark-plugin/src/PermissionSync.cpp:144-209 | accepts exactly the texts that render a valid stamp, and computes the Unix time the laws below fix |
| `Timestamps.ParseReadsRender` | ark-plugin/src/PermissionSync.cpp:144-209 | every valid stamp, however written, is read back as itself |
| `Timestamps.AcceptedIsRendered` | ark-plugin/src/PermissionSync.cpp:144-209 | every accepted text renders the stamp it is read as |
| `Timestamps.PrintsBack` | ark-plugin/src/PermissionSync.cpp:211-227 | an accepted timestamp in zone Z prints back as its own date, hour and minute |
| `Timestamps.OffsetShifts` | ark-plugin/src/PermissionSync.cpp:178-198 | an offset shifts the result by exactly that many seconds |
| `Timestamps.NextSecondIsOneMore` | ark-plugin/src/PermissionSync.cpp:200-208 | the stamp of the next second, with its carries through minute, hour, day, month and year, is accepted exactly while the last year lasts and is one second later |
| `Timestamps.EpochIsZero` | ark-plugin/src/PermissionSync.cpp:200-208 | midnight of 1 January 1970 in zone Z is 0 |
| `Timestamps.SecondsByDefault` | ark-plugin/src/PermissionSync.cpp:160-177 | missing seconds count as :00, a leap second as :59, and a fraction for nothing |
| `Base64.EncodeBase64` | ark-plugin/src/DinoPayload.cpp:24-43 | the loop over 24-bit groups computes the encoding |
| `Base64.DecodeBase64` | ark-plugin/src/DinoPayload.cpp:45-89 | accepts exactly what decodes, and then the output encodes to the input within the limit |
| `Base64.DecodesExactlyTheEncoded` | ark-plugin/src/DinoPayload.cpp:24-89 | decoding gives a payload if and only if encoding it gives the text and its size is within the limit |
| `Base64.DecoderIsInjective` | ark-plugin/src/DinoPayload.cpp:45-89 | two accepted texts of one payload are one text |
| `Base64.AlphabetIsTheStandard` | ark-plugin/src/DinoPayload.cpp:10-22 | the 64 letters and the padding are those of RFC 4648, section 4 |
| `Base64.GroupIsBaseSixtyFour` | ark-plugin/src/DinoPayload.cpp:24-43 | the four symbols of a group are the base-64 digits of its three bytes read most significant first, with padding exactly for the missing ones |
| `Base64.GroupsInOrder` | ark-plugin/src/DinoPayload.cpp:24-43 | the i-th four symbols of the text are those of the i-th three bytes |
| `RequestPolicies.RequestPolicy.TryAcquire` | ark-plugin/src/RequestPolicy.cpp:16-34 | the decision, the new state, and the policy's invariant |
| `RequestPolicies.RequestPolicy.Release` | ark-plugin/src/RequestPolicy.cpp:36-40 | gives one slot back and never goes below zero |
| `RequestPolicies.RequestPolicy.RecordResult` | ark-plugin/src/RequestPolicy.cpp:42-71 | the new state of every result, and the policy's invariant |
| `RequestPolicies.BreakerHolds` | ark-plugin/src/RequestPolicy.cpp:16-71 | over every order of calls and times: the cap, probe means half-open, tripped means at threshold, the counter is the failures since the last success, one admission in a half-open episode |
| `RequestPolicies.WindowsExactly` | ark-plugin/src/RequestPolicy.cpp:16-34 | no call is admitted inside an open window if and only if no half-open circuit admits one there |
| `RequestPolicies.OrderedAcquiresRespectWindows` | ark-plugin/src/RequestPolicy.cpp:16-34 | so no call is while the acquires come in clock order, whatever the times of the results |
| `RequestPolicies.LateAcquireIsAdmittedEarly` | ark-plugin/src/HttpClient.cpp:411 | for every configuration a late acquire with an early time is admitted inside the window |
| `RequestPolicies.OverAfterCall` | ark-plugin/src/RequestPolicy.cpp:53-61 | a call leaves the circuit closed at its threshold if and only if it is a permanent error on a half-open one, or it was so and the call reports neither a success nor a transient failure |
| `RequestPolicies.ClosedAtThresholdExactly` | ark-plugin/src/RequestPolicy.cpp:53-61 | the same over every run |
| `RequestPolicies.ClosedAtThresholdRun` | ark-plugin/src/RequestPolicy.cpp:53-61 | for every configuration a run from the start that ends so, and the one failure that then trips it |
| `RequestPolicies.BackoffGrows` | ark-plugin/src/RequestPolicy.cpp:80-85 | later attempts never wait less, and none longer than the maximum |
| `RequestPolicies.BackoffDoubles` | ark-plugin/src/RequestPolicy.cpp:80-85 | the first wait is the initial one, each next is twice as long up to the maximum, for twenty doublings |
| `RequestPolicies.AdmitsUpToTheCap` | ark-plugin/src/RequestPolicy.cpp:16-34 | a new policy admits exactly as many calls at once as its cap, and the next when one returns |
| `RequestPolicies.TripsAtTheThreshold` | ark-plugin/src/RequestPolicy.cpp:42-71 | failures in a row open the circuit exactly from the threshold on, at the time of the last one |
| `RequestPolicies.BreakerCycle` | ark-plugin/src/RequestPolicy.cpp:16-71 | a tripped circuit refuses until its time is over, then admits one probe; a success or a permanent error closes it, a transient failure opens it anew |
| `RequestPolicies.ReadsAreGetAndHead` | ark-plugin/src/RequestPolicy.cpp:102-108 | the methods tried again are GET and HEAD in any case of their letters |
| `HttpClient.StepKeepsInv` | ark-plugin/src/HttpClient.cpp:411-492 | each step keeps both counters equal to the requests that still owe a return |
| `HttpClient.RequestsAreAccountedFor` | ark-plugin/src/HttpClient.cpp:411-492 | over every interleaving slots and counts are returned exactly once, writes try once and reads at most the limit |
| `HttpClient.DestructorWaitsForWorkers` | ark-plugin/src/HttpClient.cpp:95-103 | the destructor returns only when no worker is left |
| `HttpClient.WorkerStepsRunOut` | ark-plugin/src/HttpClient.cpp:476-490 | every step of a request brings it nearer its end |
| `HttpClient.StuckForGood` | ark-plugin/src/HttpClient.cpp:787-811 | with the probe out and nobody left to report, nothing is ever admitted again |
| `HttpClient.RecoversIffSomeoneReports` | ark-plugin/src/HttpClient.cpp:787-811 | a half-open circuit with its probe out can close if and only if some request may still report; while shutting down only one about to start or in its attempt may |
| `HttpClient.FailedThreadLeavesProbeOut` | ark-plugin/src/HttpClient.cpp:791-799 | for every configuration some run from a new client ends there |
| `HttpClient.PerformAttempt` | ark-plugin/src/HttpClient.cpp:472-492 | the answers are one retry chain: every answer but the last is one that is tried again, the last is not unless the client shuts down; exactly the last is reported to the policy, at most once |
| `HttpClient.DoRequest` | ark-plugin/src/HttpClient.cpp:401-811 | both counters come back on every path; attempts are made exactly for an admitted request whose thread starts before shutdown, they are one retry chain, and the policy ends in the state its last answer calls for |
| `HttpClient.ChainLength` | ark-plugin/src/HttpClient.cpp:472-492 | a chain makes one attempt for a write and at most the limit for a read; it goes on exactly after a failure without a status or with 408, 425, 429 or 5xx of a read within the limit |
| `EditDistance.EditDistance` | backend/scripts/item-catalog/plan.ts:242-254 | the one-row loop computes the distance, and zero means equal |
| `EditDistance.DistanceIsLeast` | backend/scripts/item-catalog/plan.ts:242-254 | no alignment of the words has fewer changes than the distance |
| `EditDistance.DistanceIsReached` | backend/scripts/item-catalog/plan.ts:242-254 | some alignment has exactly that many |
| `EditDistance.Symmetric` | backend/scripts/item-catalog/plan.ts:242-254 | the distance is symmetric |
| `EditDistance.ZeroMeansEqual` | backend/scripts/item-catalog/plan.ts:242-254 | it is zero exactly for equal words |
| `EditDistance.LengthBounds` | backend/scripts/item-catalog/plan.ts:242-254 | it lies between the difference of the lengths and the longer length |
| `EditDistance.Triangle` | backend/scripts/item-catalog/plan.ts:242-254 | the triangle inequality |
| `StableJson.SamePrintIffSameTree` | backend/scripts/item-catalog/lib.ts:696-704 | two values print alike if and only if they are one tree up to key order, undefined, non-finite numbers and dates |
| `StableJson.Decodes` | backend/scripts/item-catalog/lib.ts:696-704 | a value is read off the front of a text in one way only |
| `StableJson.QuoteDecodes` | backend/scripts/item-catalog/lib.ts:703 | a quoted string with its escapes and surrogates is read back in one way only |
| `StableJson.SortedKeysAreUnique` | backend/scripts/item-catalog/lib.ts:699 | a set of keys has one sorted list |
| `StableJson.LiteralsAreJson` | backend/scripts/item-catalog/lib.ts:703 | true, false, null, numbers and the empty containers print as the texts of RFC 8259; undefined and non-finite numbers as null |
| `StableJson.ArrayText` | backend/scripts/item-catalog/lib.ts:697 | an array prints its items in order with a comma between them, in brackets |
| `StableJson.ObjectText` | backend/scripts/item-catalog/lib.ts:698-701 | an object prints its members in the order of their keys by code units, quoted, with colons and commas, in braces |
| `StableJson.StringText` | backend/scripts/item-catalog/lib.ts:703 | a string prints its units and surrogate pairs in order, each escaped as section 7 of RFC 8259 and JSON.stringify have it: short forms, lower-case hexadecimal for other controls and lone surrogates, nothing else |
| `StableJson.DriftShowsInText` | backend/scripts/item-catalog/lib.ts:711-714 | the text under the fingerprint changes exactly when one of its columns does |
| `CatalogPlan.BuildLadders` | backend/scripts/dino-catalog/lib.ts:521-549 | each ladder is ascending and holds exactly the levels sold, each once |
| `CatalogPlan.LadderFor` | backend/scripts/dino-catalog/lib.ts:586-607 | a variant sells the ladder's top level only, anything else every level |
| `CatalogPlan.PlanOffers` | backend/scripts/dino-catalog/plan.ts:286-345 | one row for each free level and only for those, kept apart from what is on sale; a duplicate exactly when no level is free, of the owner of the first level |
| `CatalogPlan.OfferInOrder` | backend/scripts/dino-catalog/plan.ts:286-345 | the rows of an offer go from the top level down, one for each free level; the draft carries the top one, and the others are created under the key of their package and level |
| `CatalogPlan.BuildDinoPlan` | backend/scripts/dino-catalog/plan.ts:216-406 | new rows have distinct slots, none of a kept legacy row, and exactly the offered slots are on sale with the kept ones; a row that is not created carries a wanted draft of its package, at a level of its ladder, under its key |
| `CatalogPlan.SlotKeyInjective` | backend/scripts/dino-catalog/plan.ts:157-215 | slots and created keys are told apart by their text |
| `CatalogPlan.CreatedDinosHaveOwnKeys` | backend/scripts/dino-catalog/plan.ts:308-314 | no two created rows share an external key |
| `CatalogPlan.PlanOffer` | backend/scripts/item-catalog/plan.ts:585-589 | an identity with an owner key is a duplicate and changes nothing, any other gets exactly one row |
| `CatalogPlan.BuildItemPlan` | backend/scripts/item-catalog/plan.ts:469-733 | new rows have distinct identities, exactly those offered that no kept row owns by its key, and own keys; each is the draft it carries or is created for a wiki item |
| `CatalogPlan.KeptIdentityIsSoldAgainExactly` | backend/scripts/item-catalog/plan.ts:469-589 | a new row has a kept row's identity if and only if a wanted draft's identity is registered only under the empty key |
| `CatalogPlan.EmptyKeyIsNoOwner` | backend/scripts/item-catalog/plan.ts:470-476 | such an input |
| `CatalogPlan.Registry.KeepLegacy` | backend/scripts/item-catalog/plan.ts:469-477 | the first kept row with a key owns its identity, a later one is only reported |
| `CatalogApply.Diff` | backend/scripts/item-catalog/apply-core.ts:115-127 | exactly the target columns that differ, with what they were |
| `CatalogApply.ProjectionHolds` | backend/scripts/item-catalog/apply-core.ts:301-321 | the projected product has every target column as asked and every other as it was |
| `CatalogApply.ReviewSettles` | backend/scripts/item-catalog/apply-core.ts:232-245 | a written review is found current the next time, whatever payload it was merged into |
| `CatalogDelivery.CleanExactly` | backend/src/services/itemCatalogDelivery.ts:81 | a blueprint is taken as it is if and only if it has no quote or space at either end |
| `ItemApply.ComputeChange` | backend/scripts/item-catalog/apply-core.ts:197-278 | the assignments compute the change the laws below fix |
| `ItemApply.ProductIsTheRow` | backend/scripts/item-catalog/apply-core.ts:81-113 | after a create, an activate or a kept catalog row, name, description, price, quantity, blueprint, category and sort order are the row's, quality is the row's or 0, and the rest is fixed |
| `ItemApply.PayloadMatchesColumns` | backend/scripts/item-catalog/lib.ts:660-684 | the payload then holds one item whose blueprint, amount and blueprint flag are the columns', and the definition's price is the price column |
| `ItemApply.PayloadRecordsTheRow` | backend/scripts/item-catalog/lib.ts:660-684 | it also records the key, the type, the name and the approved review with its bases and plan |
| `ItemApply.GatePassesExactly` | backend/scripts/item-catalog/lib.ts:737-772 | the strict gate lets such a product through if and only if its blueprint is canonical, its quantity a safe whole number of at least one and its quality not negative |
| `ItemApply.SoldIsDelivered` | backend/src/services/itemCatalogDelivery.ts:91-128 | what a purchase of so many units delivers is one line: the row's blueprint, its quantity times the units, its quality |
| `ItemApply.RefusedExactly` | backend/scripts/item-catalog/apply-core.ts:177-217 | a row is refused exactly for a stranger's product or for a missing price, quantity or category, and skipped exactly without a product to change or when the owner switched it off |
| `ItemApply.OnSaleAfterExactly` | backend/scripts/item-catalog/apply-core.ts:197-278 | a product is on sale afterwards exactly if its row activates or creates it, or it was and the row does not deactivate it |
| `ItemApply.OffSaleRowsWriteNoMore` | backend/scripts/item-catalog/apply-core.ts:205-251 | a row that takes a product off sale writes that alone, one that leaves it off sale at most the payload of an inactive draft, a skipped row nothing |
| `ItemApply.ImageAfterExactly` | backend/scripts/item-catalog/apply-core.ts:155-172 | the image is the found artwork's exactly when the row may take it, and as it was otherwise |
| `ItemApply.BestArtwork` | backend/scripts/item-catalog/lib.ts:74-81 | artwork is looked up by product id, then by key, then by package, and empty entries count as none |
| `ItemApply.OnlyABlankDescriptionIsFilled` | backend/scripts/item-catalog/apply-core.ts:218-227 | a kept owner's row gets the row's description exactly when its own is blank and the row has one |
| `ItemApply.ReviewIsOnRecord` | backend/scripts/item-catalog/apply-core.ts:236-250 | a draft left inactive has a current review on record, the rest of its payload is kept, and a review already current is not written again |
| `ItemApply.SecondRunWritesNothing` | backend/scripts/item-catalog/apply-core.ts:180-278 | applying twice writes nothing, and is a noop except for a catalog row kept while inactive |
| `ItemApply.SecondRunAfterCreate` | backend/scripts/item-catalog/apply-core.ts:188-278 | after a create it is refused exactly for a seed key, and quiet exactly when the new id has no other image |
| `ItemApply.PayloadMustComeBackAsWritten` | backend/scripts/item-catalog/apply-core.ts:76-127 | the second run is quiet if and only if the stored payload comes back as the text that was written, and else writes exactly that payload again |
| `ItemApply.OrderOfKeysIsText` | backend/scripts/item-catalog/apply-core.ts:76-78 | the written payload has six members, and the same members in another order are another text |
| `ItemApply.OwnerRowsAreTheOwners` | backend/scripts/item-catalog/apply-core.ts:221-251 | a legacy or seed row never has price, quantity, quality, name, category or payload written |
| `ItemApply.ActivationRewritesAnyRow` | backend/scripts/item-catalog/apply-core.ts:228-231 | only because no plan activates one: after an activation or a create on a taken key every column but the image is the same whatever the product was |
| `ItemApply.GoesOnSaleExactly` | backend/scripts/item-catalog/apply-core.ts:177-217 | an inactive product goes on sale if and only if its row activates or creates it, and is an owner's row or the product has no catalog payload |
| `ItemApply.OwnImagesStay` | backend/scripts/item-catalog/apply-core.ts:146-172 | a kept row's image is replaced only when it is a shared placeholder and the new one targets it |
| `DinoApply.ComputeChange` | backend/scripts/dino-catalog/apply-core.ts:129-193 | the assignments compute the change the laws below fix |
| `DinoApply.ProductIsTheRow` | backend/scripts/dino-catalog/apply-core.ts:65-91 | after a create, an activate or a kept catalog row, name, description, price, blueprint, category and sort order are the row's, and the rest is fixed |
| `DinoApply.NewDinoIsOne` | backend/scripts/dino-catalog/apply-core.ts:65-91 | a created dino is sold one at a time |
| `DinoApply.PayloadMatchesColumns` | backend/scripts/dino-catalog/lib.ts:714-734 | the payload's definition and spawn order name the blueprint column and the row's level, and its price is the price column |
| `DinoApply.PayloadRecordsTheRow` | backend/scripts/dino-catalog/lib.ts:714-734 | it also records the key, the type, the name, the command and the approved review with its bases and plan |
| `DinoApply.SoldIsDelivered` | backend/src/services/dinoCatalogDelivery.ts:116-151 | what a purchase spawns is the row's blueprint at the row's level, and it is turned down exactly for a level that is no whole number from 1 to 10000 or a blueprint that is not clean |
| `DinoApply.RefusedExactly` | backend/scripts/dino-catalog/apply-core.ts:123-165 | a row is refused exactly for a stranger's product or for a missing level, price or category, and skipped exactly without a product to change |
| `DinoApply.OnSaleAfterExactly` | backend/scripts/dino-catalog/apply-core.ts:129-193 | a product is on sale afterwards exactly if its row activates or creates it, or it was and the row does not deactivate it |
| `DinoApply.OffSaleRowsWriteNoMore` | backend/scripts/dino-catalog/apply-core.ts:133-167 | a row that takes a dino off sale writes that alone, one that leaves it off sale at most the payload of an inactive draft, a skipped row nothing |
| `DinoApply.ImageAfterExactly` | backend/scripts/dino-catalog/apply-core.ts:115-150 | the image is the found artwork's exactly when the row may take it, and as it was otherwise |
| `DinoApply.BestArtwork` | backend/scripts/dino-catalog/lib.ts:859-865 | artwork is looked up by key, then by package, and empty entries count as none |
| `DinoApply.KeptDescription` | backend/scripts/dino-catalog/apply-core.ts:142-148 | a kept legacy row gets the row's description if it has one |
| `DinoApply.ReviewIsOnRecord` | backend/scripts/dino-catalog/apply-core.ts:156-167 | a draft left inactive has a current review on record, the rest of its payload is kept, and a review already current is not written again |
| `DinoApply.SecondRunIsNoop` | backend/scripts/dino-catalog/apply-core.ts:93-193 | applying twice is a noop, whatever the row |
| `DinoApply.LegacyRowsAreTheOwners` | backend/scripts/dino-catalog/apply-core.ts:141-150 | of a legacy row only description and image are written |
| `DinoApply.SwitchedOffComesBack` | backend/scripts/dino-catalog/apply-core.ts:151-154 | an inactive dino goes on sale if and only if its row activates or creates it |

## Left out

- ItemDelivery.GiveItemsToPlayer: its 64-bit sums and 32-bit quantities are unbounded integers.
- Base64.DecodeBase64: what a refused call leaves in the output, and the overflow of the limit plus two near the largest size, are not stated.
- RequestPolicies.RequestPolicy.RecordResult: the failure counter is unbounded; the source's is a 32-bit integer.
- Timestamps.ParseIso8601: the result is an unbounded integer; no accepted year overflows the source's type.
- CatalogApply.WithReview: properties of a payload that is a list or text are copied under their index, in order.
- PermissionJobs.ProcessPermissionDelivery: the second of planning and that of carrying out are two inputs, and one call is one second.
- HeartShop.Plugin.PollPendingOrders: the answer of the backend is the list of claims; an exception ends the poll at that claim.
- StableJson.DriftShowsInText: the SHA-1 digest and its truncation to 16 characters; the result is about the text that is hashed.
- StableJson.SamePrintIffSameTree: functions, symbols, big integers, array holes and invalid dates, which are not JSON data; a number is the text JavaScript prints for it.
- CatalogPlan.BuildItemPlan: quality and quantity are compared as numbers, not as the text of the identity key.
- ItemApply.ProductIsTheRow: the canonical form of a row's blueprint and its package are fields of the row.
- ItemApply.GatePassesExactly: the plugin's checks of the built payload, which the gate runs after its own.
- ItemApply.SoldIsDelivered: stat overrides of an item line, and amounts past the safe integers, where a product would be rounded.
- DinoApply.SoldIsDelivered: cryopod and extras of a spawn order, which depend on the server's capabilities.
- CatalogDelivery.CleanExactly: what JavaScript makes of a value that is no text or number is a parameter.
- ItemApply.SecondRunWritesNothing: drift refusal, the optimistic guard and the transaction around the writes.
- HttpClient.DoRequest: callbacks, an exception out of the finaliser, request signing, TLS and the network itself.
- Threads and mutexes: each locked method is one step; interleavings are sequences of steps.
- Engine calls, fault guards, spawning details and stat values of dinos (floating point): abstract steps with honest results.
- The notice throttle, chat and log messages, the protection cache and the other chat commands: presentation.
- Field-by-field validators of payloads (item lines, cryopod and permission requests, VIP status): each check is one branch.
- Classification tables, names, prices, quantities and reports of the two catalogs: data that decides which candidates are offered, not how they are kept apart.
- Re-attaching existing catalog rows to a new plan and sorting rows for display: they change no identity.
- The rest of the web backend (controllers, database, payments), the frontend and the plugin's older sources: plumbing around what is modelled here.
