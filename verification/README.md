# Verified models of the issuance platform's concurrent and in-place algorithms

The project models four parts of the platform in Dafny and proves what their comments and
callers rely on.

1. **Bulk issuance** (`AdmissionQueue`, `OfferSemaphore`, `CapacityWait`, `RowIdentity`,
   `BulkRow`, `RowGuards`, `RowOutcomes`, `BatchCompletion`). A process admits work through a
   FIFO permit queue with deadlines; all processes share an offer budget kept in one Redis hash
   by three scripts; a file row is processed under a guard that stays held when its outcome is uncertain; a Redis
   set decides which row completes a batch. Each script and each synchronous stretch between
   two awaits is one atomic step. Runs are arbitrary interleavings of such steps, with crashes,
   redeliveries, lost replies and any clock readings.
2. **Status lists** (`StatusBitmap`, `StatusLists`, `CredentialOffer`). A bitmap of credential
   indices with a cached count, random probing and a wrap-around scan; stored lists that rotate
   when full; offers that draw indices and give them back on failure. All of it is shown to
   refine a plain set of outstanding (list, index) pairs.
3. **Base-wallet capacity** (`WalletCapacity`, `WalletSlots`, `WalletRuns`, `WalletLimits`). A
   stored counter that concurrent creates claim with a cap read earlier, and that failed creates
   and deletes lower on a best-effort basis.
4. **City/state repair** (the `Geo` files, `EditDistance`, `Ranking`). A multi-pass matching of
   database states to package codes, the last pass scoring names with a two-row edit-distance
   program, then a resolution of city groups by code, by majority vote, and by capital names
   until a fixpoint.

Loops and field updates are imperative methods. Each is proved equal to a function or to an
explicit relation between old and new state, and the results about runs, reruns and orders are
lemmas about those functions.

## Assumptions

- Each Prisma transaction is one atomic step, although the code sets no isolation level; each
  single database statement and each Redis command is atomic. A Redis call and the updates of a
  file row can take effect without the caller learning it. An acquisition, activation or
  release of the offer budget may also land after its caller gave up; a guard that is set or a
  row that is updated so late is not considered.
- File rows are not deleted while they are being processed, although
  `apps/issuance/src/issuance.repository.ts:731` can delete the data of an upload.
  `BulkRow.DispatchLeavesTrace` relies on this.
- Owner ids, run ids and new list ids are fresh. The hash in the row key is injective on the
  folded identifiers, so the key is modelled as the folded triple.
- Row ids in the database are normalised UUIDs: they carry no outer blanks and are compared
  case-insensitively.
- Scores, pauses and the process clock are reals. A pause lasts at least as long as asked for,
  and readings do not go back within one waiting call; the Redis clock may read anything.
- State ids are unique, and city ids are unique where a result says so. Country codes without
  `|` and state ids other than 0 are assumed only where a result needs them. The package data
  and the text normalisers are parameters; every package state has a code where a rerun is
  considered.
- `GeoPlan.RepairTwice` takes the rows of the second run in the order of the first. The script
  reads them without an `orderBy` (scripts/fix-geo-location-country-ids.ts:381-384), so
  `GeoReplan` treats every order. There a legacy name (an alias such as "Holy Cross") must be
  the name of at most one state of its country, since the script takes the first it finds
  (`GeoShuffle.FirstNamesakeTaken`).
- For wallets: counters start equal to the number of stored sub-wallets (0 for a new base
  wallet), and sub-wallet ids are not reused. A store, a claim or a decrement may take effect
  without its reply being heard; `WalletLimits` says exactly what distinct endpoints and heard
  stores are needed for.
- A status-list transaction that reports failure did not commit.

## Findings

- The repair script's header calls it idempotent. With the rows in the same order it is, exactly
  when no unmatched state could still be matched with the codes its country uses in the end
  (`GeoPlan.RepairTwice`); `GeoLateMatch.RepairNotFinal` gives two states of one country for
  which a second run stores a further code. A second run changes no row and leaves the same
  states unmatched in every order of the rows exactly when, moreover, no unmatched state has a
  stored code (`GeoReplan.FinalInAnyOrderIff`): two states that share a code swap roles when
  they swap places. A plan without unmatched states is final
  in any order, and so is one with unique stored codes and nothing left to match.
- The plan's type comments say that backfills are for states whose code is empty. The code also
  treats a stored code as empty when an earlier state of the same country has it, and may
  replace it. A stored code is kept exactly for the first state of its country that has it
  (`GeoStoredCodes.StoredCodeKept`). For a given package, only empty codes are filled exactly if
  every state with a repeated code stays unmatched (`GeoStoredCodes.FillsEmptyOnlyExactly`).
  Unique stored codes are enough for every package. Where normalised names tell the states of a
  country apart they are also necessary, as some package makes the script replace any repeated
  code (`GeoFitting.FillsEmptyOnlyIff`). Where names are blank to the normalisers they are not:
  `GeoFitting.BlankNamesProtect` gives rows with a repeated code that no package replaces.
  `GeoLateMatch.RepeatedCodeOverwritten` shows a code being replaced.
- The two witnesses in `GeoLateMatch` use a small invented package with plain lower-case names.
  No rows that show the effect with the real country-state-city package are exhibited.
- Batch completion is signalled once in every lifetime of the completed set that reaches the
  total (`BatchCompletion.FiresPerLifetime`). The set expires after seven days, so a batch
  completes again exactly if as many distinct rows as its total are redelivered after that
  (`BatchCompletion.FiresAgainIff`).
- The wallet cap holds in all runs exactly if base wallets have distinct endpoints, none is
  registered for an endpoint in use, and no sub-wallet row is written while its create is told
  otherwise (`WalletLimits.CapsKeptIff`). The repository's comments name the shared endpoint as
  open; registration checks for it without a lock, and a create whose store fails after writing
  gives its slot back. With distinct endpoints the excess is at most the number of such stores
  (`WalletCapacity.NeverOverProvisioned`).
- The branch "Retry allocation, list full" cannot be reached when transactions are atomic.

## Model

| member | source | states |
|---|---|---|
| AdmissionQueue.IssuanceAdmissionQueue.Acquire | apps/issuance/src/issuance-admission.queue.ts:31-54 | an arrival is timed out, granted, refused or queued at the end of the line, and the counter and the line change accordingly |
| AdmissionQueue.IssuanceAdmissionQueue.Expire | apps/issuance/src/issuance-admission.queue.ts:45-52 | a timer rejects its waiter only if it is still in line, and takes out that waiter alone |
| AdmissionQueue.IssuanceAdmissionQueue.Release | apps/issuance/src/issuance-admission.queue.ts:56-68 | the expired head of the line is rejected, the first live waiter inherits the permit, and the counter drops only if there is none |
| AdmissionQueue.StepKeeps | apps/issuance/src/issuance-admission.queue.ts:15-68 | every event keeps: active counts the permit holders, nobody waits while a permit is free, promises settle once, the line is in arrival order |
| AdmissionQueue.PermitsBounded | apps/issuance/src/issuance-admission.queue.ts:7-54 | in every run permits stay within capacity, the line within its limit, a waiting line means full capacity, every promise settles at most once |
| AdmissionQueue.NoOvertaking | apps/issuance/src/issuance-admission.queue.ts:56-68 | when a ticket has a permit, each earlier ticket was rejected or got its permit before |
| AdmissionQueue.RejectedOnTime | apps/issuance/src/issuance-admission.queue.ts:56-68 | in every run, a waiter rejected by a permit given back had reached the deadline it arrived with, and the waiter that inherits the permit had not |
| AdmissionQueue.NoBarging | apps/issuance/src/issuance-admission.queue.ts:31-41 | an arrival gets a permit at once only if nobody is waiting |
| AdmissionQueue.DrainsWhenIdle | apps/issuance/src/issuance-admission.queue.ts:56-68 | once no ticket has a permit, the counter is 0 and nobody is left waiting |
| AdmissionQueue.ArrivalAnswered | apps/issuance/src/issuance-admission.queue.ts:31-54 | in every run an arrival is timed out exactly at or past its deadline, given a permit exactly if fewer than capacity hold one, queued at the end exactly if the line has room, and refused exactly if it has none |
| AdmissionQueue.PermitPassed | apps/issuance/src/issuance-admission.queue.ts:18-29 | a holder starts its work exactly if its deadline has not come; otherwise, and when its work ends, its permit goes to the first waiter in time, those before it being rejected, or back |
| OfferSemaphore.RedisHash.RunAcquire | apps/issuance/src/issuance-work.coordinator.ts:25-39 | the script's loop over entries and its branches compute the new hash and reply of the specification |
| OfferSemaphore.RedisHash.RunActivate | apps/issuance/src/issuance-work.coordinator.ts:40-46 | the script's branches compute the specified hash and reply; ActivateKeeps says what they mean |
| OfferSemaphore.RedisHash.RunRelease | apps/issuance/src/issuance-work.coordinator.ts:47-50 | the script computes the specified hash; ReleaseKeeps says what it means |
| OfferSemaphore.AcquireReplies | apps/issuance/src/issuance-work.coordinator.ts:25-39 | each reply in terms of the live owners alone: wrong capacity, full, or admitted |
| OfferSemaphore.AcquireKeeps | apps/issuance/src/issuance-work.coordinator.ts:25-39 | afterwards the hash is absent or has a capacity and 1 to capacity owners: the live ones and an admitted caller, whose repetition adds no second slot |
| OfferSemaphore.OnlyLapsedPurged | apps/issuance/src/issuance-work.coordinator.ts:25-34 | of the other owners exactly the lapsed reservations are taken out; active and legacy entries stay as they are |
| OfferSemaphore.ReservationLasts | apps/issuance/src/issuance-work.coordinator.ts:22-46 | a new reservation is live, and can be activated, exactly while the Redis clock has moved less than 30000 ms |
| OfferSemaphore.ActivateKeeps | apps/issuance/src/issuance-work.coordinator.ts:40-46 | exactly live reservations can be activated; an activated owner never lapses; no one else is affected |
| OfferSemaphore.ReleaseKeeps | apps/issuance/src/issuance-work.coordinator.ts:47-50 | exactly the caller leaves; with the last owner the capacity goes too |
| OfferSemaphore.ClearsItself | apps/issuance/src/issuance-work.coordinator.ts:25-50 | with no active owner and only lapsed reservations, a worker of any capacity is admitted as to a new hash |
| OfferSemaphore.StepKeeps | apps/issuance/src/issuance-work.coordinator.ts:105-154 | every step of every worker keeps: one capacity for all calls in the hash, and an active entry from activation to the call's own release |
| OfferSemaphore.OthersLeaveCall | apps/issuance/src/issuance-work.coordinator.ts:105-154 | a call moves only by its own steps, not by those of others and not by late effects |
| OfferSemaphore.GrantedCallActivates | apps/issuance/src/issuance-work.coordinator.ts:113-136 | in every run a call that was given a slot and activates within 30000 ms goes on, and one that does so later fails, whatever other workers do in between |
| OfferSemaphore.InFlightUntilSettled | apps/issuance/src/issuance-work.coordinator.ts:131-140 | in every run a dispatched operation is in flight and keeps its active entry until it settles, also when its worker dies |
| OfferSemaphore.CallAlone | apps/issuance/src/issuance-work.coordinator.ts:105-154 | an undisturbed call runs through to its release and leaves the hash with exactly the owners that were live when it asked |
| OfferSemaphore.OffersBounded | apps/issuance/src/issuance-work.coordinator.ts:105-140 | in every run from any well-formed hash, the running operations all hold active entries under one capacity and number at most that capacity |
| OfferSemaphore.RefusalsJustified | apps/issuance/src/issuance-work.coordinator.ts:118-122 | a configuration refusal happens only while an owner is live that was admitted under another capacity or left from before the run; a full reply only at capacity |
| CapacityWait.WaitForSlot | apps/issuance/src/issuance-work.coordinator.ts:113-130 | for any answers of Redis: polls until the first answer that is not a retry, and ends as that answer says, unless the deadline comes first; each pause is at least 1 ms and at most the backoff, and all but the last fit in the time left |
| CapacityWait.ReleasePermit | apps/issuance/src/issuance-work.coordinator.ts:142-154 | for any outcomes: tries until it is heard, three times at most, and counts the attempts that landed unheard |
| CapacityWait.RunAdmitted | apps/issuance/src/issuance-work.coordinator.ts:131-136 | after a grant the call ends as the activation answers, finished exactly if the operation started, unless the deadline has come |
| CapacityWait.AcquireAndRun | apps/issuance/src/issuance-work.coordinator.ts:105-140 | for any answers of Redis: the operation starts only right after a fresh activation and before the deadline; unless time runs out the call ends as the last poll and the activation answer; the release comes once and last on every path |
| CapacityWait.LogShape | apps/issuance/src/issuance-work.coordinator.ts:105-140 | what each phase says about the actions so far |
| CapacityWait.ActionIsPath | apps/issuance/src/issuance-work.coordinator.ts:105-154 | in the shared machine, each action of a call is a legal sequence of steps to the phase its log says, if the scripts answer as logged; failed calls may have taken effect or not |
| CapacityWait.StartIsDispatch | apps/issuance/src/issuance-work.coordinator.ts:80-103 | the start of an operation is a legal dispatch of the request's offer |
| CapacityWait.BackoffGrows | apps/issuance/src/issuance-work.coordinator.ts:124-128 | every pause is 1 to 50 ms, and their sum in closed form |
| CapacityWait.PollsBounded | apps/issuance/src/issuance-work.coordinator.ts:116-130 | the number of polls is bounded by the milliseconds left, and by one per 50 ms after the seventh |
| CapacityWait.IssuanceDeadline | libs/context/src/issuanceDeadline.ts:16-26 | accepts exactly an absent header or a safe integer in the future; the result is the local maximum or the peer's deadline, and beyond neither |
| CapacityWait.DispatchDeadlines | apps/issuance/src/issuance-work.coordinator.ts:75-103 | in every run a dispatch comes before its own wait ends, and a request's first dispatch before the gateway deadline; StartsInTime says how long the wait is |
| CapacityWait.StartsInTime | apps/issuance/src/issuance-work.coordinator.ts:94-103 | in every run an offer starts within the configured wait, an interactive one within 1000 ms, and before the request deadline if nothing of the request was dispatched when it entered; at every such reading it can start |
| CapacityWait.LaterOffersOutliveDeadline | apps/issuance/src/issuance-work.coordinator.ts:98-101 | a run in which a later recipient's offer starts at or after the gateway deadline |
| RowIdentity.FoldOfLower | apps/issuance/src/issuance-work.coordinator.ts:192-197 | the folded id can be computed from the lower-cased id: trimming and lower-casing commute |
| RowIdentity.SameIdSameKey | apps/issuance/src/issuance-work.coordinator.ts:192-197 | ids the database does not distinguish fold to the same key |
| RowIdentity.FoldMeans | apps/issuance/src/issuance-work.coordinator.ts:192-197 | the folded text is what lies between the outer blanks, with capitals made small |
| BulkRow.OfferKeeps | apps/issuance/src/issuance-work.coordinator.ts:80-92 | a run about to dispatch is its row's first dispatcher, so dispatching keeps the guard invariant |
| BulkRow.GuardKeeps | apps/issuance/src/issuance-work.coordinator.ts:165-190 | every event of every worker keeps: a dispatching run holds its guard or its row is marked issued, and a row has one dispatcher |
| BulkRow.AtMostOneDispatch | apps/issuance/src/issuance-work.coordinator.ts:165-190 | in every run, two runs that dispatched for the same database row are the same run |
| BulkRow.DispatchLeavesTrace | apps/issuance/src/issuance.service.ts:1840-1942 | a dispatched row belongs to its job, and its dispatcher holds the guard or its status is true |
| RowGuards.GuardHeld | apps/issuance/src/issuance-work.coordinator.ts:165-190 | in every run, a run holds the guard of its row exactly if it took it and has not released it after success or without a dispatch |
| RowGuards.GuardExplained | apps/issuance/src/issuance-work.coordinator.ts:165-190 | a guard that exists belongs to a run of that row which is in its body, ended without success after a dispatch, died, or had a guard or release call fail |
| RowGuards.ReturnedRun | apps/issuance/src/issuance-work.coordinator.ts:176-190 | in every run, a run that returned to its caller holds its guard exactly if it dispatched and did not succeed |
| RowGuards.ReturnedRowIsFree | apps/issuance/src/issuance-work.coordinator.ts:183-209 | once the last run that took the guard of a row has returned without dispatching, the row has no guard, so it can be retried |
| RowOutcomes.RowAlone | apps/issuance/src/issuance.service.ts:1799-1942 | the exact guard, row, dispatch mark and completed set after an undisturbed run: row issued before, failure before or after the offer, success |
| BulkRow.CompleteReplies | apps/issuance/src/issuance-work.coordinator.ts:54-60 | the script answers 1 exactly when the row was the last one missing |
| BulkRow.CompletionFires | apps/issuance/src/issuance.service.ts:1799-1838 | while the set has not expired, a batch completes at most once, and exactly when every row has a run that was counted |
| BulkRow.CountedRowsPersisted | apps/issuance/src/issuance.service.ts:1801-1811 | a row counted as completed is marked issued or failed in the database; a row that only throws is never counted |
| BatchCompletion.CoordinationStore.TakeGuard | apps/issuance/src/issuance-work.coordinator.ts:171-176 | the guard is taken exactly if nobody holds it |
| BatchCompletion.CoordinationStore.RunReleaseRow | apps/issuance/src/issuance-work.coordinator.ts:51-53 | only the owner's guard is deleted, and the reply is the number deleted |
| BatchCompletion.CoordinationStore.RunComplete | apps/issuance/src/issuance-work.coordinator.ts:54-60 | the batch's set and the reply follow the specification, other batches are untouched, and expiry is set from the total on |
| BatchCompletion.CoordinationStore.CompletedRow | apps/issuance/src/issuance-work.coordinator.ts:211-217 | refuses exactly empty ids and totals that are not positive safe integers, without touching the store; otherwise completes the folded row in the folded batch |
| BatchCompletion.CoordinationStore.AssertRetryable | apps/issuance/src/issuance-work.coordinator.ts:199-209 | across all chunks, a retry is allowed exactly if no row of it has a guard |
| BatchCompletion.UncertainRowsGuarded | apps/issuance/src/issuance-work.coordinator.ts:183-189 | in every run a row being processed, or dispatched but not marked issued, has a guard under its folded ids and so cannot be retried |
| BatchCompletion.OncePerLifetime | apps/issuance/src/issuance-work.coordinator.ts:54-60 | for any order and repetition of rows, the completion fires at most once per lifetime of the set |
| BatchCompletion.FiresWhenAllDone | apps/issuance/src/issuance-work.coordinator.ts:54-60 | without expiry it fires exactly when the distinct rows reach the total |
| BatchCompletion.FiresSplit | apps/issuance/src/issuance-work.coordinator.ts:54-60 | the firings of a sequence of calls are those of its first part and, from the set that part leaves, those of the rest |
| BatchCompletion.FiresPerLifetime | apps/issuance/src/issuance-work.coordinator.ts:54-60 | for any calls and any number of expiries: exactly one firing in each lifetime whose distinct rows reach the total, and every lifetime but the last does |
| BatchCompletion.FiresAgainIff | apps/issuance/src/issuance-work.coordinator.ts:54-60 | with one expiry, two firings exactly if the distinct rows reach the total before it and again after it |
| BatchCompletion.ExpiredBatchFiresAgain | apps/issuance/src/issuance-work.coordinator.ts:54-60 | the instance of one row redelivered after expiry |
| BatchCompletion.ProcessInBatches | apps/issuance/src/issuance.service.ts:1563-1627 | for any failing batch: rows are queued once each, in order, with a pause between batches only, up to the first batch that fails |
| BatchCompletion.DistinctCount | apps/issuance/src/issuance.service.ts:1593-1593 | rows with distinct folded ids make a set as large as the total sent along |
| BatchCompletion.JobsMatchBatch | apps/issuance/src/issuance.service.ts:1578-1610 | each queued job is a legal job of its batch, and no two jobs share a row |
| StatusBitmap.RandomBitmapIndexAllocator.constructor | apps/oid4vc-issuance/src/status-list-allocator.service.ts:13-24 | the recount of the binary digits gives the number of set indices of the stored or empty bitmap |
| StatusBitmap.OnesAreBits | apps/oid4vc-issuance/src/status-list-allocator.service.ts:21-21 | the 1 digits of a byte's binary numeral are the bits that the mask tests find |
| StatusBitmap.CountIsTaken | apps/oid4vc-issuance/src/status-list-allocator.service.ts:17-23 | the constructor's count is the size of the set of taken indices |
| StatusBitmap.WellFormedCount | apps/oid4vc-issuance/src/status-list-allocator.service.ts:44-47 | the count is at most the capacity and equals it exactly if every index is taken |
| StatusBitmap.RandomBitmapIndexAllocator.IsSet | apps/oid4vc-issuance/src/status-list-allocator.service.ts:26-30 | the mask test reads the bit of the index |
| StatusBitmap.RandomBitmapIndexAllocator.Set | apps/oid4vc-issuance/src/status-list-allocator.service.ts:32-36 | in place, the bitmap with the bit set; UpdatesTaken says which index that adds |
| StatusBitmap.RandomBitmapIndexAllocator.Clear | apps/oid4vc-issuance/src/status-list-allocator.service.ts:38-42 | in place, the bitmap with the bit cleared; UpdatesTaken says which index that removes |
| StatusBitmap.UpdatesTaken | apps/oid4vc-issuance/src/status-list-allocator.service.ts:32-42 | setting and clearing a bit adds and removes exactly that index |
| StatusBitmap.RandomBitmapIndexAllocator.Allocate | apps/oid4vc-issuance/src/status-list-allocator.service.ts:44-75 | for all random draws: fails exactly when all indices are taken, else takes one index that was free, and the count stays exact |
| StatusBitmap.RandomBitmapIndexAllocator.Scan | apps/oid4vc-issuance/src/status-list-allocator.service.ts:59-74 | with an index left, the scan from any start byte finds one, so the final error is never reached |
| StatusBitmap.RandomBitmapIndexAllocator.ScanByte | apps/oid4vc-issuance/src/status-list-allocator.service.ts:62-71 | takes a free index of the byte, or every index of the byte below capacity is taken |
| StatusBitmap.WrapsAround | apps/oid4vc-issuance/src/status-list-allocator.service.ts:59-61 | a full round from any start meets every byte |
| StatusBitmap.NothingLeft | apps/oid4vc-issuance/src/status-list-allocator.service.ts:59-74 | a fruitless full round means that all indices are taken, also when the capacity is not a multiple of 8 |
| StatusBitmap.RandomBitmapIndexAllocator.IsIndexAllocated | apps/oid4vc-issuance/src/status-list-allocator.service.ts:77-82 | refuses exactly indices out of range, else answers membership in the taken set |
| StatusBitmap.RandomBitmapIndexAllocator.Release | apps/oid4vc-issuance/src/status-list-allocator.service.ts:84-93 | refuses exactly indices out of range, else removes that index alone and keeps the count exact |
| StatusBitmap.ReloadIsExact | apps/oid4vc-issuance/src/status-list-allocator.service.ts:13-24 | recounting a stored bitmap is exact, and taking and returning an index restores it bit for bit |
| StatusLists.StatusListAllocatorService.FindActive | apps/oid4vc-issuance/src/status-list-allocator.service.ts:116-119 | finds an active list of the issuer if there is one |
| StatusLists.StatusListAllocatorService.Allocate | apps/oid4vc-issuance/src/status-list-allocator.service.ts:110-170 | refuses exactly empty ids; otherwise draws a free index from the active list or from a fresh one, of the asked size or 131072, that replaces a full list |
| StatusLists.StatusListAllocatorService.Draw | apps/oid4vc-issuance/src/status-list-allocator.service.ts:143-157 | stores the bitmap and count of one further index; the list-full branch is unreachable |
| StatusLists.StatusListAllocatorService.Release | apps/oid4vc-issuance/src/status-list-allocator.service.ts:198-219 | an unknown list is ignored, an index out of range refused, anything else released |
| StatusLists.PreparedOk | apps/oid4vc-issuance/src/status-list-allocator.service.ts:121-141 | rotating to a fresh list keeps the table's invariant, changes no outstanding pair and leaves room |
| StatusLists.AllocationRotates | apps/oid4vc-issuance/src/status-list-allocator.service.ts:115-141 | the issuer's active list is used exactly if one of its indices is left; otherwise a list of the asked size is opened and the full one switched off; no other list changes |
| StatusLists.AllocationRefines | apps/oid4vc-issuance/src/status-list-allocator.service.ts:115-170 | an allocation adds one pair that was not outstanding and changes no other |
| StatusLists.ReleaseRefines | apps/oid4vc-issuance/src/status-list-allocator.service.ts:198-219 | a release removes exactly its pair |
| StatusLists.RunKeeps | apps/oid4vc-issuance/src/status-list-allocator.service.ts:104-220 | the table's invariant holds in every run of transactions |
| StatusLists.StaysOutstanding | apps/oid4vc-issuance/src/status-list-allocator.service.ts:110-219 | a pair stays outstanding until it is released |
| StatusLists.NeverHandedOutTwice | apps/oid4vc-issuance/src/status-list-allocator.service.ts:110-219 | between two allocations of a pair lies a release of it |
| StatusLists.StoredCountsExact | apps/oid4vc-issuance/src/status-list-allocator.service.ts:115-157 | in every run a stored count is the number of outstanding indices, within the list size, and an issuer has at most one active list |
| CredentialOffer.AllocateAll | apps/oid4vc-issuance/src/oid4vc-issuance.service.ts:650-660 | for any database failures: stops at the first credential whose allocation fails, after exactly the pairs before it; otherwise each credential that needed an index carries its own |
| CredentialOffer.EachItsOwn | apps/oid4vc-issuance/src/oid4vc-issuance.service.ts:650-660 | exactly the SD-JWT credentials without an index are given one, no two the same, every drawn pair is used, and the others stay as they came |
| CredentialOffer.Rollback | apps/oid4vc-issuance/src/oid4vc-issuance.service.ts:716-723 | for any release failures: exactly the pairs whose release did not fail are freed |
| CredentialOffer.CreateOffer | apps/oid4vc-issuance/src/oid4vc-issuance.service.ts:640-723 | fails exactly if an allocation, the agent or the saving fails; then the outstanding pairs are as they were, apart from pairs whose release failed |
| CredentialOffer.PairsExclusive | apps/oid4vc-issuance/src/oid4vc-issuance.service.ts:650-660 | with offers interleaved, one offer's pairs are distinct, no two offers hold one pair, and foreign pairs survive |
| CredentialOffer.FailedOfferHasNoEffect | apps/oid4vc-issuance/src/oid4vc-issuance.service.ts:834-841 | with offers interleaved, after a rollback an offer holds only pairs whose release failed; any other pair it drew is out only because another offer drew it since |
| WalletCapacity.CloudWalletRepository.ClaimBaseWalletCapacity | apps/cloud-wallet/src/cloud-wallet.repository.ts:94-105 | claims exactly if the counter is below the cap passed in; then that counter alone grows by one and stays within the cap |
| WalletCapacity.CloudWalletRepository.DecrementBaseWalletUseCount | apps/cloud-wallet/src/cloud-wallet.repository.ts:112-130 | a counter above zero is lowered by one, and nothing else changes |
| WalletCapacity.CloudWalletRepository.GetAvailableBaseWallet | apps/cloud-wallet/src/cloud-wallet.repository.ts:291-305 | the oldest active wallet below its cap, or none only if no active wallet is below its cap |
| WalletCapacity.CloudWalletRepository.CreateCloudWallet | apps/cloud-wallet/src/cloud-wallet.service.ts:444-562 | one create alone, for every combination of row written, reply heard and release lost: with no room nothing changes; otherwise the row goes on an oldest wallet with room, and its counter ends one higher exactly if the reply was heard or the release lost |
| WalletCapacity.StepKeeps | apps/cloud-wallet/src/cloud-wallet.service.ts:444-562 | every step of creates, deletes, edits, crashes and lost replies keeps the capacity invariant |
| WalletCapacity.NeverOverProvisioned | apps/cloud-wallet/src/cloud-wallet.service.ts:1028-1096 | in every run with distinct endpoints, stored sub-wallets plus claims in flight exceed the counter by at most the stores nobody heard of, and the counter never exceeds the largest cap ever configured |
| WalletSlots.SlotsExact | apps/cloud-wallet/src/cloud-wallet.service.ts:444-562 | in every run with distinct endpoints and no unheard store, the counter is exactly the stored sub-wallets, the booked slots and the slots that crashes and lost decrements leaked |
| WalletSlots.UndisturbedClaim | apps/cloud-wallet/src/cloud-wallet.repository.ts:94-105 | a create whose wallet nobody touched since it was read gets its slot |
| WalletLimits.PairOverfills | apps/cloud-wallet/src/cloud-wallet.repository.ts:45-67 | from any idle state with two wallets on one endpoint, a run puts more sub-wallets on one of them than it was ever allowed |
| WalletLimits.SharingBreaksCaps | apps/cloud-wallet/src/cloud-wallet.service.ts:83-105 | the same from any start if a wallet can be registered for an endpoint in use |
| WalletLimits.LossBreaksCaps | apps/cloud-wallet/src/cloud-wallet.service.ts:545-558 | the same from any start if a store can write the row and report failure |
| WalletLimits.CapsKeptIff | apps/cloud-wallet/src/cloud-wallet.service.ts:444-562 | all runs from a start state keep all caps, and all slots within the counters, exactly if endpoints are distinct and neither fault can occur |
| EditDistance.ComputeSimilarity | scripts/fix-geo-location-country-ids.ts:77-91 | the two-row program computes the score from the recursive edit distance |
| EditDistance.DistanceIsLeastCost | scripts/fix-geo-location-country-ids.ts:81-88 | the distance is the least cost of any script of insertions, deletions and replacements between the two names |
| EditDistance.SimilarityLaws | scripts/fix-geo-location-country-ids.ts:77-91 | the score is symmetric, lies in [0, 1], and is 1 exactly for equal non-empty names |
| GeoData.GroupBy | scripts/fix-geo-location-country-ids.ts:93-105 | keys in order of first appearance, each with all its items in order |
| GeoData.LegacyNames | scripts/fix-geo-location-country-ids.ts:24-27 | the table of legacy state names |
| Ranking.HeadIsSoleTop | scripts/fix-geo-location-country-ids.ts:153-155 | the first of the sorted list, strictly ahead of the second, is the element that outscores all others of the unsorted list |
| GeoMatching.FuzzyBest | scripts/fix-geo-location-country-ids.ts:150-158 | scoring, sorting and testing the two best finds exactly the package state that wins the last pass: at most a quarter of the longer loose name to edit, and relatively fewer edits than every other |
| GeoMatching.MatchPass | scripts/fix-geo-location-country-ids.ts:128-140 | one pass equals the fold of its single steps |
| GeoMatching.MatchCountry | scripts/fix-geo-location-country-ids.ts:117-163 | the five passes of one country in order, on the tables earlier countries have left, equal the specification, which CountryDecided spells out |
| GeoDecisions.SoleCandidate | scripts/fix-geo-location-country-ids.ts:128-144 | a unique-candidate pass finds a package state exactly if its code is free and its legacy name, name or loose name, and no other's, fits the database name |
| GeoDecisions.SoleNearest | scripts/fix-geo-location-country-ids.ts:146-158 | the last pass picks a package state exactly if the cheapest edit script from its loose name changes at most a quarter of the longer name, and every other free one needs relatively more |
| GeoDecisions.CountryDecided | scripts/fix-geo-location-country-ids.ts:117-163 | the matching of a country is a sequence of tables, state by state through the five passes, each step as its pass demands |
| GeoDecisions.StuckMeans | scripts/fix-geo-location-country-ids.ts:128-162 | a state is stuck exactly if no package state wins it in any pass |
| GeoStates.CountryPartitioned | scripts/fix-geo-location-country-ids.ts:117-163 | codes are unique, new ones come from the package, and each state is exactly one of kept, backfilled or unmatched |
| GeoRerun.IdleIffStuck | scripts/fix-geo-location-country-ids.ts:128-162 | from a sound start the passes add no code exactly if no uncoded state has a unique candidate or clear fuzzy winner |
| GeoRerun.RerunStart | scripts/fix-geo-location-country-ids.ts:121-126 | after storing the new codes the first pass of a second run restores exactly the codes of the first run |
| GeoRerun.CountryRerun | scripts/fix-geo-location-country-ids.ts:117-163 | the second run of a country adds no code exactly if its unmatched states are stuck, and the codes are then the same |
| GeoTables.MatchAllCountries | scripts/fix-geo-location-country-ids.ts:113-163 | the loop over countries equals the specification on shared tables |
| GeoTables.SharedIsMerged | scripts/fix-geo-location-country-ids.ts:113-163 | with unique state ids the shared tables are the merged tables of the countries |
| GeoTables.StatesPartitioned | scripts/fix-geo-location-country-ids.ts:113-163 | the same partition and uniqueness over all countries, and codes only for the ids of states |
| GeoStoredCodes.StoredCodeKept | scripts/fix-geo-location-country-ids.ts:121-126 | a state keeps its stored code, and nothing replaces it, exactly if no earlier state of its country has that code |
| GeoStoredCodes.UniqueCodesStay | scripts/fix-geo-location-country-ids.ts:121-138 | if stored codes are unique within each country, only states without one get a code |
| GeoStoredCodes.FillsEmptyOnlyExactly | scripts/fix-geo-location-country-ids.ts:51-52 | only empty codes are filled exactly if every state that repeats an earlier code of its country is left unmatched |
| GeoFitting.RepeatedCodeReplaced | scripts/fix-geo-location-country-ids.ts:121-162 | with the normalisers as they are: for every state whose stored code is empty or repeated, and whose normalised name no earlier state of its country has, some package makes the matching give it a new code |
| GeoFitting.FillsEmptyOnlyIff | scripts/fix-geo-location-country-ids.ts:51-52 | with the normalisers as they are, and names that tell states of a country apart: whatever the package, only empty codes are filled, exactly if stored codes are unique within each country |
| GeoFitting.BlankNamesProtect | scripts/fix-geo-location-country-ids.ts:128-162 | two states of one country whose name is blank to the normalisers: no package makes the script replace the code that the second of them repeats |
| GeoTables.StatesRerun | scripts/fix-geo-location-country-ids.ts:113-163 | a second run over all states adds no code exactly if nothing is left to match |
| GeoResolving.IndexStates | scripts/fix-geo-location-country-ids.ts:165-172 | the key table, later states replacing earlier ones |
| GeoVotes.IndexCities | scripts/fix-geo-location-country-ids.ts:178-189 | for each normalised city name the set of package states that have it |
| GeoVotes.VoteByCityName | scripts/fix-geo-location-country-ids.ts:193-207 | a vote for a state is cast exactly if all package states of the name map to it and it is not 0 |
| GeoVotes.MajorityVote | scripts/fix-geo-location-country-ids.ts:253-264 | counting, sorting and testing the first finds the state with more than half of the whole group, and only that |
| GeoVotes.MajorityUnique | scripts/fix-geo-location-country-ids.ts:261-264 | at most one state has the majority |
| GeoVotes.MajorityAnyOrder | scripts/fix-geo-location-country-ids.ts:252-265 | the majority does not depend on the order of the cities |
| GeoAssign.Assign | scripts/fix-geo-location-country-ids.ts:216-231 | for any order of the picks, exactly the free states picked by one group alone are given, and the count grows by the cities of those groups |
| GeoAssign.AssignKeeps | scripts/fix-geo-location-country-ids.ts:216-231 | a state stays with one group, claimed states are the given ones, counts match the resolved cities, earlier assignments stay |
| GeoResolve.MoreClaimed | scripts/fix-geo-location-country-ids.ts:285-290 | a round that claims more leaves strictly fewer states unclaimed, so the rounds end |
| GeoResolve.RoundsFixpoint | scripts/fix-geo-location-country-ids.ts:273-290 | when the rounds end, neither the exact-name nor the prefix pass can change anything |
| GeoResolve.ResolveKeeps | scripts/fix-geo-location-country-ids.ts:248-290 | over all stages: one group per state, counts equal the cities resolved, later stages never change earlier assignments |
| GeoResolving.CollectPicks | scripts/fix-geo-location-country-ids.ts:237-283 | the loop over the groups collects exactly the picks of the stage |
| GeoResolving.ResolveGroups | scripts/fix-geo-location-country-ids.ts:209-290 | the stages and the do-while loop compute the specified assignment |
| GeoOutcome.ResolveDecided | scripts/fix-geo-location-country-ids.ts:209-290 | the assignment is a sequence of stages, codes, votes, rounds of names: each gives exactly the groups for which alone it finds an unclaimed state, and credits their cities to its method; the rounds end with the first that claims nothing |
| GeoOutcome.CodeDecides | scripts/fix-geo-location-country-ids.ts:238-249 | a group is given the state filed under its code, else under its code filled up with zeros, else the first one with the legacy name, if no other group's code stands for it |
| GeoOutcome.MajorityIs | scripts/fix-geo-location-country-ids.ts:193-207 | the vote finds a state exactly if more than half of all cities of the group are listed in the package, only under codes of that state |
| GeoOutcome.NothingLeftToName | scripts/fix-geo-location-country-ids.ts:273-290 | in the end an unresolved group has a sole unclaimed state named after one of its cities only if another unresolved group has the same |
| GeoCountries.BarSplit | scripts/fix-geo-location-country-ids.ts:165-172 | keys of countries without a bar determine country and code |
| GeoCountries.ResolveOwn | scripts/fix-geo-location-country-ids.ts:234-290 | every resolved city is given a state of its own country |
| GeoPlan.PlanCityStateRepair | scripts/fix-geo-location-country-ids.ts:112-304 | the whole method computes the specified plan, for any rows |
| GeoPlan.KeyStandsFor | scripts/fix-geo-location-country-ids.ts:165-172 | a country and code stand for the last state that has them |
| GeoPlan.CityDecided | scripts/fix-geo-location-country-ids.ts:292-304 | a city is moved exactly if its group was given another state than its own, and left open exactly if its group was given none or the id 0 |
| GeoPlan.PlanConserves | scripts/fix-geo-location-country-ids.ts:214-303 | the three counts and the unresolved cities add up to all cities exactly if no city's group was given the id 0 |
| GeoPlan.EveryCityCounted | scripts/fix-geo-location-country-ids.ts:214-303 | they add up whenever no state has the id 0 |
| GeoPlan.MovesStayHome | scripts/fix-geo-location-country-ids.ts:292-301 | a city is only moved to a state of its own country |
| GeoPlan.MovesKeepGroupsApart | scripts/fix-geo-location-country-ids.ts:209-231 | cities moved to one state have one group key |
| GeoPlan.RepairTwice | scripts/fix-geo-location-country-ids.ts:112-304 | applying the plan and planning again on the rows in the same order changes nothing exactly if no unmatched state could still be matched; the open rows and the counts are then the same |
| GeoPlan.MatchedPlanIsFinal | scripts/fix-geo-location-country-ids.ts:112-304 | a plan without unmatched states is final |
| GeoOrder.CountryAnyOrder | scripts/fix-geo-location-country-ids.ts:117-163 | a country's rows with exactly the codes of an earlier matching, in any order: matching again adds none exactly if every uncoded row is stuck |
| GeoOrder.QuietInAnyOrder | scripts/fix-geo-location-country-ids.ts:113-163 | with nothing left to match and no stored code on an unmatched state, matching the stored rows in any order finds the same codes and unmatched states |
| GeoOrder.QuietInAnyOrderIff | scripts/fix-geo-location-country-ids.ts:113-163 | every order of the stored rows gives the same codes and no new one exactly under that condition |
| GeoShuffle.SameChoice | scripts/fix-geo-location-country-ids.ts:234-283 | in every stage a group is given the same state whatever the order of states and cities, as long as legacy names are clear |
| GeoShuffle.SameResolve | scripts/fix-geo-location-country-ids.ts:209-290 | the assignment of all groups and the three counts do not depend on the order of states and cities, if no legacy name fits two states of a country |
| GeoShuffle.FirstNamesakeTaken | scripts/fix-geo-location-country-ids.ts:238-244 | if one does, the order matters: of two states with the legacy name of PL-SK, the group gets the one read first |
| GeoReplan.SameStateKeys | scripts/fix-geo-location-country-ids.ts:165-172 | the key table does not depend on the order of the states if no key stands for two of them |
| GeoReplan.FinalInAnyOrder | scripts/fix-geo-location-country-ids.ts:112-304 | under the condition of the next row, planning again on the repaired rows in any order changes nothing, counts the same cities and leaves the same rows open |
| GeoReplan.FinalInAnyOrderIff | scripts/fix-geo-location-country-ids.ts:381-386 | the second plan changes nothing and leaves the same states unmatched in every order of the rows, exactly if nothing is left to match and no unmatched state has a stored code |
| GeoReplan.MatchedPlanFinalInAnyOrder | scripts/fix-geo-location-country-ids.ts:381-386 | a plan without unmatched states, or with unique stored codes and nothing left to match, is final in any order |
| GeoLateMatch.RepairNotFinal | scripts/fix-geo-location-country-ids.ts:146-162 | two states, with an invented package, for which a second run stores a further code |
| GeoLateMatch.RepeatedCodeOverwritten | scripts/fix-geo-location-country-ids.ts:121-138 | two states with one stored code, with the same package, of which the second gets another |

## Left out

- BulkRow.CompletionFires: considers the time before the completed set expires; `BatchCompletion.FiresPerLifetime` covers any number of expiries.
- WalletCapacity.CloudWalletRepository.CreateCloudWallet: one create without others in between; interleavings are in `WalletCapacity.NeverOverProvisioned`.
- CredentialOffer.AllocateAll: an allocation that commits and then reports failure is not modelled; its index would stay taken.
- CredentialOffer.CreateOffer: one offer without others in between; interleavings are in `CredentialOffer.FailedOfferHasNoEffect`.
- GeoResolving.CollectPicks: one loop for the three loops that collect picks, with the stage as a parameter.
- GeoLateMatch.RepairNotFinal: the package is invented; no rows of the real package are given.
- GeoLateMatch.RepeatedCodeOverwritten: the same restriction.
- GeoReplan.FinalInAnyOrder: does not cover rows in which a legacy name fits two states of a country, where the first one read is taken.
- GeoReplan.FinalInAnyOrderIff: the same restriction; `GeoOrder.QuietInAnyOrderIff` needs none of it for the state codes.
- GeoVotes.VoteByCityName: rebuilds the index of city names per call; the script caches it per country.
- GeoPlan.PlanCityStateRepair: the city phase works on projections of the rows (id, name, country; name, country, state code), since it reads nothing else of them.
- AdmissionQueue.NoOvertaking: timers may fire at any time, since a timer's delay is rounded; only rejections by a release are tied to the deadline, in `AdmissionQueue.RejectedOnTime`.
- AdmissionQueue.IssuanceAdmissionQueue.Acquire: a waiter is a ticket number and its deadline; promises and timers appear as events of the surrounding machine.
- RowIdentity.FoldOfLower: ASCII lower-casing and four blanks stand for the Unicode rules; the hash function is not modelled.
- RowIdentity.SameIdSameKey: the same restriction.
- RowIdentity.FoldMeans: the same restriction.
- The file-upload status field, interruption notices and sockets: written by several parties without coordination.
- Saved credential allocations after a partly saved offer, and remote tenants left behind by a failed wallet creation: the code guarantees nothing about them.
- Rounding of binary floating point in scores and clocks.
- The rest of the repair script (country ids, chunked writes, dry run, logging), applying the plan being modelled as a pure update of the rows.
- NATS, HTTP, e-mail, CSV parsing, agents, templates, controllers and the other services: they appear only as outcomes of steps, or not at all.
