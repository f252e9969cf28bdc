# Verification of the platform's concurrent and algorithmic cores

This project models the parts of the platform whose correctness rests on interleavings, retries or recursive algorithms, and proves what they are for. `dafny verify dfyconfig.toml` checks it.

## What is modelled

**User snapshot cache.** `SnapshotCache` is the two-level protocol as a state machine: for each user the database row, the shared entry (snapshot or negative marker), the epoch, the per-process L1 copies with their revisions, the loaders (capture, fetch, watch, check, exec, fill), the readers, and the broadcasts still under way. Database writes (with their invalidate after or before the commit), creations, invalidations, the two server reads under WATCH, TTL expiry, Redis restarts, evictions and deliveries are separate steps, in any order, for any number of users and processes. `stamp`, `seen`, `late`, `invalidations`, `silent` and `top` are bookkeeping: no step of the code reads them. `SnapshotEpochs` asks, for a load in flight in any reachable state, what can still become of it until the next Redis restart. `SnapshotTasks` is the code of one task (`write_if_newer` with its retry loop, `read_snap_state`, `invalidate_user_snap`, `_load_user_snapshot`), written against that machine: every `await` hands over to an `Await…` method whose contract admits any steps of others that leave the task's own registers alone; `OthersOnlySoil` shows that the other tasks' steps satisfy it. `LocalCache` is the bounded TTL and LRU map itself.

**Outbox relay.** `Outbox` takes every committed transaction as one step, with a crash possible between any two and any number of relays. `OutboxRelay` is the code of the polling and archiving loops against that machine. A row in `event_failures` or in the archive is indexed by the outbox row it came from. `LeaderLease` is the Redis lease with its WATCH/MULTI renewals; the outbox theorems do not need it, so the relay's leadership test is an arbitrary boolean there.

**Roles.** `RoleHierarchy` has the start-up validation by depth-first search, the closure worklist and the cardinality constraints; `RoleActivation` the greedy default activation; `RoleGrants` the transactions that change assignments, level and primary role. The hierarchy and the constraint lists are parameters; the shipped table is one instance. Constraints are counted over closures, as in Constrained RBAC, section 5.3 of ANSI INCITS 359-2004.

**Smaller cores.** `GraphQLCost` (budgeted cost recursion), `SingleFlight` (reference-counted in-flight table), `SlidingWindow` (the limiter script), `GuardedRefill` (`cached_read`'s invalidation guard), `CircuitBreaker`, `BloomWhitelist` and `BloomSeeding` (the id filter and its paged backfill), `RefreshChains` (refresh-token rotation), `CacheKeys` (key scheme and counter-key parser).

`Ordering` and `Wrappers` hold sorted tuples of strings and the usual optional and result types.

## Where the code falls short of the expected property

Each of these is proved with its exact condition; the model follows the code.

- Default activation: the session has no duplicates, stays within the authorized set and is accepted back if and only if the primary composite role is known (`DefaultActivationAuthorizedIffPrimaryKnown`); an administrator with the default primary role `member` is such an account under the shipped table (`ShippedAdminMemberFails`).
- Session version: a reported change is a real one unless it raises the role, and not the level, of an account without a profile row (`BumpIffChanged`, `MissingProfileIsBumped`). The schema and the code allow such accounts; every creation path of the repository writes a profile.
- Query cost: limits of 1,000,000 and more never refuse anything, because the reported cost is capped there (`Refused`). The limiter runs before the validation that rejects cyclic fragments; a document has a full cost if and only if nothing the recursion enters lies on a cycle (`DocumentUnfoldsIffNoCycle`), and any other document is refused early or runs out of Python frames, but never passes below the cap (`Refused`).
- Guarded refill: a refill commits over a missed invalidate if and only if its WATCH comes a guard lifetime or more after its token read while the elapsed check still passes. There are two causes: the clock starts after the token is read, and the WATCH comes after the check (`MissedCommitIffLate`). Only a load that read no token can be deceived (`OnlyTokenlessLoadersMiss`).
- Publish calls of two claims on one row can overlap if and only if claim delay plus publish timeout exceeds the stale window (`OverlapIffWindowsDoNotFit`).
- Silent changes: creation sends no invalidate, and an update whose event is enqueued in its own transaction can be invalidated before the row commits. With no write awaiting its invalidate an entry that was not committed late is right if and only if no such change came since its fetch (`L2SnapshotIsCurrent`, `QuietL1IsCurrent`, and for negative markers `MarkerRightIffNotCreatedSince`; `NegativeMarkerCanBeStale` reaches a bad case).
- Redis restarts: the epoch guard compares a captured epoch with one that may have started again. A commit is late, that is, made although an invalidate followed the capture, if and only if its load was not behind: its captured epoch was the current one although something was invalidated since (`CommittedLateIffNotBehind`). A load past its fetch with a retry left can still be committed late without a further restart if and only if it is not behind, its captured epoch being ahead of the current one included (`LateAheadIffNotBehind`). It can leave an outdated row in L2 with no write awaiting its invalidate if and only if the writes awaiting theirs, and one more if its row is still current, are at most the epochs that its captured one is ahead (`OutdatedAheadIffWithinGap`, `OutdatedCommitStays`). Seeds, lost keys and all other steps never bring a load there; a restart does (`InTimeUntilRestart`, `RestartPutsWithinGap`), and a seed above every captured epoch ends it (`NewEpochInTime`). In one Redis lifetime nothing is ever late (`OneLifetimeIsInTime`).
- Whitelist: while the gate is open, a new account is rejected if and only if its creation-time add failed and neither earlier bits nor the stray bits of the failing pipeline make up its own (`CreationRejectedIffAddLost`). Where the account is committed before its add it is rejected in between unless its bits were set already (`CommittedFirstRejectedIffUnset`).
- Revoke-all: it leaves the user without a live token if and only if no login and no rotation of the user committed while it ran, whether that rotation was open before or began meanwhile (`RevokeAllCompleteIffNothingIssued`, `LoginDuringRevokeAllSurvives`).
- Cache keys: under one prefix keys are equal if and only if the parts read alike, None reading as empty and no part as one empty part (`SameKeyIffSameParts`). Colons are not escaped: keys of two prefixes are equal if and only if one prefix extends the other by a colon and more and the other's parts begin with just that (`SameKeyIffSameOrShifted`). A counter key is parsed back if and only if the environment name has no colon (`CounterKeyRoundTrip`).

## Model

| member | source | states |
|---|---|---|
| SnapshotCache.StepKeepsInv | core/user_cache.py:329-454 | Every step of every loader, reader, writer, expiry, eviction and delivery keeps the protocol invariant of one user. |
| SnapshotCache.LaterRevisionsKeepInv | core/local_cache.py:54-69 | Deletes for other users only move the process revisions up, which keeps the invariant: guarded fills stay sound under unrelated traffic. |
| SnapshotCache.RunKeepsInv | core/user_cache.py:92-454 | The invariant of all users holds at every state of every run of the whole system. |
| SnapshotCache.L2SnapshotIsCurrent | core/user_cache.py:357-397 | No stale resurrection, restarts included: a snapshot in L2 not committed late comes from a load whose epoch capture followed the latest invalidate; with no write awaiting its invalidate it is the database row if and only if the row did not change silently since its fetch. |
| SnapshotCache.MarkerRightIffNotCreatedSince | core/user_cache.py:403-417 | A negative marker not committed late, with no write awaiting its invalidate, is right if and only if the user was not created since its fetch. |
| SnapshotEpochs.CommittedLateIffNotBehind | core/user_cache.py:357-397 | A commit follows an invalidate that followed its capture if and only if the captured epoch is the current one although something was invalidated since. |
| SnapshotEpochs.LateAheadIffNotBehind | core/user_cache.py:92-114 | For every load past its fetch with a retry left, in every reachable state: a late commit is still ahead without a further restart if and only if its epoch is ahead of the current one, or is it although something was invalidated since. |
| SnapshotEpochs.OutdatedAheadIffWithinGap | core/user_cache.py:92-114 | For every load with a retry left, in every reachable state: it can still commit a row that is no longer the user's, with nothing awaiting, without a further restart, if and only if the debt fits between the current and the captured epoch. |
| SnapshotEpochs.OutdatedCommitStays | core/user_cache.py:357-397 | Such a commit leaves the outdated row in L2 with no write awaiting its invalidate. |
| SnapshotEpochs.InTimeUntilRestart | core/user_cache.py:92-114 | From any state in which all loads are behind and nothing is late, nothing becomes late until a restart, through any seeds, invalidates and expiries. |
| SnapshotEpochs.OneLifetimeIsInTime | core/user_cache.py:92-114 | In one Redis lifetime nothing is ever late, whatever the seeds. |
| SnapshotEpochs.NewEpochInTime | core/user_cache.py:92-114 | A restart or a seed leaves a user in time if and only if every load in flight is behind the new epoch value. |
| SnapshotEpochs.RestartPutsWithinGap | core/user_cache.py:443-447 | One restart brings any load with an outdated row and nothing awaiting within the gap. |
| SnapshotCache.StaleL1IsAnnounced | core/local_cache.py:59-89 | An L1 copy, not of a late commit, that is older than the user's latest invalidate implies that this invalidate's delete is still owed to that process. |
| SnapshotCache.QuietL1IsCurrent | core/user_cache_events.py:56-87 | Once nothing is owed to a process and no write awaits its invalidate, its L1 copy, not of a late commit, is the database row if and only if the row did not change silently since its fetch. |
| SnapshotCache.EntryOrderOverRun | core/user_cache.py:357-417 | While an entry lives its version never falls, and a negative marker never replaces a snapshot, over any stretch of any run. |
| SnapshotCache.NegativeMarkerCanBeStale | auth/service_auth.py:283-305 | A reachable state in which a negative marker stands beside a row created since: the bad case of the marker theorem occurs. |
| SnapshotTasks.OthersOnlySoil | core/user_cache.py:357-397 | What any other task's step can do to a task under way: at most make its watch fail. |
| SnapshotTasks.LeadsKeepsReachable | auth/snapshot.py:149-176 | Every run of these methods is a run of the protocol machine, so its theorems hold of them. |
| SnapshotTasks.World.WriteIfNewer | core/user_cache.py:329-400 | The bounded compare-and-set loop takes only protocol steps, and when it reports success its entry stood in L2 at some moment of the call. |
| SnapshotTasks.World.ReadSnapState | core/user_cache.py:124-185 | A hit stood in L1 at the start or in L2 during the call; "known absent" is a negative marker or an L2 miss of a rejected id. |
| SnapshotTasks.World.InvalidateUserSnap | core/user_cache.py:429-454 | The atomic epoch-and-delete step, paying for a write or for none, followed by the local delete: afterwards this process holds no copy. |
| SnapshotTasks.World.LoadUserSnapshot | auth/snapshot.py:149-176 | The value returned was the database row, or cached, at some moment of the call, whatever becomes of the write-back. |
| LocalCache.L1.L1Get | core/local_cache.py:29-43 | Exact effect of a get: hit moves the key to the recent end, an expired key is dropped. |
| LocalCache.L1.L1MultiGet | core/local_cache.py:46-51 | Every answer is the one a single get at that clock reading would have given before the call. |
| LocalCache.L1.L1Set | core/local_cache.py:72-82 | Exact effect of a set, eviction from the old end included. |
| LocalCache.L1.L1SetIfUnchanged | core/local_cache.py:59-69 | Exact effect of the revision-guarded fill. |
| LocalCache.HistoryRefines | core/local_cache.py:25-96 | After any operation sequence the map is a most recently touched end, of at most `maxsize` keys, of the full history of keys set and not removed. |
| LocalCache.RecentKeyIsAHit | core/local_cache.py:72-82 | No early eviction: a key set is a hit with its value until its deadline while fewer than `maxsize` other keys are touched and it is not set or removed. |
| LocalCache.FoundIsLastSet | core/local_cache.py:29-96 | Whatever is stored for a key after any history is what was last set for it. |
| LocalCache.HitIsLastSetAndAlive | core/local_cache.py:29-43 | A hit returns the value last set, and only before its deadline. |
| LocalCache.KeyJustSetStays | core/local_cache.py:72-82 | The key just set is never the one evicted. |
| LocalCache.StaleRevisionIsRefused | core/local_cache.py:59-69 | A fill whose revision was read before a delete is refused after any further operations. |
| Outbox.StepKeepsInv | core/outbox_relay.py:86-207 | Every transaction of every relay, every crash and every archive sweep keeps the table, claim and history invariant. |
| Outbox.Conservation | core/outbox_relay.py:86-280 | In every run each enqueued event is in exactly one of outbox, event_failures and archive, unchanged, and nothing else is. |
| Outbox.PublishedWasAccepted | core/outbox_relay.py:152-186 | Published and archived rows were accepted: some publish call of exactly that event returned true. |
| Outbox.RetriesAreBounded | core/outbox_relay.py:186-207 | Attempts count the failed settlements, stay below the maximum in the outbox, and reach it exactly for rows folded as exhausted. |
| Outbox.TokenSettlesOnce | core/outbox_relay.py:97-185 | A claim token settles at most once in a run. |
| Outbox.SupersededChangesNothing | core/outbox_relay.py:138-185 | A claimant that lost its row changes no table by any step. |
| Outbox.LostClaimNeverReturns | core/outbox_relay.py:97-185 | Over any run, a claim once lost never owns its row again, whatever its relay and the others do. |
| Outbox.NoOverlap | core/outbox_relay.py:49-61 | When claim delay plus publish timeout fit the stale window, no two relays are publishing the same row at once. |
| Outbox.FiveSecondsSuffice | core/outbox_relay.py:49-152 | With the shipped windows a claim-to-publish delay of five seconds is enough, for any lock TTL. |
| Outbox.OverlapIffWindowsDoNotFit | core/outbox_relay.py:49-152 | Overlap is reachable exactly when the windows do not fit. |
| OutboxRelay.LeadsKeepsReachable | core/outbox_relay.py:71-223 | Every run of the relay methods is a run of the outbox machine. |
| OutboxRelay.OthersLeaveClaim | core/outbox_relay.py:97-185 | Steps of other relays leave a relay's claim record alone and never take an acceptance back. |
| OutboxRelay.Database.ScanClaimable | core/outbox_relay.py:42-113 | The row picked is claimable with the fewest attempts, then the lowest id; none is found only if none is claimable. |
| OutboxRelay.Database.PublishAndSettle | core/outbox_relay.py:138-207 | Publish outside any transaction, settle only while owning; "settled" implies the broker accepted that event and the row is published. |
| OutboxRelay.Database.RelayPoll | core/outbox_relay.py:71-223 | At most `batch` rounds of protocol steps; the count returned is of different rows, each at the end published or archived with its own event accepted. |
| OutboxRelay.PublishedStays | core/outbox_relay.py:71-280 | A row once published stays published or goes to the archive, through any steps of any relay. |
| OutboxRelay.Database.ArchivePublished | core/outbox_relay.py:226-280 | One transaction moves the oldest rows that are past the retention, at most `batch`, and nothing else. |
| LeaderLease.OneLeader | core/outbox_relay.py:306-361 | In every run no two relays are within the lease time they were promised. |
| LeaderLease.OnlyTheLeaderTouches | core/outbox_relay.py:323-361 | Within that time only the leader's own renewal or release changes the key; late renewals and releases of former leaders do nothing. |
| LeaderLease.LeaseKey.AcquireLease | core/outbox_relay.py:306-320 | Succeeds exactly when the key is absent, and then promises the lease until now plus the TTL. |
| LeaderLease.LeaseKey.RenewLease | core/outbox_relay.py:323-341 | At most three optimistic rounds between any steps of others; true means the own lease now runs the TTL from the exec. |
| LeaderLease.LeaseKey.ReleaseLease | core/outbox_relay.py:344-361 | Deletes the key only at a moment when it holds the token the relay came with. |
| LeaderLease.OthersKeepOwn | core/outbox_relay.py:323-361 | The steps of others and of the clock satisfy the contract of the waits in between. |
| RoleHierarchy.ValidateHierarchy | core/rbac_roles.py:80-100 | Accepts a table if and only if every edge joins known roles of one level and there is no cycle; terminates on every table. |
| RoleHierarchy.RoleClosure | core/rbac_roles.py:106-116 | The worklist yields the sorted tuple of the known roles reachable from the known inputs, on cyclic tables too. |
| RoleHierarchy.ClosureIsLeast | core/rbac_roles.py:106-116 | The closure is inside every set that holds the known inputs and is closed under inheritance. |
| RoleHierarchy.ClosureIsClosed | core/rbac_roles.py:106-116 | The closure holds the known inputs and is closed under inheritance. |
| RoleHierarchy.ClosureIdempotent | core/rbac_roles.py:106-116 | Closing twice changes nothing. |
| RoleHierarchy.ClosureOfUnion | core/rbac_roles.py:106-116 | The closure of a union is the union of the closures. |
| RoleHierarchy.ClosureStaysKnownAndInLevel | core/rbac_roles.py:80-116 | Over validated edges a closure holds known roles only, at levels already among the inputs. |
| RoleHierarchy.SatisfiesConstraints | core/rbac_roles.py:119-130 | Holds exactly when every constraint is well formed and met by the closure; otherwise the first offender decides between refusal and error. |
| RoleHierarchy.SatisfiesSubset | core/rbac_roles.py:119-130 | Fewer roles satisfy at least the same constraints. |
| RoleHierarchy.ShippedIsWellFormed | core/rbac_roles.py:8-29 | The shipped table passes the validation. |
| RoleActivation.AssignedRoles | core/rbac_roles.py:146-157 | The direct roles: the primary composite one, known or not, and the listed known roles of the account's level, as a sorted tuple. |
| RoleActivation.ActivatedRoles | core/rbac_roles.py:167-202 | The method computes the activation function the theorems below are about, error cases in the source's order. |
| RoleActivation.GreedyIsMaximal | core/rbac_roles.py:181-193 | The greedy pass keeps the constraints and leaves every known candidate implied or in conflict. |
| RoleActivation.DefaultActivationIsMaximal | core/rbac_roles.py:167-202 | For a known primary role the default session is duplicate-free, authorized, within the dynamic constraints, not extensible, and everything when nothing conflicts. |
| RoleActivation.DefaultActivationRoundTrip | core/rbac_roles.py:167-202 | Passing the default session back as the selection returns it unchanged. |
| RoleActivation.DefaultActivationAuthorizedIffPrimaryKnown | core/rbac_roles.py:146-202 | No duplicates, authorized, and accepted back, each if and only if the primary composite role is known. |
| RoleActivation.ShippedAdminMemberFails | core/rbac_roles.py:8-29 | Under the shipped table level admin with primary role `member` is an account for which all three fail. |
| RoleGrants.AccountRows.SetUserRole | auth/service_roles.py:69-114 | Row and outcome of assigning or revoking a role, refusals and rollback included. |
| RoleGrants.AccountRows.ApplyUpgrades | auth/service_authz.py:204-267 | Updates first, constraint check afterwards: the result is that of checking first and changing nothing on failure. |
| RoleGrants.AccountRows.GrantExamUnlock | auth/service_authz.py:184-201 | Row and outcome of an exam unlock. |
| RoleGrants.AccountRows.GrantIncubation | auth/service_authz.py:270-309 | Row and outcome of an incubation grant. |
| RoleGrants.RevokeKeepsSeparation | auth/service_roles.py:69-114 | Revoking an assignment needs no check: it keeps the static constraints. |
| RoleGrants.TransactionKeepsSeparation | auth/service_authz.py:184-309 | Each transaction keeps the authorized closure within the static constraints. |
| RoleGrants.TransactionKeepsRank | auth/service_authz.py:40-53 | No transaction lowers the level or the rank of the primary role. |
| RoleGrants.RunKeepsSeparationAndRank | auth/service_authz.py:184-309 | Both over every sequence of transactions. |
| RoleGrants.RunBumpsPerChange | auth/service_authz.py:255-309 | Over a run `token_version` grows by the number of transactions that changed something. |
| RoleGrants.BumpIffChanged | auth/service_authz.py:204-267 | The version moves with a reported change, which is a real change except for a role raise on an account without profile. |
| RoleGrants.MissingProfileIsBumped | auth/service_authz.py:204-267 | For an account without profile row an exam unlock reports a change and bumps the version, and changes nothing else. |
| RoleGrants.RepeatChangesNothing | auth/service_authz.py:204-309 | With a profile row, repeating any of the four transactions changes nothing and bumps nothing. |
| RoleGrants.RevokeUndoesAssign | auth/service_roles.py:69-114 | Revoking an assigned role is never refused and restores the account but for the version, moved twice. |
| RoleGrants.ShippedMemberIsLeast | core/rbac_roles.py:24-29 | In the shipped table `member` is least at its level, so accounts without profile are covered. |
| GraphQLCost.BudgetedCost | app/api/graphql.py:169-232 | For any document and any number of frames left: within the budget the result is the full cost, above it no unfolding is within the budget, and running out of frames means the full cost does. |
| GraphQLCost.QueryCost | app/api/graphql.py:235-265 | The reported cost of any document against its full cost, with the hard cap. |
| GraphQLCost.Refused | app/api/graphql.py:120-124 | For a document that unfolds: refused if and only if the limit is positive and below the cap and the full cost exceeds it. For any other: refused or out of frames, never passed below the cap. |
| GraphQLCost.UnfoldsIffNoCycle | app/api/graphql.py:169-232 | A selection set has a full cost at some depth if and only if the fragments the recursion really enters have no cycle; nothing below a field of a typed fragment is entered. |
| GraphQLCost.DocumentUnfoldsIffNoCycle | app/api/graphql.py:235-265 | The same for documents, whose full cost is then the same at every depth from some depth on. |
| GraphQLCost.AcyclicDocumentUnfolds | app/api/graphql.py:235-265 | In particular a document whose fragments have no cycle at all has a full cost. |
| GraphQLCost.ReorderingKeepsCost | app/api/graphql.py:169-232 | Reordering selections at every level, in operations and fragments, keeps the cost at every depth. |
| GraphQLCost.DocumentOrderIrrelevant | app/api/graphql.py:235-265 | Reordering definitions, and selections at every level inside them, keeps the cost of a document that the verdict is read from. |
| GraphQLCost.TypedFragmentCostsNoMore | app/api/graphql.py:205-226 | A typed fragment, charged without its type, costs at most its selections in place. |
| GraphQLCost.CostIsLinear | app/api/graphql.py:169-232 | The cost of n rows is n times the cost of one, through nested lists and fragments. |
| SingleFlight.StepKeepsInv | core/singleflight.py:27-64 | Every entry, exit, cancellation, completion and callback keeps the table invariant. |
| SingleFlight.RefsCountCallers | core/singleflight.py:37-64 | `refs` is the number of callers inside `run` for the flight, in every interleaving. |
| SingleFlight.OneLoaderPerKey | core/singleflight.py:37-64 | At most one unfinished or awaited flight per key. |
| SingleFlight.OnlyOwnIdleFlightForgotten | core/singleflight.py:27-34 | A late callback or leaver never removes a newer flight, nor one still loading or awaited. |
| SingleFlight.QuiescentTableIsEmpty | core/singleflight.py:27-64 | With all callers gone and all callbacks run the table is empty. |
| SlidingWindow.Limiter.Allow | core/redis_limiter.py:22-35 | The script with its key expiry decides exactly as a limiter keeping its full admission log. |
| SlidingWindow.RemovalKeepsCounting | core/redis_limiter.py:28-28 | The score removal leaves exactly the admissions that count now. |
| SlidingWindow.ExpiryDropsOnlyOld | core/redis_limiter.py:33-33 | Key expiry never drops an admission that still counts. |
| SlidingWindow.AnyWindowIsBounded | core/redis_limiter.py:22-35 | At most `max_count` admissions in any half-open window of the length, wherever it lies. |
| GuardedRefill.StepKeepsInv | core/cache.py:43-179 | Every loader step, invalidate, expiry and delete keeps the guard's invariant. |
| GuardedRefill.FillFollowsNoInvalidate | core/cache.py:43-78 | A committed refill missed no invalidate if its WATCH came within the guard TTL of its token read. |
| GuardedRefill.InstantReadsAreSafe | core/cache.py:238-268 | That bound holds when the paired reads are single instants. |
| GuardedRefill.FillReplacesNothingUsable | core/cache.py:55-78 | A refill never replaces a live usable value. |
| GuardedRefill.MissedCommitIffLate | core/cache.py:43-78 | Over all gaps of clock start, check and WATCH after the token read: a commit over a missed invalidate is reachable if and only if the check passes and the WATCH is a guard lifetime late. |
| GuardedRefill.OnlyTokenlessLoadersMiss | core/cache.py:155-179 | Such a commit is possible only for a load that read no token. |
| CircuitBreaker.AlwaysConsistent | auth/circuit_breaker.py:52-95 | Closed implies a count below the threshold and half-open implies a marked probe, after every call sequence. |
| CircuitBreaker.OpenedAtIsLastFailure | auth/circuit_breaker.py:84-95 | Unless closed, the opening time is that of the last reported failure, late reports included. |
| CircuitBreaker.HalfOpenGrantsExactlyOne | auth/circuit_breaker.py:60-74 | Each half-open episode grants exactly the call that enters it. |
| CircuitBreaker.GrantMeansClosedOrCooledDown | auth/circuit_breaker.py:60-74 | A granted call finds the breaker closed or cooled down since the last failure. |
| CircuitBreaker.NoGrantBeforeCooldown | auth/circuit_breaker.py:60-95 | Without a reported success nothing is granted before the cooldown since the last reported failure. |
| BloomWhitelist.Filter.AddMany | core/bloom.py:86-111 | All keys counted as written are in the filter; it stops at the first failing chunk with that many keys counted. |
| BloomWhitelist.Filter.MightContain | core/bloom.py:114-136 | False exactly when the filter is reachable and some bit of the key is unset. |
| BloomWhitelist.Filter.DefinitelyAbsentMany | core/bloom.py:171-201 | The flat reply cut into slices gives each key the answer it would get alone, and nothing while the gate is shut. |
| BloomSeeding.NextPageIsPage | auth/bloom_seed.py:49-54 | On a quiet table the next page is the least ids after the cursor, at most a page of them, none skipped. |
| BloomSeeding.ScanTable | auth/bloom_seed.py:47-71 | The paging loop covers a prefix of the table, all of it in the filter, and completes exactly when the prefix is everything. |
| BloomSeeding.BackfillUserIds | auth/bloom_seed.py:40-83 | The mark is set exactly after a complete pass over a non-empty table. |
| BloomSeeding.StepKeepsInv | auth/bloom_seed.py:47-78 | Creations, deletions, backfills in any number, failures and mark expiry keep: behind every cursor all accounts are in the filter or lost their own add. |
| BloomSeeding.NoExistingAccountRejected | auth/service_auth.py:283-305 | In every run, with accounts added before or after their commit, a rejected existing account lost its own add or is still to get it; with no lost add, only the latter. |
| BloomSeeding.CommittedFirstRejectedIffUnset | auth/seed_users.py:78-81 | An account committed before its add is rejected in between if and only if its bits were not set before. |
| BloomSeeding.CreationRejectedIffAddLost | core/bloom.py:63-83 | While the gate is open a new account is rejected if and only if its add failed and neither earlier bits nor the failing pipeline's stray bits make up its own. |
| RefreshChains.StepKeepsInv | auth/service_auth.py:122-184 | Logins, rotations, rollbacks and revoke-alls, interleaved, keep the chain invariant. |
| RefreshChains.SpentAtMostOnce | core/db/repo.py:47-72 | Each refresh token is spent at most once, stays revoked, and is never an administrator's. |
| RefreshChains.OneLiveTokenPerChain | auth/service_auth.py:792-844 | At most one unrevoked token per login chain, with any number of rotations open. |
| RefreshChains.ChainNeverExtends | auth/service_auth.py:99-184 | All tokens of a chain share user, end and second-factor instant; access tokens of a rotation end by then. |
| RefreshChains.ExpiryWithinSession | auth/security.py:81-85 | The access expiry capped by the session end is no later than it, in whole seconds. |
| RefreshChains.RevokeAllKillsEarlierTokens | auth/service_auth.py:847-852 | After a revoke-all a live token of the user was stored after its statement began. |
| RefreshChains.RevokeAllCompleteIffNothingIssued | auth/repository.py:268-275 | Revoke-all leaves no live token of the user if and only if none was issued to the user while it ran. |
| RefreshChains.LoginDuringRevokeAllSurvives | auth/repository.py:268-275 | A run in which a login during a revoke-all keeps its token. |
| RefreshChains.AuthDb.ConsumeOnce | core/db/repo.py:47-72 | True exactly for a stored, unrevoked web token, which is then locked to the request. |
| RefreshChains.AuthDb.RefreshAccessToken | auth/service_auth.py:792-844 | Between consumption and commit others may act. It succeeds exactly under the listed conditions, exchanging one token for one of the same chain; any error after the consumption only undoes that, and the token can be used again. |
| RefreshChains.RollBackOutcome | core/db/session.py:116-131 | With nobody else acting, a failed rotation leaves the database as it was. |
| RefreshChains.AuthDb.RevokeAllRefreshTokens | auth/service_auth.py:847-852 | Called at any time, with others going on while it waits for locks: every token the user had is dead, and none is left exactly if none was issued meanwhile. |
| CacheKeys.UnescapeUndoesEscape | core/cache.py:101-103 | The two-pass escape is invertible. |
| CacheKeys.SameKeyIffSameParts | core/cache.py:106-114 | Under one environment and prefix two keys are equal if and only if their parts read alike. |
| CacheKeys.PrefixesStayApart | core/cache.py:106-114 | With colon-free parts keys agree only if prefix and parts do. |
| CacheKeys.SameKeyIffSameOrShifted | core/cache.py:106-114 | Keys of any two prefixes are equal if and only if prefix and parts agree, or one prefix extends the other by what the other's escaped parts begin with. |
| CacheKeys.ColonsCanMeet | core/cache.py:106-114 | A colon in a part makes keys of two prefixes equal. |
| CacheKeys.CounterKeyRoundTrip | core/counters.py:33-56 | The parser reads a printed counter key back if and only if the environment name holds no colon. |

## Left out

- SnapshotCache.L2SnapshotIsCurrent: creations and updates invalidated before their commit are taken to have higher source versions than all before; two of them within one microsecond are not modelled.
- SnapshotEpochs.OutdatedAheadIffWithinGap: clocks are not modelled, so a seed may be any positive number.
- SnapshotCache.QuietL1IsCurrent: speaks of snapshots, the only entries L1 holds; a broadcast that is lost for good stays owed, and only the L1 time to live bounds it.
- SnapshotCache.MarkerRightIffNotCreatedSince: the 30-second life of a marker, which bounds how long it can be wrong, is an arbitrary expiry step.
- SnapshotTasks.World.LoadUserSnapshot: serves one user; the batched load (chunks of 200, one pipeline) runs the same capture, fetch and commit for each id and is not written out.
- GraphQLCost.Refused: the frames left are one number; that other frames of the interpreter use some of them is not modelled.
- RoleGrants.RunKeepsSeparationAndRank: covers role assignment, exam unlock and incubation; `upgrade_to_normal` and `disable_2fa` change the level without a check and are not part of this model.
- BloomSeeding.NoExistingAccountRejected: the bitmap is not lost while the seeded mark survives; filter parameters do not change.
- SlidingWindow.Limiter.Allow: server time is taken as nondecreasing real numbers; floating-point rounding of scores is not modelled.
- OutboxRelay.Database.ScanClaimable: transactions are steps, so rows that another transaction has locked at that instant, which the statement skips, do not occur.
- OutboxRelay.Database.RelayPoll: leadership and the broker's answer are arbitrary booleans; the bound on the delay between claim and publish is a parameter.
- GuardedRefill.MissedCommitIffLate: one Redis lifetime; a restart or an eviction of the guard key loses the token early. WATCH and the two reads after it are one step, since a change between them fails the EXEC; its instant is that of the token read.
- LeaderLease.OneLeader: one Redis lifetime; WATCH and the read after it are one step, for the same reason.
- RefreshChains.RevokeAllCompleteIffNothingIssued: no second revoke-all of the same user ends in between; with one, fewer tokens are left.
- RefreshChains.ChainNeverExtends: web sessions; the administrator's own rotation endpoint, deletion of users and the stored role selection are not part of this model.
- CacheKeys.CounterKeyRoundTrip: UUID printing and parsing are functions assumed to be inverse.
- The waits in SnapshotTasks, OutboxRelay, LeaderLease and RefreshChains have bodies that do nothing, or roll everything back; their contracts admit everything the other tasks may do, and callers rely on the contracts only.
- Redis, the SQL database and the brokers themselves: commands and transactions are atomic steps.
- HTTP routing, settings, metrics, tracing, JSON encoding, TTL jitter and key expiry values beyond what the guards compare.
- Cryptography: hashes, tokens and digests are opaque values.
- The parsing of constraint settings: constraint lists are given.
- Replay of folded events: it enqueues a new row.
- The limiter's fail-open wrapper, the script cache, collection versions, the GraphQL time budget and depth limits: no state theorem.
- `local_cache.reset` and the counters' flush to the database.
