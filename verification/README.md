# Verification of the location store and its neighbouring services

A Dafny model of the parts of the services whose correctness depends on more than one function, and
proofs of what they are meant to guarantee. `dafny verify dfyconfig.toml` checks everything.

- **Location store.** `Grid` files coordinates under cells and enumerates the cells a search circle
  can reach; `GridCoverage` says exactly when those cover the circle. `LocationStore` states what the store's operations do to its three maps, the invariant
  they keep and the flat map from user to entry they stand for. `NearbySpec` says what a nearby
  query must return; `ReservedSlots` and `Traversal` show that slot reservation, early exit, lookup
  of favourites and eviction on the way add up to that. `MemoryStore` is the class itself, loops and
  all. `StoreRuns` reasons about whole runs of pushes, deletions, queries and sweeps, `Interleaving`
  about upserts and removals at lock granularity. `ShardKeyText`, `DbStore` and `Backends` model the
  database backend and compare the two.
- **Shared documents.** `Accounts` holds users, token versions and tokens; `Social` adds favourites
  with their `withinRange` flag, blocks and messages, one atomic step per handler. `AccountHistory` and
  `DocumentHistory` say exactly what each step does to each field and document, and so where everything
  there is after a run comes from. `SocialRuns` proves what every step keeps and exactly when,
  `SocialSafety` and `MessageGate` what follows for whole runs, `LocatedSenders` ties the gate to the
  location store, `SocialCounterexamples` gives the runs that show each condition is needed, and
  `SocialServices` proves the handlers, with their staged checks and loops, against the steps.
- **Limiters.** `RateLimit` models the fixed-window limiters and proves bounds over arbitrary
  traces.
- **Migrations.** `Migration` models the runner with a failure possible at every point, `MigrationData`
  says which data its resets remove.
- `RealArithmetic` and `Ordering` hold arithmetic and sorting facts.

Numbers the code keeps in `f64` are `real`; an operation reads the clock once. Distance and cosine
are parameters (`Grid.Geometry`). What a proof needs of them is stated: a cell's minimum distance
bounds the distance to every hit filed in it (`Traversal.CellsBoundHits`), and enumerated cells cover
the radius. What `nearby` returns without either is stated too (`Traversal.Searched`). Both are proved for a grid with one cell size and a metric that dominates each
axis (`Grid.Planar`), and both are proved to need it: for a metric that grows along each axis and
does not depend on where one counts from, the enumeration covers every radius if and only if the grid
is planar (`GridCoverage.CoversAllIffPlanar`, over an unbounded plane). The code is not:
`shard_for_coords` takes the cosine at the entry's latitude while `intersecting_shards` takes it at
the query's, and 111 320 m to the degree is more than a sphere of 6 371 000 m has. `Grid` has an
input for each.

Conditions found on the way, each proved exact by an if-and-only-if:

- suppression never hides a user who has just pushed: if and only if it is no longer than the TTL,
  or never happens (`StoreRuns.PushesNeverHideIff`); the user is also near the position pushed: if and
  only if the update distance is positive besides (`StoreRuns.PushesAreRepresentedIff`);
- the two backends accept and skip the same pushes: if and only if suppression is no longer than the
  TTL or never happens (`Backends.BackendsDecideAlikeIff`); they show the same users: under the same
  condition or with a TTL of zero (`Backends.BackendsShowTheSameIff`);
- they give a query the same distances and favourites, on any grid, for any limit and wherever the
  in-memory search stopped: if and only if the favourites in range are filed in enumerated cells and the
  early exit misses nothing (`Backends.BackendsAnswerAlikeIff`), after every run of both unless an entry
  is aged exactly the TTL (`Backends.QueriesAgreeAfterRunIff`); always on planar grids
  (`Backends.PlanarAnswersAlike`);
- a search is brute force, on any grid, for any limit and wherever it stopped: if and only if every hit
  it did not find is crowded out by at least as near ones it did (`Traversal.SearchIsBruteForceIff`);
  every search of a store is: if and only if that holds wherever one may stop
  (`Traversal.EverySearchIsBruteForceIff`);
  without a limit: if and only if no hit but a favourite is filed outside the enumerated cells
  (`Traversal.UnlimitedSearchIsBruteForceIff`);
- pushing at gaps of at most g keeps a user online: if and only if g is zero, or g and the suppression
  interval together stay within the TTL, or nothing is suppressed and g does
  (`StoreRuns.GapKeepsOnlineIff`);
- writes less one are bounded by time in suppression intervals plus path in update distances: if and only
  if suppression is no longer than the TTL (`StoreRuns.WriteRateHoldsIff`);
- a nearby answer keeps to its limit: if and only if the favourites in range do
  (`ReservedSlots.FitsLimitIff`);
- two maxima per window bound a fixed-window limiter: if and only if the window is positive or the
  maximum zero (`RateLimit.TwiceBoundIff`);
- the two ways of counting decide alike: if and only if no window sees 2^32 requests
  (`RateLimit.DecideAlikeIff`);
- the central token check and the extractors' agree: except on a version-zero token of a user whose
  stored version no longer fits a signed 32-bit number (`Accounts.ChecksAgreeIff`,
  `Accounts.RevokedIsRefused`);
- favourites, messages and venue deletions keep references intact: if and only if they are refused or
  the path spells the id as the database does, since the handlers look a user up by the parsed id but
  file documents under the text (`SocialRuns.FavouriteKeepsRefsIff`, `SendKeepsRefsIff`,
  `VenueDeletionKeepsRefsIff`);
- an admin patch keeps every flag current: `SocialRuns.PatchKeepsFlagsIff`;
- every state of a run is consistent: if and only if every request meets those conditions when it
  comes (`SocialRuns.RunConsistentIff`);
- a user, favourite, block or message is there after a run: if and only if some request put it there,
  allowed as it came, and none has taken it away since (`DocumentHistory.PresentAfterRunIff`);
- the block check, made by texts, is a check by ids: if and only if the path is canonical, blocks being
  filed canonically (`MessageGate.TextCheckSufficesIff`), and a block document is found under the ids
  if and only if it is filed under them (`MessageGate.BlockFoundIff`);
- the self-modification guard keeps admins off their own account: if and only if the path is canonical
  (`Accounts.SelfPatchRefusedIff`);
- a reset that fails is completed by the next run: if and only if the `_migrations` collection was
  really dropped or the reset got past the ids already in it (`Migration.ResetResumesIff`);
- what a collection held is gone after any mix of runs and resets: if and only if it is one of the four to
  be emptied and some reset's drop of it succeeded (`MigrationData.OldDataAfterRequests`);
- a cut-off look-up of applied migrations, which the code takes for an empty one, is harmless: if and
  only if at most one was applied and the run got past it (`Migration.CutOffHarmlessIff`).

The theorem on the message gate asks for a run whose requests are harmless in this sense and whose
blocks are filed canonically. A run is harmless if its paths are plainly spelled and it has at most
2^31 - 1 requests, too few for a stored version to leave 32 bits (`SocialRuns.SpelledRunIsHarmless`).

Where documentation and code disagree the model follows the code:

- `services/common/src/SHARD.md:155` and `services/location-service/src/store.rs:214-217` promise at
  most `limit` results; favourites in range are never dropped, so there can be more.
- `services/common/src/SHARD.md:35` says the longitude cell size is taken at the query's latitude
  and not stored; filing takes it at the entry's.
- `services/common/src/SHARD.md:53-55` assigns a boundary to the lower cell; `floor` puts a point
  exactly on an edge into the cell above it.
- `services/location-service/src/db_store.rs:4` promises identical results; an entry aged exactly the
  TTL shows in one backend only, favourites filed outside the enumerated cells are found by the
  in-memory store only (`Backends.FavouriteFoundOnce`), and its early exit can miss a user that the
  database, which has none, returns (`Backends.EarlyExitMisses`).
- `services/favourites-service/src/main.rs:501` says range-sync is called on each location push; the
  location service calls it on a first push only. The model allows it at any time.

- `services/gateway/src/rate.rs:36-39` says limiters are replaced when settings change and without
  losing state; the refresh replaces them every 60 s and each starts empty.

## Model

| member | source | states |
|---|---|---|
| Grid.IntersectingShards | services/common/src/shard.rs:33-77 | the nested loops return exactly the cells of the box whose minimum distance is within the radius, in row-major order and so without repetition |
| GridCoverage.CoversAllIffOneScale | services/common/src/shard.rs:18-77 | with a metric that dominates and grows along each axis, whatever meridian one counts from, every point within every radius is filed under a returned cell exactly if one longitude scale serves all latitudes |
| GridCoverage.BoundsAllIffOneScale | services/common/src/shard.rs:82-98 | exactly then does the minimum distance to a cell never exceed the distance to a point filed in it |
| GridCoverage.CoversAllIffDominates | services/common/src/shard.rs:7-77 | with one scale and a shift-invariant metric the cells cover every radius exactly if the metric has no axis shorter than the grid |
| GridCoverage.CoversAllIffPlanar | services/common/src/shard.rs:7-77 | altogether, for a shift-invariant metric growing along each axis, covering every radius is having a planar grid |
| Grid.HomeCellIsReached | services/common/src/shard.rs:33-98 | the query's own cell is always returned, at distance zero, whatever the cosine |
| Grid.PlanarGridExists | services/common/src/shard.rs:7-98 | a shift-invariant geometry meeting all those conditions exists for every cell size, so nothing proved from them is vacuous |
| Grid.TwoLatitudesLoseAPoint | services/common/src/shard.rs:20-35 | with the cosine taken at two latitudes a point inside the radius is filed in a cell that is not enumerated |
| Grid.ShorterDegreesLoseAPoint | services/common/src/geo.rs:6-18 | with degrees shorter than 111 320 m the same happens on one latitude scale |
| LocationStore.AtMostOneShard | services/location-service/src/store.rs:49-68 | under the invariant a user is in at most one cell, that of the entry's coordinates |
| LocationStore.UpsertedKeepsInv | services/location-service/src/store.rs:92-146 | an upsert keeps the invariant tying cells, index and stamps together |
| LocationStore.RemovedKeepsInv | services/location-service/src/store.rs:151-169 | so does a removal |
| LocationStore.EvictedKeepsInv | services/location-service/src/store.rs:268-274 | so does eviction inside a query, which leaves index and stamps behind |
| LocationStore.SweptKeepsInv | services/location-service/src/store.rs:340-376 | so does a sweep |
| LocationStore.FiledIsFlat | services/location-service/src/store.rs:49-68 | a user is filed in a cell exactly if the flat map has an entry with coordinates in that cell, and it is that entry |
| LocationStore.UpsertIsFlatInsert | services/location-service/src/store.rs:92-146 | through all three maps an upsert is one insertion into the flat map, or nothing if suppressed |
| LocationStore.RemoveIsFlatDelete | services/location-service/src/store.rs:151-169 | a removal is one deletion from the flat map |
| LocationStore.EvictedAt | services/location-service/src/store.rs:268-274 | a query drops exactly the stale, not excluded users of the cells it visited and changes no other entry |
| LocationStore.EvictionIsInvisible | services/location-service/src/store.rs:268-274 | eviction changes no live view, now or later |
| LocationStore.SweepIsFlatFilter | services/location-service/src/store.rs:340-376 | a sweep removes exactly the stale entries |
| LocationStore.SweepLeavesNoWaste | services/location-service/src/store.rs:360-376 | after a sweep no cell is empty and none holds a stale entry |
| LocationStore.SweepIsInvisible | services/location-service/src/store.rs:340-376 | a sweep changes no live view, now or later |
| MemoryStore.MemoryStore.constructor | services/location-service/src/store.rs:70-88 | a new store is empty and well-formed |
| MemoryStore.MemoryStore.Upsert | services/location-service/src/store.rs:92-146 | the staged updates of cells, index and stamps are the specified upsert, skipped exactly if suppressed |
| MemoryStore.MemoryStore.Remove | services/location-service/src/store.rs:151-169 | the removal is the specified one |
| MemoryStore.MemoryStore.GetUser | services/location-service/src/store.rs:175-187 | the lookup through index and cell agrees with the live flat map |
| MemoryStore.MemoryStore.OnlineIds | services/location-service/src/store.rs:192-210 | exactly the asked-for users that are live |
| MemoryStore.MemoryStore.ScanShard | services/location-service/src/store.rs:240-266 | one pass over a cell lists its wanted entries once each and the stale ones to evict |
| MemoryStore.MemoryStore.Traverse | services/location-service/src/store.rs:236-290 | the loop visits a prefix of the cells, lists exactly their hits, evicts exactly their stale entries, and stops early only with enough hits no farther than any unvisited cell |
| MemoryStore.MemoryStore.RecoverFavourites | services/location-service/src/store.rs:296-312 | the index lookups find exactly the favourites in range that the traversal did not |
| MemoryStore.MemoryStore.Nearby | services/location-service/src/store.rs:220-334 | on any grid and for any limit: it visits intersecting cells and leaves one out only with limit hits nearer than it, evicts their stale entries and nothing else, and answers over what it found, all favourites in range and the nearest others the limit leaves room for, ascending, which is brute force over the flat live map exactly if every hit not found is crowded out; always on planar grids, and wherever the enumerated cells hold and bound the hits |
| MemoryStore.MemoryStore.Sweep | services/location-service/src/store.rs:340-376 | collecting, removing one by one and dropping empty cells is the specified sweep |
| Traversal.PlanarSearchIsBruteForce | services/location-service/src/store.rs:220-334 | on a planar grid the searched pool is every live entry within the radius |
| Traversal.SearchIsBruteForceIff | services/location-service/src/store.rs:220-334 | on any grid, for any limit and wherever the search stopped, its answer is the brute-force answer exactly if every hit not found is crowded out by a full quota of found ones at most as far away |
| Traversal.UnlimitedSearchIsBruteForceIff | services/location-service/src/store.rs:220-334 | without a limit exactly if no hit but a favourite is filed outside the enumerated cells |
| Traversal.EverySearchIsBruteForceIff | services/location-service/src/store.rs:220-334 | every search of a store is brute force exactly if every set of cells one may stop at misses nothing |
| NearbySpec.PartAnswersIff | services/location-service/src/store.rs:315-333 | an answer over part of the hits, all favourites among them, is one over all exactly if the part misses nothing |
| NearbySpec.SameDistancesAnswer | services/location-service/src/db_store.rs:247-267 | an answer over part of a pool with the distances of an answer over all of it is one itself |
| Traversal.VisitCell | services/location-service/src/store.rs:236-274 | one more cell adds exactly its own hits, none seen before |
| Traversal.StoppedSearchAnswers | services/location-service/src/store.rs:276-334 | early exit, favourite recovery and slot reservation together answer the query over what was found, on any grid |
| Traversal.StoppingLosesNothing | services/location-service/src/store.rs:276-290 | where cells bound their hits, it is an answer over everything filed in enumerated cells |
| Traversal.MissedIsBeyond | services/location-service/src/store.rs:276-290 | a hit in a cell left out, no nearer than the cell, is crowded out by nearer ones found |
| Traversal.EvictionKeepsHits | services/location-service/src/store.rs:268-274 | eviction does not change what brute force finds |
| ReservedSlots.ReserveSlotsAnswers | services/location-service/src/store.rs:315-333 | partition, truncation and re-sorting answer the query even over a pool some far non-favourites are missing from |
| ReservedSlots.FitsLimitIff | services/location-service/src/store.rs:315-333 | an answer keeps to its limit exactly if the favourites in range do, and is then as long as limit and pool allow |
| NearbySpec.AnswerIsDetermined | services/location-service/src/store.rs:213-217 | the specification determines the sequence of distances, so only equally distant users can be exchanged |
| NearbySpec.AnswersAgree | services/location-service/src/db_store.rs:203-267 | answers over pools with equal counts within every distance have equal distance sequences |
| StoreRuns.EveryRunIsGood | services/location-service/src/store.rs:92-376 | in every state of every run the invariant holds, stamps match entries, and a stamp without an entry is older than the TTL |
| StoreRuns.PushesAreRepresentedIff | services/location-service/src/store.rs:92-146 | after every push of every run, written or skipped, the user is live less than the update distance from the position pushed, exactly if that distance is positive and suppression no longer than the TTL |
| StoreRuns.PushesNeverHideIff | services/location-service/src/store.rs:97-107 | every push leaves its user online exactly if suppression is no longer than the TTL or never happens |
| StoreRuns.HiddenPush | services/location-service/src/store.rs:97-107 | the run that shows it otherwise |
| StoreRuns.StaysOnline | services/location-service/src/store.rs:97-376 | a user pushing at gaps of at most g, with g plus the lag of suppression within the TTL, is online until g after the last push, whatever queries and sweeps do |
| StoreRuns.GapKeepsOnlineIff | services/location-service/src/store.rs:97-376 | exactly which gaps keep every such user online in every run |
| StoreRuns.LostBetweenPushes | services/location-service/src/store.rs:97-107 | the run of suppressed pushes that shows the others do not |
| StoreRuns.WriteRateHoldsIff | services/location-service/src/store.rs:97-143 | in every run without deletions writes less one are at most elapsed time in intervals plus path length in update distances, exactly if suppression is no longer than the TTL |
| StoreRuns.WrittenTooSoon | services/location-service/src/store.rs:340-376 | the run that shows it otherwise: a sweep forgets the stamp |
| Interleaving.OthersUndisturbed | services/location-service/src/store.rs:109-169 | no step of one user's operation, at lock granularity, changes another user's part of the maps |
| Interleaving.EveryInterleavingAgrees | services/location-service/src/store.rs:92-169 | in every interleaving each user's part of the store is what the completed operations run atomically make of it, up to the user's own operation in flight |
| Interleaving.IdleUserIsPlaced | services/location-service/src/store.rs:92-169 | an idle user is in at most one cell with a correct index, through the gap between letting go of and retaking the outer lock |
| Interleaving.QuiescentIsAtomic | services/location-service/src/store.rs:92-169 | with nothing in flight the invariant holds and the flat map is that of the operations run one after the other |
| ShardKeyText.IntRoundTrip | services/location-service/src/db_store.rs:27-29 | decimal text reads back to the number and holds no colon |
| ShardKeyText.KeyTextInjective | services/location-service/src/db_store.rs:27-29 | different cells have different key texts |
| DbStore.TextsSelectCells | services/location-service/src/db_store.rs:203-245 | selecting documents by key text selects those filed in the enumerated cells |
| DbStore.DbStore.Upsert | services/location-service/src/db_store.rs:90-145 | the document and the stamp are written unless suppressed or the database fails, and failure still reports a write |
| DbStore.DbStore.Remove | services/location-service/src/db_store.rs:149-156 | the stamp goes even if the database fails |
| DbStore.FailuresAreRetried | services/location-service/src/db_store.rs:131-156 | a push that failed does not hold back the next, and neither does anything after a removal, even one that failed |
| DbStore.DbStore.GetUser | services/location-service/src/db_store.rs:158-173 | agrees with the documents younger than the TTL |
| DbStore.DbStore.Nearby | services/location-service/src/db_store.rs:203-267 | all hits of the selected documents, without early exit, answer the query |
| Backends.BackendsShowTheSameIff | services/location-service/src/db_store.rs:32-56 | after every run both show a user or neither does, with the same position and profile, but for an age of exactly the TTL, exactly if suppression is no longer than the TTL, never happens, or the TTL is zero |
| Backends.SweptStampDiffers | services/location-service/src/store.rs:340-376 | the run that shows it otherwise: a sweep forgets the stamp in one backend only |
| Backends.BackendsDecideAlikeIff | services/location-service/src/db_store.rs:90-107 | they skip the same pushes exactly if suppression is no longer than the TTL or never happens |
| Backends.BackendsAnswerAlikeIff | services/location-service/src/db_store.rs:203-267 | over the same entries, on any grid, for any limit and wherever the in-memory search stopped, both give the same distances and the same favourites exactly if the favourites in range are filed in enumerated cells and what the early exit left out of those cells is crowded out |
| Backends.BoundedExitMissesNothing | services/location-service/src/store.rs:276-290 | without a limit, or where cells bound their hits, the early exit misses nothing |
| Backends.PlanarAnswersAlike | services/location-service/src/db_store.rs:203-267 | on a planar grid the two always give the same |
| Backends.EarlyExitMisses | services/location-service/src/store.rs:276-290 | two pushes and a limited query without favourites after which the in-memory store, breaking off after the query's own cell, gives another distance than any answer of the database |
| Backends.SameEntriesAfterRunIff | services/location-service/src/db_store.rs:32-38 | after every run both hold the same live entries exactly if none is aged exactly the TTL |
| Backends.QueriesAgreeAfterRunIff | services/location-service/src/db_store.rs:203-267 | so after every run with none aged so, whatever query both answer, they agree exactly under that condition |
| Backends.UnlimitedAnswersAlikeIff | services/location-service/src/db_store.rs:203-267 | without a limit the distances alone agree exactly then |
| Backends.FavouriteFoundOnce | services/location-service/src/store.rs:296-312 | a push and a query after which only the in-memory store finds the favourite |
| RateLimit.FixedWindow.CheckKey | services/gateway/src/rate.rs:25-34 | opens a bucket or resets it after a window, counts only what it admits, touches no other key |
| RateLimit.LiveLimiter.Refresh | services/gateway/src/main.rs:225-237 | a refresh swaps in a new limiter with the settings read and no counts |
| RateLimit.LiveLimiter.CheckLim | services/gateway/src/rate.rs:46-48 | a check goes to the limiter in place |
| RateLimit.UserBuckets.CheckUserRate | services/messages-service/src/main.rs:233-243 | the same decision and bucket for the per-user limiter |
| RateLimit.SendBuckets.WsCheckSend | services/gateway/src/rate.rs:57-65 | counts every request, also refused ones, in 32 bits |
| RateLimit.AtMostTwicePerWindow | services/gateway/src/rate.rs:25-34 | any closed interval one window long admits at most twice the maximum, and the maximum once more for each swap, or new setting with a shorter window, within it |
| RateLimit.TwiceBoundIff | services/gateway/src/rate.rs:25-34 | without swaps the bound holds of every trace exactly if the window is positive or the maximum zero |
| RateLimit.ModestCallerNeverRefused | services/messages-service/src/main.rs:233-243 | a caller with at most so many requests in every span shorter than a window is never refused while every configuration, swapped in or passed with the call, allows that many in a window no longer |
| RateLimit.KeysAreIndependent | services/gateway/src/rate.rs:25-34 | in a trace over many keys each bucket is what its own requests alone make it |
| RateLimit.Simulation | services/gateway/src/rate.rs:57-65 | with c requests in the window one limiter stores c modulo 2^32 and the other the lesser of c and the maximum |
| RateLimit.DecideAlikeIff | services/gateway/src/rate.rs:57-65 | both limiters decide every request of a trace alike exactly if no window sees 2^32 requests |
| Migration.MigrationService.MigrateRun | services/migration-service/src/main.rs:442-481 | the loop over pending ids with its early returns leaves the specified state and count |
| Migration.MigrationService.MigrateReset | services/migration-service/src/main.rs:484-512 | drops whose failures are ignored, then all bodies, leave the specified state; which data that removes is `MigrationData.ResetEmptiesExactly` |
| Migration.RecordsStayPrefix | services/migration-service/src/main.rs:83-512 | with a failure anywhere, in any mix of runs and resets, the recorded ids are a prefix of the list |
| Migration.WhatRemains | services/migration-service/src/main.rs:465-480 | wherever an attempt stops, the bodies not yet recorded lead where the whole list would have led |
| Migration.InterruptedRunsReachGoal | services/migration-service/src/main.rs:442-512 | any mix of runs and resets, each failing anywhere as long as the last reset gets past what was recorded before it, and then a request that succeeds, gives the uninterrupted result of the last reset, or of the start if there was none, and the next run applies none |
| Migration.ResetResumesIff | services/migration-service/src/main.rs:484-512 | a failed reset is completed by the next run, whatever the bodies, exactly if the records were dropped or it got past them |
| Migration.CutOffHarmlessIff | services/migration-service/src/main.rs:448-455 | a record look-up cut off and taken for empty is harmless, whatever the bodies, exactly if at most one body was applied and the run got past it |
| Migration.SucceedsIff | services/migration-service/src/main.rs:465-480 | a pass over the list reports success exactly if no body and no record fails |
| MigrationData.ResetEmptiesExactly | services/migration-service/src/main.rs:488-494 | after a reset, failed or not, nothing old is left in sessions, locations, messages or favourites if the drop succeeded; where it failed, and in every other collection, users among them, everything is |
| MigrationData.OldDataAfterRequests | services/migration-service/src/main.rs:442-512 | over any mix of runs and resets, each failing anywhere, a collection's old data is gone exactly if it is one of the four and some reset's drop of it succeeded |
| MigrationData.KeepingIsWatched | services/migration-service/src/main.rs:488-494 | a database with one component per collection and bodies that work beside the old data meets the conditions for every collection at once |
| Accounts.ParsedIsCanonical | services/common/src/mongo.rs:11-13 | what an id is read as is spelled canonically and reads back as itself |
| Accounts.RegisteredSound | services/authority-service/src/auth.rs:219-254 | registering keeps accounts sound: every issued token is no newer than its user and, if current, carries the stored role and tier |
| Accounts.LoggedInSound | services/authority-service/src/auth.rs:342-371 | so does a login, which sanitises role and tier |
| Accounts.PasswordChangedSound | services/users-service/src/main.rs:1581-1606 | so does a password change with its fresh token |
| Accounts.BootstrappedSound | services/authority-service/src/main.rs:133-150 | so does the bootstrap of the first admin |
| Accounts.PatchedSound | services/users-service/src/main.rs:1120-1190 | so does an admin's change of tier, role or both, with or without a fresh token |
| Accounts.VenueCreatedSound | services/users-service/src/main.rs:1347-1405 | so does making a venue, which no token is ever issued for |
| Accounts.UsersDeletedSound | services/users-service/src/main.rs:369-433 | so does any deletion |
| Accounts.ManagerReassignedSound | services/users-service/src/main.rs:1217-1265 | so does giving a venue to another manager |
| Accounts.AcceptedIsCurrent | services/common/src/auth.rs:364-390 | an accepted registered token carries the stored role and, for a tier logins know, the stored tier |
| Accounts.ChecksAgreeIff | services/authority-service/src/verify.rs:66-84 | the central check and the extractor agree except on version-zero tokens of users whose version outgrew 32 bits |
| Accounts.TierAdminCheckIsSound | services/authority-service/src/tiers.rs:162-183 | the tier administration's lenient check accepts exactly what the extractor accepts of an admin |
| Accounts.RevokedIsRefused | services/authority-service/src/verify.rs:66-84 | no check accepts a token its user has outrun, but for that one case |
| Accounts.SelfPatchRefusedIff | services/users-service/src/main.rs:1130-1132 | the self-modification guard refuses an admin's own account exactly if the path is spelled canonically |
| Accounts.BumpRevokes | services/users-service/src/main.rs:1035-1047 | a version bump or a deletion outruns every token issued before it |
| AccountHistory.UserAfterStep | services/users-service/src/main.rs:1035-1265 | field by field, a user who stays keeps role, tier and manager unless an effective patch, the bootstrap or a reassignment gives another, and the version moves by one exactly for effective patches, the bootstrap and password changes |
| AccountHistory.NewUserAfterStep | services/authority-service/src/auth.rs:219-254 | a new document is a regular user's at version zero, or a venue's run by its maker |
| AccountHistory.FieldAfterRun | services/users-service/src/main.rs:1120-1190 | after every run role and tier are what the last effective patch or bootstrap gave, or a new account's |
| AccountHistory.AdminsGoBackToBootstrap | services/authority-service/src/main.rs:133-150 | in every run with an admin in the end some bootstrap went through |
| AccountHistory.HandedOutIsGood | services/users-service/src/main.rs:1151-1190 | registration, login, password change and an admin's patch of the own account each end with a token that both checks accept, with the stored role and tier, exactly where they should, and no request makes any other |
| AccountHistory.PasswordChangeRenews | services/users-service/src/main.rs:1581-1606 | a password change makes exactly one token, for the user, accepted by both checks and with the stored role and tier, unless the bumped version is unreadable, and outruns every earlier one |
| SocialRuns.FavouriteKeepsRefsIff | services/favourites-service/src/main.rs:371-402 | adding a favourite keeps every reference exactly if it is refused or the path is spelled canonically |
| SocialRuns.SendKeepsRefsIff | services/messages-service/src/main.rs:406-615 | so for sending a message |
| SocialRuns.VenueDeletionKeepsRefsIff | services/users-service/src/main.rs:369-384 | deleting a venue keeps every reference exactly if the path is spelled canonically or nothing names the venue |
| SocialRuns.MeDeletionKeepsRefs | services/users-service/src/main.rs:386-433 | deleting an account, with a manager's venues, leaves no favourite or message of anyone gone |
| SocialRuns.PatchKeepsFlagsIff | services/users-service/src/main.rs:1035-1056 | an admin patch keeps flags current exactly if no tier changes, or they are dropped under the canonical id, or there is none |
| SocialRuns.SyncKeepsConsistency | services/favourites-service/src/main.rs:614-654 | a range-sync's flags are current: computed under the tiers both users have now and the cached radii, the same for both directions |
| SocialRuns.FlagsAgree | services/favourites-service/src/main.rs:634-651 | if both directions of a pair carry the flag, the values are equal |
| SocialRuns.StepKeepsConsistencyIff | services/users-service/src/main.rs:1035-1190 | over every handler's step consistency of references, flags and accounts is kept exactly if the request is harmless |
| SocialRuns.RunConsistentIff | services/users-service/src/main.rs:1035-1190 | every state of a run is consistent exactly if every request is harmless when it comes |
| SocialRuns.SpelledRunIsHarmless | services/common/src/mongo.rs:11-13 | so is a run with plainly spelled paths that is too short to outgrow a 32-bit version |
| SocialRuns.AccountsOfRun | services/users-service/src/main.rs:1035-1190 | accounts are sound after every run, whatever the spelling, and a version counts at most the requests |
| SocialSafety.AcceptedAfterRun | services/common/src/auth.rs:364-390 | after every run a registered token either check accepts, version-zero tokens of outgrown versions aside, carries the stored role and tier |
| SocialSafety.ShortRunsOutgrowNothing | services/authority-service/src/verify.rs:77 | no run of fewer than 2^31 requests outgrows a token |
| SocialSafety.OutrunIff | services/users-service/src/main.rs:1035-1188 | over every step a user's version moves up by one, or the account goes, exactly for effective password changes, patches, bootstraps and own deletions |
| SocialSafety.OutrunForGood | services/authority-service/src/verify.rs:66-84 | a token issued before such a step is never accepted again, but by the central check exactly if it is outgrown |
| SocialSafety.SyncSetsFlags | services/favourites-service/src/main.rs:607-654 | after the loop, favourites with a sighted user carry the verdict under the final cache, or are untouched if a radius was missing in their turn |
| SocialSafety.SyncLeavesOthers | services/favourites-service/src/main.rs:607-654 | favourites with nobody sighted are untouched |
| SocialSafety.SyncOneExactly | services/favourites-service/src/main.rs:607-654 | one sighting sets the flag of a favourite between the two exactly if both radii are cached or answered, to whether each is -1 or at least the distance, and caches what was asked |
| SocialSafety.DecisionsOfRun | services/favourites-service/src/main.rs:588-654 | every decision behind a flag was taken by a range-sync of the run, by one of the two about the other |
| MessageGate.MessagesOfRun | services/messages-service/src/main.rs:371-615 | every stored message comes from a send that was allowed when it came |
| MessageGate.EveryMessageWasAsked | services/messages-service/src/main.rs:447-615 | in every run a message to another text went between distinct users with mutual favourites, no block under the texts, a located sender, and reach or the flag |
| MessageGate.BlockFoundIff | services/blocks-service/src/main.rs:208-216 | a block between two ids is found under them exactly if it is filed under them |
| MessageGate.TextCheckSufficesIff | services/messages-service/src/main.rs:450-460 | the check by texts is the check by ids, for every set of canonically filed blocks, exactly if the path is canonical |
| MessageGate.AllowedSendCrossesNoBlock | services/messages-service/src/main.rs:447-460 | so an allowed send under a canonical path crosses no canonically filed block |
| MessageGate.EveryMessageWasEntitled | services/messages-service/src/main.rs:447-615 | in every run each message to another text was also sent under the stored tier, across no block if path and blocks are canonical, and, to a recipient without a position after a harmless run, on an earlier range-sync in range under both users' current tiers |
| MessageGate.EveryMessagePassedTheGate | services/messages-service/src/main.rs:447-615 | in a harmless run with canonically filed blocks every message between distinct users had mutual favourites, no block between the two ids, a located sender, and distance within both radii or an earlier range-sync in range under both users' current tiers |
| DocumentHistory.PresentAfterStepIff | services/messages-service/src/main.rs:371-615 | after any request a user, favourite, block or message is there exactly if the request put it there, with every condition spelled out, or it was there and not taken away |
| DocumentHistory.FlagAfterStep | services/users-service/src/main.rs:1035-1056 | a new favourite has no flag, an effective change of tier drops those filed under its text, and nothing else but a range-sync touches one |
| DocumentHistory.PresentAfterRunIff | services/favourites-service/src/main.rs:371-402 | after every run all of these documents are exactly those some allowed request put there and no later one took away |
| DocumentHistory.EveryMessageWasWanted | services/messages-service/src/main.rs:462-477 | every message to another text rests on two earlier requests, each user's own to add the other, neither favourite gone when it was sent |
| DocumentHistory.OwnDeletionTakesExactly | services/users-service/src/main.rs:386-433 | deleting one's account removes the caller and a manager's venues, exactly the favourites and messages with an end among them and the blocks with an end among the venues, and changes nothing else |
| DocumentHistory.DeliversIff | services/messages-service/src/main.rs:371-615 | a send is allowed exactly if rate and text pass, the path names a user, and to another text no block, a favourite each way, a located sender, and both answered radii -1 or at least the distance, or for a recipient without a position the flag |
| LocatedSenders.EverySenderWasLive | services/location-service/src/main.rs:611-647 | in every run whose sends were told the store's positions, the sender of every message to another text was live in the store at the position judged by, and the recipient, if judged by one, live or a venue at its fixed point |
| SocialCounterexamples.TwoIdsExist | services/common/src/mongo.rs:11-13 | ids with another spelling exist: hex letters of either case are read alike |
| SocialCounterexamples.SendUnderAnotherSpelling | services/messages-service/src/main.rs:450-477 | a run whose last send, under another spelling, crosses a block |
| SocialCounterexamples.BlockUnderAnotherSpelling | services/blocks-service/src/main.rs:208-216 | a run in which a block filed under another spelling is crossed |
| SocialCounterexamples.FavouriteOfNobody | services/favourites-service/src/main.rs:371-402 | a run after which a favourite names nobody |
| SocialCounterexamples.MessageToNobody | services/messages-service/src/main.rs:406-615 | a run after which a message names nobody |
| SocialCounterexamples.FavouriteOfGoneVenue | services/users-service/src/main.rs:369-384 | a run after which a deleted venue is still a favourite |
| SocialCounterexamples.PatchLeavesFlags | services/users-service/src/main.rs:1151-1180 | a run after which a flag rests on a tier its user no longer has |
| SocialCounterexamples.FirstTokenReturns | services/authority-service/src/verify.rs:77 | a run of 2^31 patches after which the central check takes the token issued at registration |
| SocialServices.Services.GetMessageRadius | services/favourites-service/src/main.rs:208-242 | the cached radius, else one answered for a tier that can be asked for, which is then kept for good |
| SocialServices.Services.PostFavourite | services/favourites-service/src/main.rs:365-403 | 201 exactly for another user that exists and is not a favourite yet, and then the caller's own favourite without a flag is added and no other changes; 404 and 409 exactly when they apply |
| SocialServices.Services.DeleteFavourite | services/favourites-service/src/main.rs:661-675 | the handler takes its step and reports success exactly if there was something to delete |
| SocialServices.Services.SyncPair | services/favourites-service/src/main.rs:614-653 | one pass of the loop over sightings |
| SocialServices.Services.PostRangeSync | services/favourites-service/src/main.rs:510-657 | the loop takes the range-sync step and counts the pairs decided |
| SocialServices.Services.AdminPatchUser | services/users-service/src/main.rs:1120-1190 | 200 exactly for a valid patch whose bumped version is readable; the document takes the tier and the role given, keeps the rest and moves up one version, flags are dropped only for a tier, and the admin's own account gets a token both checks accept |
| SocialServices.Services.PasswordFinish | services/users-service/src/main.rs:1581-1606 | bump first, then a token from the document read back: given exactly if the bumped version is readable, accepted by both checks, with the stored role and tier, and every earlier token of the user outrun |
| SocialServices.Services.CascadeDeleteVenue | services/users-service/src/main.rs:369-384 | a venue goes with the messages, favourites and blocks filed under its text |
| SocialServices.Services.DeleteMe | services/users-service/src/main.rs:386-433 | deleting a manager's venues one by one and then the manager is the deletion step, and takes exactly the documents that go with the account |
| SocialServices.Services.SendMessage | services/messages-service/src/main.rs:371-620 | the staged checks store this message and no other, with 201, exactly if the send is delivered: rate, text, user, and to another text no block, mutual favourites, a located sender and both radii or the flag; each early refusal has its status |
| SocialServices.VenuesGoneTogether | services/users-service/src/main.rs:404-410 | deleting venues one at a time is deleting them at once |

## Left out

- Floating point: rounding, NaN, and the saturation of `as i64` for cell indices.
- The body of `haversine_distance`; it is a parameter with stated conditions.
- Truncation to milliseconds in the database backend's cutoff and timestamps; both backends share one clock.
- `upsert_at`, which exists for tests only.
- Races of query eviction and `sweep` with other operations, and two operations of one user at a time: the code collects and removes later without rechecking, so these are atomic in the model.
- One step per handler: races between a handler's database calls, or between the gateway's token check and the handler.
- Database and network failures other than those named: the location documents' writes, the migration steps, and radii, favourites or locations that do not answer.
- Migration.InterruptedRunsReachGoal: from the last reset on, runs whose record look-up was cut off before anything but an empty record, and a reset stopped before the ids it failed to drop, are excluded, because `Migration.CutOffHarmlessIff` and `Migration.ResetResumesIff` show exactly when they are harmless.
- GridCoverage.CoversAllIffPlanar: points range over an unbounded plane; the limits of latitude and longitude, and wrap-around at the antimeridian, are not modelled.
- Migration bodies: functions that may be redone, wholly or after an interruption; `migration_005`, which renames a tier without bumping versions or dropping flags, is not part of the handlers' runs.
- OPAQUE, JWT signatures and `exp`: a token is a record only the modelled steps can make. Guests and their sessions.
- Feature checks and cached tier tables of the central verification, which follow the version check and do not affect it.
- The flag's timestamp `withinRangeAt`, message text, its expiry and its removal by the database.
- The limit of 9999 venues per manager, venue edits, notifications, the profile endpoints.
- Restarts, which clear the limiters, the stamps and the radius cache: a radius changed in the tier table after it was cached stays as cached in the model.
- The panic of debug builds on 32-bit overflow of a counter; the model wraps as release builds do.
- Blocks are not claimed to name existing users: deleting an account leaves them.
- HTTP, proxying, WebSockets, templates and the user interface.
