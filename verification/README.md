# Proxy control plane: a verified model

The control plane stores customers, their vless accounts and the nodes they may use. It keeps
each node's Xray runtime in step with the database, collects traffic counters into a ledger that
it folds by day and purges by age, hands out subscription links and can import such links again,
and keeps login sessions alive with rotating refresh tokens. This project models those parts in
Dafny and proves what they are for. `dafny verify dfyconfig.toml` checks all of it.

## How it is laid out

- `traffic_tables`, `traffic_store`, `xray_stats`, `traffic_collect`, `traffic_ledger`: the two
  traffic tables and their cleanup, the store's methods, the fold over the runtime's counters, one
  collection, and the whole path of a byte over any run.
- `reconcile`, `runtime_users`, `runtime_sync`, `runtime_node`, `runtime_parallel`,
  `runtime_targets`, `runtime_stored`: turning one user table into another over calls that fail, users and their
  hash, one pass and runs of passes, SyncNode as it is written, all nodes in parallel, the
  query for target users against the links printed, and what that query gives reconciliation.
- `auth_tokens`, `auth_sessions`, `auth_handlers`, `auth_access`: the refresh-token table under every
  sequence of statements, the handlers' separate reads and writes in every interleaving, how these
  refine those, and who gets past which read.
- `percent`, `query_params`, `base64`, `go_url`, `decimal`, `subscription`, `subscription_parse`,
  `node_match`: the pieces of Go's libraries that links are made with, printing, parsing, and
  finding the node a link means.
- `legacy_import`, `legacy_outcome`, `pbkdf2`, `passwords`, `migrations`: imports as transactions and
  what they leave in the tables, password hashes, and the migration log.
- `text`, `ordering`, `runs`, `domain`: byte strings, string order and NUL-separated text, runs of
  a state machine, customer statuses.

A table is a map or a sequence in a class; a SQL statement, or a transaction that locks what it
reads, is one step. Methods follow the code and are proved against specification functions;
theorems about those functions, mostly over all runs, are lemmas. Failures of calls, statements
and commits are inputs: every theorem holds for every choice of them. Lemmas named `...Exactly` tie
the functions that methods and theorems share to conditions written out in literal names, numbers
and fields.

## Where the code does less than one might expect

- A row that is POSTed with a past date while a cleanup is between its aggregate and its delete
  statement is lost (`TrafficLedger.LateRowIsLost`); rows dated at or after the cutoff never are
  (`TrafficLedger.OnTimeRunsLoseNothing`), and `TrafficLedger.LateExactly` gives the exact condition.
- A dry-run cleanup can predict too few deleted daily rows (`TrafficStore.DryRunUnderestimate`
  says by how many).
- The hash fast path does not see users without a UUID, so a successful pass reaches its target if
  and only if the hashes differed or those users were right already
  (`RuntimeSync.SuccessReachesTarget`). An account POSTed with a UUID of blanks is stored that way,
  and its user is never added to a node that has no managed user
  (`RuntimeStored.BlankUUIDIsNeverAdded`).
- A link's label comes back with its spaces turned into plus signs
  (`SubscriptionParse.LabelRecovered`).
- A link is printed, but the runtime user is absent, at the one instant at which an expiry equals
  the current time (`RuntimeTargets.LinksAgainstTargets`).
- VerifyPassword panics on a stored hash with no iterations or no digest, which PasswordHash never
  produces (`Passwords.VerifyPassword`).
- A failed import still returns the counters of the work that was rolled back
  (`LegacyImport.Store.ImportEntries`).

## Model

| member | source | states |
|---|---|---|
| `TrafficLedger.TrafficIsConserved` | internal/runtimesync/xray.go:100-145 | Over every run of traffic, queries, lost replies, look-ups and inserts of batches, POSTed usage, binding changes and cleanups: per account, node and direction, what there was plus what was generated is what is still in a counter, in flight, in a detail row or in a daily row, plus what was dropped, purged or deleted late. |
| `TrafficLedger.TablesConserve` | internal/store/maintenance.go:58-87 | For any selection of keys and any run, the two tables together gain exactly the rows inserted and lose exactly the daily rows purged by retention and the detail rows deleted without having been aggregated. |
| `TrafficLedger.UnrecordedOverRun` | internal/trafficsync/sync.go:125-145 | What leaves the counters and the flights over a run was inserted as detail rows or dropped: a lost reply, a failed or rejected insert, or an account that was not bound when that was looked up. |
| `TrafficLedger.OnTimeRunsLoseNothing` | internal/store/maintenance.go:58-78 | If every row committed between a cleanup's aggregate and delete statements is dated at or after its cutoff, no row is ever deleted without having been aggregated. |
| `TrafficLedger.LateExactly` | internal/store/maintenance.go:58-78 | A cleanup deletes rows it has not aggregated if and only if some row committed between its two statements is dated before its cutoff. |
| `TrafficLedger.LossesAreTheLateRows` | internal/store/maintenance.go:243-246 | No account loses a byte to the gap between the two statements if and only if every row deleted late is empty. |
| `TrafficLedger.LateRowIsLost` | internal/httpapi/server.go:1029-1060 | A POSTed row dated before the cutoff and committed between the aggregate and the delete statement vanishes from both tables. |
| `TrafficLedger.WindowTotalsAgree` | internal/store/traffic.go:86-150 | For every day-aligned window that retention has not reached, the total at any point of a run that loses nothing equals the total over the original, never aggregated rows; in particular a cleanup does not change it. |
| `TrafficLedger.OverlappingRead` | internal/store/traffic.go:87-100 | A total whose detail and daily statements are separated by any number of cleanups and inserts is the total at its first statement plus the window's bytes moved to the daily table in between. |
| `TrafficLedger.OverlappingReadNeverUndercounts` | internal/store/traffic.go:87-100 | So such a read never undercounts: the CHECK constraint on the rows present, which every insert respects, makes all that moved non-negative. |
| `TrafficLedger.BatchSum` | internal/store/traffic.go:26-83 | A batch puts into the table, for each account, exactly what its deltas hold if the account is bound to the node, and nothing otherwise. |
| `TrafficTables.OnlyTheLastCleanupMatters` | internal/store/maintenance.go:45-87 | Any sequence of cleanups at non-decreasing times, with the same retentions and no new rows, leaves both tables as the last cleanup alone would, mid-day cutoffs and existing daily rows included. |
| `TrafficTables.CleanupTwice` | internal/store/maintenance.go:206-256 | Cleaning up at an earlier and then at a later pair of cutoffs is cleaning up at the later one. |
| `TrafficTables.SumDailyUpsert` | internal/store/maintenance.go:206-241 | Upserting rows adds to every sum over the daily table exactly the rows' sum for the same keys. |
| `TrafficTables.GroupSums` | internal/store/maintenance.go:206-241 | After the upsert each daily row holds what it held plus the sum of its group, and nothing else appears. |
| `TrafficStore.QueryFiltersAreDayAligned` | internal/httpapi/server.go:1092-1119 | The HTTP filter is refused exactly when `until` lies before `since`; otherwise it names the customer and the account asked for, and the instants at which the first day begins and the last day ends. |
| `TrafficStore.AlignedWindowsAgree` | internal/store/traffic.go:108-150 | In a day-aligned window an instant is counted exactly when its day is. |
| `TrafficStore.DryRunUnderestimate` | internal/store/maintenance.go:102-204 | A real run counts what the dry run predicts, except that it deletes as many more daily rows as it upserts groups that are new and already too old. |
| `TrafficStore.CleanupDeletes` | internal/store/maintenance.go:45-87 | What a run at a given time deletes, each table by its own retention: exactly the detail, audit and domain-access rows dated before that time less their retention, the daily rows of days before that of the time less theirs, and the refresh tokens whose expiry or revocation is before the time less theirs. |
| `TrafficStore.PredictedExactly` | internal/store/maintenance.go:102-204 | A dry run counts exactly these rows, and the days and keys that would be upserted. |
| `TrafficStore.BatchRows` | internal/store/traffic.go:62-79 | Every row of a batch belongs to its node, carries its instant, comes from a delta and names a bound account. |
| `TrafficStore.BatchExactly` | internal/store/traffic.go:26-79 | A batch has one row for each delta with a bound account and some bytes, and no empty row. |
| `TrafficStore.CleanupKeepsConstraints` | internal/store/maintenance.go:206-256 | The aggregate and delete statements keep the foreign keys and the CHECK constraints of both tables. |
| `TrafficStore.Store.RecordTrafficUsage` | internal/store/store.go:708-723 | A POSTed row is inserted, dated by its caller or else now, or nothing is and the error tells a foreign key from any other failure. |
| `TrafficStore.Store.RecordTrafficUsageBatch` | internal/store/traffic.go:18-84 | Either all rows for the bound, non-empty deltas are inserted and counted, or none is; an empty batch succeeds without touching the database. |
| `TrafficStore.Store.TrafficUsageDetailTotal` | internal/store/traffic.go:108-128 | Upload and download bytes of exactly the detail rows whose account exists, is the one asked for and belongs to the customer asked for, and whose instant lies in the window. |
| `TrafficStore.Store.TrafficUsageDailyTotal` | internal/store/traffic.go:130-150 | The same of the daily rows, by the days of the two instants, whatever the order they are visited in. |
| `TrafficStore.Store.TrafficUsageTotal` | internal/store/traffic.go:86-106 | The two sums together. |
| `TrafficStore.DetailTotalExactly` | internal/store/traffic.go:108-128 | The window that the theorems use selects exactly these detail rows. |
| `TrafficStore.DailyTotalExactly` | internal/store/traffic.go:130-150 | And exactly these daily rows. |
| `TrafficStore.OnlyTheCustomersRows` | internal/store/traffic.go:110-122 | Rows of other customers, or of other accounts than the one asked for, add nothing. |
| `TrafficStore.Store.CleanupTransaction` | internal/store/maintenance.go:57-99 | All statements take effect in order or, if one of them or the commit fails, none does; the counts returned are those of the rows they touched. |
| `TrafficStore.Store.MaintenanceCleanup` | internal/store/maintenance.go:35-140 | Refused if and only if some retention is not positive; a dry run changes nothing and counts the rows that each retention condemns; a real run deletes just these from each table, keeps every other row as often as it was, and is the cleanup at its own time, or it fails and changes nothing. |
| `XrayStats.EmailRoundTrip` | internal/domain/models.go:332-354 | The e-mail tag of an account names the account back, and only tags of that form name one. |
| `XrayStats.AttributedExactly` | internal/runtimesync/xray.go:201-220 | A counter is attributed to an account and a direction if and only if it has just the name the two are counted under, and the id does not contain the traffic marker. |
| `XrayStats.LiveIsNamed` | internal/runtimesync/xray.go:123-141 | So what all theorems count for an account is the sum of the positive values of the counters with its name. |
| `XrayStats.ManagedStatsAreQueried` | internal/runtimesync/xray.go:115-117 | Whatever a counter name can be attributed to an account, the query pattern selects it. |
| `XrayStats.Accumulate` | internal/runtimesync/xray.go:123-141 | After the loop the map holds an entry for exactly the ids that do not contain the traffic marker and for which some counter named `user>>>pcp-<id>@proxy-control-plane>>>traffic>>>uplink` or `downlink` is positive, and each entry is the sum of the positive values under these two names, upload from `uplink` and download from `downlink`. |
| `XrayStats.Fold` | internal/runtimesync/xray.go:123-152 | One delta for each account with traffic, none for the others, in any order. |
| `XrayStats.DeltasCarryEverything` | internal/runtimesync/xray.go:123-152 | The deltas hold exactly what the counters of the response held, account by account. |
| `XrayStats.QueryTakesEverything` | internal/runtimesync/xray.go:115-118 | A resetting query returns all that any account has in the counters and leaves none of it. |
| `XrayStats.QueriedExactly` | internal/runtimesync/xray.go:112-118 | A query returns each counter whose name contains `user>>>pcp-` as often as it is there and no other; a reset sets just these to zero and touches no name. |
| `TrafficCollect.Runtime.QueryTraffic` | internal/runtimesync/xray.go:100-145 | The counters are reset once the runtime is reached, whether or not the reply arrives. |
| `TrafficCollect.DeltasAddUp` | internal/trafficsync/sync.go:135-138 | The deltas of a query together hold the positive values of all counters that are named after some account and the direction. |
| `TrafficCollect.DeltasAreAccounts` | internal/runtimesync/xray.go:142-152 | There are as many deltas as accounts with bytes, and they are for just these accounts. |
| `TrafficCollect.CollectNode` | internal/trafficsync/sync.go:125-145 | A successful collection adds rows of this node and this instant only, which hold for each account bound to the node exactly the positive values of the counters with its name, upload and download told apart by the name; a failed one adds nothing, and it fails only if the reply, the look-up or the insert does; upload, download and user count are those of all counters with such names. |
| `Reconcile.ApplyReaches` | internal/runtimesync/sync.go:165-191 | The two loops never remove an absent key or add a present one; the calls that took effect are exactly the distance covered; without an error the target is reached. |
| `Reconcile.ApplyCounts` | internal/runtimesync/sync.go:165-191 | Without an error the removals are as many as the stale keys and the additions as many as the missing ones. |
| `Reconcile.ApplyViewed` | internal/runtimesync/sync.go:165-191 | The loops act on the keys the reconciler owns as if there were no others, and leave the others as they were. |
| `Reconcile.NoShorterDiff` | internal/runtimesync/sync.go:167-191 | No sequence of accepted removals and additions that reaches the target is shorter than the distance. |
| `Reconcile.OneCallAtMost` | internal/runtimesync/sync.go:167-191 | No accepted call covers more than one unit of distance. |
| `Reconcile.ZeroDistance` | internal/runtimesync/sync.go:167-191 | The distance is zero if and only if the tables agree. |
| `Reconcile.RemovalLoop` | internal/runtimesync/sync.go:167-177 | After the removal loop everything is gone but what already agrees with the target. |
| `Reconcile.AdditionLoop` | internal/runtimesync/sync.go:179-191 | After the addition loop every target user is there, equal to its target. |
| `RuntimeUsers.FastPathIsExact` | internal/runtimesync/sync.go:153-165 | If both loops would do nothing the hashes are equal; if the hashes are equal, both loops would do nothing if and only if the users without a UUID agree; so comparing hashes decides exactly whether there is something to do if and only if the hashes differ or those users agree. |
| `RuntimeUsers.HashesAgree` | internal/runtimesync/sync.go:254-277 | In general the hashes are equal if and only if the users that have a UUID agree: the sort is canonical, the NUL-separated text can be read back, and folding the UUID agrees with sameUser. |
| `RuntimeUsers.EmptyUUIDHidesADifference` | internal/runtimesync/sync.go:258-261 | The failing input: a target user without a UUID, against an empty runtime, has the same hash though the addition loop would add it. |
| `RuntimeUsers.TextDecidesList` | internal/runtimesync/sync.go:267-276 | Two sorted lists are written as the same text if and only if their e-mails, folded UUIDs and flows are the same. |
| `RuntimeUsers.SameIsAnEquivalence` | internal/runtimesync/sync.go:246-252 | sameUser is reflexive, symmetric and transitive. |
| `RuntimeUsers.SameUserExactly` | internal/runtimesync/sync.go:246-252 | Two users are the same if and only if their trimmed e-mails and flows are equal and their trimmed UUIDs are up to letter case. |
| `RuntimeUsers.LastWins` | internal/runtimesync/sync.go:221-231 | An e-mail is in the map if and only if it is not empty and some user has it up to white space, and it then has the trimmed UUID and flow of the last such user. |
| `RuntimeUsers.ManagedExactly` | internal/domain/models.go:336-354 | An e-mail is managed if and only if it is `pcp-<id>@proxy-control-plane` for some id that is not empty. |
| `RuntimeUsers.UsersByEmail` | internal/runtimesync/sync.go:221-231 | The map of normalised users by e-mail, the last of several winning, users without an e-mail left out. |
| `RuntimeUsers.HashInput` | internal/runtimesync/sync.go:254-277 | The text fed to the digest is that of a sort of the users that have an e-mail and a UUID. |
| `RuntimeUsers.SortByEmail` | internal/runtimesync/sync.go:263-265 | A sorted permutation of the users. |
| `RuntimeUsers.HashInputLists` | internal/runtimesync/sync.go:254-277 | For distinct e-mails the sorted list holds exactly the users of the map that have a UUID. |
| `Ordering.SortedMapKeys` | internal/runtimesync/sync.go:287-294 | The keys of a map, each once, in increasing order; there is only one such list. |
| `Ordering.IncreasingUnique` | internal/runtimesync/sync.go:287-294 | An increasing list of strings is determined by its elements. |
| `Ordering.LessExactly` | internal/runtimesync/sync.go:287-294 | One string comes before another if and only if, where they first differ, it ends or has the smaller byte. |
| `Ordering.JoinInjective` | internal/runtimesync/sync.go:267-275 | NUL-free fields can be read back from their NUL-separated text. |
| `RuntimeSync.PassCoversDistance` | internal/runtimesync/sync.go:136-197 | Whatever fails, a pass leaves unmanaged users alone and each call that takes effect brings the managed users exactly one call closer to the target. |
| `RuntimeSync.DiffAchieves` | internal/runtimesync/sync.go:165-191 | The diff of a pass touches managed users only, never removes an absent one or adds a present one, and without an error ends in the target. |
| `RuntimeSync.SuccessReachesTarget` | internal/runtimesync/sync.go:136-197 | A pass that runs to its end leaves exactly the target, and then added plus removed is the distance, if and only if the hashes differed or the users without a UUID were as they should be; it reports Unchanged exactly when the hashes were equal. |
| `RuntimeSync.ReportsExactly` | internal/runtimesync/sync.go:165-197 | A pass that runs to its end past unequal hashes reports as removed the number of managed users that the target does not list as they are, and as added the number of listed users that were not there so. |
| `RuntimeSync.NextPassIsUnchanged` | internal/runtimesync/sync.go:153-163 | After a pass that ran to its end, the next one for the same target makes no call and reports Unchanged. |
| `RuntimeSync.ConvergesAfterFailures` | internal/runtimesync/sync.go:67-83 | After any run of passes, for any targets and with any failures, unmanaged users are as they were; one successful pass reaches its target if and only if the hashes differed or the users without a UUID were as they should be; the pass after it is unchanged. |
| `RuntimeSync.HiddenDifferenceStays` | internal/runtimesync/sync.go:158-163 | Where that condition fails, no run of passes for the same target, failing or not, ever changes a user. |
| `RuntimeSync.ConvergesWithUUIDs` | internal/runtimesync/sync.go:67-83 | If all managed users and all targets so far have UUIDs, one successful pass after any failures always reaches its target. |
| `RuntimeSync.StatusTellsOutcome` | internal/store/runtime_sync.go:59-85 | The row records the time of a success with an empty error, or keeps the time and records the trimmed message, cut to 1000 bytes. |
| `RuntimeNode.SyncNode` | internal/runtimesync/sync.go:136-197 | For any target users, the method is the specified pass, with its counters, its error and the status it records; with an injective digest the fast path is taken exactly when no user with a UUID differs. |
| `RuntimeNode.Runtime.ListUsers` | internal/runtimesync/xray.go:25-53 | Every user with an e-mail is listed as it is. |
| `RuntimeNode.Runtime.RemoveUser` | internal/runtimesync/xray.go:81-98 | Fails on an absent user; a failing call may or may not have taken effect. |
| `RuntimeNode.Runtime.AddUser` | internal/runtimesync/xray.go:55-79 | Fails on a present user; a failing call may or may not have taken effect. |
| `RuntimeNode.NodeStore.MarkProxyNodeRuntimeSync` | internal/store/runtime_sync.go:59-85 | Records the truncated error, and the time only when there is no error. |
| `RuntimeNode.ManagedUsers` | internal/runtimesync/sync.go:208-219 | Keeps exactly the users whose e-mail names an account, normalised. |
| `RuntimeNode.ListingShowsManaged` | internal/runtimesync/sync.go:208-231 | The managed part of any listing, indexed by e-mail, is the managed part of the runtime. |
| `RuntimeNode.MapUsers` | internal/runtimesync/sync.go:233-239 | Each entry of the map once, in any order. |
| `RuntimeNode.RemoveStale` | internal/runtimesync/sync.go:167-177 | The removal loop leaves the runtime, the count and the error that the specification gives. |
| `RuntimeNode.AddMissing` | internal/runtimesync/sync.go:179-191 | The same for the addition loop. |
| `RuntimeNode.DigestsDecide` | internal/runtimesync/sync.go:153-156 | The two digests of a pass are equal exactly when no user with a UUID differs. |
| `RuntimeStored.TargetsQualify` | internal/store/runtime_sync.go:20-57 | The target query over stored accounts gives reconciliation what it asks for: e-mails that name accounts, trimmed fields, one user for each e-mail, and no NUL. |
| `RuntimeStored.TargetsHaveUUIDs` | internal/store/runtime_sync.go:44-55 | Every target has a UUID if and only if no account whose stored UUID is blank is a target. |
| `RuntimeStored.StoredBlankExactly` | internal/store/store.go:526-531 | A created account is stored with a blank UUID if and only if the POSTed one is white space and not empty. |
| `RuntimeStored.BlankUUIDIsNeverAdded` | internal/store/runtime_sync.go:48-55 | Such an account is a target of its node, yet every pass reports Unchanged and no run of passes adds its user. |
| `RuntimeParallel.AtMostLimit` | internal/runtimesync/sync.go:95-119 | In every interleaving at most `Concurrency` nodes are past the semaphore. |
| `RuntimeParallel.ParallelIsSequential` | internal/runtimesync/sync.go:85-134 | In every interleaving a node whose goroutine has finished is exactly as a pass alone leaves it; one whose goroutine never got the semaphore is untouched. |
| `RuntimeParallel.CallsMakeAPass` | internal/runtimesync/sync.go:136-197 | Call by call, a goroutine does exactly one pass. |
| `RuntimeParallel.NeverStuck` | internal/runtimesync/sync.go:105-119 | In every reachable state in which a node is neither finished nor cancelled, some goroutine can take the semaphore, make its next call or give the semaphore back, and doing so lowers a bound on the steps that are left. |
| `RuntimeParallel.RunsEnd` | internal/runtimesync/sync.go:95-134 | However the goroutines are scheduled, the number of steps that do anything is bounded at the start. |
| `RuntimeParallel.EveryRunCanFinish` | internal/runtimesync/sync.go:95-134 | Without cancellation every run can be extended, without cancelling, to one in which all nodes are finished, each exactly as a pass alone leaves it. |
| `RuntimeTargets.LinksAgainstTargets` | internal/store/runtime_sync.go:33-42 | Over stored data, an enabled vless node of an account gets a link if the target query for the node lists the account; a link without a listed user means that an expiry is exactly now; and there is a link exactly if the account was listed one clock tick before. |
| `RuntimeTargets.TargetsAreLinked` | internal/store/runtime_sync.go:33-55 | Every user listed for an enabled vless node is that of an account for which Build prints the link to this node. |
| `RuntimeTargets.LinksAreOffered` | internal/subscription/subscription.go:18-30 | Links go only to enabled vless nodes of the customer's own accounts. |
| `RuntimeTargets.LinkedExactly` | internal/subscription/subscription.go:12-30 | Which pairs get a link: the customer is active and not expired, the account is the customer's, vless, enabled and not expired, and the node is one of its own, vless and enabled. |
| `RuntimeTargets.ListRuntimeTargetUsers` | internal/store/runtime_sync.go:20-57 | The loop yields the specified list, about which `RuntimeTargets.ListedExactly` says who is on it. |
| `RuntimeTargets.ListedExactly` | internal/store/runtime_sync.go:33-55 | A user with an account's e-mail is listed for a node if and only if the account is bound to that node, speaks vless and is enabled, its customer's status is `active`, and neither of the two expires at or before now; the user listed has the account's trimmed UUID and flow. |
| `RuntimeTargets.PairMembers` | internal/subscription/subscription.go:18-30 | A pair gets a link exactly when its account and its node pass the two filters. |
| `Domain.StoredStatusReadsTheSame` | internal/domain/models.go:16-30 | A stored status is `active` exactly when a caller that normalises it first finds it active. |
| `AuthTokens.OneLiveTokenPerLogin` | internal/store/store.go:242-309 | In every sequence of the store's own inserts, rotations, revocations and cleanups, each family of rotations has at most one row that can be refreshed, and a row is enabled exactly while revoked_at is null. |
| `AuthTokens.WrittenOnce` | internal/store/store.go:311-357 | Once revoked, a row never changes again until it is deleted, and it never comes back. |
| `AuthTokens.RotatedOnce` | internal/store/store.go:242-253 | After a successful rotation no rotation of the same token succeeds. |
| `AuthTokens.NoLinkCycle` | internal/store/store.go:281-298 | Following replaced_by_id never leads back to the start. |
| `AuthTokens.CleanupSparesRefreshable` | internal/store/maintenance.go:263-266 | A cleanup deletes exactly the rows that expired or were revoked before its cutoff, and none that a refresh at its time or later would accept. |
| `AuthTokens.StatementKeeps` | internal/store/store.go:206-357 | Each statement of the store keeps ids, families, hashes, enabled flags and forward links as they must be. |
| `AuthTokens.CreatedExactly` | internal/store/store.go:206-231 | When a row can be made: it has a subject, a version, a hash and an expiry, is a customer's with that customer on record or an administrator's without one, and neither its id nor its hash is taken; and the row that is made. |
| `AuthTokens.ExchangedExactly` | internal/store/store.go:242-309 | When a row can be exchanged for another, what the successor takes over from it, and the two rows that change. |
| `AuthTokens.Store.CreateAuthRefreshToken` | internal/store/store.go:206-231 | Inserts a well-made row, enabled, or returns the error and changes nothing. |
| `AuthTokens.Store.GetAuthRefreshTokenByHash` | internal/store/store.go:233-240 | The row with the hash, or NotFound exactly when there is none. |
| `AuthTokens.Store.RotateAuthRefreshToken` | internal/store/store.go:242-309 | Revokes the current row and inserts its successor together, or changes nothing; refuses a row that is disabled or revoked. |
| `AuthTokens.Store.RevokeAuthRefreshTokenByHash` | internal/store/store.go:311-333 | Revokes the row with the hash unless it is revoked already; an unknown hash is no error. |
| `AuthTokens.Store.RevokeAuthRefreshTokens` | internal/store/store.go:343-357 | Afterwards no row of the customer, or of the administrators, is live; every other row is as it was; the count is the number of rows that changed. |
| `AuthTokens.RevocationEndsSessions` | internal/store/store.go:311-357 | What a revocation means: no row it names can be rotated afterwards, rows it does not name or that were revoked before stay as they were, a row changes only in the marks of its end, and a second revocation changes nothing. |
| `AuthTokens.RevokedExactly` | internal/store/store.go:311-357 | The rows that each of the three revocations changes: the unrevoked ones with the hash, those of customers' sessions of that customer, those of administrators; each becomes disabled, used and revoked at that time, and no other row changes. |
| `AuthTokens.Store.RevokeCustomerAuthRefreshTokens` | internal/store/store.go:335-337 | Exactly the unrevoked rows of this customer's sessions become disabled, used and revoked; the count is the number of rows that changed. |
| `AuthTokens.Store.RevokeAdminAuthRefreshTokens` | internal/store/store.go:339-341 | The same of exactly the unrevoked rows of administrators. |
| `AuthHandlers.HandlersRunStatements` | internal/httpapi/server.go:175-304 | In every interleaving of logins, refreshes, log-outs, revocations, customer updates and cleanups the token table is what the store's statements, one after the other, make of it. |
| `AuthHandlers.OneLiveTokenInEveryInterleaving` | internal/httpapi/server.go:203-304 | So in every interleaving each login's family of rotations has at most one row that can be refreshed, and a row is enabled exactly while it is unrevoked. |
| `AuthHandlers.RevokedStaysInEveryInterleaving` | internal/store/store.go:311-357 | In every interleaving a row, once revoked, is never changed again. |
| `AuthHandlers.ExchangedOnce` | internal/httpapi/server.go:203-262 | However refreshes overlap, once one has rotated a row no refresh in flight then or later rotates it again. |
| `AuthAccess.CustomerReadExactly` | internal/httpapi/server.go:340-364 | A refresh gets past its read of the customer if and only if the token's subject is its customer, that customer exists, is active, has not expired and has a password, and the mac of its id, e-mail, password hash and epoch is the token's version; otherwise it is over. |
| `AuthAccess.AdminReadExactly` | internal/httpapi/server.go:328-340 | An administrator's refresh gets past it if and only if subject and version are the configured ones. |
| `AuthAccess.LoginReadExactly` | internal/httpapi/server.go:175-201 | A login goes on if and only if the customer exists, is active, has not expired and has a password, and the password given is right; it goes on with the customer's version. |
| `AuthAccess.TokenReadExactly` | internal/httpapi/server.go:328-334 | A refresh begins if and only if its row is there, enabled, unrevoked and not expired. |
| `AuthAccess.RotationsWereAllowed` | internal/httpapi/server.go:203-262 | Every rotation of a customer's token, in every interleaving, goes back to a read of the row, live and not expired, and after that a read of its customer at which all these conditions held. |
| `AuthSessions.EpochSafety` | internal/httpapi/server.go:328-364 | Once an update that bumps a customer's epoch is saved, then in every continuation no earlier version is the customer's version, and no refresh that reads the customer gets past that read with a token of an earlier version. |
| `AuthSessions.EverythingBeforeIsKnown` | internal/httpapi/server.go:203-262 | Every row of the customer, and every row a login or refresh in flight may still make, is of such a version. |
| `AuthSessions.NewRowsCarryTheVersionRead` | internal/httpapi/server.go:280-304 | A login or a refresh makes a row with the version it had read from the customer. |
| `AuthSessions.LoginMakesExactly` | internal/httpapi/server.go:280-304 | When a customer's login makes its row, and every field of the row. |
| `AuthSessions.RefreshMakesExactly` | internal/httpapi/server.go:226-262 | When a customer's refresh exchanges its row, and the two rows that change: the one it read is revoked and names its successor, which is for the same customer with the version read. |
| `AuthSessions.VersionsNeverRecur` | internal/httpapi/server.go:377-383 | A version a customer had, and has no longer, it never has again. |
| `AuthSessions.EveryReachableStateIsSound` | internal/httpapi/server.go:175-262 | In every reachable state each version in a row or in flight is one its customer has or had, and each update in flight has read the row as it is. |
| `AuthSessions.StepSound` | internal/httpapi/server.go:436-488 | Every read and write of the handlers keeps that. |
| `AuthSessions.BumpRetiresAll` | internal/httpapi/server.go:466-476 | A save with a new epoch makes every version the customer had an old one. |
| `AuthSessions.PatchSetsItsFields` | internal/httpapi/server.go:436-488 | A PATCH sets exactly the fields it carries, and gives a new epoch if and only if it carries an e-mail, a password, a status, an expiry or a reset; so any change but one of the display name comes with one. |
| `AuthSessions.AuthSessionVersion` | internal/security/security.go:56-63 | The mac of the parts, each after a NUL. |
| `AuthSessions.SessionVersionsInjective` | internal/security/security.go:56-63 | With an injective mac two versions are equal only if all their parts are. |
| `AuthSessions.VersionNames` | internal/httpapi/server.go:377-383 | Two customers have the same version if and only if they agree on id, e-mail, password hash and epoch. |
| `AuthSessions.ServerRulesQualify` | internal/httpapi/server.go:377-383 | With an injective mac the server's own rules meet what epoch safety asks of them. |
| `SubscriptionParse.SubscriptionRoundTrip` | internal/subscription/subscription.go:12-35 | Build's plain text and its base64 text parse to the same list, one link for each eligible pair in Build's order, nothing unsupported; base64 text never looks like plain text. |
| `SubscriptionParse.LinkRoundTrip` | internal/subscription/parse.go:111-154 | A printed link parses back to its UUID, host, port, flow and every query field. |
| `SubscriptionParse.ExpectedExactly` | internal/subscription/parse.go:137-153 | What a printed link comes back as, field by field in the node's own values. |
| `SubscriptionParse.LabelRecovered` | internal/subscription/subscription.go:60-61 | The label is recovered if and only if it has no space. |
| `SubscriptionParse.EveryEncodingReads` | internal/subscription/parse.go:80-109 | Text in any of the four base64 encodings, spaced and broken into lines in whatever way, reads as the text it encodes, whichever decoder comes first to accept it. |
| `SubscriptionParse.ReadExactly` | internal/subscription/parse.go:55-77 | A text is refused if and only if some line starts like a vless link and does not parse; otherwise the links are those of all such lines in order, and the count of unsupported URIs is that of all lines that start with another scheme. |
| `SubscriptionParse.LinesExactly` | internal/subscription/parse.go:55-57 | Line breaks of either kind separate lines, empty ones are dropped, and all else is kept. |
| `SubscriptionParse.ParseLinkExactly` | internal/subscription/parse.go:111-154 | A text is a link if and only if it is a URL with scheme vless up to case, a user, a host, and no port or one from 1 to 65535; a missing port is 443. |
| `SubscriptionParse.ParseEncoded` | internal/subscription/parse.go:48-53 | The base64 branch is always taken for base64 text and yields the plain text. |
| `SubscriptionParse.ParseJoined` | internal/subscription/parse.go:55-76 | Joined lines that parse give their links, in order. |
| `SubscriptionParse.ParseLinks` | internal/subscription/parse.go:42-78 | The method is the specified reader: blank input, plain or decoded text, line by line, the first bad link ending it with an error. |
| `SubscriptionParse.DecodeSubscriptionBase64` | internal/subscription/parse.go:80-109 | The first of the four encodings whose text mentions a link. |
| `SubscriptionParse.ParseAll` | internal/subscription/parse.go:58-77 | The loop collects links, counts other URIs and skips noise. |
| `SubscriptionParse.QueryRead` | internal/subscription/parse.go:136-153 | Every field of the query comes back as it was set. |
| `Subscription.Build` | internal/subscription/subscription.go:12-35 | The joined links of the specified pairs, plain or in base64; the pairs are those of `Subscription.PairsExactly`, and none for a customer who is not active. |
| `Subscription.PairsExactly` | internal/subscription/subscription.go:18-30 | For an active customer: one pair for each enabled vless node of each of the customer's enabled, unexpired vless accounts, in the order of the accounts and, for each, of its nodes. |
| `Subscription.VlessURI` | internal/subscription/subscription.go:41-62 | Scheme, user, host, port, sorted parameters and escaped label. |
| `Subscription.PrintedExactly` | internal/subscription/subscription.go:41-62 | The whole link: the public host whenever there is one, the port, the parameters, and name and tag joined by a dash. |
| `Subscription.LinkParams` | internal/subscription/subscription.go:47-58 | Setting the parameters one after the other gives the specified map. |
| `Subscription.ParamsExactly` | internal/subscription/subscription.go:47-58 | The parameters under their literal keys: encryption, type and security always, the other eight if they are set, and nothing else. |
| `Decimal.FillIntString` | internal/subscription/subscription.go:77-90 | The buffer, filled from its end, holds the decimal text; numbers that are not positive give the default port. |
| `Decimal.IntStringRoundTrip` | internal/subscription/parse.go:126-133 | The printed port reads back as the port, or as 443. |
| `QueryParams.ParamsRoundTrip` | internal/subscription/subscription.go:47-58 | Printed parameters parse back for every map: each key to its value, every other key to nothing. |
| `QueryParams.Encode` | internal/subscription/subscription.go:61-61 | The parameters in the order of their keys, escaped and joined. |
| `Percent.QueryRoundTrip` | internal/subscription/subscription.go:60-61 | What QueryEscape prints, QueryUnescape reads back, for every byte string. |
| `Percent.FragmentRoundTrip` | internal/subscription/parse.go:140-140 | Read as a fragment, an escaped text comes back if and only if it has no space. |
| `Base64.EncodeRoundTrip` | internal/subscription/parse.go:94-99 | What any of the four encodings the parser tries prints, for any byte string, that encoding reads back; Build prints with the first. |
| `Base64.DecodersAgree` | internal/subscription/parse.go:94-108 | Whatever two of the four encodings both accept, they read as the same text. |
| `GoURL.ParsePrinted` | internal/subscription/parse.go:112-126 | A link printed as scheme, authority, query and label parses into just those. |
| `NodeMatch.SelfImport` | internal/store/legacy_import.go:358-408 | Parsing and matching a link the system printed: the node it was printed for reaches the highest possible score, and the node found is the first in the list with its port, host, transport and security, up to letter case, and with its path, host header, Reality key and short id wherever these are set. |
| `NodeMatch.SelfImportFinds` | internal/store/legacy_import.go:358-408 | There is always a node to be found. |
| `NodeMatch.FullScoreMeansAgreement` | internal/store/legacy_import.go:372-402 | A candidate has the highest possible score if and only if it agrees with the link throughout. |
| `NodeMatch.CandidateExactly` | internal/store/legacy_import.go:361-396 | When a node can be found: it speaks vless, its public host or host name is the trimmed host of the link up to case, its port is the link's if that is positive, and transport, security, path and Reality key agree wherever the link carries them. |
| `NodeMatch.NoneFoundExactly` | internal/store/legacy_import.go:358-408 | None is found if and only if no node meets these conditions. |
| `NodeMatch.ScoresDiffer` | internal/store/legacy_import.go:372-402 | Of two candidates the one that shares more of host header and short id with the link has the higher score, by just as much. |
| `NodeMatch.MatchLegacySubscriptionNode` | internal/store/legacy_import.go:358-408 | The first candidate with the highest score, or none exactly when there is no candidate; a node found meets each of the conditions on protocol, host, port, transport, security, path and Reality key. |
| `NodeMatch.ScoreNode` | internal/store/legacy_import.go:361-402 | The points of one node, or -1 where the loop skips it. |
| `NodeMatch.NodeRecord.SetNodeDefaults` | internal/store/store.go:765-804 | What every field becomes; a field that is set stays; protocol, port, transport and security are never empty afterwards. |
| `NodeMatch.NodeRecord.InferNodeRuntime` | internal/store/store.go:806-814 | The runtime is Xray exactly for WebSocket, the default path, or any sign of Reality. |
| `LegacyImport.ImportTwice` | internal/store/legacy_import.go:134-231 | After a successful import the same input imports again without an error, changes nothing and reports no customer, token, account or binding created. |
| `LegacyImport.CountsAddUp` | internal/store/legacy_import.go:156-228 | On success created, existing and skipped add up to the length of the input. |
| `LegacyOutcome.CountsExactly` | internal/store/legacy_import.go:134-231 | The counters of a successful import: created is the number of accounts added and bindings the number of bindings added, customers and tokens likewise, skipped the entries without a UUID or with a key seen before, unmatched those gone over without a node. |
| `LegacyOutcome.TablesExactly` | internal/store/legacy_import.go:134-231 | What the tables hold afterwards: what they held, the customer, and for the entries gone over accounts with their UUID, tag and flow and bindings to their nodes. |
| `LegacyOutcome.FailsExactly` | internal/store/legacy_import.go:263-309 | When an entry ends the import: its look-up fails, its account is another customer's or has another flow, or an insert that it needs fails. |
| `LegacyOutcome.LinkEntryExactly` | internal/store/legacy_import.go:171-221 | What an entry takes from a link: its fields without surrounding white space, the default tag if it has none, and the node that the trimmed link means. |
| `LegacyOutcome.AccountEntryExactly` | internal/store/legacy_import.go:89-112 | And from an account: the same, bound to the node given, with the UUID itself telling duplicates apart. |
| `LegacyImport.Store.ImportEntries` | internal/store/legacy_import.go:79-131 | A failed import leaves the tables as they were, though the counters so far are returned; a successful one commits the transaction's view. |
| `LegacyImport.ImportLegacySubscriptionFile` | internal/store/legacy_import.go:134-231 | Refuses an empty e-mail; otherwise runs the transaction over the trimmed, matched and keyed links. |
| `LegacyImport.ImportLegacyProxyAccounts` | internal/store/legacy_import.go:70-132 | The same for accounts bound to one node; an unknown node, or a look-up that fails, ends the import and leaves the tables as they were. |
| `LegacyImport.PrepareLink` | internal/store/legacy_import.go:171-221 | Trimming, the duplicate key, the default tag and the matched node of one link. |
| `LegacyImport.DuplicatesAgree` | internal/store/legacy_import.go:346-356 | Two links whose fields hold no bar have the same duplicate key if and only if they agree on UUID, host, port, transport, security and path, three of these up to letter case. |
| `LegacyImport.AdvanceSettles` | internal/store/legacy_import.go:200-226 | A successful iteration leaves the account with the customer and the flow, and the binding, in place. |
| `LegacyImport.RunGrows` | internal/store/legacy_import.go:263-309 | An import only ever adds: accounts keep their values and bindings stay. |
| `PBKDF2.Pbkdf2Key` | internal/security/security.go:268-295 | The derived key of section 5.2 of RFC 8018 for every PRF, iteration count and key length, of exactly the length asked for; panics exactly when one of the two numbers is not positive. |
| `PBKDF2.KeyOctet` | internal/security/security.go:274-294 | Octet k of the key is octet k modulo the PRF's size of the block whose number is one more than the quotient. |
| `PBKDF2.FirstIterations` | internal/security/security.go:277-292 | A block begins with the PRF of the salt followed by the four octets of its index, most significant first; a second iteration adds the PRF of that by XOR. |
| `PBKDF2.Block` | internal/security/security.go:277-292 | The in-place XOR loops compute the block function F. |
| `PBKDF2.XorInto` | internal/security/security.go:287-289 | XOR of one buffer into another, in place. |
| `PBKDF2.XorByteExactly` | internal/security/security.go:287-289 | The XOR of two octets has just the bits that are set in one of them and not in both. |
| `PBKDF2.ShorterIsPrefix` | internal/security/security.go:294-294 | A shorter key is a prefix of a longer one. |
| `PBKDF2.BlocksSuffice` | internal/security/security.go:274-274 | The number of blocks is the least that covers the key. |
| `PBKDF2.INTNamesBlock` | internal/security/security.go:280-281 | The four octets written name the block as long as its index fits in them. |
| `Passwords.HashVerifies` | internal/security/security.go:158-186 | VerifyPassword accepts what PasswordHash produced, and another password exactly when it derives the same key. |
| `Passwords.CheckExactly` | internal/security/security.go:167-186 | What a stored value accepts: without the scheme's prefix exactly itself, malformed nothing, otherwise exactly the passwords with the derived key it holds; and when it panics. |
| `Passwords.VerifyPassword` | internal/security/security.go:167-186 | The specified verdict; a value without the prefix accepts exactly itself; a panic exactly for values without iterations or digest. |
| `Passwords.PasswordHash` | internal/security/security.go:158-165 | The stored text of scheme, iterations, salt and digest. |
| `Passwords.StoredParses` | internal/security/security.go:172-183 | The stored text is taken apart into its own iterations, salt and digest. |
| `Migrations.CommittedAtMostOnce` | internal/store/migrations.go:48-98 | With any number of runners interleaving and stopping anywhere, each version is committed at most once, and each run's results are a prefix of its list, all on record. |
| `Migrations.MismatchStops` | internal/store/migrations.go:80-85 | A differing checksum stops the run before any later file, and a stopped run commits nothing. |
| `Migrations.NothingAfterComplete` | internal/store/migrations.go:63-95 | A run after a complete one commits nothing and reports nothing as applied, whatever other runners do. |
| `Migrations.AloneExactly` | internal/store/migrations.go:48-98 | A run that nobody disturbs goes through all files if and only if each is readable, not blank, and either on record with its checksum or new and working; then all are on record and just the new ones are committed, in order; otherwise it stops at the first that is not, with the files before it as results. |
| `Migrations.UndisturbedCompletes` | internal/store/migrations.go:48-98 | Over files that are not blank, have distinct versions and do not contradict the record, and whose statements work, an undisturbed run ends complete with every file on record and just the new ones committed and reported as applied. |
| `Migrations.EventKeeps` | internal/store/migrations.go:162-184 | Every step of every runner keeps the log and the results as they must be. |
| `Migrations.LoadSQLMigrations` | internal/store/migrations.go:100-125 | Exactly the entries that are no directories and whose names end in `.sql` after at least one character, in the order of their names, each with its name less the ending as version and its content. |
| `Migrations.Database.ApplySQLMigration` | internal/store/migrations.go:162-184 | The statements and their record commit together or not at all, and not if the version is on record. |
| `Migrations.Database.ApplySQLMigrations` | internal/store/migrations.go:48-98 | The loop is the undisturbed run of the specification: results are a prefix, all on record; over files already on record it changes nothing. |

## Left out

Assumptions about the world:

- The database session's time zone is UTC, so a date cast is a division by the length of a day.
- Each statement sees one committed snapshot. Cleanups do not overlap each other, and two PATCHes of one customer do not overlap between their read and their save.
- Bytes are mathematical integers: int64 overflow of counters and sums is not modelled.
- SHA-256 and HMAC are arbitrary injective functions, the PBKDF2 pseudorandom function an arbitrary function, and random ids, tokens and epochs are fresh.
- Text columns and the fields of runtime users hold no NUL; primary keys are distinct and hold no white space.
- Only this program changes the managed users of a runtime, one pass at a time per node; Xray's folding of e-mails to lower case does not matter because account ids are lower case.
- The collector runs with counter reset on, as the service starts it (internal/cli/service.go:334); without it the same bytes would be recorded again by every collection. `TrafficCollect.CollectNode` covers both settings.
- Strings are byte strings; white space and letter case are the ASCII ones.

Parts of the repository that are not modelled:

- HTTP routing, JSON decoding, audit logging, log redaction, JWTs, encrypted strings, GORM, PostgreSQL and gRPC internals.
- Float conversions between bytes and gigabytes, CLI commands, configuration, retention strings, domain-access summaries.
- Deletion of accounts, nodes and customers with their cascades; traffic ledger and session runs are over histories without it.
- Which nodes syncAll starts a goroutine for (those with a complete runtime API configuration), timeouts, and the periodic ticker.
- Display names, token names and plain token values of imports; the user agent and address columns of refresh tokens.
- The runtime account id that RuntimeUser carries: it is never read.

Members stated for less than the code accepts:

- GoURL.Parse: a bracketed IPv6 host is treated as an error; the code accepts it. Links printed from host names are not affected.
- SubscriptionParse.LinkRoundTrip: stated for stored data, that is UUIDs of letters, digits and dashes, hosts of letters, digits, dots and dashes, ports up to 65535, and fields without surrounding white space.
- PBKDF2.Pbkdf2Key: beyond 2^32 - 1 blocks, which RFC 8018 excludes, the block index wraps around in the code and in the specification alike.
- AuthTokens.Store.RevokeAuthRefreshTokenByHash: requires the token hashes to be distinct, which the unique index enforces and `AuthTokens.StatementKeeps` proves of every history.
