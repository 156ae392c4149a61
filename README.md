# Schema migrations of the RethinkDNS app database

The app keeps its state in one SQLite database opened through Room. `AppDatabase` declares
schema version 12 and registers eleven migrations, `MIGRATION_1_2` to `MIGRATION_11_12`. Each
one is a list of `execSQL` statements. Step 11 -> 12 also calls seven helpers:
`removeRethinkFromDohList`, `addMoreDohToList`, `modifyAppInfoTableSchema`,
`modifyBlockedConnectionsTable`, `addNetworkDns`, `modifyConnectionTrackerTable` and
`createRethinkDnsTable`.

This project models that chain in Dafny.

- **The store** (`Sql`) is an abstract relational engine. Each table has ordered columns,
  primary-key columns, a set of NOT NULL columns, and rows filed by their key. Tables and views
  share one name space. Each statement kind the migrations issue has the outcome SQLite gives
  it. A statement that fails leaves the store as it was. The failures modelled are a missing
  table, a taken name, a duplicate column, a column that a WHERE clause, SET list or SELECT
  list names but the table lacks, DROP TABLE on a view, a NOT NULL violation and a
  primary-key clash.
- **The statements** (`Migrations`) spell out every migration and helper in the order the
  source issues them.
- **The chain** (`Chain`) is the registry in registration order and the path from a stored
  version to version 12. `Chain.Scripts` are the registered statement lists as written;
  `Chain.CorrectedScripts` differ only in step 1 -> 2 (see Findings). The whole upgrade is one transaction: it reaches version 12 or
  leaves store and version untouched.
- **The in-place store** (`Stores.Store`) is a class with one method per statement kind. Its
  `Upgrade` method walks the path with loops and rolls back on failure. Each method is proved
  against the functional semantics above.
- **The step outcomes** (the other modules) state, for every step and helper, when it succeeds
  and what the store holds afterwards.

## Model

| member | source | states |
|---|---|---|
| Chain.FindStep | app/src/main/java/com/celzero/bravedns/database/AppDatabase.kt:41-46 | the step found starts at the version looked for and is registered; no result means no step from the search position on starts there |
| Chain.FindStepIsFirst | app/src/main/java/com/celzero/bravedns/database/AppDatabase.kt:41-46 | when several registered steps start at the version looked for, the one found is the earliest from the search position on |
| Chain.RegistryIsChain | app/src/main/java/com/celzero/bravedns/database/AppDatabase.kt:41-46 | the registry is the contiguous chain 1 -> 2 -> ... -> 12 with no start version registered twice, ending at the declared version |
| Chain.FindStepInChain | app/src/main/java/com/celzero/bravedns/database/AppDatabase.kt:41-46 | for every version 1..11 the step Room finds is the one registered for it |
| Chain.PathFromChain | app/src/main/java/com/celzero/bravedns/database/AppDatabase.kt:41-46 | from every version 1..12 the upgrade path is the tail of the registry from that version on |
| Chain.PathFromOutside | app/src/main/java/com/celzero/bravedns/database/AppDatabase.kt:26-46 | a stored version of 0 or above 12 has no path (no migration leads on from it) |
| Chain.PathIsContiguous | app/src/main/java/com/celzero/bravedns/database/AppDatabase.kt:41-46 | every path starts at the stored version, climbs one version per step through registered steps and ends at 12 |
| Chain.MigrateStep | app/src/main/java/com/celzero/bravedns/database/AppDatabase.kt:41-46 | upgrading from v runs step v -> v+1; if it fails the upgrade fails naming that step, otherwise the upgrade goes on from v+1 |
| Chain.UpgradeFromOneFails | app/src/main/java/com/celzero/bravedns/database/AppDatabase.kt:41-55 | with the registered lists, an upgrade from version 1 fails in step 1 -> 2 and leaves the store and its version 1 as they were |
| Chain.CorrectionOnlyAtOne | app/src/main/java/com/celzero/bravedns/database/AppDatabase.kt:41-46 | the corrected lists upgrade every store at version 2..12 exactly as the registered ones do |
| Chain.MigrateAtTarget | app/src/main/java/com/celzero/bravedns/database/AppDatabase.kt:28 | a store already at version 12 is left as it is |
| Chain.UpgradeAllOrNothing | app/src/main/java/com/celzero/bravedns/database/AppDatabase.kt:37-46 | an open either reaches version 12 from a version 1..12, or leaves the store and its version untouched and reports the failure |
| Chain.UpgradeFailureNamesStep | app/src/main/java/com/celzero/bravedns/database/AppDatabase.kt:41-46 | a failed upgrade names a registered step at or above the stored version |
| Chain.RunPathFails | app/src/main/java/com/celzero/bravedns/database/AppDatabase.kt:41-46 | a failing run of steps names one of the steps it ran |
| Stores.Store.constructor | app/src/main/java/com/celzero/bravedns/database/AppDatabase.kt:37-40 | a store opened on a database holds exactly its tables, views and version |
| Stores.Store.CreateTable | app/src/main/java/com/celzero/bravedns/database/AppDatabase.kt:63-66 | CREATE TABLE fails on a taken name, a repeated column or an unknown key column and then changes nothing; otherwise it adds an empty table |
| Stores.Store.DropTable | app/src/main/java/com/celzero/bravedns/database/AppDatabase.kt:62 | DROP TABLE [IF EXISTS] removes the table; a view of that name is an error even with IF EXISTS; a missing name is an error unless IF EXISTS; a failure changes nothing |
| Stores.Store.CreateView | app/src/main/java/com/celzero/bravedns/database/AppDatabase.kt:191 | CREATE VIEW fails on a taken name, otherwise adds the view |
| Stores.Store.DropView | app/src/main/java/com/celzero/bravedns/database/AppDatabase.kt:229 | DROP VIEW removes the view and fails when there is none |
| Stores.Store.AddColumn | app/src/main/java/com/celzero/bravedns/database/AppDatabase.kt:73-77 | ALTER TABLE ADD COLUMN gives every row the default, or fails without change on a missing table, an existing column or a NULL default for a NOT NULL column |
| Stores.Store.DeleteWhere | app/src/main/java/com/celzero/bravedns/database/AppDatabase.kt:50-51 | DELETE fails without change on a missing table or when the WHERE clause names a column the table lacks; otherwise it removes exactly the rows the WHERE clause holds for |
| Stores.Store.UpdateWhere | app/src/main/java/com/celzero/bravedns/database/AppDatabase.kt:79 | UPDATE fails without change on a missing table, when a SET target or a column the SET values or the WHERE clause read is missing, or on a NOT NULL or primary-key violation; otherwise it assigns the SET values in the rows the WHERE clause holds for |
| Stores.Store.Insert | app/src/main/java/com/celzero/bravedns/database/AppDatabase.kt:123-127 | INSERT adds the VALUES row under its key, failing without change on a NOT NULL violation or a taken key |
| Stores.Store.InsertOrReplace | app/src/main/java/com/celzero/bravedns/database/AppDatabase.kt:102-111 | INSERT OR REPLACE files the VALUES row under its key, replacing any row there |
| Stores.Store.CopyRows | app/src/main/java/com/celzero/bravedns/database/AppDatabase.kt:272-273 | INSERT ... SELECT fails without change on a missing table, a select list of the wrong length, a select list naming a column the source lacks, a NOT NULL violation or a key clash; otherwise it adds the projected row of every source row |
| Stores.Store.ExecSQL | app/src/main/java/com/celzero/bravedns/database/AppDatabase.kt:49-54 | one execSQL call changes the store as that statement's outcome says and reports it |
| Stores.Store.RunStatements | app/src/main/java/com/celzero/bravedns/database/AppDatabase.kt:48-55 | a migrate body runs its statements in order and stops at the first that fails; the result is the functional run of the list |
| Stores.Store.Upgrade | app/src/main/java/com/celzero/bravedns/database/AppDatabase.kt:37-46 | the in-place upgrade ends in exactly the outcome the functional upgrade gives: store, recorded version and failure |
| Sql.ExecAllAppend | app/src/main/java/com/celzero/bravedns/database/AppDatabase.kt:222-237 | running two statement lists one after the other is running their concatenation; a failure in the first skips the second |
| Sql.UpsertByKey | app/src/main/java/com/celzero/bravedns/database/AppDatabase.kt:102-111 | INSERT OR REPLACE of a row filling the NOT NULL columns always succeeds, files the row under its key, replacing any row there, and keeps every other row |
| Sql.InsertKeyedByFirst | app/src/main/java/com/celzero/bravedns/database/AppDatabase.kt:123-127 | a plain INSERT of a row without NULLs into a table keyed by its first column succeeds when that key is free and files the row under it |
| Sql.CopyIntoOk | app/src/main/java/com/celzero/bravedns/database/AppDatabase.kt:272-273 | INSERT ... SELECT whose select list reads only source columns and whose copied rows fill the NOT NULL columns under distinct keys not yet taken succeeds and adds exactly those rows |
| Sql.AddColumnSound | app/src/main/java/com/celzero/bravedns/database/AppDatabase.kt:73-77 | adding a fresh column to a sound table succeeds, appends the column, keeps key and rows, and keeps the table sound |
| Migrations.DohSeed | app/src/main/java/com/celzero/bravedns/database/AppDatabase.kt:102-111 | a DoH seed row has one value per DoHEndpoint column, its id first, and no NULL, so it fills every NOT NULL column |
| Migrations.ProxySeed | app/src/main/java/com/celzero/bravedns/database/AppDatabase.kt:122-127 | a DNS proxy seed row has one value per DNSProxyEndpoint column, its id first, and no NULL |
| CategoryReset.Migration1To2AlwaysFails | app/src/main/java/com/celzero/bravedns/database/AppDatabase.kt:48-55 | as written, step 1 -> 2 fails on every store |
| CategoryReset.Migration1To2CorrectedOutcome | app/src/main/java/com/celzero/bravedns/database/AppDatabase.kt:48-55 | the corrected step succeeds exactly when AppInfo exists and no view is named CategoryInfo; it empties AppInfo, leaves a fresh empty CategoryInfo and changes nothing else |
| StepOutcomes.Migration2To3Outcome | app/src/main/java/com/celzero/bravedns/database/AppDatabase.kt:58-67 | step 2 -> 3 succeeds exactly when AppInfo and CategoryInfo exist, no view is named ConnectionTracker and BlockedConnections is free; then both old tables are emptied, ConnectionTracker and BlockedConnections are new and empty, and nothing else changes |
| BlockRules.BlockedRuleColumns | app/src/main/java/com/celzero/bravedns/database/AppDatabase.kt:72-79 | step 3 -> 4 on BlockedConnections succeeds exactly when the table has the uid column its UPDATE reads; then it gives every blocked-connection rule isActive 1, modifiedDateTime 0 and ruleType RULE5 exactly when its uid is -1000 (else RULE4); the three columns are NOT NULL, other columns and keys are kept, the table stays sound |
| BlockRules.BlockedRow | app/src/main/java/com/celzero/bravedns/database/AppDatabase.kt:72-79 | one rule through the four statements ends with those three values and its other columns unchanged |
| BlockRules.BlockedRuleColumnsInStore | app/src/main/java/com/celzero/bravedns/database/AppDatabase.kt:72-79 | those statements change BlockedConnections alone |
| BlockRules.TrackerRuleColumn | app/src/main/java/com/celzero/bravedns/database/AppDatabase.kt:80-84 | step 3 -> 4 on the connection log succeeds exactly when the log has the uid and isBlocked columns its UPDATEs read; then it adds blockedByRule: RULE5 for blocked rows of uid -1000, RULE4 for other blocked rows, NULL for allowed rows; nothing else changes |
| BlockRules.RuleOfRow | app/src/main/java/com/celzero/bravedns/database/AppDatabase.kt:80-84 | one logged connection through the three statements ends with the rule BlockedByRule names |
| BlockRules.TrackerRuleColumnInStore | app/src/main/java/com/celzero/bravedns/database/AppDatabase.kt:80-84 | those statements change ConnectionTracker alone |
| DohCatalog.SeedsAreSeed | app/src/main/java/com/celzero/bravedns/database/AppDatabase.kt:102-111 | step 3 -> 4 upserts five complete endpoints with ids 1..5, of which only id 4 is selected |
| DohCatalog.DohSeedColumns | app/src/main/java/com/celzero/bravedns/database/AppDatabase.kt:102-111 | a seed row carries its id, name, URL, explanation and selection flag in the matching columns and is not custom |
| DohCatalog.UpsertDoh | app/src/main/java/com/celzero/bravedns/database/AppDatabase.kt:102-111 | an upsert into DoHEndpoint files the row under its id, replacing any row there |
| DohCatalog.SeedCatalog | app/src/main/java/com/celzero/bravedns/database/AppDatabase.kt:102-111 | the fresh DoH catalog ends with exactly the five endpoints under ids 1..5, and RethinkDNS Basic (id 4) is the only selected one |
| DohCatalog.SeedCatalogInStore | app/src/main/java/com/celzero/bravedns/database/AppDatabase.kt:102-111 | the seed statements change DoHEndpoint alone |
| DohCatalog.DeleteOldIds | app/src/main/java/com/celzero/bravedns/database/AppDatabase.kt:240-244 | removeRethinkFromDohList keeps every endpoint other than ids 4 and 5 where it was |
| DohCatalog.AddMoreAreSeeds | app/src/main/java/com/celzero/bravedns/database/AppDatabase.kt:247-254 | addMoreDohToList upserts four complete endpoints with ids 4..7 |
| DohCatalog.DohRefreshIsRefresh | app/src/main/java/com/celzero/bravedns/database/AppDatabase.kt:224-225 | the two helpers together are the delete of ids 4 and 5 followed by the four upserts |
| DohCatalog.RefreshCatalog | app/src/main/java/com/celzero/bravedns/database/AppDatabase.kt:240-254 | after the two helpers ids 4..7 hold exactly the four new endpoints, whatever was there before, and every other endpoint is kept |
| DohCatalog.RefreshCatalogInStore | app/src/main/java/com/celzero/bravedns/database/AppDatabase.kt:240-254 | the two helpers change DoHEndpoint alone |
| StepOutcomes.Step4To5Shape | app/src/main/java/com/celzero/bravedns/database/AppDatabase.kt:115-145 | step 4 -> 5 empties the DNS proxy list, inserts Google, Cloudflare and Quad9 under ids 1..3, and its other statements name other tables |
| StepOutcomes.Migration4To5Proxies | app/src/main/java/com/celzero/bravedns/database/AppDatabase.kt:115-127 | after a successful step 4 -> 5 the DNS proxy list holds exactly Google, Cloudflare and Quad9 under ids 1..3, whatever it held before |
| StepOutcomes.ProxyResetRun | app/src/main/java/com/celzero/bravedns/database/AppDatabase.kt:117-127 | a delete of the whole list followed by three inserts of resolvers 1..3 leaves exactly those three |
| StepOutcomes.RenumberAfterReset | app/src/main/java/com/celzero/bravedns/database/AppDatabase.kt:257-265 | on the list step 4 -> 5 leaves, addNetworkDns succeeds: the three resolvers move to ids 2..4 with their ids rewritten and the network resolver takes id 1 |
| StepOutcomes.SeededSound | app/src/main/java/com/celzero/bravedns/database/AppDatabase.kt:123-127 | the three seeded resolvers sit under their ids and fill every NOT NULL column |
| StepOutcomes.Step5To6Shape | app/src/main/java/com/celzero/bravedns/database/AppDatabase.kt:148-171 | step 5 -> 6 creates DNSLogs, adds two NOT NULL counters with default 0 to CategoryInfo, and its other statements name other tables |
| StepOutcomes.Migration5To6Categories | app/src/main/java/com/celzero/bravedns/database/AppDatabase.kt:148-171 | after a successful step 5 -> 6 every category keeps its other columns and has both new counters at 0, the counters are NOT NULL columns at the end of the schema, and DNSLogs exists and is empty |
| StepOutcomes.CountersRun | app/src/main/java/com/celzero/bravedns/database/AppDatabase.kt:150-160 | the same for any such statement list: a created log table and two ADD COLUMNs with default 0 |
| UrlPins.StepsArePins | app/src/main/java/com/celzero/bravedns/database/AppDatabase.kt:174-211 | steps 6 -> 7, 8 -> 9 and 9 -> 10 are pins of the DoH URL of endpoint 3 and 4 by id |
| UrlPins.PinStep | app/src/main/java/com/celzero/bravedns/database/AppDatabase.kt:176-179 | one pin on a sound catalog with id and dohURL columns succeeds, changes only the URL of the endpoint with that id (if there is one) and keeps the catalog sound |
| UrlPins.PinRefused | app/src/main/java/com/celzero/bravedns/database/AppDatabase.kt:176-179 | without an id or a dohURL column a pin fails with no such column |
| UrlPins.OnePinRun | app/src/main/java/com/celzero/bravedns/database/AppDatabase.kt:199-211 | steps 8 -> 9 and 9 -> 10 fail without the catalog table; on a sound catalog they change only the URL of endpoint 4 |
| UrlPins.TwoPinsRun | app/src/main/java/com/celzero/bravedns/database/AppDatabase.kt:174-181 | step 6 -> 7 fails without the catalog; on a sound catalog it changes only the URLs of endpoints 3 and 4 |
| UrlPins.RepointedSound | app/src/main/java/com/celzero/bravedns/database/AppDatabase.kt:174-211 | repointing keeps every endpoint under its id and every NOT NULL column filled |
| UrlPins.LaterPinWins | app/src/main/java/com/celzero/bravedns/database/AppDatabase.kt:154 | pinning the same id twice (as steps 5 -> 6, 6 -> 7, 8 -> 9 and 9 -> 10 do with id 4) leaves the last URL |
| UrlPins.PinsCommute | app/src/main/java/com/celzero/bravedns/database/AppDatabase.kt:176-179 | pins of two different ids commute |
| StepOutcomes.Migration7To8Outcome | app/src/main/java/com/celzero/bravedns/database/AppDatabase.kt:188-196 | step 7 -> 8 succeeds exactly when the view name is free and AppInfo has the uid and appName columns its UPDATE and DELETE read; then the view exists, uid 0 is filed under System Components, the ANDROID entry of that category is gone, every other app is kept and no other table changes |
| StepOutcomes.Migration7To8Cleans | app/src/main/java/com/celzero/bravedns/database/AppDatabase.kt:183-196 | after step 7 -> 8 no ANDROID app is left under System Components, every remaining uid 0 app is under System Components, and no app was added |
| StepOutcomes.CategoriseRun | app/src/main/java/com/celzero/bravedns/database/AppDatabase.kt:192-195 | on an AppInfo with the uid and appName columns, the UPDATE then the DELETE keep exactly the rows not removed, each with its category set |
| StepOutcomes.CategoriseRefused | app/src/main/java/com/celzero/bravedns/database/AppDatabase.kt:192-195 | without the uid column the UPDATE fails, and without appName the DELETE does |
| StepOutcomes.Migration10To11Outcome | app/src/main/java/com/celzero/bravedns/database/AppDatabase.kt:213-219 | step 10 -> 11 succeeds exactly when DNSLogs lacks responseIps and CustomDomain is free; then every log row has responseIps '' and keeps its other columns, CustomDomain is new and empty, and nothing else changes |
| AppInfoRebuild.AppInfoRebuildShape | app/src/main/java/com/celzero/bravedns/database/AppDatabase.kt:278-296 | modifyAppInfoTableSchema is a backup into AppInfo_backup, three status updates and a restore of the first eleven columns |
| AppInfoRebuild.FoldFlags | app/src/main/java/com/celzero/bravedns/database/AppDatabase.kt:285-287 | three updates setting a column to 2, 3 and 4 where a first, second and third flag is 1 leave 4 if the third flag is set, else 3 if the second is, else 2 if the first is, else the starting 0, and change no other column |
| AppInfoRebuild.StatusOfRow | app/src/main/java/com/celzero/bravedns/database/AppDatabase.kt:285-287 | the status updates leave in firewallStatus the status the app's flags name (excluded over whitelisted over allowed, else blocked) |
| AppInfoRebuild.StatusRun | app/src/main/java/com/celzero/bravedns/database/AppDatabase.kt:284-287 | on a backup table with the three flag columns the status updates always succeed, keep every row under its key and change only firewallStatus |
| AppInfoRebuild.BackupPhase | app/src/main/java/com/celzero/bravedns/database/AppDatabase.kt:280-283 | the backup copy succeeds exactly when AppInfo has every column the copy reads and every app row sets each of them, and then holds each row's backup projection |
| AppInfoRebuild.RestorePhase | app/src/main/java/com/celzero/bravedns/database/AppDatabase.kt:288-294 | on a sound, complete backup the restore always succeeds: AppInfo is recreated with the version-12 schema holding each backup row's first eleven columns under its package name, and the backup is gone |
| AppInfoRebuild.AppInfoRebuildRun | app/src/main/java/com/celzero/bravedns/database/AppDatabase.kt:278-296 | the AppInfo rebuild succeeds exactly when AppInfo has every column the backup copy reads and every app row sets them; then AppInfo has the version-12 schema, the same apps under the same package names, each carrying its values and its folded firewall status, the backup is gone and nothing else changes |
| CustomIpRename.RuleRow | app/src/main/java/com/celzero/bravedns/database/AppDatabase.kt:271-273 | the copy of a rule has exactly CustomIp's columns, is keyed by the rule's (uid, ipAddress, port, protocol), carries the columns it copies from the rule, and has status 1, ruleType 0 and wildcard 0 |
| CustomIpRename.RulesUnique | app/src/main/java/com/celzero/bravedns/database/AppDatabase.kt:271-273 | the copied rules land under distinct keys exactly when no two rules share (uid, ipAddress, port, protocol) |
| CustomIpRename.RulesFill | app/src/main/java/com/celzero/bravedns/database/AppDatabase.kt:271-273 | the copy fills CustomIp's NOT NULL columns exactly when every rule sets the columns it reads |
| CustomIpRename.MoveRun | app/src/main/java/com/celzero/bravedns/database/AppDatabase.kt:270-274 | create, copy, drop: succeeds exactly when the source has every column the select list reads and the copied rows fill the NOT NULL columns under distinct keys; then the new table holds them and the old one is gone |
| CustomIpRename.CustomIpRun | app/src/main/java/com/celzero/bravedns/database/AppDatabase.kt:268-276 | modifyBlockedConnectionsTable succeeds exactly when BlockedConnections has the six rule columns, every rule sets them and no two share a CustomIp key; then CustomIp holds one row per rule, BlockedConnections is gone and nothing else changes |
| CustomIpRename.CustomIpNeedsRules | app/src/main/java/com/celzero/bravedns/database/AppDatabase.kt:272-273 | without BlockedConnections the helper fails |
| CustomIpRename.DuplicateRuleFails | app/src/main/java/com/celzero/bravedns/database/AppDatabase.kt:271-273 | two rules for the same (uid, ipAddress, port, protocol) abort the helper |
| CustomIpRename.NullAddressFails | app/src/main/java/com/celzero/bravedns/database/AppDatabase.kt:271-273 | a rule without an IP address or protocol, both nullable in BlockedConnections, aborts the helper |
| ProxyRenumber.Rekey | app/src/main/java/com/celzero/bravedns/database/AppDatabase.kt:259-261 | moving id a to id b fails exactly when both are taken; otherwise the row with id a, if any, moves to b with its id rewritten, the table stays sound and every other row is kept |
| ProxyRenumber.RekeyedSound | app/src/main/java/com/celzero/bravedns/database/AppDatabase.kt:259-261 | moving one id keeps a sound table sound |
| ProxyRenumber.AddNetworkDnsIsRenumbering | app/src/main/java/com/celzero/bravedns/database/AppDatabase.kt:257-265 | addNetworkDns is the three id moves, highest first, and an insert of the network resolver |
| ProxyRenumber.NetworkDnsRow | app/src/main/java/com/celzero/bravedns/database/AppDatabase.kt:262-263 | the row filed under id 1 is Network DNS, an external resolver on port 53 that is not selected |
| ProxyRenumber.RenumberOk | app/src/main/java/com/celzero/bravedns/database/AppDatabase.kt:257-265 | with id 3 or 4 free, the four statements succeed |
| ProxyRenumber.RenumberFails | app/src/main/java/com/celzero/bravedns/database/AppDatabase.kt:257-265 | with ids 3 and 4 both taken, the first move fails and so does the helper |
| ProxyRenumber.AddNetworkDnsRun | app/src/main/java/com/celzero/bravedns/database/AppDatabase.kt:257-265 | addNetworkDns fails exactly when ids 3 and 4 are both taken; otherwise ids 1..3 move up by one and id 1 holds the network resolver |
| DohRewrite.RewriteUrlsIsUpdate | app/src/main/java/com/celzero/bravedns/database/AppDatabase.kt:232 | the rewrite is an UPDATE of every DoH endpoint |
| DohRewrite.AssignUrlKeepsOthers | app/src/main/java/com/celzero/bravedns/database/AppDatabase.kt:232 | the rewrite changes only dohURL of a row |
| DohRewrite.RewrittenUrlIsClean | app/src/main/java/com/celzero/bravedns/database/AppDatabase.kt:232 | a rewritten URL no longer mentions bravedns |
| DohRewrite.CleanUrlUnchanged | app/src/main/java/com/celzero/bravedns/database/AppDatabase.kt:232 | a URL without bravedns is left as it was |
| DohRewrite.RewriteEveryUrl | app/src/main/java/com/celzero/bravedns/database/AppDatabase.kt:232 | on a sound catalog the rewrite succeeds, keeps every endpoint under its id and every other column, replaces bravedns by rethinkdns in each URL and leaves no URL mentioning bravedns |
| Strings.ReplaceAllWithoutPattern | app/src/main/java/com/celzero/bravedns/database/AppDatabase.kt:232 | SQLite replace() returns a string without the pattern unchanged |
| Strings.ReplaceAllLeavesNoPattern | app/src/main/java/com/celzero/bravedns/database/AppDatabase.kt:232 | when the replacement cannot start or complete an occurrence of the pattern, replace() leaves no occurrence behind |
| TrackerRebuild.TrackerRebuildIsRebuild | app/src/main/java/com/celzero/bravedns/database/AppDatabase.kt:301-314 | modifyConnectionTrackerTable is a backup into ConnectionTracker_backup and a restore, both with the same schema and select list |
| TrackerRebuild.TrackerRowRebuilt | app/src/main/java/com/celzero/bravedns/database/AppDatabase.kt:304-311 | a rebuilt log row has an empty dnsQuery and every NOT NULL column as before |
| TrackerRebuild.TrackerRebuildRun | app/src/main/java/com/celzero/bravedns/database/AppDatabase.kt:301-314 | the rebuild succeeds exactly when the log has every column the copy reads and every logged connection fills the new NOT NULL columns; then the log holds the same connections under the same ids, rebuilt, the backup is gone and nothing else changes |
| TrackerRebuild.AllowedConnectionBlocksRebuild | app/src/main/java/com/celzero/bravedns/database/AppDatabase.kt:80-84 | a connection logged as allowed before step 3 -> 4 has no blockedByRule, and while it is in the log the rebuild fails |
| Rebuild.CopyIntoFresh | app/src/main/java/com/celzero/bravedns/database/AppDatabase.kt:272-273 | a copy into an empty table succeeds exactly when the source has every column the select list reads and the copied rows fill the NOT NULL columns under distinct keys, and then holds exactly them |
| Rebuild.BackupRun | app/src/main/java/com/celzero/bravedns/database/AppDatabase.kt:303-306 | the backup phase fails exactly when the select list reads a column the table lacks or a projected row leaves a NOT NULL column empty; otherwise the backup holds every row, projected, under its key |
| Rebuild.RestoreRun | app/src/main/java/com/celzero/bravedns/database/AppDatabase.kt:307-312 | the restore phase fails exactly when the select list reads a column the backup lacks or a projected backup row leaves a NOT NULL column empty; otherwise the table holds them under their keys and the backup is gone |
| Rebuild.RebuildRun | app/src/main/java/com/celzero/bravedns/database/AppDatabase.kt:298-314 | backup and restore with one schema and a stable select list succeed exactly when the table has every column the select list reads and the projected rows fill the NOT NULL columns; then the table holds them under the new schema and nothing else changes |
| Rebuild.ProjectTwice | app/src/main/java/com/celzero/bravedns/database/AppDatabase.kt:306-311 | projecting twice with a stable select list is projecting once, so the second copy changes nothing |
| Rebuild.FillsIffSourceFills | app/src/main/java/com/celzero/bravedns/database/AppDatabase.kt:298-300 | NOT NULL columns copied as they are filled exactly when the source rows fill them |
| Rebuild.FillsAllIffReadsSet | app/src/main/java/com/celzero/bravedns/database/AppDatabase.kt:292 | a plain select list fills an all-NOT-NULL table exactly when each column it reads is set in every source row |
| StepOutcomes.CreateRethinkDnsTableOutcome | app/src/main/java/com/celzero/bravedns/database/AppDatabase.kt:318-323 | createRethinkDnsTable succeeds exactly when the name is free, and then adds only the empty RethinkDnsEndpoint table |

## Left out

- Column types, column defaults other than those of ADD COLUMN, AUTOINCREMENT and type affinity are not modelled. Values are NULL, integers or text.
- The view definitions (AppInfoView) carry no rows. Only their names are modelled, because a view name blocks a table or view of the same name.
- Room's own bookkeeping is not modelled: identity hash, schema validation after the upgrade, `createFromAsset` copying the shipped database, the journal mode, and destructive fallback. The upgrade is the registered chain run in one transaction.
- Stores.Store.Upgrade: takes the statement lists of the steps as a parameter. The registered lists, step 1 -> 2 as written, are `Chain.Scripts`; `Chain.CorrectedScripts` replace that step by its corrected form.
- CREATE VIEW takes the view's name only. SQLite also resolves the columns of the view's SELECT; the model does not.
- DROP VIEW on a table name fails with "no such view". SQLite gives a different message, but the statement fails in both.
- UPDATE checks NOT NULL and primary-key uniqueness once per statement. SQLite checks row by row, which matters only for an update that moves several keys at once; the migrations move at most one key per UPDATE.
- The DNSCrypt and DNSCrypt relay renames of steps 4 -> 5 and 5 -> 6, and the DoH pin of id 4 in steps 4 -> 5 and 5 -> 6, are modelled as statements and run through the chain. No lemma states their effect beyond UrlPins.PinStep, which covers any pin of a DoH URL by id.
- Step 3 -> 4's AppInfo flag columns and the creation of the five endpoint tables are modelled as statements and run through the chain. No lemma states their effect on their own.
- Step 11 -> 12's DROP TABLE of CategoryInfo and ADD COLUMN of CustomDomain.wildcard are modelled as statements only.
- Endpoint names, URLs and explanations are opaque text constants. SQLite `replace()` is modelled on text only (`Strings.ReplaceAll`).
- The DAO and repository accessors of the database class are outside the migration chain.

## Findings

| source | as written | input that shows it | evidently intended | confidence | as-written member | corrected member |
|---|---|---|---|---|---|---|
| app/src/main/java/com/celzero/bravedns/database/AppDatabase.kt:48-55 | `DELETE from CategoryInfo` followed by `CREATE TABLE 'CategoryInfo'`: the DELETE needs the table to exist and the CREATE needs it absent, so the step fails on every store | any version-1 store; with CategoryInfo absent the DELETE fails, with it present the CREATE fails | clear AppInfo and start CategoryInfo afresh: drop CategoryInfo if it exists, then create it | not executed | CategoryReset.Migration1To2AlwaysFails | CategoryReset.Migration1To2CorrectedOutcome |
