# MySpeed server: a verified model

A Dafny model of the parts of the MySpeed server whose promises span whole runs
rather than single calls, and proofs of those promises. `dafny verify
dfyconfig.toml` checks all of it.

* **Who is let in.** `Throttle`, `ThrottleRuns`: the two bounded tables of the
  password throttle, under any run of reservations, settles and resets.
  `Authentication`, `AuthenticationSafety`, `AuthenticationLedger`,
  `AuthenticationProgress`, `SharedBudget`: sign-ins, header
  requests and metrics scrapes as interleaved steps, one for every `await`,
  with password and access-level writes that commit in one step and publish in
  another; what is charged for a wrong guess, and who is let in.
* **What a restore and an upgrade do.** `Restore`, `RestoreRows`, `RestoreRuns`: which id
  each restored target takes, and repeated restores. `RestoreLife`: the life of an
  instance, in which tests and imports are under way while a restore reads the
  history in one step and writes in another.
  `Migration`: the upgrade to targets, dying behind any statement.
  `SeedTarget`: whether the row it writes can be edited afterwards.
* **History.** `History`: the export, page by page, of a table that may change.
  `ImportRows`: a row of a backup, what the export writes of it and what the
  import makes of that. `ImportAcceptance`: which rows are taken, and what is stored
  of them, told of the file's columns. `HistoryImport`: a file, chunk by chunk. `HistoryBackup`:
  the export's pages as one file, imported again. `Streaks`: the failure streak.
  `TargetStatistics`: one read shared among targets.
* **Locale files.** `LocaleTree`, `LocaleRoundTrip`: flatten and nest.
  `LocaleForms`: which English line a localised form answers to.
  `LocaleMerge`, `LocaleMergeTree`, `LocaleFile`: merging a patch of translations,
  and the file that is written. `LocaleLoss`: lines that cannot all stand in one.
* **Rate limits.** `RateLimit`, `RateLimitWindows`, and their sibling for log entries,
  `ErrorReporter`.
* **Schedule.** `Timer`, `TimerRuns`: jobs, generations and sleeping runs.
  `Pause`: the pause switch and its timer.
* **Targets.** `Targets`: the validator and what a patch retires. `TargetStore`:
  the routes as store transitions. `TargetEffects`: what each leaves of the table,
  told of the rows before and after. `TargetBodies`, `TargetRoutes`: the same from
  the request as it arrives, of whatever JSON type. `TargetOrder`: listing,
  reordering, the headline order, and names in a history backup.
* **LineProtocol**: a point written as one line of InfluxDB line protocol, and read back.

`JsMap` (the JavaScript Map, insertion order and all, and the bounded table of
entries that expire), `Sorting` (WHERE and ORDER BY over sequences), `Text`
(trim, digits), `Json` and `Wrappers` are shared.

## How it is modelled

Code that works by updating state is a class or a method with its loops, proved
equal to a function of the old state; the results over runs are lemmas about
that function. SQL tables are sequences of rows in no particular order, and a
transaction is one step. Where handlers interleave - the ways in, a restore, the
rounds - each `await` at which another may come between is a yield. Clocks, host checks, URL parsing,
bcrypt, the scheduler's answers and the database's refusals are parameters, so
every result holds whatever they say. Limits (20, 10000, 500, 5000, 2500 in the
code) are parameters too. The clock never goes back. An id column handed out by
the database is AUTOINCREMENT: never one that was handed out before. Instants
stored as ISO-8601 text are the numbers they name. A statement of the upgrade is
one step of its prelude - create the table, add the column, add the index, seed -
or of its back-fill, with the reads and the guard ahead of it; on a later boot a
prelude step counts even where its guard finds nothing to do.

## Where the code does other than it says

* `rateLimit.js:12` speaks of bursts up to twice the limit. The exact figure for
  a half-open interval as long as the window is one less, and it is attained
  (`BurstBound`, `BurstBoundIsAttained`).
* `config.js:949-952` warns that rows under a stripped id are shown as having no
  target. They are, unless another row of the file settles on that id by name;
  then that row holds it (`StrippedIsOrphanedUnlessSettledOn`,
  `StrippedMayStillBeHeld`).
* `config.js:812-829` says history is never handed to a target of another name.
  It is not, of what a restore has read. But the history is read
  (`config.js:868-884`) some awaits ahead of the write (`config.js:1102-1113`),
  and a test files its result under the id it began with (`speedtest.js:867`,
  `1240`). A fresh instance whose first test is under way, or lands between the
  two, ends with its result under the restored stranger
  (`RunningTestIsMisfiled`, `LandedResultIsMisfiled`). Exactly when a restore
  misfiles nothing is `EventKeepsSafeIff`. One begun while no test or import is
  under way, with none begun until it writes, does not (`RestoringInPeaceIsClear`);
  waiting for the last test to end while the restore is already reading is not
  enough (`DrainedMidwayIsMisfiled`).
* `0013-add-targets.js:64-101` describes a seed the validator always accepts.
  It accepts it exactly when the backend's host is one the outbound check
  allows and no server id is stored for Cloudflare (`SeedAcceptedIff`);
  otherwise the row is refused every patch that leaves its address and provider
  alone (`UnsafeSeedCannotBeEdited`, at work in `LoopbackSeedIsRefused`).
* `nest` is called the inverse of `flatten` (`localeGaps.js:37`). It is, except
  for trees with an empty section, with a section named like something every
  object inherits, or with a leaf named `__proto__` (`NestFlattenIff`).
* `mergeLocale` accepts patches it then cannot write whole. Where a line's key,
  followed by a dot, begins a later line's, `nest` writes a property onto text and
  throws (`AcceptedButNotWritable`). Where it begins an earlier line's, the text
  is written over the section, and what stood below it is lost without a word,
  the patch's own translation included (`AcceptedAndLost`). Nothing else is ever
  refused or lost (`WrittenOrLost`). English as it stands has no section a form
  could be named like.
* Restoring a file whose names repeat is no fixed point (`TwinsMove`), which the
  code accepts with a warning.

## Model

| member | source | states |
|---|---|---|
| RateLimit.Limiter.Handle | server/middlewares/rateLimit.js:30-71 | one request leaves exactly the table and answer of the specification `Step`: expired or unknown clients are deleted, the head evicted only at the cap, the client written at the tail |
| RateLimit.BurstBound | server/middlewares/rateLimit.js:12-15 | for every request sequence and every half-open interval as long as the window, a client never evicted is let through at most 2·limit − 1 times (limit at least 1) |
| RateLimit.BurstBoundIsAttained | server/middlewares/rateLimit.js:12-15 | for every limit some run of a lone client reaches 2·limit − 1, so the bound cannot be lowered |
| RateLimitWindows.RefusedIff | server/middlewares/rateLimit.js:30-71 | whoever else calls, a client never evicted is refused exactly when its window is still running and the requests it made in it, this one included, are more than the limit; it is told the seconds left, rounded up |
| RateLimit.TableStaysBoundedAndOrdered | server/middlewares/rateLimit.js:35-60 | over any run the table never exceeds its cap and stays ordered by expiry |
| RateLimit.EvictionSparesRunningWindows | server/middlewares/rateLimit.js:38-57 | a request that pushes out a client whose window still runs finds no expired counter left in the table |
| RateLimit.FewClientsAreNeverEvicted | server/middlewares/rateLimit.js:55-57 | while no more clients call than the table holds, nobody is ever evicted |
| RateLimit.RetryAfterIsEnoughAndTight | server/middlewares/rateLimit.js:65-68 | a refused caller who waits out Retry-After is let in, and one second less would end inside the window |
| ErrorReporter.Reporter.Report | server/index.js:274-299 | one event leaves exactly the specified window, reported set and counts |
| ErrorReporter.EveryEventIsAccountedFor | server/index.js:251-258 | per fault, events = entries written + counts flushed in its own entries' notes + the count still held |
| ErrorReporter.WrittenIff | server/index.js:274-299 | an event is written in full exactly when it is the first of its fault in the window it falls into; a window opens with the first event and with the first one an interval or more behind its opener |
| ErrorReporter.LogGrowthIsBounded | server/index.js:232-236 | over any storm a fault earns at most two full entries in any half-open stretch as long as the interval |
| ErrorReporter.DifferentFaultIsNeverMuted | server/index.js:240-243 | a fault not seen for an interval is written in full, whatever other faults did |
| Throttle.Throttle.RecordFailureOf | server/middlewares/password.js:74-103 | the failure table becomes the specified one: refreshed at the tail, the head evicted only when the table would grow |
| Throttle.Throttle.LiveReservations | server/middlewares/password.js:199-215 | answers the client's unexpired reservations and stores what is left |
| Throttle.Throttle.ReserveAttempt | server/middlewares/password.js:254-288 | refuses a locked-out or full client without a trace, or appends one reservation per candidate under a new ticket, evicting the head at the cap |
| Throttle.Throttle.Settle | server/middlewares/password.js:225-249 | the first call removes its ticket's reservations and records its failures, a later one changes nothing |
| Throttle.ReserveAt | server/middlewares/password.js:254-288 | what an admission does to its own client's list and to every other client's, outcome by outcome |
| Throttle.SettleAt | server/middlewares/password.js:234-248 | what a settle does to its own client's list and failures and to every other client's |
| ThrottleRuns.FailureBudget | server/middlewares/password.js:24-47 | over every run, a client never evicted and never late has at most 2·MAX_FAILED_ATTEMPTS − 1 guesses found wrong in the running window or still outstanding, however many candidates requests carry |
| ThrottleRuns.BudgetIsAttained | server/middlewares/password.js:24-47 | for every cap a lone client, never evicted and never late, reaches that figure, so the bound cannot be lowered |
| ThrottleRuns.ReservationsTrackReality | server/middlewares/password.js:187-215 | a client's list never exceeds the cap, holds each ticket whole or not at all, holds every unsettled unexpired ticket and no settled one |
| ThrottleRuns.SettleIsExactAndOnce | server/middlewares/password.js:217-249 | a settle takes out exactly its own request's reservations, leaves every other unexpired ticket's, and does nothing the second time |
| ThrottleRuns.SuccessNeverLocksOut | server/middlewares/password.js:47-51 | a client with no wrong guess since its last success is never locked out, whoever fails around it |
| ThrottleRuns.TablesStayBoundedAndOrdered | server/middlewares/password.js:78-98 | over every run both tables stay within the cap and the failure table stays ordered by expiry |
| ThrottleRuns.EvictionSparesRunningLockouts | server/middlewares/password.js:79-96 | a counter still running is evicted only when no expired one is left |
| AuthenticationSafety.StepKeepsInv | server/middlewares/password.js:435-500 | every step of every handler and writer keeps the invariant tying each handler to the versions it read, each session to a current password, each ticket to its one holder |
| AuthenticationSafety.SessionsOutliveNoPassword | server/routes/session.js:51-93 | in every interleaving, every live session was opened with a credential matching a password version no older than the number of published changes |
| AuthenticationSafety.AdmissionsAreCurrent | server/middlewares/password.js:446-500 | in every interleaving, every request let in by password was checked against a version no older than what was published at that moment, re-read as the same value where it was re-read |
| AuthenticationSafety.ViewingsAreCurrent | server/middlewares/password.js:502-509 | read-only access is only granted under a level no older than the published policy |
| AuthenticationSafety.EveryReservationIsReleased | server/middlewares/password.js:462-488 | on every path, throws included, a ticket is unsettled exactly while the request that took it is still comparing |
| AuthenticationLedger.ChargesAreWrongGuesses | server/middlewares/password.js:462-488 | over every run the throttle's charges are the log of the comparisons: for each header, scrape, sign-in or setup token whose candidates were compared, did not throw and do not open the password read, its client and its number of candidates; and nothing of a client let in since |
| AuthenticationProgress.ConfiguredDecidesAs | server/middlewares/password.js:446-510 | with a password stored and nothing published since it was read, guesses the throttle has room for are compared; any other request may read where the level shows itself to visitors, and is refused, locked out or told to wait otherwise |
| AuthenticationProgress.UnconfiguredDecidesAs | server/middlewares/password.js:337-388 | without a password, local callers are let in, others exactly by the setup token among guesses the throttle has room for; a scrape has the password read again first |
| AuthenticationProgress.ComparedAs | server/middlewares/password.js:470-509 | a comparison that throws is the server's error, one with a right guess goes on to be confirmed, one without is refused or falls back to reading |
| AuthenticationProgress.ConfirmedAs | server/middlewares/password.js:490-500 | the request is let in exactly when the password read again is the one compared and nothing was published since |
| AuthenticationProgress.SignedInAs | server/routes/session.js:51-93 | a sign-in gets a session of its own exactly when its guess opens the password read, without a throw and with nothing published since; every other session stays |
| AuthenticationProgress.RightPasswordIsLetIn | server/middlewares/password.js:446-500 | a header request or a scrape with the stored password is let in, past whatever others do in between, when nothing is written meanwhile and the throttle has room |
| AuthenticationProgress.SetupTokenIsLetIn | server/middlewares/password.js:337-388 | so is the setup token on an instance without a password, in one step |
| AuthenticationProgress.RightSignInIsLetIn | server/routes/session.js:51-93 | and a sign-in with the stored password |
| AuthenticationProgress.SessionEndsOnlyBy | server/util/session.js:29-60 | a session ends by being dropped or by a password being published, and by no other step |
| SharedBudget.OneBudgetForAllWaysIn | server/routes/prometheus.js:74-108 | in every interleaving of the ways in, a client never evicted and never late has at most 2·MAX_FAILED_ATTEMPTS − 1 guesses that were compared and opened nothing in the running window, or are being compared; and it is locked out exactly while the former are MAX_FAILED_ATTEMPTS or more |
| Throttle.Throttle.ClearFailedAttempts | server/middlewares/password.js:293 | a success forgets the client's failures and nothing else |
| Restore.OccupiedIds | server/controller/config.js:868-884 | chunk by chunk, the query finds exactly those of the file's ids that local history stands under |
| Restore.SettleTargets | server/controller/config.js:928-933 | the settling loop hands out the specified ids and strips the specified ones |
| Restore.NoIdTwice | server/controller/config.js:897-902 | no id is handed out twice in a restore |
| Restore.KeptIdsAreWorn | server/controller/config.js:910-926 | an id with history under it goes only to a row whose trimmed name its live holder wears |
| Restore.ReinsertedAre | server/controller/config.js:1020-1023 | ids after insertion are pairwise distinct, kept ones in place, the rest past the highest ever used |
| Restore.NoReattribution | server/controller/config.js:868-933 | of the history as the restore read it: whoever holds an id that had rows under it wears the name its live holder wore |
| RestoreRows.RefusedIff | server/controller/config.js:857-866 | the file's targets are refused exactly when two of its rows carry the same id |
| RestoreRows.RowGets | server/controller/config.js:910-926 | of the ids no earlier row took, a row gets its own where a live target wears it under the row's name, else the first namesake's in round order, else its own unless history stands under it, else a fresh one |
| RestoreRuns.RestoreAgain | server/controller/config.js:829-835 | with pairwise distinct trimmed names, restoring a file onto what it left gives the same targets under the same ids, whatever history, ids and listing order came in between |
| RestoreRuns.EveryRestoreAfterTheFirst | server/controller/config.js:829-835 | over any chain of restores of one file, every one after the first finds and leaves the same targets |
| RestoreRuns.TwinsMove | server/controller/config.js:1000-1018 | with repeated names and no ids the second restore renumbers a twin: distinct names are needed |
| RestoreRuns.StrippedIsOrphanedUnlessSettledOn | server/controller/config.js:944-952 | a stripped id is held after the restore exactly when some row of the file settles on it by name |
| RestoreRuns.StrippedMayStillBeHeld | server/controller/config.js:944-952 | a two-row file whose stripped id is held again afterwards |
| RestoreLife.EventKeepsSafeIff | server/controller/config.js:812-933 | of everything that happens to an instance - targets created, renamed, deleted, reordered, all of them reset, tests and imports begun, filed and ended, rows pruned, restores begun, read, written and failed - only a restore's write can put a result, filed or under way, under another line, and it does not exactly when no id a row takes over has a result or a worker by then |
| RestoreLife.RunKeepsAttribution | server/controller/config.js:812-933 | over any life whose restores were clear in that sense when they wrote, no result is ever shown under another line than it was measured on |
| RestoreLife.TakesOverIff | server/controller/config.js:910-933 | which rows take an id over, from what the restore read: those with an id of their own, not occupied, not taken and not worn by the name |
| RestoreLife.UnclearMisfiles | server/controller/config.js:1102-1113 | a restore that was not clear leaves a result under another line at once, or as soon as the test under way files it |
| RestoreLife.RestoringInPeaceIsClear | server/controller/config.js:868-884 | from a moment with no restore, test or import under way, for as long as no test or import begins, every restore that writes is clear |
| RestoreLife.QuietStaysClear | server/controller/config.js:868-884 | the same of a restore that is already reading, if by then it has seen every result there is of what it asked |
| RestoreLife.DrainedMidwayIsMisfiled | server/controller/config.js:868-1113 | a restore that read while the first test was under way misfiles its result even when the test has ended by the time it writes |
| RestoreLife.RunningTestIsMisfiled | server/tasks/speedtest.js:867-1240 | a fresh instance restored while its first test runs: the result lands under the stranger |
| RestoreLife.LandedResultIsMisfiled | server/controller/config.js:868-1113 | a first result filed between the restore's read and its write is the stranger's with the write |
| Migration.Database.Up | server/migrations/0013-add-targets.js:163-254 | the migration, dying behind its n-th statement, leaves exactly what n steps of the statement machine leave |
| Migration.NeverTwoTargets | server/migrations/0013-add-targets.js:186-209 | over any boots there is never more than one seeded target, and it is the one the keys first found describe: the provider's name, the digits pinned under that provider's own key or none, and for LibreSpeed the address of its backend where it can be fetched from |
| Migration.CompletedMeansAttributed | server/migrations/0013-add-targets.js:211-251 | a completed migration leaves every row with that target when one of the three providers was chosen, and the history untouched otherwise; the legacy keys are gone |
| Migration.SeedIs | server/migrations/0013-add-targets.js:25-111 | a target is seeded exactly when Ookla, LibreSpeed or Cloudflare was chosen, and holds what the stored keys say of that provider |
| Migration.AttributionsStand | server/migrations/0013-add-targets.js:236-251 | no attributed row changes its target in any later statement of any later boot |
| Migration.BackFillBudget | server/migrations/0013-add-targets.js:133-144 | over all boots at most ceil(rows / chunk) statements change a row, exactly that many once none is left |
| Migration.ABootCompletesIff | server/migrations/0013-add-targets.js:133-144 | one boot completes exactly when it survives four statements, one per remaining chunk and one more; dying earlier it has done a chunk for every statement it got to |
| Migration.EnoughBootsComplete | server/migrations/0013-add-targets.js:136-142 | boots surviving six statements each end the upgrade within one boot per chunk: no boot loop |
| Migration.FiveStatementsNeverComplete | server/migrations/0013-add-targets.js:133-144 | six of the model's statements are the threshold: an instance with a provider to seed whose boots all die behind the fifth statement or sooner never completes, however many boots and however short the history |
| Migration.RunningAgainChangesNothing | server/migrations/0013-add-targets.js:186-219 | a completed migration run again, cut short anywhere, changes nothing |
| SeedTarget.SeedAcceptedIff | server/migrations/0013-add-targets.js:64-111 | the seed is acceptable to the validator exactly when its backend's host is allowed and no server is pinned for Cloudflare |
| SeedTarget.UnsafeSeedCannotBeEdited | server/migrations/0013-add-targets.js:72-84 | a seed on a refused host is refused every patch naming neither address nor provider |
| SeedTarget.LoopbackSeedIsRefused | server/migrations/0013-add-targets.js:102-111 | such a seed exists: a backend on the server's own machine is written, and the row refused for its endpoint |
| LocaleTree.NestLoop | scripts/localeGaps.js:38-52 | the loop builds what growing each dotted path in order builds, or fails where a path leaves the tree |
| LocaleRoundTrip.FlattenIs | scripts/localeGaps.js:24-35 | flatten lists a tree's leaves in order under their joined paths |
| LocaleRoundTrip.NestFlattenIff | scripts/localeGaps.js:24-52 | among trees of distinct, non-empty, dot-free keys, nest(flatten(t)) = t, key order on every level included, exactly for those without empty sections, inherited section names and `__proto__` leaves |
| LocaleMerge.PatchWins | scripts/localeGaps.js:455-459 | the combined lines are the patch's, and the locale's that the patch does not name |
| LocaleMerge.MergedIsExactly | scripts/localeGaps.js:458-464 | the merge keeps exactly the lines whose key has a reference in English |
| LocaleMerge.MergedInEnglishOrder | scripts/localeGaps.js:427-433 | each key once, in English's order, every other form directly behind its reference |
| LocaleMerge.MergingAgain | scripts/localeGaps.js:454-464 | merging a merged locale with nothing changes nothing |
| LocaleMerge.Judge | scripts/localeGaps.js:443-452 | a patch is accepted exactly when every key has a reference and every value is text with its reference's placeholders and tags; unknown keys are refused first, all of them named |
| LocaleMerge.MergeLocale | scripts/localeGaps.js:439-467 | the writer's loops produce the specified merge, nested, or the specified refusal |
| LocaleForms.ReferenceIff | scripts/localeGaps.js:343-383 | a line answers to English's line of its own key; else a plural form of a counted message, a duration also behind "ago", to the message's general form or to the message itself; else an inflected duration to the duration; and nothing else answers to anything |
| LocaleMergeTree.FormSharesSection | scripts/localeGaps.js:373-383 | a key with a reference other than itself stands in its reference's section |
| LocaleFile.MergedComesBackIff | scripts/localeGaps.js:454-467 | the merged lines can be nested, and flatten back to themselves, exactly when no line's key followed by a dot begins another's; English may have empty sections |
| LocaleFile.MergedLinesAre | scripts/localeGaps.js:454-464 | which lines are merged, read off English, the locale and the patch alone |
| LocaleFile.WrittenFileHolds | scripts/localeGaps.js:427-467 | the nested file is there and holds exactly the referenced lines of locale and patch, patch values winning, in English's order, exactly when no such pair of keys is left |
| LocaleFile.MergingSettles | scripts/localeGaps.js:395-467 | where no such pair is left, the nested file that is written has no leftovers, and merging it again with an empty patch writes the very same file |
| LocaleLoss.WrittenOrLost | scripts/localeGaps.js:38-52 | whatever the merged lines: no file is written exactly when a line's key followed by a dot begins a later line's, and a written file holds exactly the lines that no later line's key followed by a dot begins |
| LocaleLoss.MergingAgainLosesNothing | scripts/localeGaps.js:395-467 | whatever a written file has lost, it has no leftovers; merged again it keeps every line it has, and from then on comes out as it is |
| LocaleLoss.AcceptedAndLost | scripts/localeGaps.js:439-467 | an English file, a locale and a patch that pass every check of mergeLocale and are written without the patch's own translation |
| LocaleFile.AcceptedButNotWritable | scripts/localeGaps.js:439-467 | an English file, a locale and a patch that pass every check of mergeLocale and cannot be nested |
| History.ListPages | server/controller/speedtests.js:170-210 | the paging loop yields the specified pages and ends however the table changes under it |
| History.ExportOfChangingTable | server/controller/speedtests.js:157-161 | whatever changes between pages, the export descends strictly by (created, id), and a row there throughout is on it exactly once |
| History.NoTestTwice | server/controller/speedtests.js:157-161 | no id is on the export twice, in whatever versions, as long as no test has its `created` rewritten between pages |
| History.MovedTestIsListedTwice | server/controller/speedtests.js:157-161 | a test moved into the past between two pages is on the export in both versions |
| History.ExportOfStaticTable | server/controller/speedtests.js:170-210 | for every page size the pages of an untouched table concatenate to the table sorted newest first |
| Streaks.FiltersSplitTheTable | server/util/testOutcome.js:136-163 | in SQL's three truth values no row passes both filters, and one passes neither exactly when a null column, no message and no reading leave it undecided |
| Streaks.FiltersAgreeWithPredicate | server/util/testOutcome.js:54-64 | on the stored columns the two filters say what isFailedTest says |
| Streaks.StreakIsTheWalk | server/controller/speedtests.js:372-395 | the three queries answer the length of the leading run of failures in the newest-first history and the created of its oldest member, shared instants included |
| Streaks.NextResult | server/controller/speedtests.js:347-371 | a newest failure adds exactly one and keeps "since"; a newest success resets to (0, null) |
| ImportRows.ExportImportIff | server/controller/speedtests.js:170-201 | a stored row, exported and imported again, is the row it was, its id apart, exactly when it passes the import's checks, has no negative figure, carries hops, provider and address in the form a run stores them, and belongs to no target or to a live one listed first of its name |
| ImportRows.ImportedIsSound | server/controller/speedtests.js:557-664 | every row an import stores is such a row, whatever the file held, as long as the row's own hop table, if it has one, is read back from its text |
| ImportRows.ImportingSettles | server/controller/speedtests.js:557-664 | so what came of a file once comes of its own export again |
| ImportRows.TargetComesBackIff | server/controller/targets.js:520-614 | a row's target comes back exactly when it has none, or a live one that no earlier target shares its name with |
| ImportAcceptance.TakenIff | server/controller/speedtests.js:557-617 | an element of the file is taken exactly when it is an object a run could have stored: scheduled or by hand, at an instant as it is printed and at most two days ahead, every figure a number or nothing, all three readings numbers, and none of them negative but beside a failure - a message, or the placeholder in all three |
| ImportAcceptance.StoredOfTaken | server/controller/speedtests.js:618-664 | what is stored of it, column by column: readings, marks and labels as they are, optional figures unless negative, provider and address trimmed where usable, drawable hops as text, the first target of its name |
| ImportAcceptance.TraceIsKeptIff | server/util/traceroute.js:301-325 | a hop table is kept exactly when it has at most 20 hops, numbered apart, of at most 10 times each, none of them negative |
| HistoryImport.Tests.WriteImportBatch | server/controller/speedtests.js:498-523 | written at once or row by row, a chunk stores exactly its acceptable rows, in order, and counts the rest; it throws exactly when neither goes through, and then stores nothing |
| HistoryImport.Tests.ImportTests | server/controller/speedtests.js:525-680 | what the checks let through - exactly the rows of `TakenIff` - is written chunk by chunk up to the first chunk that is lost; unless one is, imported + skipped = the file's rows, and ok exactly for an empty file or when a row came through |
| HistoryImport.ImportedAre | server/controller/speedtests.js:525-680 | unless a chunk is lost, every row passing the checks and the database is stored in file order, whatever the chunk size; and it throws exactly when some chunk of the file is one the database loses |
| HistoryImport.WrittenUpToLost | server/controller/speedtests.js:498-523 | a lost chunk costs itself and what is behind it, and nothing ahead of it |
| HistoryBackup.BackupComesBackIff | server/controller/speedtests.js:157-210 | the pages of a history nobody touches, as one file, imported into an emptied table by a database that takes all of it, leave exactly that history, newest first under new ids, exactly when each of its rows is one that comes back; page and chunk sizes do not matter |
| HistoryBackup.OneTripReversesTies | server/controller/speedtests.js:157-210 | of two rows of a backup the later one comes first in the next backup exactly when both are of one instant |
| HistoryBackup.TwoTripsRestoreTheOrder | server/controller/speedtests.js:157-210 | after two exports and imports the next backup lists the very rows of the first in its order |
| TargetStatistics.GroupByTarget | server/controller/speedtests.js:1054-1060 | every requested id gets exactly its own rows, in order, rows of no target dropped |
| TargetStatistics.BatchedReadIsEachRead | server/controller/speedtests.js:1062-1081 | a target's share of the shared read is the read of that target alone |
| TargetStatistics.ListStatisticsByTarget | server/controller/speedtests.js:1082-1136 | an entry for each id asked about and no other, each what a request for that target alone answers, its own previous window and the three states of the comparison included |
| TargetStatistics.ListStatisticsIs | server/controller/speedtests.js:1082-1136 | one target's answer is made of its own rows in the range, all of them without a range; it is compared only when a range and a comparison are asked for, with its own rows in the window before, if there is one |
| Timer.Module.StartTimer | server/tasks/timer.js:226-333 | for every answer of scheduleJob the module and the scheduler end as specified, and so: a valid expression that is taken is the one live main rule, in its zone, and the module's cron, under a generation one higher; a refused one gives way to the default, and where that is refused too no main job is live |
| Timer.StartSchedules | server/tasks/timer.js:195-333 | the same of the specification, with the digests: of the two asked for, exactly those that are taken are live |
| Timer.Module.StopTimer | server/tasks/timer.js:486-506 | generation bumped, every sleep released, every held job cancelled |
| Timer.Module.PendingRunAt | server/tasks/timer.js:127-134 | the earliest wake moment of the sleeping runs, none when none sleeps |
| Timer.InvalidCronKeepsTheSchedule | server/tasks/timer.js:227-254 | an invalid expression leaves a running schedule, its sleeps and its generation alone; without one the default is scheduled |
| Timer.NextRun | server/tasks/timer.js:362-384 | the first occurrence outside the quiet hours among the first 1500; none exactly when all are quiet or one cannot be read |
| TimerRuns.LiveJobsAreHeld | server/tasks/timer.js:195-333 | under any sequence of starts, refusals and stops the live jobs are exactly the handles held, one per kind |
| TimerRuns.RoundsAreCurrent | server/tasks/timer.js:420-483 | in every interleaving a round starts only unpaused, in its own generation, and while the job whose tick it was is still the live main job compiled from the current cron and zone |
| TimerRuns.RoundStartsIff | server/tasks/timer.js:420-483 | a run starts its round exactly when it comes through its last await unpaused, outside the quiet hours and in its own generation |
| TimerRuns.RunIsSkippedIff | server/tasks/timer.js:420-483 | and is given up exactly for a quiet hour, a schedule that is gone, or a pause |
| TimerRuns.DueTickComesToItsRound | server/tasks/timer.js:420-483 | a tick of the live main job, unpaused, outside the quiet hours and with nothing replacing the schedule, comes to its round, with the offset after its sleep |
| TimerRuns.StartupComesToItsRound | server/tasks/timer.js:420-483 | a run asked for at startup, unpaused and outside the quiet hours, is in its round |
| TimerRuns.StopEndsEveryRun | server/tasks/timer.js:65-76 | a stop wakes every sleeper and leaves no delay pending, and no run then under way ever comes to a round |
| TimerRuns.ReplacingEndsEveryRun | server/tasks/timer.js:65-76 | the same of a schedule that replaces another |
| Pause.Switch.ResumeIn | server/controller/pause.js:59-74 | a usable duration pauses and arms one timer unless it would overflow; anything else changes nothing |
| Pause.RunKeepsOneTimer | server/controller/pause.js:17-23 | over any run at most one timer is armed, only while paused, the last pause's, and within the timeout's range |
| Pause.OnlyItsOwnTimerLiftsAPause | server/controller/pause.js:17-23 | a pause ends by hand or by its own timer, never by an earlier pause's |
| Pause.PausedFor | server/controller/pause.js:59-74 | pausing for some hours arms one timer of exactly as long, whose firing lifts the pause; past 2147483647 milliseconds it arms none; what is no positive number changes nothing |
| Targets.NamedFieldsStand | server/controller/targets.js:108-160 | what a patch names is never overridden by what it retires |
| Targets.RetiringSettles | server/controller/targets.js:85-160 | asked again of the row it produced, the same patch retires nothing and changes nothing |
| Targets.ProviderPatchAcceptedIff | server/controller/targets.js:112-160 | from a valid row, a patch naming only a provider is accepted exactly when the provider exists and takes no endpoint, or the stored endpoint fits it |
| Targets.StoppingUdpIsNeverRefused | server/controller/targets.js:154-157 | from a valid row, switching UDP off alone is never refused |
| TargetRoutes.Routes.Put | server/routes/targets.js:44-58 | for a body of any JSON values, the handler leaves exactly the specified store and answer |
| TargetRoutes.Routes.PatchOne | server/routes/targets.js:79-141 | for any id text and a body of any JSON values, the handler leaves exactly the specified store and answer |
| TargetRoutes.Routes.DeleteOne | server/routes/targets.js:143-155 | for any id text: the row of that id is gone and every other one is there unchanged in its old order; where there is none, or the text is no id, nothing changes and the answer says so |
| TargetRoutes.Routes.Order | server/routes/targets.js:61-77 | for any value sent as the ids, the handler leaves exactly the specified store and answer |
| TargetEffects.AcceptedIff | server/controller/targets.js:394-467 | the validator takes exactly the rows that fit: a name of 1 to 64 characters, one of five providers with the address and server id it takes, UDP with a bitrate, figures within their literal ranges |
| TargetEffects.CreatedIs | server/controller/targets.js:739-765 | a row that fits, of a name nobody wears, is added behind the others, which stay: its columns as named or at their defaults, one place behind the last; anything else is refused and changes nothing |
| TargetEffects.CreatedIsListedLast | server/controller/targets.js:739-765 | and it is listed behind everything listed before |
| TargetEffects.PatchedIs | server/routes/targets.js:79-141 | only the row named changes, and only into one that fits and takes no other row's name: every column as named, kept, or retired by the exact rule for it; anything else changes nothing |
| TargetEffects.DeletedIs | server/controller/targets.js:790 | the row of the id goes and no other |
| TargetEffects.OrderedIs | server/controller/targets.js:804-828 | a permutation of the ids puts every row, otherwise unchanged, at its id's place; any other list changes nothing |
| TargetRoutes.ServedLeaves | server/routes/targets.js:44-155 | whatever arrives, what it leaves is the effect of the typed request it spells, or nothing |
| TargetRoutes.SpelledIsMeant | server/routes/targets.js:14-32 | fields written as JSON under their own keys, and an id in decimal digits up to 2^53 − 1, are understood as exactly those fields and that id, whatever else the body carries |
| TargetBodies.JudgedAsSaid | server/controller/targets.js:394-467 | the validator asked of a row of raw values says what it says of the target they spell: flags as booleans, 0 or 1, a server id as text or number |
| TargetBodies.PutMeansItsFields | server/routes/targets.js:44-58 | a PUT whose fields are each of their kind is exactly the typed create of them; any other is refused and writes nothing |
| TargetBodies.PatchMeansItsFields | server/routes/targets.js:79-141 | a PATCH whose fields are each of their kind is exactly the typed patch, retirements included; any other, a flag named null among them, writes nothing and is not answered as done |
| TargetRoutes.ServedAsMeant | server/routes/targets.js:44-155 | every request is served as the typed request it can be read as, and changes nothing when it cannot |
| TargetRoutes.RequestsKeepSound | server/routes/targets.js:44-155 | over any requests of whatever shape, a store whose rows the validator accepts, with distinct ids and distinct trimmed names, stays so |
| TargetOrder.CoversAllIffPermutation | server/controller/targets.js:804-811 | coversAll accepts a list exactly when it is a permutation of the stored ids |
| TargetOrder.ReorderListsAsGiven | server/controller/targets.js:823-828 | after reorder, listing answers the given ids in the given order |
| TargetOrder.HeadlineOrder | server/controller/targets.js:662-679 | the nested loops collect, tier by tier, each target whose best tier it is |
| TargetOrder.HeadlineOrderIs | server/controller/targets.js:638-642 | the headline order is a permutation of the targets: alerting and scheduled ones first, then alerting, then scheduled, then the rest, each by sortOrder and id |
| TargetOrder.TargetIndex | server/controller/targets.js:520-535 | a name maps to the first target wearing it in round order, an id to its name |
| TargetOrder.NamesComeBack | server/controller/targets.js:541-614 | a history row exported under a target's name comes back to it exactly when no earlier target wears the name |
| TargetOrder.SoundNamesComeBack | server/controller/targets.js:778-788 | in a store with distinct names every exported name comes back to its own target |
| LineProtocol.LineIffFields | server/integrations/influxdb.js:39-61 | a line is written exactly when some field is a finite number |
| LineProtocol.LineReadsBack | server/integrations/influxdb.js:33-66 | splitting the line where nothing is escaped returns the measurement, every tag that holds something and every finite field in order, and the timestamp, for any measurement and tag text, line breaks read as `OneLineJoins` says |
| LineProtocol.OneLineJoins | server/integrations/influxdb.js:17-32 | a whole run of line breaks, wherever it stands, is one space, and all other text stays |
| LineProtocol.LineHasNoBreak | server/integrations/influxdb.js:17-32 | a written line is one line, whatever the measurement and the tags hold: exactly when no field sent and no timestamp brings a break of its own |

## Left out

- ThrottleRuns.FailureBudget: does not cover clients evicted from a table or reporting a wrong guess past its reservation's deadline; both are named hypotheses, since the code under-counts them on purpose.
- Authentication.Next: the handlers are steps of one machine on values rather than methods, since they interleave at their awaits; their local variables are what each program point carries.
- AuthenticationSafety.AdmissionsAreCurrent: does not cover requests admitted by preview mode or a trusted proxy, which read no password; the setup-token branch of the middleware is one step, as it awaits nothing.
- LocaleRoundTrip.NestFlattenIff: does not model keys that read as array indices, which JavaScript lists apart, nor leaves holding null, which `??=` replaces.
- Restore.NoReattribution: speaks of the history as it was read before the awaits ahead of the write; `RestoreLife` has what comes in between.
- LocaleMerge.LocaleReferenceKey: does not model flat keys every object inherits (`toString`), which `in` finds in any English; the placeholder and tag extraction is a parameter.
- HistoryImport.Tests.ImportTests: the clock is read once for the file; the database's own conversion of a value to its column's type is not modelled, nor columns a file names beside the table's.
- ImportRows.ExportImportIff: date parsing and printing, IP literals and the JSON text of a hop table are parameters.
- ImportRows.ImportedIsSound: asks of the JSON functions that they read back the row's own hop table from the text they write it as, and nothing of any other value.
- TargetRoutes.Routes.PatchOne: the endpoint grammars of iperf3 and OpenSpeedTest, and String() of a value, are parameters.
- TargetStatistics.ListStatisticsByTarget: what is computed from the rows and the choice of the comparison window are parameters; rows of one instant are read in one order by both reads.
- LineProtocol.LineReadsBack: field keys and number texts are assumed to need no escape, as the names and numbers the sender passes do not; `parseTags` is not modelled.
- Timer.Module.StartTimer: cron parsing and time zones are parameters, and the random length of the offset with its cap (`calculateMaxDelay`) is not modelled.
- Eviction fairness of the reservation table: the code leaves it open.
- The password reset process, session expiry other than as sessions dropping at any time, cookies, the refusal texts and the hooks that clear tables for tests.
- The rest of a restore (nodes, integrations, settings), target columns other than id and name in it, and its transaction's rollback.
- The warning counts of a restore, the quiet base MQTT topic, what a viewer may see of a target, and the scope of the alerts.
- The locale gap report other than its leftovers, and the JSON text of a file.
- Notification senders, MQTT, email, image rendering, node proxying and the client.
