# Verified model of the media index

A Dafny model of media-insights: a service that keeps a database of video files in step with disk, writes
every change to a transactional outbox, delivers that outbox, and derives verdicts (anime, series, film,
subtitle coverage) from the stored rows.

- `Prelude`, `Catalog`, `Probing` hold the shared vocabulary: the rows, the outbox log, the structural
  invariant, and what a probe does to a row.
- `Ingest` and `Upkeep` give each transaction of the scanner as a function from state to state; `Service`
  is the scanner itself, a class whose methods update the tables step by step and are proved to reach those
  states.
- `Contents` and `Identities` say, column by column, what a committed file leaves in its file row and in its
  title and season rows.
- `History`, `Runs`, `Homes`, `Labels`, `Scan`, `Accounting` prove what every run, every scan and every
  title's life keeps.
- `Debounce` is the watcher's handler, as a class and as a protocol of feeding and firing threads;
  `Dispatch` the delivery loop, as a class and as a protocol with crashes.
- `Migration` brings databases to head over a revision chain of any length.
- `Audio` and `Classifier` model the scored verdicts, `ScoreSheet` reads them signal by signal: what each is
  worth, which reason it puts on record, what it does to a verdict. `Verdicts` is what they make of stored rows,
  `Fingerprint` what each strategy feeds to the hash, `Coverage` the subtitle report, `Walker` the
  `.plexmatch` search, `RateLimit` the providers' throttle.

Transactions are atomic steps that commit or roll back. Calls into ffprobe, guessit, the matcher, the
providers and the file system are parameters: an `Observation` holds what they answered, `None` where they
raised. A `World` maps fingerprints to content where a claim assumes that equal fingerprints mean equal
content.

## What the code does against its own comments

- A file whose match moves to another title or season is not moved: its insert hits the unique index on path
  (`Ingest.ProcessFailsExactlyWhen`) and fails for as long as the row is stored (`Homes.MovedFilesKeepFailing`);
  a scan never removes that row while the file exists (`Homes.MovedFilesFailEveryScan`).
- A scan that finds a title's last file gone removes the title and then still relabels it, because the
  collection it goes over was loaded before: it can write an item.reclassified event for a title that no longer
  exists (`Scan.RemovedTitleEchoesExactlyWhen`, `Verdicts.EmptiedAnimeIsAnnounced`).
- The library hint is said to be strictly below the weakest real signal; it equals `_PARSED_SHOW`
  (`Classifier.ParsedShowLosesToAMovieFolder`), and the anime lean is read after the hint is added
  (`Classifier.AnimeFolderMakesAnimeMoviesExactlyWhen`).
- A stray `.plexmatch` above the library cannot hijack a bounded search, but it can hijack a scan, which only
  leaves out the library's own parent (`Walker.SearchesAgreeExactlyWhen`).
- The drift repair cannot mend a base schema stamped strictly inside the chain
  (`Migration.WrongStampRepairedExactlyWhen`), nor can any later run (`Migration.WrongStampIsFinal`).
- Lowering `max_attempts` leaves events pending that are never due again (`Dispatch.SettledUnlessStranded`).
- A callback that raises loses the rest of its batch (`Debounce.RaisingLosesTheRest`); nothing is lost exactly
  when every one that raised was handling the last path of its batch (`Debounce.NothingDroppedExactlyWhen`).

## Model

| member | source | states |
|---|---|---|
| Ingest.OutcomesExactlyWhen | src/media_insights/scanner/service.py:376-491 | a committed file is added if and only if its path was not stored; otherwise its row is probed if and only if forced or the stored fingerprint or mtime is not the file's, and changed, with an event, if and only if it was probed, its digest moved, and a gap-free column, the subtitle summary or the number of tracks with it |
| Contents.OutdatedFilesAreProbed | src/media_insights/scanner/service.py:412-465 | a committed file that is new, forced, or stored with another fingerprint or mtime than its stat leaves a row that shows its probe, column by column |
| Contents.RefreshedShows | src/media_insights/scanner/service.py:186-274 | what a probe makes of a row: digest, mtime and size are the present ones; a given container, duration or bit rate replaces the stored one and an absent (or zero) one keeps it; the four picture columns are the first video stream's or stay; every stream is an embedded track and every sidecar an external subtitle after the last position |
| Contents.CompactSummarises | src/media_insights/scanner/service.py:264-274 | a summary is missing if and only if there is no track of its kind, otherwise it is their language/codec entries in order, separated by commas |
| Contents.RowsStaySummarised | src/media_insights/scanner/service.py:259-274 | in every state of every run both summaries of every stored row are those of its own stored tracks, external subtitles included |
| Identities.CommittedTitle | src/media_insights/scanner/service.py:90-143 | the title and season rows of a committed file: the season number is the match's for a show and missing for a film, a new title takes the match's ids, a known one only fills in what it lacks, and nothing else of it moves |
| Identities.EnrichmentFillsIn | src/media_insights/scanner/service.py:692-722 | a provider hit stores its answer and fills in ids, and makes the title matched unless its status was set by hand or no id was resolved; a miss only clears the stored answer |
| Identities.KnownIdsStay | src/media_insights/scanner/service.py:90-130 | over every run, while a title lives and is not identified by hand, no external id it knows is ever overwritten |
| Ingest.SilentMovesExactlyWhen | src/media_insights/scanner/service.py:479-491 | exactly when a committed file moves its row without an event: it was probed and the digest stayed, or nothing an event looks at moved; the subtitle summary moves silently if and only if the digest stayed and the sidecars or streams now read differently |
| Ingest.ProcessFailsExactlyWhen | src/media_insights/scanner/service.py:376-476 | for every sound state: a file's transaction rolls back if and only if the match raises, or its path is already filed under another title or season (the unique index refuses the insert), or something it must read cannot be read |
| Homes.HomesNeverMove | src/media_insights/scanner/service.py:404-425 | in every run, for as long as a row is stored its path, title and season number never change, whatever its file is matched to later |
| Homes.MovedFilesKeepFailing | src/media_insights/scanner/service.py:406-427 | in every run, from the moment a row is stored until it is removed, every scan of its path that matches another title or season rolls back and leaves the database as it was |
| Homes.AnyMovedFileFails | src/media_insights/scanner/service.py:376-476 | it happens: a two-step run from the empty database for any readable file and any two matches that differ |
| Homes.MovedFilesFailEveryScan | src/media_insights/scanner/service.py:331-373 | a stored file that still exists and is matched elsewhere is an error in every scan of its library, forced or not, and the scan leaves its row where it is for the next one to fail on |
| Ingest.FoundIffHome | src/media_insights/scanner/service.py:406-410 | a row is found under the selected season if and only if library, title and season number are those of the match |
| Ingest.ProcessUpserts | src/media_insights/scanner/service.py:376-476 | a committed file touches at most one title, one season and one file row, which sit under one another, and nothing else |
| Ingest.ProcessKeepsStructure | src/media_insights/models.py:101-115 | foreign keys, globally unique paths, one title per library, one season per number (the missing number included) and no empty parents survive every file, committed or not |
| Upkeep.SweepKeepsStructure | src/media_insights/scanner/service.py:498-536 | removing any listed rows with their empty seasons and titles keeps all five structural properties |
| Upkeep.SweptExactly | src/media_insights/scanner/service.py:498-520 | whatever is removed: each removed row leaves one event with its last contents, the other rows stay as they are, and of the seasons and titles exactly those stay that still have something under them |
| Upkeep.PruneExactly | src/media_insights/scanner/service.py:523-536 | a prune removes the rows of its own library whose path is not on disk, each once, and no others |
| Upkeep.SecondPassIsSilent | src/media_insights/scanner/service.py:583-678 | a second reclassification of any of the titles of a first pass, in any order, changes no row and writes no event, for any way of judging a title by its rows |
| Upkeep.RemovedTitleEchoesExactlyWhen | src/media_insights/scanner/service.py:583-650 | a pass over a collection that still holds a removed title writes one event for it if and only if, judged without files, it gets another label than it last had |
| Verdicts.PassStoresClassify | src/media_insights/scanner/service.py:583-650 | after a pass every title that is not overridden carries the label, confidence and reasons classify gives for its stored rows, then and still |
| Verdicts.RowsReachClassify | src/media_insights/scanner/service.py:593-618 | classify is given the title's own kind, ids and library kind, the number of its files, and every file's streams in stored order |
| Verdicts.StoredAnswersReachClassify | src/media_insights/scanner/service.py:560-580 | a stored provider answer reaches classify if and only if its source has a name, with the title's own kind |
| Verdicts.FirstFileNames | src/media_insights/scanner/service.py:595-597 | the release name is the last path component of the first file handed out, and is parsed unless empty; without files there is neither |
| Verdicts.ReclassifyingTwiceIsOnce | src/media_insights/scanner/service.py:653-678 | with the modelled classify as the judge: reclassifying twice is reclassifying once |
| Verdicts.StoredDubsAreSilent | src/media_insights/scanner/service.py:593-618 | muxing a non-default dub into any stored file with a default audio track, anywhere in its track list and renumbering the rest, leaves every title's verdict as it is; reclassifying an up-to-date title then changes no row and writes no event |
| Verdicts.EmptiedAnimeIsAnnounced | src/media_insights/scanner/service.py:365-368 | a show called anime by its files alone: the scan that removes it announces it as tv (or movie in a movie library) after it is gone |
| Runs.RunsStaySound | src/media_insights/scanner/service.py:376-549 | in every state of every run: the structural invariant, and replaying file.added and file.removed over paths gives exactly the paths in the file table |
| Runs.RunsWriteLifecycles | src/media_insights/scanner/service.py:376-549 | in every run each path's events read (added changed* removed)* up to a prefix, and the path is stored exactly when its last event is no removal |
| Runs.RunsAreGapless | src/media_insights/scanner/service.py:186-230 | if equal fingerprints mean equal content, in every run each old snapshot agrees with the path's last new snapshot on the nine gap-free columns, silent re-probes included, and that snapshot is what the row holds |
| Runs.ConsecutiveEventsAgree | src/media_insights/scanner/service.py:432-491 | the same between any two consecutive events of one path |
| Runs.RefreshIsStable | src/media_insights/scanner/service.py:186-230 | re-probing content already seen cannot move the gap-free columns, and a probe judged not meaningful leaves them where they were |
| Runs.StepIsGapless | src/media_insights/scanner/service.py:432-491 | one transaction of any kind keeps the log gapless and its last word equal to the row |
| Runs.ProcessTells | src/media_insights/scanner/service.py:432-465 | a committed file writes at most one event: an added file its new contents, a changed file its contents before and after |
| Runs.StepKeepsStructure | src/media_insights/scanner/service.py:376-549 | one transaction of any kind keeps the structural invariant |
| History.OrderlyLogsAreLifecycles | src/media_insights/scanner/service.py:441-512 | a log whose replay never stumbles is, path by path, a sequence of lifecycles |
| History.GaplessMeansConsecutive | src/media_insights/scanner/service.py:441-465 | gapless is what it says of two consecutive events of a path |
| Labels.LabelsChain | src/media_insights/scanner/service.py:583-645 | while a title lives, under any interleaving of scan, enrich, identify and override: its item.reclassified events chain from the label it started with, each moves the label, and an unpinned title carries the last one |
| Labels.ChainsMeanConsecutive | src/media_insights/scanner/service.py:621-645 | chaining means: each event's old label is the previous event's new label |
| Labels.OverridesAreFinal | src/media_insights/scanner/service.py:590-591 | after a manual override no item.reclassified event is ever written for the title again, and it stays overridden |
| Scan.ScanConverges | src/media_insights/scanner/service.py:331-373 | after an error-free scan of a fixed disk every walked path has its row under the matched season with exactly the fingerprint and the mtime of its stat, and no row of the library lacks its file |
| Scan.SecondScanIsQuiet | src/media_insights/scanner/service.py:406-421 | an unforced scan of an indexed, unchanged library reports every file unchanged, removes nothing, moves no row and writes no file event |
| Scan.ScansSettle | src/media_insights/scanner/service.py:331-373 | whatever the index held before, an error-free scan makes the next unforced one quiet |
| Scan.ScansEndJudged | src/media_insights/scanner/service.py:365-368 | when a scan has completed, every title of its library not set by hand carries the label, confidence and reasons its rows call for |
| Scan.TurnsJudgeExactlyWhen | src/media_insights/scanner/service.py:335-363 | in between, all titles are relabelled after exactly every committed file whose number is a multiple of 200; any other file leaves just its own transaction |
| Scan.ScanKeepsStructure | src/media_insights/scanner/service.py:331-373 | a whole scan keeps the structural invariant |
| Scan.RemovedTitleEchoesExactlyWhen | src/media_insights/scanner/service.py:365-368 | the events a scan's last transaction writes about a title it removes: the one a verdict without files calls for, if and only if that moves its last label |
| Accounting.ScanAccounts | src/media_insights/scanner/service.py:335-373 | on a completed scan seen = added + changed + unchanged + errors, the library's rows grow by exactly added - removed, items_added bounds the titles gained from above, and no row elsewhere moves |
| Accounting.SummaryMatchesOutbox | src/media_insights/scanner/service.py:335-373 | a completed scan counted as many added, changed and removed files as it wrote file.added, file.changed and file.removed events, and as many errors as files whose transaction rolled back |
| Probing.ReprobeIsStable | src/media_insights/scanner/service.py:186-274 | of two probes of the same content the later one decides the whole row, whatever was stored before: with the same sidecars nothing moves, with others only the track list and the subtitle summary |
| Probing.PositionsStayDistinct | src/media_insights/scanner/service.py:233-256 | external subtitles continue the stream positions, so positions stay strictly increasing |
| Probing.ApplyProbe | src/media_insights/scanner/service.py:186-230 | the row after a probe, written field by field, is the prior row with each value the probe gave and the prior value where it gave none |
| Probing.AddSidecars | src/media_insights/scanner/service.py:233-256 | appends one external subtitle track per sidecar after the last position |
| Prelude.FreshId | src/media_insights/models.py:107-115 | the id a new row gets: one past the largest in use, so ids return once the largest rows are gone |
| Service.Store.ItemRecord | src/media_insights/scanner/service.py:90-130 | finds the title or inserts it, filling in missing ids of an existing one |
| Service.Store.SeasonRecord | src/media_insights/scanner/service.py:133-143 | finds the season by number, the missing number included, or inserts it |
| Service.Store.ProcessFile | src/media_insights/scanner/service.py:376-476 | the transaction body reaches exactly the state and outcome Process names |
| Service.Store.ScanFile | src/media_insights/db.py:182-195 | inside session_scope an exception restores the state before it; otherwise the state is the committed one |
| Service.Store.RemoveFile | src/media_insights/scanner/service.py:498-512 | writes the removal with the last snapshot, then drops the row |
| Service.Store.CleanupEmpty | src/media_insights/scanner/service.py:515-520 | drops the title's empty seasons, then the title if none is left |
| Service.CleanupIsEnough | src/media_insights/scanner/service.py:515-520 | cleaning up only the titles that lost a file leaves no empty parent anywhere |
| Service.Store.PruneMissing | src/media_insights/scanner/service.py:523-536 | three nested loops over changing collections remove exactly the library's rows whose file is gone, each once, each with its event, and every parent left empty |
| Service.Store.HandleMissingPath | src/media_insights/scanner/service.py:539-549 | removes the path's row if there is one, and says whether there was |
| Service.Store.ReclassifyItem | src/media_insights/scanner/service.py:583-645 | relabels one title; reports a change exactly when it wrote an event |
| Service.Store.ReclassifyLoaded | src/media_insights/scanner/service.py:648-650 | relabels every title of a loaded collection once, those deleted since it was loaded included |
| Service.Store.ReclassifyLibrary | src/media_insights/scanner/service.py:648-650 | in a transaction of its own it relabels every title of the library once |
| Service.Store.FinishScan | src/media_insights/scanner/service.py:365-368 | the prune and the relabelling of one transaction, over the titles as loaded before the prune |
| Service.Store.ScanLibrary | src/media_insights/scanner/service.py:284-373 | the whole loop with its counters, periodic relabelling, prune and final relabelling is a scan in the sense of the lemmas above |
| Debounce.DebouncedHandler.Feed | src/media_insights/scanner/watcher.py:63-72 | stamps the path; starts a timer, due one debounce interval later, only when none is live; does nothing once stopped |
| Debounce.DebouncedHandler.TakeDue | src/media_insights/scanner/watcher.py:74-78 | the critical section of _fire: the batch is every pending path, in order, and nothing stays pending |
| Debounce.DebouncedHandler.Stop | src/media_insights/scanner/watcher.py:56-61 | sets the flag and cancels the timer |
| Debounce.TimersRunFromTheFirstFeed | src/media_insights/scanner/watcher.py:63-72 | in every reachable state a live timer is due exactly one debounce interval after the first feed since the last firing, and without a timer there was none (unless stopped) |
| Debounce.NoFiringComesEarly | src/media_insights/scanner/watcher.py:69-78 | no firing comes before the first feed since the previous one has waited the full interval, and that path is in its batch |
| Debounce.BatchesKeepFeedOrder | src/media_insights/scanner/watcher.py:67-80 | in every reachable state the pending paths, and so every batch, are those fed since the last firing, each once, in the order first fed |
| Debounce.NothingIsLost | src/media_insights/scanner/watcher.py:63-80 | in every reachable unstopped state every feed is handed over since, in a firing thread's batch taken since, pending under a live timer due within its debounce interval, or dropped by a callback that raised |
| Debounce.NothingDroppedExactlyWhen | src/media_insights/scanner/watcher.py:74-80 | in every reachable state: nothing has been dropped if and only if every callback that raised so far was handling the last path of its batch |
| Debounce.RaisingLosesTheRest | src/media_insights/scanner/watcher.py:79-80 | a callback that raises loses the rest of its batch: a run in which a fed path is never handed over |
| Debounce.QuiescentMeansHanded | src/media_insights/scanner/watcher.py:63-80 | once nothing is pending or in flight, every feed was followed by a hand-over (or a drop) |
| Debounce.TakenWithinDebounce | src/media_insights/scanner/watcher.py:69-72 | with punctual timers a firing thread has every feed after one debounce interval |
| Debounce.BurstsCoalesce | src/media_insights/scanner/watcher.py:41-46 | a path is never handed over more often than it was fed |
| Dispatch.MaxAttempts | src/media_insights/events/dispatcher.py:65 | the largest budget among the webhooks, ten without any |
| Dispatch.Dispatcher.DueEvents | src/media_insights/events/bus.py:69-79 | exactly the pending events under the budget, each once, oldest first |
| Dispatch.Dispatcher.Dispatch | src/media_insights/events/dispatcher.py:88-126 | every target is called in order; the event is marked sent if and only if some webhook or hook accepted it, otherwise it counts an attempt and is given up at the budget; a deleted row is skipped |
| Dispatch.Dispatcher.DrainOnce | src/media_insights/events/dispatcher.py:62-86 | a due event is sent if and only if some target accepted it, else retried or given up by its own attempts; no other row moves, and nothing is called when there is no target |
| Dispatch.DrainExactly | src/media_insights/events/dispatcher.py:62-126 | every row after a drain, written out: pending under the budget becomes skipped without targets, sent if some target accepted it, failed at the budget, or pending with one more attempt; any other row is as it was |
| Dispatch.CallAt | src/media_insights/events/dispatcher.py:96-112 | the deliveries of a drain are event by event and target by target, each pair exactly once |
| Dispatch.RunsStaySound | src/media_insights/events/dispatcher.py:62-126 | with fixed hooks and a positive budget, crashes anywhere included: attempts never pass the budget, no pending event is stranded at it, sent means some target accepted, and an acceptance not recorded was lost by a crash |
| Dispatch.SettledForever | src/media_insights/events/dispatcher.py:62-126 | sent, failed and skipped are absorbing over every run |
| Dispatch.StatusesTellTheTruth | src/media_insights/events/bus.py:82-91 | sent implies accepted; failed though accepted implies a crash between delivery and marking |
| Dispatch.OnlyCrashesLoseAcks | src/media_insights/events/dispatcher.py:114-126 | without crashes no acceptance goes unrecorded |
| Dispatch.UninterruptedDrainIsDrained | src/media_insights/events/dispatcher.py:62-86 | the protocol's deliver and mark steps, left alone with the answers the targets give, leave exactly the rows drain_once leaves for those answers |
| Dispatch.DrainUsesAttempts | src/media_insights/events/dispatcher.py:62-126 | open attempts fall by at least the number of due events in every completed drain |
| Dispatch.SettledUnlessStranded | src/media_insights/events/bus.py:69-79 | as many drains as the budget settle a pending event if and only if it was under the budget; one at it already, as after lowering max_attempts, is never due again |
| Migration.Migrator.FindMissing | src/media_insights/db.py:80-101 | finds exactly the model columns absent from tables that exist |
| Migration.Migrator.RunMigrations | src/media_insights/db.py:105-168 | the steps of run_migrations reach Migrated, or leave what a failing upgrade leaves behind a committed stamp; a URL already migrated is left alone, one that failed is not marked migrated |
| Migration.FailureIsPermanent | src/media_insights/db.py:143-166 | whatever a failing upgrade leaves (rolled back, or any number of its columns added and any revision it completed recorded), a failed run leaves a database on which the next one fails too |
| Migration.AttemptsAgree | src/media_insights/db.py:121-168 | over any number of runs, each on what the one before left: all succeed or none does, if and only if the first database was migratable |
| Migration.WrongStampIsFinal | src/media_insights/db.py:150-166 | a base schema stamped strictly inside the chain is never brought to head, by this run or any later one |
| Migration.MigratesExactlyWhen | src/media_insights/db.py:132-168 | for every chain and every database: success if and only if the database is migratable, and then it is at head with no model column missing |
| Migration.MigratedHasEveryColumn | src/media_insights/db.py:154-166 | a migrated database has every model column in every model table it has |
| Migration.MigrateFromRevision | src/media_insights/db.py:147-166 | from a recorded revision: succeeds exactly when no later column exists, no base column is absent, and either nothing earlier is absent or there is nothing later and no post-base column at all |
| Migration.ReplayWorksExactlyWhen | src/media_insights/migrations/versions/3c2759616df0_add_provider_metadata_columns_to_media_.py:17-30 | replaying added columns succeeds exactly when every table exists and no column does |
| Migration.FreshStartsConverge | src/media_insights/db.py:143-147 | an empty database and an unversioned base-schema database reach the same schema at head |
| Migration.RecordedPrefixConverges | src/media_insights/db.py:147-148 | a database that is what its recorded revision made it reaches that schema, for any revision |
| Migration.WrongStampRepairedExactlyWhen | src/media_insights/db.py:150-166 | a base schema under any stamp is repaired if and only if the stamp skips no column or no column comes after it; strictly inside the chain the repair hits a duplicate column |
| Migration.MigratingTwiceIsMigratingOnce | src/media_insights/db.py:121-123 | migrating a migrated database changes nothing |
| Fingerprint.PartialFingerprint | src/media_insights/discovery/fingerprint.py:25-38 | feeds the decimal size, the head, then the tail or the rest, without overlap |
| Fingerprint.FullFingerprint | src/media_insights/discovery/fingerprint.py:41-46 | block after block feeds the whole content |
| Fingerprint.PartialFeedAt | src/media_insights/discovery/fingerprint.py:32-38 | the bytes fed behind the size, one by one: the file itself up to two chunks, else its first and then its last chunk |
| Fingerprint.DecimalReads | src/media_insights/discovery/fingerprint.py:29 | the size is fed in base ten without leading zeros |
| Fingerprint.TruncatedDropsTheFraction | src/media_insights/discovery/fingerprint.py:15 | whole seconds are truncated toward zero |
| Fingerprint.PartialFeedFaithful | src/media_insights/discovery/fingerprint.py:25-38 | for any chunk size two files feed the same bytes if and only if size and sampled bytes agree, although the size prefix has no delimiter |
| Fingerprint.SmallFilesAreExact | src/media_insights/discovery/fingerprint.py:25-38 | up to two chunks that means identical content |
| Fingerprint.LargeFilesSeeBothEnds | src/media_insights/discovery/fingerprint.py:25-38 | beyond two chunks it means agreement on the first and last chunk, whatever lies between |
| Fingerprint.StatFeedFaithful | src/media_insights/discovery/fingerprint.py:12-16 | the mtime strategy's feed determines size and whole-second mtime, and nothing more |
| Fingerprint.ChangedExactlyWhen | src/media_insights/discovery/fingerprint.py:49-72 | with an injective hash a file is reported unchanged if and only if its mtime is the stored one and everything its strategy looks at agrees |
| Audio.PrimaryAudioLanguages | src/media_insights/classify/classifier.py:89-113 | the two loops over the dict compute one language per file with tagged audio, in order of first appearance |
| Audio.PrimariesAreOnePerFile | src/media_insights/classify/classifier.py:89-113 | a language is listed if and only if it is some file's primary |
| Audio.PrimaryIsPicked | src/media_insights/classify/classifier.py:98-112 | seen in the list of all streams: a file's primary is its first default stream with a language, or without any the one of least position (the first of equals); it has none exactly when it has no audio stream with a language |
| Audio.JapaneseExactlyWhen | src/media_insights/classify/classifier.py:82-86 | Japanese is exactly ja, jpn and japanese in any capitalisation |
| Audio.OneDub | src/media_insights/classify/classifier.py:105-112 | a non-default audio stream inserted anywhere changes no file's primary language, given a default tagged stream in its own file |
| Audio.RenumberingKeepsEvidence | src/media_insights/classify/classifier.py:105-112 | in a file with a default, tagged audio stream the positions of its streams make no difference to what classify asks of the tracks |
| Classifier.DubsChangeNothing | src/media_insights/classify/classifier.py:89-113 | any number of such dubs, in any language at any position, leaves label, confidence and reasons as they are |
| Classifier.BracketGroupExactlyWhen | src/media_insights/classify/classifier.py:66 | the captured group is exactly the bracketed, nonempty lead of the name |
| Classifier.Classify | src/media_insights/classify/classifier.py:189-268 | scores and reasons updated in place, hint last, reach the verdict that the score sheet and the lemmas here pin down; every point scored has a recorded reason |
| ScoreSheet.ScoresAreTheSheet | src/media_insights/classify/classifier.py:125-256 | the three scores of every title before the hint, as a sum over its signals: which provider answer, parsed kind, id, audio, file count, flag and release group is worth what to which axis |
| ScoreSheet.VerdictOnTheSheet | src/media_insights/classify/classifier.py:176-316 | the label of every title from those sums and the folder's 15, a provider's kind deciding the format before the parsed one |
| ScoreSheet.ConfidenceOnTheSheet | src/media_insights/classify/classifier.py:282-314 | the confidence of every title: the share of the scores its label rests on, both the anime and the film score for an anime movie, 0 when nothing scored |
| ScoreSheet.ReasonsExactlyWhen | src/media_insights/classify/classifier.py:125-256 | a reason stands on an axis if and only if the title carries the signal that calls for it there |
| ScoreSheet.VerdictListsExactly | src/media_insights/classify/classifier.py:258-316 | a verdict lists exactly the reasons of the axis it comes from (of both for an anime movie), the folder's if it named that axis, and the two notes exactly when nothing scored or a folder was outvoted |
| ScoreSheet.AnimeAnswersMatter | src/media_insights/classify/classifier.py:142-151 | against the same title without the answer: "anime" is worth 70 to anime and never takes a title off the anime side, "not anime" 40 to film and series and never puts one on it, in every library |
| ScoreSheet.KindAnswersMatter | src/media_insights/classify/classifier.py:153-162 | a film listing is worth 60 to film and rules out plain anime, a series listing 60 to series and anime and rules out anime movies |
| ScoreSheet.SilentProvidersChangeNothing | src/media_insights/classify/classifier.py:137-162 | a provider that answers neither question leaves the verdict as it is without one |
| ScoreSheet.StreamsMatter | src/media_insights/classify/classifier.py:234-243 | against the same title without streams: a Japanese primary is worth 45 to anime, 70 beside subtitles in another language, and never takes a title off the anime side; other primaries alone are worth 10 to series and never put one on it |
| ScoreSheet.IdsMatter | src/media_insights/classify/classifier.py:226-232 | an anidb id is worth 60 to anime, a tvdb id 20 to series only without an anidb and an imdb id |
| ScoreSheet.FileCountMatters | src/media_insights/classify/classifier.py:245-254 | a lone file not parsed as an episode is worth 15 to film, several files 5 to series and anime alike |
| ScoreSheet.ParsedKindMatters | src/media_insights/classify/classifier.py:219-224 | a parsed film is worth 30 to film; a parsed episode 15 to series, and its lone file no longer speaks for a film |
| ScoreSheet.NamesMatter | src/media_insights/classify/classifier.py:319-347 | what a release name adds, all of it to anime: 20 for the parser's flag, 40 for a known group parsed or bracketed, 15 for an unknown bracket; it never takes a title off the anime side |
| Classifier.Tally.Pick | src/media_insights/classify/classifier.py:271-316 | the first of the best labels in the order movie, tv, anime; the notes go to its reasons; a movie format that leans anime becomes anime_movie with the merged reasons and the share of both scores |
| Classifier.LabelsExactlyWhen | src/media_insights/classify/classifier.py:165-186 | anime_movie exactly for movie formats with more anime than series points; plain anime never for a movie format |
| Classifier.ConfidenceIsAShare | src/media_insights/classify/classifier.py:282-286 | confidence lies between 1/3 and 1 when anything scored, above 1/2 for anime_movie, and with no score the title is a movie with confidence 0 |
| Classifier.AnimeIsMonotone | src/media_insights/classify/classifier.py:165-173 | more anime points never take a title off the anime side |
| Classifier.ReasonsAccountForConfidence | src/media_insights/classify/classifier.py:3-6 | the points of the reasons listed with a verdict are the whole numerator of its confidence, and at least one reason is listed |
| Classifier.MergeDropsNothing | src/media_insights/classify/classifier.py:307-314 | merging the anime and movie reasons by dict.fromkeys drops none |
| Classifier.HintChangesTheWinnerExactlyWhen | src/media_insights/classify/classifier.py:258-263 | a hint changes the raw winner if and only if it lifts its own axis over it; the new winner is the hinted axis and was within 0.15 of the best |
| Classifier.HintCannotMatterExactlyWhen | src/media_insights/classify/classifier.py:258-316 | exactly which evidence gives the same final label under every library kind, as an inequality between the three scores |
| Classifier.FoldersAgreeExactlyWhen | src/media_insights/classify/classifier.py:214-268 | for whole titles and every hint string: all folders give the same verdict if and only if the title's scores satisfy those inequalities |
| Classifier.ClearEvidenceOutvotesEveryFolder | src/media_insights/classify/classifier.py:7-15 | a lead of more than 0.15, and anime and series more than 0.15 apart, fix the label in every library |
| Classifier.LoneEvidenceOutvotedExactlyWhen | src/media_insights/classify/classifier.py:31-35 | evidence for one axis alone loses to a contrary folder if and only if it is below 0.15, or equal with the folder's axis first |
| Classifier.ParsedShowLosesToAMovieFolder | src/media_insights/classify/classifier.py:61 | a parsed show with no other evidence is called a movie in a movie library, against the comment at lines 31-34 |
| Classifier.AnimeFolderMakesAnimeMoviesExactlyWhen | src/media_insights/classify/classifier.py:261-307 | in an anime library a movie-format title becomes anime_movie if and only if its series evidence is below its anime evidence plus the hint |
| Classifier.EnglishFilmInAnimeFolder | src/media_insights/classify/classifier.py:307 | an English film with no anime evidence is such a title |
| Coverage.ComputeCoverage | src/media_insights/subtitle_coverage.py:98-135 | the grouping loop yields one finished group per item, in order of first appearance |
| Coverage.ReportIsExact | src/media_insights/subtitle_coverage.py:70-135 | every asked-for show with a file appears exactly once, with exactly its files, exact counts, complete if and only if every file has the language |
| Coverage.EpisodesTellTheFiles | src/media_insights/subtitle_coverage.py:70-125 | every file is reported with its own path and season, and as having the language if and only if one of its subtitle tracks is in it |
| Coverage.EpisodesKeepOrder | src/media_insights/subtitle_coverage.py:98-125 | a group lists its episodes in the order they were read |
| Coverage.TitlesKeepOrder | src/media_insights/subtitle_coverage.py:98-132 | the report lists titles in the order of their first rows |
| Coverage.CountsDecide | src/media_insights/api/app.py:375-384 | counts decide: all covered if and only if no file lacks the language, none covered if and only if no file has it, which is the missing-subtitle filter |
| Coverage.EachRowCountedOnce | src/media_insights/subtitle_coverage.py:98-130 | the totals of the groups add up to the number of joined rows |
| Walker.Memo.Nearest | src/media_insights/discovery/walker.py:46-61 | whatever was asked before, the memoised search returns what the uncached one would |
| Walker.FindNearest | src/media_insights/discovery/walker.py:80-92 | the first marked directory on the way up, looking no further than `stop_at` |
| Walker.UntilIsNearestBelowRoot | src/media_insights/discovery/walker.py:80-92 | stopped at the root, the search finds the deepest marked directory from the root down, and only that |
| Walker.MarkedIsNearest | src/media_insights/discovery/walker.py:46-61 | the scan's search finds the deepest marked ancestor other than the root's own parent |
| Walker.SearchesAgreeExactlyWhen | src/media_insights/discovery/walker.py:46-92 | the two agree if and only if there is a mark at or below the root, or none strictly above the root's parent |
| Walker.StrayMarkHijacksScans | src/media_insights/discovery/walker.py:83-84 | a stray .plexmatch two levels above the library answers for its files in a scan, and not in a bounded search |
| Walker.IterVideoFiles | src/media_insights/discovery/walker.py:30-77 | the walk yields the visible video files with their nearest .plexmatch |
| Walker.WalkFindsExactly | src/media_insights/discovery/walker.py:63-74 | a path is yielded if and only if it is listed as a video file with no hidden component |
| Walker.WalkTells | src/media_insights/discovery/walker.py:63-74 | the walk yields the visible video files in the order listed, each once, each with its own parent and the deepest marked ancestor of its own path other than the root's parent |
| Walker.LoneFileTells | src/media_insights/discovery/walker.py:39-44 | a library path that is a video file is yielded alone, hidden or not, with the deepest mark anywhere above it |
| Walker.HiddenAncestorHidesAll | src/media_insights/discovery/walker.py:26-27 | a hidden directory above the library hides all of it |
| RateLimit.RateLimiter.Wait | src/media_insights/matching/providers/http.py:47-53 | each release is at least one interval after the previous one |
| RateLimit.SpacedApart | src/media_insights/matching/providers/http.py:42-53 | the i-th and j-th releases are at least (j - i) intervals apart |
| RateLimit.MinuteHoldsAtMost | src/media_insights/matching/providers/http.py:35-40 | any half-open minute holds at most per_minute releases, or one where per_minute is less |

## Left out

- Library purge: its cascade deletes rows without events, so it lies outside the replay claims; likewise a scan that stops because its library was deleted midway.
- Races between `handle_missing_path` and a running scan: it takes no library lock, and that it is one atomic transaction among the others is an assumption.
- Service.Store: rows are values in the table fields, so two references to one row object, and the order in which the ORM loads a collection, are not modelled; loops over a collection take its members in any order.
- Ingest.Process: `last_seen`, `episode_numbers`, `episode_title` and the fingerprint strategy name are not row columns here; the episode columns are overwritten before the old snapshot is taken, so no history claim covers them.
- Runs.RunsAreGapless: needs equal fingerprints to mean equal content; the subtitle summary, the track list and the bit rate are outside the gap-free columns, and `Ingest.SilentMovesExactlyWhen` says when they move without an event.
- Verdicts.PassStoresClassify: the order in which a title's rows are handed out, what guessit reads off a file name and the wording of a reason are parameters; the order may depend on seasons and on which file sits where, not on file contents.
- Labels.LabelsChain: manual labels set by identify and override write no item.reclassified event, so after one only the absence of further events is claimed.
- Debounce.NothingIsLost: no claim is made after `stop()`, where an in-flight batch or a feed past the flag check may still deliver.
- Dispatch.RunsStaySound: one dispatcher thread and hooks fixed for the whole run; deletion of outbox rows happens only in `Dispatch.Dispatcher.Dispatch`.
- Migration.Migrator.RunMigrations: revisions that do anything but create the base tables and add columns, such as indexes and the backfill of `language_raw`; an upgrade that fails for reasons outside the schema, such as a full disk.
- Fingerprint.ChangedExactlyWhen: the hash is an injective function; reads are of a file that does not change meanwhile.
- Classifier.Classify: scores are whole hundredths, so float rounding is abstracted; reasons are values rather than sentences.
- Coverage.ReportIsExact: the SQL order of the joined rows (any order is allowed) and the episode numbers carried along.
- Walker.IterVideoFiles: paths are absolute, the file system does not change during one walk, and the suffix tables are reduced to the kind of each listed file.
- RateLimit.RateLimiter.Wait: the clock is monotonic and sleep never returns early; a wait holds the lock, so waits are sequential.
- Retries and `Retry-After` in `request_json`, provider payload parsing, credentials, signing, configuration loading: easy or one-branch facts.
- FastAPI routes beyond identify, override and the missing-language filter, web pages, command-line output, serializers, logging.
- Sidecar file-name matching, language normalisation, guessit and `.plexmatch` parsing: their results are inputs here.
