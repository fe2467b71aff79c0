# Raindrop: verified models of the backup leases, the reader store and its algorithms

This project states in Dafny what the server side of the RSS reader *Raindrop* does in the places
where a mistake would be hardest to see, and proves it. `dafny verify dfyconfig.toml` checks all of it.

It has three parts.

**Backup jobs** (`Backup*.dfy`). Several workers share a job table. A worker claims a job by a
compare-and-set on status and lease token, keeps the lease alive, writes one row per destination, and
ends the job with two separate statements: it counts the rows, then stores a status. `BackupModel` has
the statements, `BackupProtocol` the workers as programs whose every statement (or transaction, where
the code opens one) is one atomic step, with any clock reading, any failure before or after the
statement took effect, and any crash. `BackupSafety` proves an invariant of every run, and
`BackupTheorems` and `BackupOutcomes` what follows from it, and `BackupStatements` says what single
statements do. `BackupRuntime` is one pass of the worker written as the program it is, with others
interfering after every statement; it is proved to be a run of the protocol. `BackupSchedule` has the
slot arithmetic of scheduled backups, and says when their unique index can reject a job.

**The reader store** (`ReaderModel`, `IngestModel`, `Persist*`, `MarkRead`, `Listing`,
`ArticleRetention`, `Reader*`, `Refresh*`). Feeds number their entries with sequences, every ingest
that brings something new takes a generation, a user's read entries are kept as a frontier with
overrides, and purged articles leave a tombstone. Ingest, mark-read, listing and purge are methods of a
repository class over one store, each with the loops of the source. (The source spreads
`impl FeedRepository` over several files; each module here has the part of its file.) `ReaderRuns`
joins them with state patches, subscriptions, leases and run endings into runs of atomic steps, and
`ReaderTheorems` and `RefreshTheorems` prove what holds over all runs: the frontier with overrides
refines a plain set of read entries, following cursors lists exactly the snapshot, a purged article
never returns, and the outbox mirrors the refresh runs. `PersistRetry` is the retry loop of a scheduled
persist, with faults before and after the commit.

**Self-contained algorithms.** `Opml` and `OpmlTree`: the OPML event loop with its depth-tagged stack
against a recursion over the document, `OpmlMeaning`: what that recursion finds, told from the places of
the outlines, and `OpmlImport`: the import of a document. `AddressPolicy` and `Rfc6052`: configured
NAT64 prefixes and section 2.2 of RFC 6052, "IPv6 Addressing of IPv4/IPv6 Translators", and
`AddressMeaning`: the decisions told from the octets of an address. `MutationLimiter`: the
sliding-window limiter against its full history. `EntryIdentity`: normalized text, the byte frames that
identities are hashed from, and which entries are taken for the same. `FeedFinalize`: the pass that
folds candidates with one identity into one entry.

## How things are represented

Identifiers, owners and hashes are natural numbers; hashes are given values and the collision checks
are kept. UUIDs drawn by the code are assumed to be new. Documents bring no identity twice
(`DistinctHashes`), which the last step of parsing sees to (`FeedFinalize.FoldedIsDistinct`). Times are
numbers of nanoseconds, and no statement assumes that clocks agree, except where it says that they do
not go back. The widths of counters are
written out (`I64_MAX`, `I32_MAX`). A transaction that fails restores the tables it found.

## What the proofs brought to light

* The `finish_job` rule could store FAILED together with the error PARTIAL_FAILURE, but no run gets
  there: when the last update takes effect every row is terminal (`BackupTheorems.FinishedJobsAgree`).
* With a clock that goes back, a schedule that is saved again can reach the same slot a second time, and
  the unique index then rejects the job (`BackupSchedule.BackwardClockConflicts`). Exactly the updates
  that put a slot with a job of the user on the grid of the new schedule make that possible
  (`BackupSchedule.StepClear`, `BackupSchedule.ClearExactly`); it cannot happen when each update sets
  the next slot beyond the jobs of its user (`BackupSchedule.RunNeverConflicts`).
* The second length checks of `normalize_stable_text` and `normalize_guid` can never fail
  (`EntryIdentity.NormalizedFits`, `EntryIdentity.RefusedExactly`), and the index frame needs no length limit to be uniquely
  decodable, although its length field is cut to 32 bits (`EntryIdentity.IndexBytesInjective`).

## Model

| member | source | states |
|---|---|---|
| BackupTheorems.FinishAgrees | src/backups/repository.rs:695-744 | when the last update of `finish_job` takes effect in any run, the status stored agrees with the job's rows at that moment (succeeded iff all did, partial iff some did and some failed, failed iff all failed), though they were counted in an earlier unlocked step |
| BackupTheorems.FinishedJobsAgree | src/backups/repository.rs:695-744 | in every reachable state a finished job has rows, all terminal, and its status and error agree with them |
| BackupTheorems.SucceededForever | src/backups/repository.rs:482-663 | in every run a row that has succeeded never changes again, in no column but the reference to a destination that is deleted, although the row writes do not test the status |
| BackupTheorems.FinishedForever | src/backups/repository.rs:695-744 | a finished job and its rows (statuses, byte counts, error codes, destination columns) never change again until the job is deleted, but for references to deleted destinations, which are cleared; no row joins it |
| BackupTheorems.SupersededForever | src/backups/repository.rs:1106-1160 | once a claim is not current it never passes a guard again, for any clock reading |
| BackupTheorems.LostClaimForever | src/backups/repository.rs:818-833 | a worker that has lost its claim has lost it for good |
| BackupTheorems.OneCurrentHolder | src/backups/repository.rs:396-457 | no two workers hold the current claim of one job |
| BackupTheorems.ClaimRaisesToken | src/backups/repository.rs:396-457 | a successful claim is current, raises the job's token by one within 64 bits, and every other claim of the job is older |
| BackupTheorems.CountingRule | src/backups/repository.rs:697-718 | over terminal rows the counting rule means all, some and none |
| BackupTheorems.RunLater | src/backups/repository.rs:396-798 | what every run keeps of jobs, rows, tokens and deleted identifiers, from any state that satisfies the invariant |
| BackupTheorems.WorkKeepsSucceeded | src/backups/repository.rs:579-693 | no step of a worker changes a row that has succeeded, because its list of remaining rows holds none |
| BackupSafety.RunKeepsInv | src/backups/runtime.rs:102-150 | every run of workers and other writers keeps the invariant of jobs, rows, claims and remaining lists |
| BackupSafety.WorkKeepsInv | src/backups/runtime.rs:102-150 | each step of `run_pass` keeps it, whatever it reads from outside |
| BackupRuntime.BackupRuntime.RunPass | src/backups/runtime.rs:102-150 | one pass, with others interfering, is a run of the protocol: it ends idle, completes the cycle unless it fails, and keeps everything that runs keep; it does not fail when nobody interferes, no statement fails and the clock stays within one lease, whatever exports, uploads and decryption do |
| BackupOutcomes.OutcomesWereGiven | src/backups/repository.rs:579-693 | in every reachable state a row that has succeeded has the bytes of an upload made under a live claim, and a row that has failed has the code given under a live claim by a failed upload, an unusable destination, or giving up the job |
| BackupOutcomes.UploadStores | src/backups/repository.rs:614-663 | an upload under a live claim leaves its row succeeded with the bytes exactly when it succeeded, and otherwise failed with the code; a byte count that cannot be stored leaves everything |
| BackupOutcomes.RejectStores | src/backups/repository.rs:614-663 | a row that cannot be executed is failed with the reason |
| BackupOutcomes.GivingUpStores | src/backups/repository.rs:665-693 | giving up a job fails each of its rows that has not succeeded |
| BackupOutcomes.UnusableIsRejected | src/backups/repository.rs:500-552 | a row whose destination is gone, disabled, changed or another user's is set down to be failed as changed |
| BackupOutcomes.RejectedIsNotUploaded | src/backups/repository.rs:500-552 | a row that has been failed so is not uploaded afterwards |
| BackupOutcomes.OnlyResolvedIsUploaded | src/backups/repository.rs:500-552 | only rows whose destination is there, enabled and unchanged come to be uploaded |
| BackupOutcomes.HeartbeatExtends | src/backups/repository.rs:459-480 | a heartbeat under a live claim puts the end of the lease thirty seconds after the clock |
| BackupOutcomes.CleanupExactly | src/backups/repository.rs:787-798 | the cleanup deletes exactly the finished jobs older than seven days, with their rows |
| BackupStatements.WritesNeedLease | src/backups/repository.rs:1106-1160 | a worker writes under its claim only while the job runs for its user, owner and token and the lease has not ended; the last update asks for the claim alone |
| BackupStatements.RequeueExactly | src/backups/repository.rs:396-414 | requeueing takes the lease from exactly the running jobs whose lease has ended |
| BackupStatements.OldestMeans | src/backups/repository.rs:416-422 | candidates are distinct queued jobs, oldest first, with their tokens and users |
| BackupStatements.OldestComplete | src/backups/repository.rs:416-422 | a queued job is left out only for sixteen candidates none of which is younger |
| BackupStatements.WaitingIsClaimed | src/backups/repository.rs:424-457 | a candidate that still waits under its token is claimed with the next token and thirty seconds |
| BackupStatements.OthersArePassed | src/backups/repository.rs:424-457 | any other is passed over and nothing is written |
| BackupStatements.PendingMeans | src/backups/repository.rs:486-500 | rows selected for execution are distinct, ordered by target name, and carry the destination they were queued for |
| BackupStatements.PendingComplete | src/backups/repository.rs:486-500 | exactly the rows that have succeeded are left out |
| BackupStatements.MarkingMeans | src/backups/repository.rs:579-612 | under a live claim a row is marked running and its error cleared |
| BackupStatements.FinishStores | src/backups/repository.rs:719-744 | the final update stores status and error and gives the lease back |
| BackupStatements.DropTargetExactly | src/db/migration/backups.rs:356-363 | deleting a destination clears exactly the references to it |
| BackupStatements.DropUserExactly | src/db/migration/backups.rs:245-363 | deleting a user deletes exactly the user's jobs, their rows and the user's destinations |
| BackupRuntime.BackupRuntime.ClaimNext | src/backups/repository.rs:396-457 | requeues expired jobs, then claims the first claimable candidate or none |
| BackupRuntime.BackupRuntime.PendingExecutionTargets | src/backups/repository.rs:482-552 | lists the rows to execute, failing those whose destination has changed |
| BackupRuntime.BackupRuntime.FinishJob | src/backups/repository.rs:695-744 | the count and the conditional update are two statements of the protocol |
| BackupRuntime.QueryOldestQueued | src/backups/repository.rs:416-422 | the candidates are the oldest queued jobs, oldest first, at most sixteen |
| BackupRuntime.QueryPendingRows | src/backups/repository.rs:487-493 | the pending rows are exactly those of the job that have not succeeded, by target name |
| BackupSchedule.NextSlotIsFirst | src/backups/repository.rs:959-978 | the slot returned is the least `slot + k * interval`, k >= 1, strictly after `now`, despite whole seconds; an error means that slot is not representable |
| BackupSchedule.SlotsStrictlyIncrease | src/backups/repository.rs:209-374 | with a clock that never goes back each user's scheduled jobs have strictly increasing slots, also across changes of the schedule |
| BackupSchedule.MadeSlotIsNew | src/backups/repository.rs:320-374 | then a job is made for a slot beyond every earlier one, and is not rejected |
| BackupSchedule.StepAhead | src/backups/repository.rs:209-374 | when every job lies before the next slot of its user no transaction conflicts, whatever the clock says, and exactly an accepted update that enables a schedule without putting its next slot beyond the jobs of the user ends that |
| BackupSchedule.RunNeverConflicts | src/backups/repository.rs:209-374 | over a run in which each update puts the next slot beyond the user's jobs no transaction conflicts, with clocks that may go back |
| BackupSchedule.StepClear | src/backups/repository.rs:209-374 | when no job lies on the grid of its user's schedule no transaction conflicts, and exactly an update whose grid meets a job of the user ends that |
| BackupSchedule.ClearExactly | src/backups/repository.rs:320-374 | exactly then no sequence of calls that leaves the schedules alone is ever rejected by the unique index |
| BackupSchedule.AheadIsClear | src/backups/repository.rs:209-374 | the simpler of the two conditions implies the exact one |
| BackupSchedule.BackwardClockConflicts | src/backups/repository.rs:320-374 | a concrete run with a clock that goes back is rejected |
| BackupSchedule.ScheduleTable.EnqueueDue | src/backups/repository.rs:320-374 | the transaction, which conflicts exactly when a due, selected slot with a representable successor has a job, and never while jobs lie before the next slots |
| BackupSchedule.MadeJobLeaves | src/backups/repository.rs:320-374 | a job is made for the due slot, and the schedule stays enabled with its interval and waits for the first slot after the clock; other schedules stay |
| BackupSchedule.UnselectedLeaves | src/backups/repository.rs:320-374 | without an enabled destination no job is made and the schedule moves on all the same |
| BackupSchedule.PutLeaves | src/backups/repository.rs:209-296 | an update is accepted for 1 to 720 hours and sets the next slot one interval ahead of the clock |
| IngestModel.NewEntriesInOrder | src/feeds/persistence.rs:302-399 | a new entry gets the sequence of its place among the document's new entries, the ingest's generation and its sort time |
| IngestModel.NewEntrySays | src/feeds/persistence.rs:302-399 | a new entry is sorted by its published time, else by the time of the ingest, and holds the document's content |
| IngestModel.OldEntriesRefreshed | src/feeds/persistence.rs:914-947 | a stored entry keeps all but its content, and holds the document's content if the document brings it again |
| IngestModel.NothingElseAdded | src/feeds/persistence.rs:302-399 | nothing but the document's new entries is added |
| IngestModel.HeadCountsNew | src/feeds/persistence.rs:307-324 | the final head is the old head plus the number of new entries |
| IngestModel.WrittenContentIsIncoming | src/feeds/persistence.rs:914-947 | whichever of the three update statements is chosen, the row then holds the incoming content |
| PersistFeed.FeedRepository.PersistEntries | src/feeds/persistence.rs:320-389 | the loop over lookup batches of 128 with insert batches of 32 leaves what the one-by-one pass leaves, all batches but the last have exactly 32 rows, and for distinct identities it fails only by counting too many updates |
| PersistFeed.FeedRepository.PersistFeedOnce | src/feeds/persistence.rs:282-449 | success leaves exactly the plain pass with head, generation, run, released lease and both events; failure leaves nothing; for distinct identities the outcome is that of `Refusal`, so no data check and no event conflict can be met |
| PersistFeed.FeedRepository.ExistingIdentities | src/feeds/persistence.rs:711-744 | finds the document's live identities, and fails exactly on a collision when identities are distinct |
| PersistFeed.FeedRepository.RecordEvent | src/feeds/lifecycle.rs:212-261 | an event is recorded once: an equal one is accepted, another under the same key or order number is a conflict |
| PersistFeed.FeedRepository.InsertBatch | src/feeds/persistence.rs:1075-1120 | a batch is inserted whole exactly when there is a generation and the unique indexes accept it |
| PersistFeed.PersistedKeepsInv | src/feeds/persistence.rs:282-449 | an accepted document keeps the invariant of the store |
| PersistFeed.PersistedRunSays | src/feeds/persistence.rs:402-449 | the run ends in success or, with dropped entries, in partial success, with its counts; head and lease of the feed follow |
| PersistFeed.RefusedWithoutLease | src/feeds/persistence.rs:649-686 | a document is refused for want of the lease exactly when the feed is not leased to the owner under the token up to a time after the clock, or the run is not running under it |
| PersistLoop.SmoothFits | src/feeds/persistence.rs:337-372 | a document with distinct identities passes every check of the loop body but the update count, and uses up exactly the rows looked up |
| PersistLoop.BatchUsedUp | src/feeds/persistence.rs:373-376 | so the check for leftover rows never fails for it |
| PersistLoop.StepHolds | src/feeds/persistence.rs:337-372 | each step of the batched loop keeps the tie to the plain pass |
| Persistence.PendingAccepted | src/feeds/persistence.rs:1075-1120 | the unique indexes accept every pending batch of a document with distinct identities |
| PersistRetry.PersistFeedScheduled | src/feeds/persistence.rs:260-280 | over up to three attempts with faults before or after the commit and others in between: an attempt is made exactly when all before it reported a transient error, the last one made is reported, and each does what its fault has it do; the first that does not fail transiently succeeds if it meets no fault and nothing refuses the document; the document is applied at most once, success means exactly once, and an applied run shows its counts and exactly its two events |
| PersistRetry.GottenThrough | src/feeds/persistence.rs:260-280 | after attempts that failed transiently without effect, one without a fault is the one reported and succeeds unless the store it finds refuses the document |
| PersistRetry.RunsAreOthers | src/feeds/persistence.rs:260-280 | every run of the reader that draws other identifiers is something the retry loop allows for |
| MarkRead.FeedRepository.MarkReadForUser | src/feeds/bulk_read.rs:29-126 | exactly the visible entries ingested by the snapshot become read for the user: all of them, those of one feed, or those of the feeds in one category; all others keep their status, stars stay, frontiers never move back, and the number of changed subscriptions is returned; a failure changes nothing |
| MarkRead.MarksScope | src/feeds/bulk_read.rs:200-226 | marking the subscriptions selected for a scope marks exactly the entries that the scope means |
| MarkRead.FeedRepository.MarkFeeds | src/feeds/bulk_read.rs:74-126 | the loop over subscriptions, with its count |
| MarkRead.FeedRepository.TargetSequence | src/feeds/bulk_read.rs:252-285 | the largest sequence of a visible entry ingested by the snapshot |
| MarkRead.TargetMeans | src/feeds/bulk_read.rs:252-285 | that is the largest sequence the user sees in the feed by the snapshot, and none without such an entry |
| MarkRead.RevisionMovesOn | src/feeds/bulk_read.rs:88-121 | a changed subscription gets the next revision, the frontier moves to the target unless it is there, and start and category stay |
| MarkRead.BoundsAgree | src/feeds/bulk_read.rs:252-285 | up to that sequence lie exactly the entries up to that generation |
| MarkRead.MarkOneExact | src/feeds/bulk_read.rs:88-121 | the two statements and the frontier of one subscription mark exactly what was asked for |
| MarkRead.LaterEntriesStayUnread | src/feeds/bulk_read.rs:359-396 | a frontier never reaches sequences that are yet to be handed out |
| Listing.FeedRepository.ListForUser | src/feeds/query.rs:134-196 | a page holds the first matching entries after the cursor in order, and a next cursor is issued exactly when more match, also when others act between the reading of the generation and that of the entries |
| Listing.WalkLists | src/feeds/query.rs:134-196 | following cursors lists in strict order only entries that matched at the first page, and misses none that still matches at the last |
| Listing.ItemsBelong | src/feeds/query.rs:329-414 | each item of a page is visible, ingested by the snapshot, of the feed and category asked for, in the state asked for, and shows its sort time and status |
| Listing.PagesDescend | src/feeds/query.rs:329-414 | sort times never grow along a page, and identifiers fall among equal ones |
| Listing.LeftOutIsOlder | src/feeds/query.rs:134-196 | what a page leaves out is no newer than what it shows |
| Listing.WalksDescend | src/feeds/query.rs:134-196 | nor do sort times grow from page to page |
| Listing.ContainsMeans | src/feeds/query.rs:329-414 | a search term is contained when the text reads so somewhere |
| Listing.MatchesExactly | src/feeds/query.rs:329-414 | the statement selects exactly the visible entries ingested by the snapshot that are of the feed and category, hold every term and have the state asked for |
| Listing.UnreadConditionExact | src/feeds/query.rs:329-414 | the condition of the unread listing is the negation of the read column |
| ArticleRetention.FeedRepository.PurgeReadArticles | src/feeds/article_retention.rs:67-113 | the oldest hundred purgeable entries are deleted with their states and leave tombstones; only on SQLite and only when the stored settings are valid and say so, with the error otherwise |
| ArticleRetention.PurgeableExact | src/feeds/article_retention.rs:79-95 | the selection means: old, seen by somebody, read by all who see it, starred or set unread by nobody, without content work |
| ArticleRetention.LeftBehindIsNewer | src/feeds/article_retention.rs:79-95 | no purgeable entry left behind was inserted before a purged one |
| ArticleRetention.PurgeKeepsPages | src/feeds/article_retention.rs:67-113 | a purge is invisible to every page of every unread or starred listing of every user |
| ArticleRetention.PurgeKeepsStatus | src/feeds/article_retention.rs:67-113 | unread and starred sets are unchanged, read sets lose exactly the purged entries |
| ReaderRuns.RunKeepsInv | src/feeds/persistence.rs:282-449 | in every run sequences of a feed are distinct and at most the head, larger sequences never have smaller generations, none exceeds the counter, live and retired identities are disjoint, and state rows belong to their entry and subscription |
| ReaderRuns.PlainPassGrown | src/feeds/persistence.rs:302-399 | accepting a document one entry at a time keeps entries ordered |
| ReaderTheorems.RunsRefinePlainSets | src/feeds/bulk_read.rs:74-126 | over every run of all operations, frontier and overrides refine a plain set of read entries, and state rows a plain set of starred ones |
| ReaderTheorems.PatchSets | src/feeds/state.rs:34-116 | a patch gives the entry exactly the status asked for, although the override is stored only where it differs from the frontier |
| ReaderTheorems.PatchMovesRevision | src/feeds/state.rs:34-116 | and moves the revision of its state row on by one |
| ReaderTheorems.UnsubscribeStatus | src/feeds/subscription.rs:404-460 | ending a subscription takes exactly its marks |
| ReaderTheorems.UnreadUntilSeen | src/feeds/bulk_read.rs:74-126 | a newly ingested entry stays unread for a user until that user patches it or marks as read at a snapshot that includes it |
| ReaderTheorems.RetiredForever | src/feeds/persistence.rs:328-340 | a retired identity stays retired and is never live again |
| ReaderTheorems.PurgedNeverReturns | src/feeds/article_retention.rs:97-111 | a purged article never comes back on a later ingest |
| ReaderTheorems.MatchesAlong | src/feeds/query.rs:329-414 | between two states of a run a listing of everything at a snapshot loses exactly the entries purged in between, and none of them moves |
| ReaderTheorems.PagesListTheSnapshot | src/feeds/query.rs:134-196 | following the cursors to the end, while the store runs on, lists in strict order entries that matched when the snapshot was taken, and misses one only if it was purged since |
| RefreshTheorems.OutboxAlwaysMirrors | src/feeds/lifecycle.rs:83-181 | in every run each refresh run has exactly the events of its status, with its counts |
| RefreshTheorems.EndedForever | src/feeds/persistence.rs:1328-1376 | an ended refresh run and its events never change |
| RefreshTheorems.PersistedAtMostOnce | src/feeds/persistence.rs:282-449 | of one refresh run at most one document is ever accepted |
| RefreshTheorems.SupersededClaimIsLost | src/feeds/persistence.rs:649-686 | once a feed has been claimed anew an older claim authorizes nothing |
| Opml.Parse | src/feeds/opml.rs:56-217 | the loop over events, with its depth, stack, sets, counters and limits |
| OpmlTree.LoopIsRecursion | src/feeds/opml.rs:79-215 | for every well-nested document the loop succeeds exactly when the document is acceptable (one `opml` root, one body, limits kept, nothing forbidden), and then yields what the recursion over the document says |
| OpmlMeaning.FeedsSay | src/feeds/opml.rs:109-131 | every feed of a document has the normalized URL and the title (else the text) of the first outline of the body with that URL, and the category named by the innermost outline without a feed URL that encloses it, or none |
| OpmlMeaning.ParsedFeedsSay | src/feeds/opml.rs:79-215 | so do the feeds that the event loop reports |
| OpmlMeaning.OutlinesAreKept | src/feeds/opml.rs:109-121 | every outline of the body with a normalizable feed URL is represented by a feed |
| OpmlMeaning.OutlinesAreCounted | src/feeds/opml.rs:109-131 | feeds, duplicates and invalid ones together are the outlines of the body with a feed URL |
| OpmlMeaning.GetIsFirst | src/feeds/opml.rs:626-641 | an attribute is the first one of its name |
| OpmlMeaning.NamesDecide | src/feeds/opml.rs:626-641 | attribute names are compared without regard to the case of ASCII letters |
| OpmlTree.Simulates | src/feeds/opml.rs:79-191 | below the root the loop over any siblings restores depth, body and category stack and finds what the recursion finds |
| OpmlTree.TagFound | src/feeds/opml.rs:109-130 | the top of the depth-tagged stack is the nearest enclosing outline of the body without a feed URL |
| OpmlTree.MeaningCounts | src/feeds/opml.rs:109-131 | feeds are the first of each URL in document order, and feeds and duplicates together are the normalizable feed outlines of the body |
| OpmlTree.KeptDistinct | src/feeds/opml.rs:112-121 | no two feeds of a document have the same URL |
| OpmlTree.FoundIsKept | src/feeds/opml.rs:112-121 | every normalizable feed outline is represented |
| OpmlImport.FeedRepository.ImportOpml | src/feeds/opml.rs:433-624 | after the checks of the stored rows the loop from empty counters decides the outcome, and a failure leaves the tables alone |
| OpmlImport.ImportReports | src/feeds/opml.rs:616-623 | imported and database duplicates add up to the valid count, and the tables have grown by the numbers reported, within the limits |
| OpmlImport.AllSubscribed | src/feeds/opml.rs:498-614 | every feed of the document is subscribed to in the end, a new one under its category, with its title, and a hundred entries back |
| OpmlImport.NoOrphans | src/feeds/opml.rs:543-570 | no feed of the document is marked as an orphan in the end, unless the user was subscribed to it and it was marked before |
| OpmlImport.NothingElseImported | src/feeds/opml.rs:498-614 | every new feed, subscription and category belongs to a feed of the document |
| OpmlImport.RowsKept | src/feeds/opml.rs:498-614 | existing rows stay as they were, but for the mark of an orphan |
| OpmlImport.ImportedInOrder | src/feeds/opml.rs:589-613 | new subscriptions are placed after all old ones, in document order |
| OpmlImport.ImportedAgain | src/feeds/opml.rs:543-546 | importing again changes nothing and reports only duplicates |
| AddressPolicy.WithNat64Prefixes | src/feeds/address_policy.rs:22-54 | a list is accepted exactly when each prefix is valid by itself and no two share an address; otherwise the error is that of the first prefix that does not fit |
| AddressPolicy.TwoPointsSuffice | src/feeds/address_policy.rs:43-47 | the two-point test tells exactly whether two blocks share an address |
| AddressPolicy.AcceptanceUnordered | src/feeds/address_policy.rs:22-54 | acceptance does not depend on the order of the list |
| AddressPolicy.ClassificationUnordered | src/feeds/address_policy.rs:57-117 | nor does any classification |
| AddressPolicy.SomePrefixAcceptable | src/feeds/address_policy.rs:22-54 | 2600::/32 is acceptable, so that the statements about accepted lists speak of some |
| AddressPolicy.AcceptedIsGlobal | src/feeds/address_policy.rs:155-178 | no address of an accepted prefix lies in a special or transition range |
| AddressPolicy.ClassifyConfigured | src/feeds/address_policy.rs:64-87 | an address of an accepted prefix gets exactly that prefix's decision |
| AddressMeaning.Ipv4Classified | src/feeds/address_policy.rs:119-147 | an IPv4 address is denied exactly when its octets lie in one of the special ranges |
| AddressMeaning.FourOctetsOf | src/feeds/address_policy.rs:119-147 | and every IPv4 address is given by four octets |
| AddressMeaning.Ipv6Decision | src/feeds/address_policy.rs:64-117 | outside of the configured prefixes mapped, compatible, 64:ff9b, 6to4 and Teredo addresses get the decision of the IPv4 addresses in their octets, and all others that of their range |
| AddressMeaning.ConfiguredDecision | src/feeds/address_policy.rs:78-86 | within a configured prefix an embedded IPv4 address in a special range is denied, and any other allowed |
| AddressMeaning.ReservedOctetRefused | src/feeds/address_policy.rs:78-86 | an address of a configured prefix of at most 64 bits with a set reserved octet is denied |
| Rfc6052.ExtractInvertsEmbed | src/feeds/address_policy.rs:180-192 | extraction undoes the embedding of section 2.2 of RFC 6052 for all six prefix lengths, all prefixes, addresses and suffixes |
| Rfc6052.EveryAddressEmbeds | src/feeds/address_policy.rs:180-192 | every address whose reserved octet is zero is such an embedding |
| Rfc6052.OctetsOf | src/feeds/address_policy.rs:180-192 | and every IPv6 address is given by sixteen octets |
| Rfc6052.EmbeddedDecision | src/feeds/address_policy.rs:78-86 | under an accepted list an embedded address gets exactly the decision of its IPv4 address |
| MutationLimiter.UserMutationLimiter.CheckAt | src/api/rate_limit.rs:181-226 | what one call does to the buckets and what it reports |
| MutationLimiter.BucketRefinesHistory | src/api/rate_limit.rs:181-237 | pruned and retained deques judge a user who was not evicted as the full history would |
| MutationLimiter.AcceptedIffRoom | src/api/rate_limit.rs:189-198 | a call is accepted exactly when fewer than `limit` accepted calls lie in the window that ends with it |
| MutationLimiter.NoWindowOverflows | src/api/rate_limit.rs:181-226 | any `limit` + 1 successive accepted calls span at least a window |
| MutationLimiter.DeadlineExact | src/api/rate_limit.rs:191-196 | without a newly accepted call a rejected user is rejected before the reported time and accepted from it on |
| MutationLimiter.RetryAfterRoundsUp | src/api/rate_limit.rs:303-319 | the seconds reported are those still to wait, rounded up |
| MutationLimiter.KeysBounded | src/api/rate_limit.rs:203-217 | stored users never exceed `max_keys`, or one if that is zero |
| MutationLimiter.ZeroKeysStoresOne | src/api/rate_limit.rs:203-225 | with `max_keys` zero, which the private `with_limits` takes though production passes 10,000, the first call stores one |
| MutationLimiter.EvictionOnlyWhenFull | src/api/rate_limit.rs:203-217 | a user with live attempts is evicted only when the storage is full of such users and this one was updated longest ago |
| MutationLimiter.UpdatedByLastAccepted | src/api/rate_limit.rs:181-226 | a stored user was last updated by the last accepted call of the user |
| MutationLimiter.AcceptedIsLatest | src/api/rate_limit.rs:203-225 | after an accepted call nobody has been updated later than its user |
| EntryIdentity.FrameInjective | src/feeds/identity.rs:97-123 | two entries have the same frame exactly when all their stable fields are equal |
| EntryIdentity.EncodeV1 | src/feeds/identity.rs:97-123 | the buffer filled step by step is the frame |
| EntryIdentity.OptionalFrameDecodes | src/feeds/identity.rs:261-274 | an optional field can be read off the front of what follows it |
| EntryIdentity.IndexBytesInjective | src/feeds/identity.rs:276-283 | the index bytes tell kind and identity |
| EntryIdentity.NormalizeStableText | src/feeds/identity.rs:220-251 | the loop yields the words of the text with single spaces between them, nothing if there are none, and fails exactly on texts that are too long |
| EntryIdentity.StableTextIdempotent | src/feeds/identity.rs:220-251 | normalizing twice is normalizing once |
| EntryIdentity.StableTextDecides | src/feeds/identity.rs:220-251 | two texts are normalized alike exactly when they have the same words |
| EntryIdentity.SeparatedWords | src/feeds/identity.rs:220-251 | space, tab, line feed and carriage return separate words, which are joined by a space |
| EntryIdentity.WhitespaceIs | src/feeds/identity.rs:212-240 | the 25 characters that count as whitespace |
| EntryIdentity.TrimYields | src/feeds/identity.rs:212 | trimming takes all whitespace from both ends and nothing else |
| EntryIdentity.StableGuidYields | src/feeds/identity.rs:202-220 | a GUID is used without the whitespace around it, and is absent when nothing else is in it |
| EntryIdentity.NormalizedFits | src/feeds/identity.rs:247-249 | normalizing never lengthens a text |
| EntryIdentity.NewFieldsEncodable | src/feeds/identity.rs:66-95 | normalized fields lie within the limits under which frames are uniquely decodable |
| EntryIdentity.FromParts | src/feeds/identity.rs:133-160 | kind and text of the identity tell whether the entry goes by a URL (a GUID that is a well-formed one, or for want of a GUID the canonical URL), by its trimmed GUID, or by its fields; it is refused exactly when the GUID is too long or what is taken for a URL is refused |
| EntryIdentity.IndexFramesAgree | src/feeds/identity.rs:133-190 | from raw parts: two entries share the hashed frame exactly when they go by the same URL (also when it is the GUID of one and the canonical URL of the other), by the same GUID, or by equal fields, or when fingerprints collide |
| EntryIdentity.RefusedExactly | src/feeds/identity.rs:200-218 | the error cases; a malformed URL is refused only where it is not a GUID, and the second length check never fails |
| EntryIdentity.SameFields | src/feeds/identity.rs:66-95 | stable fields are equal exactly when title and author have the same words, times and normalized enclosure URLs are equal, and without any of these the content hashes |
| EntryIdentity.IndexFrameDecides | src/feeds/identity.rs:133-190 | entries share the frame hashed for the index exactly when their keys are equal or their fingerprints collide |
| FeedFinalize.Finalize | src/feeds/parse/finalize.rs:22-104 | one pass with a map of places succeeds only when all candidates are prepared and each hash has one identity, with one entry per hash in order of first appearance, the content of the newest and the place of the first candidate, and the count of the others; it fails with the first misfit |
| FeedFinalize.SuccessOrFailure | src/feeds/parse/finalize.rs:84-91 | the two outcomes exclude each other |
| FeedFinalize.FoldsUnique | src/feeds/parse/finalize.rs:82-112 | the candidates leave no choice of the entries |
| FeedFinalize.FoldedIsDistinct | src/feeds/parse/finalize.rs:81-101 | the document handed on brings no identity twice |
| FeedFinalize.NothingIsLost | src/feeds/parse/finalize.rs:98-101 | and every identity of the candidates |
| FeedFinalize.KeptIsNewest | src/feeds/parse/finalize.rs:92-97 | the content kept is that of a candidate of the identity that none is newer than |
| FeedFinalize.KeptIsEarliest | src/feeds/parse/finalize.rs:92-112 | and of those with its time the first |

## Left out

- Database drivers, SQL text per backend, placeholders and row decoding; a statement is a function of the tables.
- Timestamps that nothing reads back (`started_at`, `completed_at`, `updated_at`), revisions and positions of schedules and categories, and feed columns such as titles, validators and `next_fetch_at`.
- Backups: what an export or upload does, secrets and their decryption, and configuration parsing; they are inputs of a step (success, error, byte count, readable or not). Manual jobs are the same insertion as scheduled ones, and the choice of their targets is not modelled.
- BackupSchedule.SlotsStrictlyIncrease: assumes a clock that does not go back and one transaction at a time, as the promise does; what other clocks can do is said by StepClear and ClearExactly.
- Progress: that a worker finishes its jobs in the end. Only termination of the loops shown is proved.
- Reader: deleting feeds and users, editing categories, moving a subscription to another feed, and the deletion of old refresh runs.
- Queued refresh runs: a run begins with its claim, which is modelled with the token arithmetic of the feed lease and not with its choice among queued runs.
- PersistFeed.FeedRepository.PersistFeedOnce: one reading of the database clock stands for both the fallback sort time and the insertion time, and the identity query in batches of 128 is one query.
- Listing: cursors are values (their base64 and JSON form is not modelled, and the filter stands for its hash); search terms are given normalized.
- ReaderTheorems.PagesListTheSnapshot: for listings of everything without search, as the paging promise has it; an update may change whether an entry matches a search, and a patch whether it is unread; the user's own subscribing and unsubscribing between the pages is excluded.
- FeedFinalize: sanitizing, content hashes and size checks of a candidate are inputs (prepared, or failed with an error).
- OPML: tokenizing, attribute limits and URL or label normalization are inputs (an element with its attributes or their rejection, functions for the rest); export and preview are left out, and so is the retry of an import after a unique violation.
- OpmlTree.LoopIsRecursion: says which documents fail, not with which error; Opml.Parse has the order of the checks.
- AddressPolicy: addresses are numbers, so that shifts and masks are quotients and remainders.
- MutationLimiter.BucketRefinesHistory: for calls at nondecreasing times, and users who have not been evicted while they had live attempts; the limit is positive, as the constants of the source have it. Locks are not modelled.
- The other limiters of `rate_limit.rs`, which have no bookkeeping beyond this one's.
- URL handling and key derivation of identities: functions given from outside, the latter possibly colliding.
- HTTP handlers, authentication, fetching, sanitizing, supervision and shutdown.
