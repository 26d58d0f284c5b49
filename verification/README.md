# localmail: a verified model

A Dafny model of the parts of localmail that must not lose or mix up mail, and
proofs about every run of them. One file is one module. `dafny verify
dfyconfig.toml` checks the whole project.

## What is modelled

**The IMAP sync watermark** (`Uids`, `FetchRetry`, `Sync`, `SyncRun`,
`SyncReach`, `SyncLate`, `SyncExact`, `SyncHolds`, `SyncPass`, `SyncPills`,
`SyncConfluence`, `SyncLabels`, `SyncLog`). `Sync.MailboxSync` is
`sync_mailbox` with its variables and tables as fields; `Sync.Pass` says as a
function what it does, batch by batch, whatever FETCH returns, whichever write
fails, wherever the process dies and whatever other sessions commit between its
own commits. `SyncRun` puts any number of such passes beside a server that delivers,
expunges and renumbers, and beside the operator commands, and lets their commits
interleave. "Archived" means that the message's dedup key is in `messages`, not
that some label carries the UID; the labels, which are the folder a reader sees,
are the subject of `SyncLabels`. A record that could not be written but was named
by an error line is kept as that: an entry of the ledger. `SyncPass` closes the
gap between the two: a call of the code, among other passes and operators and
over a server that moves, is a run of the machine.

**Around it**: concurrent inserts of one message (`Dedup`), the retry of poison
pills (`RetryFailed`) and the INTERNALDATE backfill (`Backfill`).

**The rest**: the content-addressed blob store with its collector (`BlobTemps`
for names and the sweep, `BlobStore` for the interleavings), keyset pagination
(`Browse`), the cursor codecs (`Cursors`), the search box's tokenizer, printer
and chip absorption (`FilterParse`), what these keep and mean in terms of the query
alone (`FilterTokens`, `FilterOperators`), and the chips' own printer
(`FilterFormat`), the login limiter (`LoginLimits`), the
bounded header read (`HeaderBlock`), text paging (`TextWindow`), and the daemon's
thread registry and shutdown (`Daemon`). `Prelude` and `Decimal` are shared
vocabulary.

The shape follows the source. Code that updates tables or fields is a class whose
methods are proved to do what a specification function says (`MailboxSync`,
`Backfiller`, `Retry`, `BlobTree`, `LoginLimiter`, `Daemon`); loops are methods
with invariants; protocols with several parties are state machines over their
steps; the theorems are lemmas about the functions and about every run of the
machines.

## What does not hold as written

Each of these is a lemma that says exactly when the property holds.

- **A changed UIDVALIDITY can lose mail.** `highest_seen` starts from the stored
  `uidnext` even on a full resync (src/localmail/sync.py:788), and a pass that
  lists nothing on a server that names no UIDNEXT stores that value again
  (src/localmail/sync.py:780): the old numbering's watermark is carried into the
  new one. And a pass that has the server's answers in hand commits them without
  asking it again (src/localmail/sync.py:806-946), in terms of the old numbering,
  although another pass may have rebased the mailbox meanwhile. No disciplined run
  loses mail if and only if no such commit is in hand when the numbering changes,
  and every watermark stored, or read by a pass under way, is at or below the first
  UID of the new numbering, or one above it where every SELECT names UIDNEXT
  (`SyncExact.RenumberingExact`, with a losing run for either kind of server and
  for the commit in hand). Where that commit's own UIDs lie does not matter: it
  brings the old UIDVALIDITY back, the next pass then drops the new numbering's
  hold rows, and a tombstone among them may be the only record of its message
  (`SyncLate.LateCommitLoses`).
- **`--limit-per-folder` is not range-checked** (src/localmail/cli.py:524-529). A
  0, or a negative number that slices the listing away, makes the pass take the
  listing for empty and jump to the server's UIDNEXT. The pass is safe if and
  only if something of a non-empty listing is left (`SyncExact.TruncationExact`).
- **A full resync that acts on a stale mailbox row drops live tombstones.** It is
  unsafe exactly when another pass has rebased the mailbox since the row was read
  (`SyncExact.StaleSelectExact`; `SyncExact.StaleSelectLoses` reaches such a state
  from an empty mailbox). A row read before the first sync drops nothing, and then
  hold rows of an older numbering pass for this one's, and so do labels
  (`SyncExact.UnclearedHoldsExact`, reached by `SyncExact.UnclearedHoldsReached`).
- **A poison pill's bytes do not survive a changed UIDVALIDITY.** `failed_messages`
  is keyed by UID and not cleared, and a new message with the same UID that cannot
  be stored overwrites them (src/localmail/sync.py:360-364). They are safe if and
  only if the pill's UID is below the new numbering
  (`SyncPills.RenumberedPillExact`).
- **The supervisor's margin does not cover a reconcile tick in progress.** It counts
  from SIGTERM, and each account the tick still tears down may take twice the grace
  (src/localmail/daemon.py:221-222). The daemon is always done before the kill if
  and only if that lead is below the margin of 5 s (`Daemon.KillMarginExact`).
- **A poll thread that does not start strands its account's idle thread.** The bundle
  is registered only after both have started (src/localmail/daemon.py:196-213), so
  an exception between the two leaves a thread whose stop event nothing holds.
  Every bundle ever spawned is registered or has been told to stop if and only if
  that never happened (`Daemon.InReachExactly`).
- **Formatting the chips does not always give them back.** `formatDslTokens` quotes
  some values and not others, and escapes none
  (gui/src/lib/filter_parse.ts:180-197). They come back if and only if no printed
  value holds a double quote, the dates and the language hold no whitespace, and
  the language is in lower case (`FilterFormat.FormatRoundTrip`).
- **Retention equal to the widest login window is not enough by itself.** `now()`
  is the start of a transaction, so a sweep that began later may have committed
  first; retention must also cover that lead (`LoginLimits.SweepExact`).
- **`is_writer_temp` accepts one trailing newline**, because `$` does; its comment
  calls the shape exact (`BlobTemps.RecognisedNamesAreTemps`).
- **The "unexpected constraint" error of `upsert_message` is reachable** when the
  id sequence hands out an id that is taken (`Dedup.UnexpectedExactly`), and in no
  run without that (`Dedup.DedupIsLinearizable`).

## Hypotheses

`SyncRun.DisciplinedRun` names the conditions under which nothing is lost: those of
the first three points above. A commit in hand at a change of UIDVALIDITY is one
of them; `SyncRun` has the step (`CommitLate`), so that its losing run is a run of
the machine. Whether a server names its UIDNEXT on
every SELECT is a property of the server (`announces`). The server never answers with another
message's body, nor calls a present UID absent (`SyncRun.Truthful`); an empty
answer is always allowed. The database stamps what a batch writes no earlier than
the clock the pass has read (`SyncRun.Answered`). UIDs only go up within one UIDVALIDITY (section 2.3.1.1
of RFC 3501), and `n:*` always covers the highest UID (section 6.4.8 of RFC
3501). The clock is monotone where `SyncHolds.Quiet` says so. `parse_message` is
a deterministic function that may fail. The raw digest stands for the bytes it
digests. The backfill's servers answer a FETCH for all the UIDs asked about that they have,
and with the date they have (`Backfill.Honest`). `Cursors.Faithful` is what is asked of `isoformat` and `fromisoformat`.

## Model

| member | source | states |
|---|---|---|
| Uids.CheckpointUidnext | src/localmail/uids.py:51-63 | the resume point is the greatest one that passes neither the UID after the highest processed nor a held UID |
| FetchRetry.RewindTarget | src/localmail/fetch_retry.py:198-222 | a mailbox moves iff its watermark is known and some tombstone lies below it, and then to its lowest tombstone |
| FetchRetry.PlanUidnextRewind | src/localmail/fetch_retry.py:198-222 | over tombstones of many mailboxes in any order, each mailbox with a known watermark is planned as it would be alone, and no other is planned |
| FetchRetry.AttemptsAreCounted | src/localmail/fetch_retry.py:88-127 | each failing fetch counts one more; the first sighting stays that of the first, and a tombstone one |
| FetchRetry.GiveUpMomentIsFirst | src/localmail/fetch_retry.py:225-247 | however often a UID is given up on, its moment stays that of the first time, and no other row is touched |
| FetchRetry.ReclaimTakesPassedHolds | src/localmail/fetch_retry.py:139-160 | of the rows below the watermark exactly those that are no tombstones go |
| FetchRetry.ArmingReopensTombstones | src/localmail/fetch_retry.py:284-333 | a tombstone is held for the whole window again and stays a tombstone; a live hold keeps the window it has |
| FetchRetry.ForgetTakesOldTombstones | src/localmail/fetch_retry.py:357-383 | forgotten are exactly the tombstones given up before the cut-off, or all of them without one |
| Sync.FilterNewUids | src/localmail/sync.py:690-693 | ascending, exactly the UIDs at or above the known watermark, all of them without one |
| Sync.Candidates | src/localmail/sync.py:756-763 | what a pass lists: in ascending order exactly the present UIDs from the watermark on, or all of them on a full resync, although `n:*` always answers with the top UID too |
| Sync.MailboxSync.HoldOrGiveUp | src/localmail/sync.py:812-866 | the empty-body branch, from probe through hold or give-up, with either bookkeeping write failing |
| Sync.MailboxSync.StoreOrRecord | src/localmail/sync.py:868-928 | the body branch: hold cleared, stored, or recorded as a poison pill, or logged; false exactly on contention |
| Sync.MailboxSync.RunBatch | src/localmail/sync.py:805-946 | a batch over its UIDs and its checkpoint |
| Sync.MailboxSync.Transact | src/localmail/sync.py:805-946 | a batch is committed whole, or contention undoes all of it |
| Sync.MailboxSync.RunBatches | src/localmail/sync.py:805-951 | the loop over batches, with other sessions' commits between them and a crash before any of them |
| Sync.MailboxSync.ListUids | src/localmail/sync.py:756-767 | listing, filter and Python's slice for `max_messages`, negative values included |
| Sync.MailboxSync.FetchAll | src/localmail/sync.py:774-951 | the "nothing new" jump to UIDNEXT, or the seeded scan |
| Sync.MailboxSync.SyncMailbox | src/localmail/sync.py:717-953 | the whole pass leaves tables, log and count as `Pass` says |
| SyncRun.SelectOk | src/localmail/sync.py:743-754 | a SELECT keeps the invariant unless it drops this numbering's hold rows, or drops nothing while there are rows of an older one |
| SyncRun.TruncationLeavesSome | src/localmail/sync.py:765-767 | which limits leave something of a non-empty listing: iff |
| SyncRun.SearchOk | src/localmail/sync.py:756-789 | starting a scan, or jumping to UIDNEXT, keeps the invariant |
| SyncRun.ProcessUidAccounts | src/localmail/sync.py:807-928 | a UID done is passed and accounted for, or is the lowest hold; no other UID loses its account |
| SyncRun.CheckpointOk | src/localmail/sync.py:930-946 | the checkpoint passes only what is accounted for, and reclaiming holds takes no account away |
| SyncRun.RunBatchOk | src/localmail/sync.py:805-946 | a batch, committed or rolled back, keeps the invariant |
| SyncRun.CommitOk | src/localmail/cli.py:735-777 | rewind with arming, forgetting, a retried poison pill and another mailbox's insert keep the invariant between any two batches |
| SyncRun.StepOk | src/localmail/sync.py:717-953 | every disciplined step keeps the invariant, with any number of passes under way |
| SyncRun.NothingIsSilentlyLost | src/localmail/sync.py:717-953 | in every state of every disciplined run, each UID below the watermark is archived, a poison pill, a tombstone, seen absent, named by an error line, or forgotten by an operator (a run is disciplined only if no commit of an older numbering is in hand when it changes); a watermark of an older numbering is below this one; what was seen absent is absent, and hold rows are this numbering's |
| SyncExact.RenumberingExact | src/localmail/sync.py:774-788 | after a UIDVALIDITY change, with any passes open, no disciplined run loses mail iff no commit of the old numbering is in hand and no stored or already read watermark is above the first new UID, or one above it where SELECT names UIDNEXT |
| SyncLate.LateCommitLoses | src/localmail/sync.py:806-946 | the losing run of any commit in hand, be it a batch, a jump or a clearing, whatever UIDs it is about: the new numbering's first message is given up on and its tombstone dropped |
| SyncExact.ListingPassLoses | src/localmail/sync.py:788-806 | the losing run of a server that names UIDNEXT: the one message listed is expunged before its FETCH, and the scan seeded with the old watermark checkpoints past a UID not given out yet |
| SyncExact.EmptyPassLoses | src/localmail/sync.py:774-783 | the losing run of a server that does not: an empty pass stores the old watermark under the new UIDVALIDITY |
| SyncExact.TruncationExact | src/localmail/sync.py:765-783 | with something new listed, the SEARCH step is safe iff the limit leaves something of the listing |
| SyncExact.StaleSelectExact | src/localmail/sync.py:743-754 | in every sound state, with a tombstone at stake where the database is current, a SELECT loses it iff its row is of an older numbering than the database |
| SyncExact.StaleSelectLoses | src/localmail/sync.py:743-754 | such a state is reached by a disciplined run from an empty mailbox, the message held by one pass and given up on by a later one when its window is over, and the SELECT loses the message |
| SyncExact.UnclearedHoldsExact | src/localmail/sync.py:743-754 | for a row read before the first sync, hold rows never pass for another numbering's iff there are none of an older one |
| SyncExact.UnclearedHoldsReached | src/localmail/sync.py:743-754 | a disciplined run from an empty mailbox reaches such a row and such hold rows, and the SELECT lets them pass for this numbering's |
| SyncHolds.TombstoneEndsExactly | src/localmail/fetch_retry.py:139-160 | one step removes a tombstone iff it commits the body, clears the mailbox for a changed UIDVALIDITY, or forgets it; otherwise it stays with its give-up moment |
| SyncHolds.GiveUpRecordsSurvive | src/localmail/fetch_retry.py:225-247 | over any run, daemon checkpoints that overwrite a rewind included, a tombstone stays until one of those |
| SyncHolds.RewindGoesBelowTombstones | src/localmail/cli.py:740-777 | after `retry-failed-fetches` no tombstone is below a known watermark, none is gone, and each has a fresh window |
| SyncHolds.RewindReachesEveryTombstone | src/localmail/fetch_retry.py:284-333 | the next unlimited pass asks again for every tombstoned UID still on the server |
| SyncHolds.ChunkHoldsLowest | src/localmail/sync.py:812-860 | the clamp a batch leaves is the lowest of the one it found and the UIDs it puts on hold, for the first time or again |
| SyncHolds.CheckpointsNeverRetreat | src/localmail/sync.py:930-946 | within a pass checkpoints never retreat and never pass a UID put on hold, new or known, nor an earlier clamp; only the seed of a renumbered mailbox may be one above the first |
| SyncHolds.CheckpointCollects | src/localmail/sync.py:930-946 | a committed batch leaves the mailbox under the numbering it worked in, and below its checkpoint no hold row but tombstones |
| SyncHolds.OutageKeepsItsClock | src/localmail/fetch_retry.py:88-127 | through one outage, whatever runs, the first sighting is never restamped |
| SyncHolds.HoldsAreBounded | src/localmail/fetch_retry.py:43-67 | a UID becomes a clamp only of passes whose clock is before its first sighting plus the window |
| SyncHolds.SpentHoldsNeverClampAgain | src/localmail/fetch_retry.py:225-258 | once given up and expired, no pass of any quiet run is held back by that UID again |
| SyncPass.PassIsRun | src/localmail/sync.py:717-953 | a call of the code on a row read at any time before, with other passes, operators, deliveries and expunges between its commits, is a disciplined run ending in the same tables |
| SyncPass.UndisturbedPass | src/localmail/sync.py:717-953 | with nobody else about, any opened pass over an honest server is such a call |
| SyncPass.SyncMailboxLosesNothing | src/localmail/sync.py:717-953 | from any reachable state the code's pass ends with nothing silently lost, wherever it dies and whatever happens between its commits |
| SyncPills.PillsKeepTheirBytes | src/localmail/sync.py:331-397 | within one UIDVALIDITY no run loses a poison pill's bytes before the message is archived |
| SyncPills.RenumberedPillExact | src/localmail/sync.py:354-372 | across a changed UIDVALIDITY the bytes are kept in every continuation iff the pill's UID is below the new numbering |
| SyncPills.RetriedPillEnds | src/localmail/sync.py:429-487 | a retry from another session takes a pill away iff the message parses, the database takes it and its UID has no other message's label; then it is archived and labelled, else nothing changes |
| SyncConfluence.ScheduleArchivesMailbox | src/localmail/sync.py:805-951 | any schedule of crashes, aborts, truncated passes, failing fetches and rewinds that gets past the top with nothing given up archives exactly the mailbox's keys, one row each |
| SyncConfluence.Confluence | src/localmail/sync.py:805-951 | two such schedules end with the same archive |
| SyncConfluence.RescanInsertsNothing | src/localmail/sync.py:147-231 | scanning archived messages again inserts nothing |
| SyncConfluence.UninterruptedPassArchivesMailbox | src/localmail/sync.py:717-953 | one uninterrupted, unlimited pass gets past the top and leaves that same archive, rewound tombstones included, with a label for each message it listed |
| SyncConfluence.SameRowExactly | src/localmail/sync.py:111-132 | two messages are one row iff they have the same Message-ID or, both without one, the same bytes |
| SyncConfluence.InsertedCountsNewRows | src/localmail/sync.py:868-951 | however a pass ends, rolled back batches and crashes included, it only appends rows to the archive, and the count it reports is how many |
| SyncLabels.BatchLabels | src/localmail/sync.py:805-946 | after a committed batch, each UID whose body parses, is stored without fault and has no other message's label on it has its message archived and labelled with it or a later UID of the batch that carries that message; every other label is as it was, and UNIQUE (mailbox, uid) is kept |
| SyncLabels.ScheduleLabelsMailbox | src/localmail/sync.py:234-252 | whatever the schedule of passes, crashes, failing fetches and rewinds: past the top, with nothing left given up, exactly the messages delivered have a label, each on a UID that carries it |
| SyncLabels.SelectDropsOldLabels | src/localmail/sync.py:743-754 | labels of an older numbering, whatever they are, are gone with the SELECT that sees the change |
| SyncLabels.UninterruptedPassLabelsMailbox | src/localmail/sync.py:717-953 | one uninterrupted, unlimited pass makes the folder exactly the mailbox, from a numbering never synced or from a changed one |
| SyncLog.LogNamesExactly | src/localmail/sync.py:812-951 | in a finished pass, whatever others commit meanwhile: named as expunged are exactly the UIDs listed that had neither body nor message before the first present one came back empty; errors name only what a record could not be written about, and everything whose only record that was |
| Dedup.DedupIsLinearizable | src/localmail/sync.py:111-231 | for all interleavings, wherever the id sequence stands: one row per key, the same id for all who committed the key, one author of a new row whose attachments it carries; only a writer whose insert was handed a taken id meets the unexpected conflict, and none while the sequence is ahead |
| Dedup.UnexpectedExactly | src/localmail/sync.py:195-231 | for a new key and no other writer, the unexpected-constraint error is raised iff the sequence hands out a taken id |
| RetryFailed.MaxLabelUid | src/localmail/uids.py:66-75 | the highest UID of the mailbox's labels, 0 without any |
| RetryFailed.ArchiveRetriesNeverCollide | src/localmail/uids.py:30-48 | an archive account's retry never violates UNIQUE (mailbox, uid); it recovers iff the message parses and the database takes it |
| RetryFailed.RetryKeepsConstraints | src/localmail/sync.py:429-458 | a recovery keeps UNIQUE (mailbox, uid) and one row per message, for either kind of account |
| RetryFailed.Retry.RetryFailedMessages | src/localmail/sync.py:400-487 | the loop is the fold of `RetryOne` over the rows read, stopped by contention |
| RetryFailed.RetryConserves | src/localmail/sync.py:429-487 | succeeded and still failing add up to the rows read unless a row met contention, at which the pass stops; exactly the recovered rows are gone, each archived; a failing row stays one row with its bytes; what was not reached is untouched |
| RetryFailed.ArchiveRowsRecover | src/localmail/sync.py:436-458 | of an archive account, each row reached is recovered iff its message parses and the database takes it |
| RetryFailed.RecoveredIsLabelled | src/localmail/sync.py:429-458 | a recovered message is archived and has its label, on the server's UID or, of an archive account, above every label of the mailbox; no other label changes |
| RetryFailed.LiveRowRecovers | src/localmail/sync.py:429-458 | a live account's row recovers iff its message parses, the database takes it, and no other message has its UID |
| RetryFailed.FailureIsCounted | src/localmail/sync.py:470-486 | a row that fails stays under its own UID with its bytes, one retry more, and neither archive nor labels change |
| Backfill.Backfiller.TakeResponse | src/localmail/sync.py:601-612 | one FETCH response folded into the earliest dates |
| Backfill.Backfiller.OneMailboxPass | src/localmail/sync.py:563-621 | one mailbox: skipped, or read and written |
| Backfill.Backfiller.BackfillInternalDate | src/localmail/sync.py:510-635 | the pass does what `AllMailboxes` says and reports `Summary` |
| Backfill.RowsAreCandidates | src/localmail/sync.py:545-572 | what a mailbox is asked does not depend on what earlier mailboxes answered |
| Backfill.EveryRowIsAskedOnce | src/localmail/sync.py:599-602 | the chunks put together are the UIDs of the rows in ascending order, each once, in as few FETCHes of at most 50 as that takes |
| Backfill.SkipsExactlyTheStale | src/localmail/sync.py:575-590 | skipped and named, in order, are exactly the mailboxes with a candidate that cannot be selected or whose two known UIDVALIDITYs differ |
| Backfill.BackfillFindsEarliest | src/localmail/sync.py:545-632 | every message ends with the earliest usable date under which a readable mailbox's server has a UID labelled with it, if it was a candidate and there is any; else with the date it had |
| Backfill.BackfillCountsAddUp | src/localmail/sync.py:623-632 | scanned are the candidates with a label in a readable mailbox, missing those of them on no server, unusable those on one without a usable date, updated the rows whose date differs from the one first read |
| BlobTemps.WriterTempsAreRecognised | src/localmail/blob_temps.py:42-60 | every temp a writer mints is recognised, no blob is |
| BlobTemps.RecognisedNamesAreTemps | src/localmail/blob_temps.py:58-60 | what is recognised is exactly a minted name with any digits and at most one trailing newline: iff |
| BlobTemps.TempNameInjective | src/localmail/blob_temps.py:42-55 | two temp names are equal only for the same blob, process and token |
| BlobTemps.BlobTree.SweepBlobTemps | src/localmail/blob_temps.py:87-150 | the sweep removes exactly what `Swept` says, nothing in a dry run, and its counters are `Totals`, whatever fails or is raced |
| BlobTemps.SweptExactly | src/localmail/blob_temps.py:87-150 | a dry run takes nothing; another sweep takes exactly the expired temps it could look at and unlink, those a rival took first included |
| BlobTemps.TotalsCount | src/localmail/blob_temps.py:87-150 | over distinct names: scanned are the temps, removed the expired ones without an error, errors those with one, and the bytes are those of the removed ones not lost to a race |
| BlobTemps.DryRunForetells | src/localmail/blob_temps.py:131-145 | where every file can be looked at, a dry run reports what the same sweep reports if nothing goes wrong |
| BlobTemps.SweepCollectsStranded | src/localmail/blob_temps.py:87-150 | an error-free sweep leaves no temp past the gate and touches nothing else |
| BlobStore.FileNamesApart | src/localmail/attachments.py:54-56 | on disk the store's paths are apart, and the collector can tell temps from blobs |
| BlobStore.BlobsStayIntact | src/localmail/attachments.py:78-114 | for any writers, kills and sweeps, a canonical path only holds complete bytes hashing to its name, every recorded blob has its file, and recorded are exactly those that were and those of the writers that are done |
| BlobStore.OnlyKillsStrandTemps | src/localmail/attachments.py:97-103 | whatever happens and in any order, a writer that neither runs nor was killed has left no temp: one that succeeds has moved it, one that raises has removed it |
| BlobStore.LiveTempsSurvive | src/localmail/blob_temps.py:63-71 | if no write outlasts the age gate, no sweep takes or dooms a live writer's temp |
| BlobStore.SweepCollectsAmongWriters | src/localmail/blob_temps.py:87-150 | among running writers and other sweeps, a sweep that has looked at a stranded temp past the gate and unlinked what it doomed has taken it |
| Browse.DatedThenTail | src/localmail/api/browse.py:212-281 | behind a dated cursor, the dated rows followed by the NULL tail are the sorted rest of the archive |
| Browse.PageIsSliceOfList | src/localmail/api/browse.py:121-174 | in every query mode, with the top-up, the rows read are the first limit + 1 of the sorted rest |
| Browse.NextCursorDrops | src/localmail/api/browse.py:160-174 | what lies ahead of `next_cursor` is the list without the page |
| Browse.ListMessagesIsSlice | src/localmail/api/browse.py:90-174 | a response is a slice of the list, with a cursor iff the list goes on |
| Browse.WalkIsTheList | src/localmail/api/browse.py:90-174 | following `next_cursor` from the start ends and yields exactly the filtered archive in order |
| Browse.WalkShowsExactly | src/localmail/api/browse.py:90-182 | a row comes up iff it is in the table, its account is in the ACL and, if any are named, among those named, and it is in one of the folders asked for, if any are; newest first by the server's date, else the sender's, undated rows last |
| Browse.PagesStayVisible | src/localmail/api/browse.py:90-182 | no page, whatever its cursor and whatever changes between its two statements, shows a row outside the ACL, the accounts or the folders asked for |
| Browse.EveryStableRowOnce | src/localmail/api/browse.py:121-174 | under any changes between pages and between the two statements of one page, a row present throughout has come up iff the walk has passed it |
| Browse.PassedStaysPassed | src/localmail/api/browse.py:212-281 | what the walk has passed it never shows again |
| Browse.WalkInOrder | src/localmail/api/browse.py:121-174 | the whole walk goes strictly down the order, so no row comes twice |
| Cursors.Base64RoundTrip | src/localmail/api/browse_cursor.py:33-52 | stripping the padding and putting it back loses no byte (section 5 of RFC 4648) |
| Cursors.BrowseRoundTrip | src/localmail/api/browse_cursor.py:33-68 | every browse cursor, dated or in the NULL tail, decodes to itself |
| Cursors.PrefixesApart | src/localmail/api/search_cursor.py:84-115 | at most one keyset prefix begins any text |
| Cursors.KeysetRoundTrip | src/localmail/api/search_cursor.py:222-280 | position, order and walk are recovered |
| Cursors.PoolRoundTrip | src/localmail/api/search_cursor.py:204-219 | pool cursors decode to themselves for every non-empty token, colons included, and page from 1 |
| FilterParse.TokenizeRaw | gui/src/lib/filter_parse.ts:40-95 | the character loop, with its second loop for an unclosed quote, computes `Tokens` |
| FilterParse.TokensAreWellSpelt | gui/src/lib/filter_parse.ts:40-95 | every token's spelling unquotes to its text and has whitespace only inside closed quotes |
| FilterParse.SpellOk | gui/src/lib/filter_parse.ts:170-178 | printing a token keeps its text and gives the spelling of one token |
| FilterParse.PrintedReadsBack | gui/src/lib/filter_parse.ts:170-178 | what is printed tokenizes to exactly the tokens printed |
| FilterParse.TokenizerRoundTrip | gui/src/lib/filter_parse.ts:40-178 | for every query: the rebuilt query has the same texts in order, and rebuilding again changes nothing |
| FilterTokens.UnclosedQuoteIsDropped | gui/src/lib/filter_parse.ts:79-93 | a quote that never closes counts for nothing: with no quote open before it and none behind it, the tokens are those of the query without it |
| FilterTokens.TokensKeepContent | gui/src/lib/filter_parse.ts:40-95 | for every query the texts put together are the query without its quotes and without the white space outside closed ones |
| FilterTokens.PrintsApostrophesQuoted | gui/src/lib/filter_parse.ts:160-178 | no apostrophe is printed outside quotes; quotes typed around them stay where they were; a leading dash stays in front of added quotes |
| FilterTokens.SpacesAre | gui/src/lib/filter_parse.ts:40-95 | what separates tokens is what `\s` of ECMAScript matches |
| FilterOperators.OperatorShape | gui/src/lib/filter_parse.ts:104-110 | a token is an operator iff it is one of the seven names in any case, a colon and a non-empty value |
| FilterOperators.FiltersAreLastValues | gui/src/lib/filter_parse.ts:112-158 | every filter is the value last typed for it, `dateFrom` and `dateTo` alike their operators, the language in lower case, and an attachment is asked for iff some `has:` asks for one |
| FilterOperators.FreeTextIsTheRest | gui/src/lib/filter_parse.ts:112-158 | the free text reads back as exactly the texts that are no filter, in order |
| FilterOperators.DateShapeIsDate | gui/src/lib/filter_parse.ts:199-200 | what is shaped like a date is four digits, one or two, and one or two, between dashes: iff |
| FilterParse.ExtractDslFilters | gui/src/lib/filter_parse.ts:112-158 | the extraction loop computes `Extract` and prints its free tokens |
| FilterParse.FreeTextHasNoFilters | gui/src/lib/filter_parse.ts:112-158 | extracting from the free text finds no filter and the same free text |
| FilterParse.AbsorbConflictingOperators | gui/src/lib/filter_parse.ts:232-265 | the loop over the scalars and the filter over the tokens compute `Absorb` |
| FilterParse.TypedIsLast | gui/src/lib/filter_parse.ts:112-158 | the extracted value of a scalar is the last one typed |
| FilterParse.AbsorptionPreservesMeaning | gui/src/lib/filter_parse.ts:232-265 | absorbing changes what no scalar means; all other tokens stay, in order, and so do the other chips |
| FilterParse.AbsorptionIsIdempotent | gui/src/lib/filter_parse.ts:232-265 | no absorbable conflict is left, and absorbing again changes nothing |
| FilterOperators.AbsorptionExactly | gui/src/lib/filter_parse.ts:232-265 | exactly the chips that are set and contradicted by the value typed last, for a date only by one shaped like it, take that value; exactly the words naming them leave the query, the others staying in order; nothing else of the chips changes |
| FilterFormat.FormatDslTokens | gui/src/lib/filter_parse.ts:180-197 | the parts pushed, in order, compute `Format`: quoted values, the dates under either name, the plain ones |
| FilterFormat.FormatRoundTrip | gui/src/lib/filter_parse.ts:112-197 | extracting from the formatted chips gives the chips they stand for, and no free text, iff no printed value holds a double quote, no plain one whitespace, and the language is in lower case; the very same filters iff also both names of a date agree and no attachment is asked not to be there |
| LoginLimits.CheckPasses | src/localmail/api/auth.py:189-272 | a login is let through iff every cap has room over the whole table, the statement's own WHERE notwithstanding |
| LoginLimits.CheckIsBroadestCap | src/localmail/api/auth.py:189-272 | the decision is the broadest cap reached, where all attempts of the window count for the first, failures from the address for the second, and failures of the user after every success of theirs for the third |
| LoginLimits.SuccessRestartsUser | src/localmail/api/auth.py:189-272 | right after a success the user's own cap refuses nobody, whatever failed before it |
| LoginLimits.OvershootIsBounded | src/localmail/api/auth.py:458-484 | with W workers, and sweeps among them that cut into no check's window, no window of any cap ever holds more than the cap plus W - 1 |
| LoginLimits.SweepKeepsDecision | src/localmail/api/auth.py:157-186 | a sweep that deletes nothing a window still counts changes no decision |
| LoginLimits.SweepExact | src/localmail/api/auth.py:157-186 | for every configuration, the decision is kept for all tables iff retention covers the farthest window that counts and the lead of the sweep's clock |
| LoginLimits.LoginLimiter.CheckLoginRateLimits | src/localmail/api/auth.py:189-272 | all three counts in one scan decide as `Check` does, over the full table for the user's last success |
| LoginLimits.LoginLimiter.MaybeSweep | src/localmail/api/auth.py:281-301 | sweeps at most once per interval, and only with the lock |
| LoginLimits.LoginLimiter.Login | src/localmail/api/auth.py:428-484 | a refused login is not recorded, any other leaves exactly one row before anything is swept; the sweep runs at its own, later transaction's time |
| HeaderBlock.Find | src/localmail/header_block.py:77-92 | the first occurrence of a pattern, None iff there is none |
| HeaderBlock.UpToSeparator | src/localmail/header_block.py:77-92 | the data up to and with the line ending of the first blank line in either spelling (section 2.1 of RFC 5322) |
| HeaderBlock.HeaderBlockOf | src/localmail/header_block.py:95-109 | the block, all of complete data without a separator, None iff truncated data has none |
| HeaderBlock.StraddlingIsLater | src/localmail/header_block.py:42-50 | a separator cut by the ceiling never starts before one found inside |
| HeaderBlock.PrefixFindsTheSame | src/localmail/header_block.py:95-109 | where the prefix has a separator, its block is the message's |
| HeaderBlock.BlockOfWholeUnique | src/localmail/header_block.py:112-121 | a message has one header block |
| HeaderBlock.HeaderEntriesBlock | src/localmail/api/messages.py:145-174 | the bounded read with its fallback serves the whole message's block and no other, and rereads iff the prefix is cut and has no separator |
| HeaderBlock.GroupEntries | src/localmail/header_block.py:171-176 | one key per name that occurs, each with its values in wire order |
| HeaderBlock.GroupingLosesNothing | src/localmail/header_block.py:171-176 | every entry is at its place in its group |
| HeaderBlock.GroupSize | src/localmail/header_block.py:171-176 | a group has one value per entry of its name |
| TextWindow.PageIsSlice | src/localmail/text_window.py:89-120 | clamped positions give exactly the slice asked for, and the page's own checks never fail |
| TextWindow.WalkReadsTheText | src/localmail/text_window.py:45-120 | following `next_offset` ends and yields the whole text from the offset on |
| Daemon.PlanReconcile | src/localmail/daemon_reconcile.py:32-55 | exactly the accounts to spawn, to tear down and to respawn, each list ascending |
| Daemon.NothingToDo | src/localmail/daemon_reconcile.py:28-29 | a plan is empty iff what runs is what is desired |
| Daemon.Daemon.SpawnAccount | src/localmail/daemon.py:181-213 | a new bundle is registered and no other entry changes; when a thread does not start it raises and registers nothing, stranding the idle thread exactly if that had started |
| Daemon.InReachExactly | src/localmail/daemon.py:196-213 | every bundle ever spawned is registered or has been told to stop iff none is stranded |
| Daemon.Daemon.TeardownAccount | src/localmail/daemon.py:215-224 | a running account's bundle is signalled, its entry goes, and its two threads are joined one after the other with the whole grace each; a missing one changes nothing |
| Daemon.Daemon.ApplyCommand | src/localmail/daemon.py:305-320 | what each command does, an unknown one included |
| Daemon.Daemon.Reconcile | src/localmail/daemon.py:369-406 | after a tick that read the accounts, was not stopped and did not raise, what runs is what is desired, and an account a command restarted has a new bundle, while one that already ran as desired and was not restarted keeps its own; a tick that could not read the accounts, or was stopped, takes down what the commands restart and nothing else; every bundle ever spawned is registered, signalled or stranded, and only a tick whose start of a desired account failed raises or strands; every join waits for no longer than the grace, two joins per command and per account that was running at most |
| Daemon.Daemon.Stop | src/localmail/daemon.py:506-514 | everything registered is signalled |
| Daemon.Daemon.WindDownThreads | src/localmail/shutdown_budget.py:85-115 | every event is set before the first join, all joins share one deadline |
| Daemon.Daemon.ShutdownAllThreads | src/localmail/daemon.py:566-604 | the registry ends empty and of the bundles ever spawned exactly the stranded ones have not been told to stop |
| Daemon.ShutdownBudget | src/localmail/shutdown_budget.py:49-70 | the wind-down ends by its start plus grace, having waited for every worker that ends in time and for no longer than it must |
| Daemon.KillMarginExact | src/localmail/shutdown_budget.py:62-70 | with n accounts torn down between SIGTERM and the wind-down, all is over before the supervisor's kill, whatever the threads do, iff twice the grace times n is below the margin |

## Left out

- Sync, inside a batch: a batch acts at its commit. Locks held while it runs, and statements of other sessions between its own, are not in the machine; other sessions commit between batches.
- Sync, SELECT and SEARCH: clearing a renumbered mailbox and its commit are one step; SEARCH, the read of the hold rows and the read of the clock are one step.
- SyncPass.PassIsRun: the UIDVALIDITY stays the same during the call; the run it yields is proved to end in the same tables, not to print the same log.
- Sync, UIDVALIDITY changes: sessions that had selected the old numbering end there, as their connection does, after at most one commit of what they had in hand; mailbox rows read before outlive it too.
- Sync, hold rows: of the history a pass reads, only the UIDs are kept, since nothing else of it is looked at; `last_seen_at` is written and never read.
- Sync, payload: flags, INTERNALDATE and attachments of a message are not in the sync machine; attachments are in `Dedup` and `BlobStore`.
- Sync, folder choice, IDLE, reconnects and Gmail or OAuth login: plumbing around one mailbox's pass.
- SyncConfluence.Confluence: compares the archives and not the labels, because UPSERT keeps the UID scanned last; that each message has a label, on a UID that carries it, is `SyncLabels.ScheduleLabelsMailbox`.
- RetryFailed.Retry.RetryFailedMessages: a DELETE that fails after the savepoint is released is not modelled; `rows` is the SELECT's answer, in its order.
- Daemon.KillMarginExact: counts the joins only; reading the accounts, closing the pool and exiting take no time in the model.
- LoginLimits.OvershootIsBounded: an audit row that could not be written, where the code lets the login through, is not modelled; password hashing, tokens and sessions are left out.
- BlobStore: works on path values; that their file names are apart is `BlobStore.FileNamesApart`. `fsync`, directories, a full disk and `sanitize_filename` are left out.
- Cursors: the text of a timestamp is taken as faithful; other alphabets than the URL-safe one decode as Python decodes them, but only the round trip is stated.
- FilterParse: the `has:` and `lang:` value lists beyond what extraction reads, and lower-casing outside ASCII (in `FilterFormat` too) are left out.
- HeaderBlock: parsing the block into entries and decoding them is the standard library's.
- Daemon: methods act whole, so a `stop` arriving inside a reconcile tick is seen before or after it; pool resizing, heartbeats, the command listener's reconnects and worker threads other than account bundles are left out; times are exact and joins honour their timeouts.
- The importer, the search engine and its cursor plan, HTTP, TLS, MIME parsing, HTML cleaning, OCR, configuration, admin services and the GUI's display code: not modelled.
- Logging and progress lines: they change no modelled state, except that an error line naming a UID is its last record.
