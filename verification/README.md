# Verification of the annotation daemon's core

A model, in Dafny 4.11, of the parts of the annotation daemon that hold state, and proofs of what they promise:
the note queue, the daemon's goroutines around it, the in-memory index with its SQLite cache, backlink counts, the
frontmatter parser and printer, and the schema migrations. `dafny verify dfyconfig.toml` verifies everything.

## How it is laid out

Objects that update their fields are classes, and their loops are loops: `Queue`, `Daemon`, `Index`, `NoteEntry`,
`CacheTable`, `Store`, and the methods around them. Each method is proved against a function or a step of a state machine,
and what the system promises is proved about those, over all runs.

- `QueueTable` is the `queue` table, row by row, with its four SQL statements as atomic steps (there is one connection,
  internal/store/store.go:41). `AbstractQueue` is the FIFO queue the documentation describes; the table refines it. `QueueWaiting` bounds the
  wait of a row; `QueueFreshness` says when a delivery carries the newest time.
- `DaemonSteps` has the goroutines as one step system: a step is one SQL statement, one critical section, one timer
  firing, or a crash. `DaemonDelivery` (nothing is lost), `DaemonDebounce` (timers and orderly runs), `DaemonTimers` (one timer a path, or two), `DaemonBursts` (firings against bursts), `DaemonAccounting` (rows against
  log), `DaemonLog` (calls against log, and the end of the worker) and `DaemonPaths` (which files and requests are taken up) are about every sequence of steps. `Daemon` is the Go type; each of its methods makes exactly one of the steps.
- `Text` and `Frontmatter` scan and split a file; `LineLimit` has the scanner's limit in numbers. `Notes` parses, prints and hashes a note; `NotesRoundTrip` has the laws, `NotesHash` what the hash tells apart. YAML is a
  parameter with two laws, stated in `Lawful`: an encoded entry is whole lines, none of them a fence, and entries of distinct keys in a row decode to them.
  `LawfulCodec` shows that these can be met. `NoteEntries` makes the index entry of a note; `EntryFields` is about its fields, up to what Build stores, and `LinkPattern` about its links.
- `NoteIndex` and `IndexCache` are the map of entries and the cache table. `IndexFlush` interleaves flushes with updates, by
  pointer identity. `IndexBuild` is Build; `IndexRuns` runs edits, builds, flushes and restarts together.
- `Backlinks` is computeBacklinks with every map iteration in arbitrary order; `BacklinkCounts` says what the counts are, `BacklinkOrder` exactly when the order does not matter, `BacklinkNames` which links count for a note by the characters of its path.
- `Migrations` is the loop and the rollback, over any SQL; `MigrationRuns` has their runs; `ShippedMigrations` the ten files, `MigrationFiles` how a file is split.

Calls whose outcome the code cannot foresee take it as a parameter (`dbOk`, `failAt`, `faults`); so do clocks. A step that is not enabled changes nothing.

## What turned out false

Some promises do not hold of the code as it stands. For each there is an input at which it fails, and the exact condition under which it holds.

- Dequeue returns the newest time of a path: not after an older row of the path is re-enqueued while a newer one is processing
  (`QueueFreshness.StaleExample`). Pending rows carry the newest times throughout a run if and only if no successful re-enqueue is aimed at a stale row (`LatestThroughoutIff`), and then every
  delivery is the newest (`DeliveriesAreLatest`). The daemon never re-enqueues (`WithoutReEnqueueGetsLatest`).
- One live timer per path: not when a save lands inside a running callback (`DaemonTimers.TwoTimersOfOnePath`). It holds throughout a run if and only if no save of the path
  arms beside an orphan (`OneTimerIff`), and an orphan is made exactly by a callback that deletes its path while the timer in the map is armed (`OrphanIffDeletedWhileArmed`).
- One firing and one Enqueue per burst of saves: not in that run either (`DaemonBursts.TwoTimersForOneBurst`). Firings and Enqueues match the bursts of a path throughout a run if and only if each of its
  saves finds an armed timer in the map exactly when it continues a burst, no Enqueue of its callbacks fails, and no crash takes a timer of it or a callback before its Enqueue (`MatchesIffInStep`). A
  path whose timers fire on time and whose saves keep out of its callbacks is such a path (`OrderlyRunsAreInStep`, `DaemonDebounce.OneEnqueuePerBurst`). No save is lost either way (`EverySaveIsHeard`).
- A clean entry has its row in the cache: not with two overlapping flushes (`IndexFlush.OverlapLosesAnUpdate`), which the ten-second timer in
  internal/daemon/daemon.go:111 allows. It holds throughout if and only if every step is safe (`CoherentIffSafe`), so always with one flush at a time (`RunKeepsInv`). Build is
  transparent in any case (`IndexRuns.BuildIsTransparent`).
- That row equals the entry: not always in the backlink count, which Build recomputes without marking the entry dirty
  (`IndexBuild.StaleCountExample`). Where links are unambiguous it does if and only if the naive scan of what the cache and the files hold leads as many occurrences to the note as the row says (`CleanRowIsCurrentIff`).
- Backlink counts do not depend on the iteration order: not for blank links (`BacklinkCounts.BlankLinkIsAmbiguous`; `NoteEntries.BlankTargetIff` says which links are blank) nor for shared
  keys (`BacklinkOrder.SharedAliasSplitsCounts`). The counts are the same in every order if and only if each link is unambiguous (`CountsDoNotVaryIff`), and then so are all resolutions (`OrderDoesNotMatterIff`): its key belongs to at most one other note, and where the scan may be
  reached, at most one other note goes by that name, the one with the key if there is one.
- A count is the number of linking notes, as the comment in internal/index/backlinks.go:5-7 says: not when a note links twice (`BacklinkCounts.TwoLinksCountTwice`). It is if and
  only if no note has two occurrences resolved to the entry (`CountIsLinkingNotesIff`).
- An unchanged note is written back byte for byte: never without frontmatter, for the printer always adds fences (`NotesRoundTrip.PlainFileIsNotWrittenBack`). `WriteBackIsIdentical` has the exact condition.
- The parts of a split file make up the file, line ends aside: they do if and only if every line fits the scanner's buffer; otherwise the scan ends without notice and the rest of
  the body is lost (`Frontmatter.SplitIsExact`, `OverlongBodyIsLost`; `LineLimit.SplitKeepsFileIff` in numbers).
- The content hash tells different contents apart, even if SHA-256 never collides: not a note from one that spells out its YAML in the body (`NotesHash.BodyImitatesYAML`). Contents are the same if and only if the hashes are
  and the bodies have one length (`SameContentIff`).
- A cached row is used only for an unchanged file: the code takes any row not older than the file (`IndexRuns.SameTimeHidesEdit`). `SeesFilesIff` has the exact condition for a whole workspace; with strictly increasing file times all is well.
- Everything outside the down block of a migration file is its up script: not if another text comes first (`MigrationFiles.TextBeforeIsDropped`); it is if and only if only white space comes before the block (`AllOutsideIsUpIff`).

## Model

| member | source | states |
|---|---|---|
| QueueTable.MaxPosition | internal/queue/queue.go:19 | the scan finds no position exactly if there is no row, and otherwise the highest one |
| QueueTable.NextPosition | internal/queue/queue.go:19 | a new position is at least 1 and above every position in the table, although values of removed rows may come back |
| QueueTable.FindPending | internal/store/migrations/009_add_queue_dedup_index.sql:6 | the row that conflicts under the partial unique index is found exactly if there is one |
| QueueTable.FirstPending | internal/queue/queue.go:28-30 | the subquery of Dequeue picks the pending row of least position, and none exactly if nothing is pending |
| QueueTable.EnqueueKeepsValid | internal/queue/queue.go:17-21 | Enqueue keeps: positions positive and distinct, at most one pending row a path, ids within the high-water mark |
| QueueTable.DequeueKeepsValid | internal/queue/queue.go:26-31 | Dequeue keeps the same |
| QueueTable.ReEnqueueKeepsValid | internal/queue/queue.go:34-38 | ReEnqueue keeps the same, whatever the status of the row it is aimed at |
| QueueTable.RemoveKeepsValid | internal/queue/queue.go:41 | Remove keeps the same |
| QueueTable.ConflictIsLossless | internal/queue/queue.go:123-153 | re-enqueueing a processing row fails exactly if another pending row has its path; then the table is untouched and the path is still pending after Remove; otherwise the row goes behind all pending ones |
| QueueTable.Queue.constructor | internal/queue/queue.go:90 | a queue over the table as the database holds it |
| QueueTable.NewQueue | internal/queue/queue.go:61-91 | a queue exactly if the handle is not nil and all four statements prepare, over the table as it is |
| QueueTable.Queue.Enqueue | internal/queue/queue.go:97-104 | the whole new table, the error, and that a failed call changes nothing |
| QueueTable.Queue.Dequeue | internal/queue/queue.go:108-119 | the entry returned (none, without error, if nothing is pending), the error and the new table |
| QueueTable.Queue.ReEnqueue | internal/queue/queue.go:123-136 | an error exactly for a missing row, a conflict or a failed statement, and the new table |
| QueueTable.Queue.Remove | internal/queue/queue.go:140-153 | an error exactly for a missing row or a failed statement, and the new table |
| AbstractQueue.EnqueueRefines | internal/queue/queue.go:17-21 | on the sequence of pending rows, Enqueue appends or rewrites the time in place |
| AbstractQueue.DequeueRefines | internal/queue/queue.go:26-31 | Dequeue pops the head of the sequence and returns it |
| AbstractQueue.ReEnqueueRefines | internal/queue/queue.go:34-38 | a successful ReEnqueue moves a processing or pending entry to the back; replies agree |
| AbstractQueue.RemoveRefines | internal/queue/queue.go:41 | Remove drops the entry from the sequence or from those in processing; replies agree |
| AbstractQueue.RunRefines | internal/queue/queue.go:17-153 | over every sequence of calls from refined states the table refines the abstract queue, reply for reply |
| AbstractQueue.RunFromEmptyRefines | internal/queue/queue.go:1-5 | the same for every run from an empty table |
| AbstractQueue.ListingIsUnique | internal/queue/queue.go:29 | the table fixes the sequence: there is one way to list its pending rows by position |
| AbstractQueue.HeadIsFirst | internal/queue/queue.go:28-30 | the head of the sequence is the row Dequeue selects |
| QueueWaiting.RankNeverGrows | internal/queue/queue.go:26-38 | no call aimed at other rows pushes a pending row back; each Dequeue moves it one place forward or returns it |
| QueueWaiting.ModelWaiting | internal/queue/queue.go:108-153 | on the sequence: an entry of rank k left alone is among the next k+1 deliveries, and is the last of them if only processing entries are removed or re-enqueued |
| QueueWaiting.BoundedWaiting | internal/queue/queue.go:108-153 | on the table: a pending row of rank k, left alone while pending, is returned by one of the next k+1 Dequeue calls |
| QueueWaiting.ExactWaiting | internal/queue/queue.go:108-153 | it is exactly the (k+1)th if only processing rows are removed or re-enqueued |
| QueueWaiting.EnqueuedIsDelivered | internal/queue/queue.go:93-104 | a row stranded in processing never keeps a later Enqueue of its path from being delivered within its rank plus one |
| QueueFreshness.FreshExactlyWhenWriter | internal/queue/queue.go:17-38 | over every run under an advancing clock, a row carries the time of its path's last Enqueue exactly if that call wrote this row |
| QueueFreshness.DequeueIsCurrentIff | internal/queue/queue.go:26-31 | so a Dequeue returns the newest time if and only if it picks the row written last for its path |
| QueueFreshness.StaleExample | internal/queue/queue.go:34-38 | the newest time is not always returned: a run of five calls after which Dequeue hands out a stale one |
| QueueFreshness.StaysLatestIff | internal/queue/queue.go:17-41 | one call keeps "every pending row carries its path's newest time" if and only if it is not a successful re-enqueue of a stale row |
| QueueFreshness.LatestThroughoutIff | internal/queue/queue.go:17-41 | over every run, any clock, any number of workers and stranded rows: pending rows carry the newest times throughout if and only if no successful re-enqueue is aimed at a stale row |
| QueueFreshness.DeliveriesAreLatest | internal/queue/queue.go:106-119 | and then every delivery carries the time of the last Enqueue of its path |
| QueueFreshness.WithoutReEnqueueGetsLatest | internal/daemon/daemon.go:206-227 | in every run without ReEnqueue, which the daemon never calls, every delivery carries the newest time, restarts and stranded rows included |
| QueueFreshness.SingleWorkerReEnqueuesLatest | internal/queue/queue.go:121-136 | a worker that re-enqueues only what it holds never succeeds with a stale row, whatever earlier workers left stranded |
| QueueFreshness.SingleWorkerGetsLatest | internal/queue/queue.go:17-38 | so its deliveries always carry the newest time, too |
| DaemonSteps.EnqueueKeepsRows | internal/queue/queue.go:94-96 | Enqueue leaves each row its path and status and makes sure the path has a pending row |
| DaemonSteps.RunKeepsInv | internal/daemon/daemon.go:198-229 | in every run, crashes and failures included, the table is valid and the worker's row is in processing |
| DaemonDelivery.AtLeastOnceOrOnTable | internal/daemon/daemon.go:206-227 | a successful Enqueue(p) is, at every later point of every run with crashes and failures anywhere, followed by a processed event for p, or p has a row |
| DaemonDelivery.EnqueuedStaysAccepted | internal/daemon/daemon.go:206-227 | the same, sharper: the row is not one that is logged and about to be deleted |
| DaemonDelivery.LiveRowStays | internal/daemon/daemon.go:221-227 | a row that is not yet logged survives every step but the one that logs it |
| DaemonDelivery.SavesStayNoticed | internal/daemon/daemon.go:275-307 | while no crash comes and no Enqueue of a callback fails, a save of p stays processed, on the table, in an armed timer or in a callback |
| DaemonDelivery.FlightContinues | internal/daemon/daemon.go:288-304 | a save on its way stays on its way or gets a row, a timer reset inside a running callback included |
| DaemonDelivery.RunKeepsOnlyWorkerProcesses | internal/daemon/daemon.go:206-227 | without faults the row in the worker's hand is the only one in processing |
| DaemonDelivery.EverySaveIsProcessed | internal/daemon/daemon.go:198-307 | in every run that has come to rest without a crash, a failed Enqueue of a callback or a failed call of the worker, each save of a .md path is followed in the log by a processed event for it |
| DaemonDelivery.RunKeepsFreshIds | internal/daemon/daemon.go:267-305 | timers and callbacks have names of their own, and an armed timer in the map is that of its path |
| DaemonDebounce.EverySaveIsHeard | internal/daemon/daemon.go:291-305 | after a save arms at t, at every later point a timer of p is armed and due no earlier than t plus the interval, or a callback of p started at or after it |
| DaemonDebounce.FiringsNeverExceedSaves | internal/daemon/daemon.go:291-305 | firings plus armed timers of a path never exceed its saves, whatever happens |
| DaemonDebounce.StepKeepsExact | internal/daemon/daemon.go:291-305 | a step that is orderly for path p keeps: one timer of p at most, in the map while armed, due one interval after the last save, never beside a callback; firings match bursts |
| DaemonDebounce.OneEnqueuePerBurst | internal/daemon/daemon.go:265-307 | for each path whose own steps are orderly, whatever other paths do: at most one armed timer, the one in the map, and at rest exactly one Enqueue per maximal burst of its saves |
| DaemonBursts.StaysMatchingIff | internal/daemon/daemon.go:291-305 | one step keeps "firings plus armed timers are the bursts, and Enqueues plus callbacks before theirs the firings" if and only if a save finds an armed timer in the map exactly when it continues a burst, no Enqueue of a callback of the path fails, and a crash takes none of its timers or of those callbacks |
| DaemonBursts.MatchesIffInStep | internal/daemon/daemon.go:265-307 | the same over every run, crashes and failures included |
| DaemonBursts.OneEnqueuePerBurstInStep | internal/daemon/daemon.go:265-307 | and then, once no timer is armed and no callback is before its Enqueue, one Enqueue per maximal burst |
| DaemonBursts.OrderlyRunsAreInStep | internal/daemon/daemon.go:265-307 | a path whose timers fire on time and whose saves keep out of its callbacks is in step |
| DaemonBursts.TwoTimersForOneBurst | internal/daemon/daemon.go:293-304 | a run that is not in step: one firing and two armed timers against two bursts |
| DaemonTimers.StaysOneIff | internal/daemon/daemon.go:293-306 | one step keeps "at most one live timer of p" if and only if it is not a save of p arming beside an orphan, an armed timer the map does not lead to |
| DaemonTimers.OneTimerIff | internal/daemon/daemon.go:291-307 | over every run, crashes and failed Enqueues included: at most one live timer of p throughout if and only if no save of p arms beside an orphan |
| DaemonTimers.OrphanIffDeletedWhileArmed | internal/daemon/daemon.go:302-304 | an orphan comes about exactly when a callback deletes its path while the timer in the map is armed |
| DaemonTimers.TwoTimersOfOnePath | internal/daemon/daemon.go:293-304 | that happens: a run of eleven steps that arms two timers of one path |
| DaemonAccounting.StepKeepsBooks | internal/daemon/daemon.go:206-227 | every step keeps the books of ids inserted and ids logged |
| DaemonAccounting.RowsAndLogAgree | internal/daemon/daemon.go:206-227 | in every run: rows inserted = removed + pending + processing, processing rows are at most crashes + 1, processed events = removed rows + rows logged but not removed |
| DaemonAccounting.IdsAreNeverReused | internal/store/migrations/001_create_queue_table.sql:5 | an id once used and gone never names a row again |
| DaemonLog.StepBalances | internal/daemon/daemon.go:168-187 | one step adds to the enqueued events of a path and those still to be logged or lost by it exactly its successful Enqueue |
| DaemonLog.EnqueuesAreLogged | internal/daemon/daemon.go:296-305 | in every run: each successful Enqueue of a path is an enqueued event, or its append is still to come, has failed or was lost in a crash |
| DaemonLog.NothingIsLost | internal/daemon/daemon.go:301 | nothing is lost without crashes and failed appends |
| DaemonLog.SavesAreLogged | internal/daemon/daemon.go:279-289 | one saved event of a .md file for each write or creation that a waiting watcher hears of and can log |
| DaemonLog.WorkerEndsIff | internal/daemon/daemon.go:198-228 | the worker ends exactly with a failed call of its own or a stop between entries, and leaves table and log as they are |
| DaemonLog.GoneWorkerStaysGone | internal/daemon/daemon.go:206-209 | until a crash nothing is processed then: no processed event, and every row keeps its path and status |
| DaemonLog.WatcherEndsIff | internal/daemon/daemon.go:270-277 | the watcher ends only between events and logs no save then |
| DaemonLog.CrashRestarts | internal/daemon/daemon.go:97-100 | a crash leaves a new daemon over the same queue and log |
| DaemonPaths.RunKeepsOnlyMd | internal/daemon/daemon.go:279-306 | in every run, whatever the filesystem reports: saved events, timers and callbacks are of files whose name ends in ".md" |
| DaemonPaths.MdFileIsTakenUp | internal/daemon/daemon.go:286-306 | a write of any such file at a waiting watcher is logged as saved and arms its timer for one interval |
| DaemonPaths.OtherEventsAreSkipped | internal/daemon/daemon.go:279-284 | any other event changes nothing |
| DaemonPaths.RequestEnqueuesItsPath | internal/daemon/daemon.go:174-187 | a request leaves a pending row of the path between the white space of its body, and a blank body changes nothing |
| Strings.TrimSplits | internal/daemon/daemon.go:174 | what is trimmed off is white space at the ends |
| Strings.TrimIs | internal/daemon/daemon.go:174 | and text without white space at its ends is all that is left |
| Daemon.NewDaemon | internal/daemon/daemon.go:64-89 | a daemon in its initial state over the queue's table exactly if the configuration has no fault, that is, every handle and path is there and both intervals are positive; otherwise the first of the seven faults |
| Daemon.Daemon.constructor | internal/daemon/daemon.go:88 | the initial state, over whatever table the queue has |
| Daemon.Daemon.OnEvent | internal/daemon/daemon.go:275-289 | a write or creation of a file whose name ends in ".md" is taken up and logged at once if the append works; any other event changes nothing |
| Daemon.Daemon.ResetTimer | internal/daemon/daemon.go:292-307 | the critical section that resets or starts the timer |
| Daemon.Daemon.FireTimer | internal/daemon/daemon.go:296 | a due timer starts its callback |
| Daemon.Daemon.EnqueueFromCallback | internal/daemon/daemon.go:297-300 | the callback's Enqueue; on failure it ends and leaves the map entry |
| Daemon.Daemon.LogFromCallback | internal/daemon/daemon.go:301 | the enqueued event, logged after the row is there |
| Daemon.Daemon.ForgetTimer | internal/daemon/daemon.go:302-304 | the callback takes its path out of the map |
| Daemon.Daemon.HandleEnqueue | internal/daemon/daemon.go:168-184 | status 400 for a blank body, 500 for a failed Enqueue, 200 otherwise; with 200 there is a pending row of the body without the white space around it |
| Daemon.Daemon.LogFromHandler | internal/daemon/daemon.go:185 | the handler's enqueued event |
| Daemon.Daemon.TakeEntry | internal/daemon/daemon.go:206-209 | the worker's Dequeue; an error ends the worker |
| Daemon.Daemon.LogProcessed | internal/daemon/daemon.go:221-223 | the processed event; an error ends the worker |
| Daemon.Daemon.RemoveEntry | internal/daemon/daemon.go:225-227 | the deletion; an error ends the worker |
| Daemon.Daemon.ProcessOne | internal/daemon/daemon.go:206-227 | one turn of the loop without faults logs and deletes the head of the queue |
| Daemon.Daemon.DrainQueue | internal/daemon/daemon.go:198-229 | left alone, the loop logs one processed event per pending row in queue order and deletes exactly those rows |
| Daemon.PopAndRemove | internal/daemon/daemon.go:206-227 | dequeueing and deleting the head leaves the tail of the queue |
| Text.UnlinesScan | internal/notes/notes.go:130-135 | scanning and rejoining gives the input with one CR dropped from each line end and a final newline added; with an overlong line, a proper prefix of it |
| Text.ScanAppend | internal/notes/notes.go:130-135 | whole lines scan independently of what follows |
| Text.ScanOverlong | internal/notes/notes.go:130-135 | the scanner never gets past a line that does not fit |
| Text.ScanUnlines | internal/notes/notes.go:161-177 | joined lines scan back to themselves |
| Text.CleanIff | internal/notes/notes.go:174-180 | text that scanning and joining leaves alone: whole lines without a '\r' at their ends |
| LineLimit.LineIsScanned | internal/notes/notes.go:130-135 | a line of up to 65535 characters is scanned, without its "\n" or "\r\n" |
| LineLimit.LongLineIsNotScanned | internal/notes/notes.go:130-135 | one of 65536 or more is not, nor anything after it |
| LineLimit.FitsIff | internal/notes/notes.go:130-135 | a text fits the scanner if and only if it never goes 65536 characters without a newline |
| Frontmatter.SplitIsExact | internal/notes/notes.go:126-180 | pre-fence, fence, YAML, fence and body make up the normalised input; if a line does not fit, a proper prefix of it |
| Frontmatter.SplitAtFences | internal/notes/notes.go:137-159 | only the first two fence lines matter: whatever is around them is split there |
| Frontmatter.NoSplitIffFewFences | internal/notes/notes.go:145-159 | there is nothing to split exactly if the scanned lines hold fewer than two fences |
| Frontmatter.OverlongBodyIsLost | internal/notes/notes.go:130-177 | a body of one line that does not fit the scanner is split off as empty |
| LineLimit.SplitKeepsFileIff | internal/notes/notes.go:160-180 | the parts around two "---" lines make up the file, line ends aside, if and only if no line has 65536 characters, and a prefix of it otherwise |
| LineLimit.PlainFileIsSplit | internal/notes/notes.go:129-180 | any file of plain lines is split at its first two "---" lines; with a line too long behind it, everything from there on is lost |
| Frontmatter.FirstFence | internal/notes/notes.go:138-144 | the line found is the first that is exactly the fence |
| Frontmatter.ReadLines | internal/notes/notes.go:130-135 | the scanning loop |
| Frontmatter.FindFence | internal/notes/notes.go:137-156 | the search loops, from either start |
| Frontmatter.JoinPart | internal/notes/notes.go:161-177 | join and the newline put back make whole lines |
| Frontmatter.SplitFrontmatter | internal/notes/notes.go:129-180 | the method returns exactly the split, and blanks if there is none |
| Notes.DecodeYAML | internal/notes/notes.go:184-215 | map and key order, a later value for a key winning; failure exactly on malformed YAML |
| Notes.ParseNote | internal/notes/notes.go:32-59 | the method parses as specified; a file without fences is all body |
| Notes.OrderKeys | internal/notes/notes.go:226-243 | keys in file order, new ones in any order, ai_suggestions last |
| Notes.PrintedKeys | internal/notes/notes.go:226-243 | the printed keys are those of the map, and those of the key order even if they are gone from the map |
| Notes.WriteEntries | internal/notes/notes.go:245-253 | one encoded entry after another, up to a value that cannot be encoded |
| Notes.Marshal | internal/notes/notes.go:219-260 | the method prints as specified, for some order of the new keys; it fails exactly if the value of a printed key cannot be encoded |
| Notes.HashNote | internal/notes/notes.go:94-118 | the hash of everything but ai_suggestions |
| Notes.WithoutAI | internal/notes/notes.go:228-234 | the keys other than ai_suggestions |
| NotesRoundTrip.ReassembledSplits | internal/notes/notes.go:129-180 | parts that are whole lines without a fence are found again by the parser |
| NotesRoundTrip.OrderedIsComplete | internal/notes/notes.go:226-243 | the printed key list has every key of the map once |
| NotesRoundTrip.RenderedEntry | internal/notes/notes.go:245-253 | each key stands in the block at its place with its value, or with nil if it is gone from the map |
| NotesRoundTrip.LastPairWins | internal/notes/notes.go:200-209 | of several values of one key the last is taken |
| NotesRoundTrip.ParsePrinted | internal/notes/notes.go:32-59 | Parse(marshal(n)) is n again, keys now in printed order |
| NotesRoundTrip.PrintIsFixedPoint | internal/notes/notes.go:217-260 | the file's own keys come first in their order and ai_suggestions last, and printing the parsed note gives the same file, whatever order new keys took |
| NotesRoundTrip.SuggestionsKeepHash | internal/notes/notes.go:91-118 | setting or replacing ai_suggestions, printing and parsing again leaves the content hash as it was |
| NotesHash.HashFollowsBody | internal/notes/notes.go:116 | if the digest never collides: for equal frontmatter the hashes are equal if and only if the bodies are |
| NotesHash.SameContentIff | internal/notes/notes.go:91-118 | and if YAML is injective too: equal hashes and bodies of one length if and only if the bodies are equal and the maps agree on every key but ai_suggestions |
| NotesHash.BodyImitatesYAML | internal/notes/notes.go:111-116 | the length is needed: a plain note that starts with the YAML of another has its hash |
| NotesRoundTrip.WriteBackIsIdentical | internal/notes/notes.go:20-22 | writing back an unchanged note is byte-identical exactly under a stated condition on the file; never for a file without frontmatter |
| NotesRoundTrip.PlainFileIsNotWrittenBack | internal/notes/notes.go:219-257 | a file without frontmatter gets a pair of fences |
| LawfulCodec.LawsCanBeMet | internal/notes/notes.go:247-252 | the laws asked of YAML have a model |
| NoteEntries.ExtractLinks | internal/index/build.go:176-187 | the loop over the matches gives the trimmed targets |
| NoteEntries.LinkIsFound | internal/index/build.go:161 | a [[link]] in running text is found, and the scan goes on behind it |
| NoteEntries.BlankTargetIff | internal/index/build.go:179-184 | a link has a blank target exactly if only white space comes before its first bar or its end |
| LinkPattern.FirstLink | internal/index/build.go:161 | of all places where the pattern matches the leftmost is taken, and the search goes on behind it |
| LinkPattern.NoLinks | internal/index/build.go:161 | there is no match where the pattern matches nowhere |
| LinkPattern.TargetIs | internal/index/build.go:179-184 | the target is the text before the first bar, without the white space around it |
| NoteEntries.SuggestionsKeepEntry | internal/index/build.go:115-141 | writing suggestions into a file leaves its index entry as it was, but for the file time |
| EntryFields.EntryTells | internal/index/build.go:115-141 | the entry of any file that parses has the title, aliases, tags, headings, links and hash of the note, empty where a key is absent |
| EntryFields.PrintedEntryTells | internal/index/build.go:115-141 | so has the entry of a note that was printed into a file |
| EntryFields.AnnotatedEntryTells | internal/index/build.go:115-141 | and of one whose file has been given suggestions, which show in no field |
| NoteIndex.Index.Get | internal/index/index.go:46-50 | the one entry of that path among those of the index; nil exactly if there is none |
| NoteIndex.Index.Update | internal/index/index.go:55-60 | the pointer is stored under its path and marked dirty; all else stays |
| NoteIndex.Index.Delete | internal/index/index.go:63-67 | the path is gone; all else stays |
| NoteIndex.Index.All | internal/index/index.go:72-82 | one copy per entry, none of them an entry of the index |
| IndexCache.CacheTable.Load | internal/store/index_cache.go:30-61 | each row once, in any order; an error exactly if the query fails or a row's time does not parse |
| IndexCache.CacheTable.Upsert | internal/store/index_cache.go:66-84 | rows are written one by one and may stop after any of them |
| IndexCache.CacheTable.Delete | internal/store/index_cache.go:88-108 | exactly the given paths go, or none |
| IndexFlush.CoherentIffSafe | internal/index/flush.go:13-53 | with any number of flushes at once, a run keeps "every clean entry has its row" throughout if and only if each step is safe: no write hits a clean entry it does not stand for, no clear an entry without its row |
| IndexFlush.WriteIsSafeIff | internal/index/flush.go:27-43 | a write is safe if and only if the entry collected has not been replaced by one with another note that is clean by now |
| IndexFlush.StaysCoherentIffSafe | internal/index/flush.go:41-50 | the same of one step |
| IndexFlush.StepIsSafe | internal/index/flush.go:13-53 | with one flush in flight every step is safe |
| IndexFlush.RunKeepsInv | internal/index/flush.go:10-53 | one flush at a time, interleaved anyhow with updates and deletes and possibly stopping part way, stays coherent: no update is lost to the clearing of flags |
| IndexFlush.OverlapLosesAnUpdate | internal/index/flush.go:41-50 | with two flushes at once it is false: a run of seven steps after which an old row stands under a clean new entry |
| IndexFlush.FlushRuns | internal/index/flush.go:13-53 | an uninterrupted flush is a run of these steps, and what it leaves |
| IndexFlush.WritesUpsert | internal/store/index_cache.go:66-84 | n single writes are the row-by-row upsert of n rows |
| IndexFlush.Put | internal/index/index.go:55-60 | Update beside flushes under way is exactly the machine's step |
| IndexFlush.Drop | internal/index/index.go:63-67 | and so is Delete |
| IndexFlush.CollectDirty | internal/index/flush.go:14-21 | exactly the dirty entries, each once |
| IndexFlush.MakeRows | internal/index/flush.go:27-39 | one row per collected entry, with its time, hash, fields and count |
| IndexFlush.ClearFlags | internal/index/flush.go:46-50 | exactly the flags of the collected pointers are cleared, replaced entries keeping theirs |
| IndexFlush.FlushDirty | internal/index/flush.go:13-53 | exactly the dirty entries are written, with their counts; on success none stays dirty; on failure a prefix of the rows is written and no flag changes |
| Backlinks.ResetCounts | internal/index/backlinks.go:15-18 | all counts are zero |
| Backlinks.BuildLookup | internal/index/backlinks.go:20-32 | every path, title and alias leads to some entry that has it |
| Backlinks.AddKeys | internal/index/backlinks.go:24-31 | the keys of one entry are entered over what was there |
| Backlinks.FallbackScan | internal/index/backlinks.go:42-52 | another entry whose basename or title folds equal, or none exactly if there is none |
| Backlinks.ResolveLink | internal/index/backlinks.go:37-52 | the lookup first, unless it leads back to the source, then the scan |
| Backlinks.CountLinksOf | internal/index/backlinks.go:35-53 | the links of one entry are all treated and counted |
| Backlinks.ComputeBacklinks | internal/index/backlinks.go:11-55 | for every iteration order and any counts before: each occurrence is resolved as the two stages allow and each count is the number of occurrences resolved to its entry |
| BacklinkCounts.CountsAreConserved | internal/index/backlinks.go:34-54 | the counts add up to the resolved occurrences, hence at most to the links, and no note counts its own |
| BacklinkCounts.SumIsResolved | internal/index/backlinks.go:34-54 | the sum over entries is the number of resolved occurrences |
| BacklinkCounts.TotalLinks | internal/index/backlinks.go:35-36 | the occurrences are as many as the links |
| BacklinkCounts.ResolutionIsNaive | internal/index/backlinks.go:37-52 | an unambiguous link resolves as in the naive scan, whatever the lookup table |
| BacklinkCounts.CountsAreNaive | internal/index/backlinks.go:11-55 | if every link is unambiguous, every count is the number of occurrences the naive scan resolves to the entry, whatever the orders |
| BacklinkCounts.DistinctNotesAreUnambiguous | internal/index/backlinks.go:20-52 | without blank links, with keys disjoint and names distinct up to case, every link is unambiguous |
| BacklinkCounts.BlankLinkIsAmbiguous | internal/index/backlinks.go:48 | a blank link may go to any untitled note |
| BacklinkCounts.CountIsLinkingNotesIff | internal/index/backlinks.go:5-7 | a count is at least the number of linking notes, and equal to it if and only if no note has two occurrences resolved to the entry |
| BacklinkCounts.SourcesOfSize | internal/index/backlinks.go:35-39 | the number of sources of a set of occurrences, and when it is the number of occurrences |
| BacklinkCounts.TwoLinksCountTwice | internal/index/backlinks.go:36-40 | a note that links twice counts twice, in every order |
| BacklinkNames.HasNameIff | internal/index/backlinks.go:47 | the basename of a path is what follows its last slash, without a final ".md" |
| BacklinkNames.NameOfNote | internal/index/backlinks.go:47 | so it is the name in dir/name.md and in name.md |
| BacklinkNames.FoldIff | internal/index/backlinks.go:48 | strings fold equal if and only if they do character by character |
| BacklinkNames.SpelledLinkLeads | internal/index/backlinks.go:38-41 | in every run a link that is the path, title or alias of one note alone leads there, unless that is its own |
| BacklinkNames.ResemblingLinkLeads | internal/index/backlinks.go:43-52 | one that no other note spells leads to another note with that basename or title up to case, and nowhere exactly if there is none |
| BacklinkNames.NameCounts | internal/index/backlinks.go:43-52 | in every run exactly the links from other notes that are its path, or its basename up to case, count for an untitled note beside notes unlike it, blank links aside |
| BacklinkNames.NamedByLink | internal/index/backlinks.go:47-50 | a link to A counts once for the untitled note d/a.md, in every run |
| BacklinkOrder.OneResultIffUnambiguous | internal/index/backlinks.go:20-52 | for one link: all results, over all lookup tables and scan orders, agree if and only if it is unambiguous |
| BacklinkOrder.OrderDoesNotMatterIff | internal/index/backlinks.go:11-55 | every run resolves every link the same if and only if every link is unambiguous |
| BacklinkOrder.CountsDoNotVaryIff | internal/index/backlinks.go:11-55 | the counts of all runs are the same if and only if every link is unambiguous |
| BacklinkOrder.SharedKeyGoesEitherWay | internal/index/backlinks.go:23-32 | a key that two other notes share may lead to either |
| BacklinkOrder.SharedAliasSplitsCounts | internal/index/backlinks.go:29-31 | a shared alias with two runs that leave counts of 1 and of 0 |
| IndexBuild.LoadRows | internal/index/build.go:27-34 | the loaded rows by path, or an error of the load |
| IndexBuild.LoadEntry | internal/index/build.go:53-75 | a clean entry from a row that is not older than the file and decodes, a dirty one from the file otherwise, an error exactly if that fails |
| IndexBuild.Walk | internal/index/build.go:38-78 | the walk loads every note or stops at the first error, its own included |
| IndexBuild.StalePaths | internal/index/build.go:84-89 | exactly the cached paths that were not found |
| IndexBuild.DropStale | internal/index/build.go:90-94 | their rows are deleted in one statement |
| IndexBuild.Build | internal/index/build.go:25-100 | success exactly if the database calls do and every note loads; then the entries, flags, rows and counts; on failure the cache is as before |
| EntryFields.LoadedAreMarkdown | internal/index/build.go:38-48 | there is an entry for each path of the walk that ends in ".md", and for no other |
| EntryFields.KeptAreMarkdown | internal/index/build.go:80-95 | and exactly the rows of such paths are kept |
| EntryFields.RowOrFile | internal/index/build.go:53-75 | an entry is the row's if that decodes and is not older than the file, and the file's otherwise |
| EntryFields.BuildTells | internal/index/build.go:67-75 | after Build the entry of a note printed since its row was written has the note's fields, and the file's path and time |
| IndexBuild.CountDecidesRow | internal/index/build.go:95-99 | the row kept for a clean entry equals the entry exactly if their counts do |
| IndexBuild.CleanRowIsCurrentIff | internal/index/build.go:95-99 | on unambiguous links: after Build the row of a clean entry equals the entry, backlink count included, if and only if the naive scan of what the cache and the files hold leads as many occurrences to the note as the row says |
| IndexBuild.StaleCountExample | internal/index/build.go:54-65 | it may not be: a new note links to a cached one |
| IndexRuns.StepKeepsInv | internal/index/build.go:25-100 | every step, an edit between a stat and its read included, keeps: an entry or row is what its file parses to, or the file is newer or gone |
| IndexRuns.RunKeepsInv | internal/index/build.go:25-100 | so does every run of edits, builds, flushes, corrupted rows and restarts |
| IndexRuns.ParsedIsGood | internal/index/build.go:50-75 | a parse after such an edit carries the time of the stat, so the file counts as newer |
| IndexRuns.BuildIsTransparent | internal/index/build.go:18-24 | after every run, an undisturbed Build succeeds with the surviving cache exactly if it does with an empty one, and finds the same notes |
| IndexRuns.CountsAreTransparent | internal/index/build.go:96-97 | and leaves the same backlink counts, under the premises of CountsAreNaive |
| IndexRuns.BuildStartsCoherent | internal/index/build.go:54-65 | Build leaves a coherent index and cache for IndexFlush to start from |
| IndexRuns.SeesFilesIff | internal/index/build.go:53-66 | over any cache of parsed versions and any workspace: Build sees every file as it is if and only if each cached one is later than its row, or of the same time with a content that parses the same |
| IndexRuns.SameTimeHidesEdit | internal/index/build.go:54 | an edit that keeps the file's time goes unseen behind its row |
| IndexRuns.SeeingFilesIsTransparent | internal/index/build.go:53-78 | and then the cache changes neither success nor the notes found |
| Migrations.Store.constructor | internal/store/migrations.go:33 | no version applied |
| Migrations.Store.ApplyMigration | internal/store/migrations.go:60-79 | the up script and its version together, or nothing |
| Migrations.Store.RunMigrations | internal/store/migrations.go:32-57 | the loop, with the applied set read once before it |
| Migrations.Store.Latest | internal/store/migrations.go:95-101 | the highest positive version, or 0 |
| Migrations.Store.RollbackMigration | internal/store/migrations.go:84-136 | the down script of the latest version and its record together, or nothing; an error without versions or without a script |
| MigrationRuns.MigrateExtends | internal/store/migrations.go:47-56 | a run applies what follows the applied prefix up to the first that fails, and succeeds exactly if none does |
| MigrationRuns.SecondRunIsNoOp | internal/store/migrations.go:47-50 | a run after a successful one does nothing and succeeds |
| MigrationRuns.RollbackShortens | internal/store/migrations.go:95-135 | a rollback undoes the last of the prefix or changes nothing; it succeeds exactly if there is one, with a script that works |
| MigrationRuns.RunKeepsPrefix | internal/store/migrations.go:30-136 | in every run of migrations and rollbacks, any of them failing, the applied versions are a prefix of the sorted list, and the schema that of the prefix if the down scripts invert |
| MigrationRuns.RunRestores | internal/store/migrations.go:81-83 | any number of rollbacks and failures later, a run without faults gives the full schema |
| ShippedMigrations.UpStep | internal/store/migrations/008_add_queue_position_column.sql:1-4 | each shipped up script takes the schema of one version to the next |
| ShippedMigrations.DownStep | internal/store/migrations/009_add_queue_dedup_index.sql:1-6 | each shipped down script takes it back |
| ShippedMigrations.ShippedInverts | internal/store/migrations/010_add_queue_status_position_index.sql:1-4 | so the premise of RunRestores holds of the ten shipped files |
| ShippedMigrations.ShippedRestores | internal/store/migrations.go:81-83 | and a run without faults ends in the schema of version 10, whatever came before |
| ShippedMigrations.FinalTables | internal/store/migrations/008_add_queue_position_column.sql:4 | the four tables and all their columns |
| ShippedMigrations.VersionEight | internal/store/migrations/005_add_queue_index_file_path.sql:4 | the indexes of version 8, none of them unique |
| ShippedMigrations.VersionTen | internal/store/migrations/009_add_queue_dedup_index.sql:6 | the indexes of version 10: that on the file paths of pending rows is unique, as QueueTable has it |
| MigrationFiles.Index | internal/store/migrations.go:225-230 | the first occurrence of a marker, or none exactly if there is none |
| MigrationFiles.BlockIsSplit | internal/store/migrations.go:236-242 | the down script is the block and the up script what follows it, whatever comes before |
| MigrationFiles.TextBeforeIsDropped | internal/store/migrations.go:240-242 | a file whose first text is in neither script |
| MigrationFiles.AllOutsideIsUpIff | internal/store/migrations.go:194-195 | everything outside the block is the up script, as the comment has it, if and only if only white space comes before the block |
| MigrationFiles.NoBlockIsAllUp | internal/store/migrations.go:225-234 | a file without "-- down:", or without "-- /down", is up script altogether |
| MigrationFiles.MarkersDecide | internal/store/migrations.go:225-243 | otherwise the first markers decide: the trimmed text between them and that behind them, or a panic if the end marker comes too early |
| MigrationFiles.BlockFirst | internal/store/migrations.go:236-242 | a block at the start without a '-' in it is the down script, and all that follows the up script |

## Left out

- Daemon.NewDaemon: nil handles are flags; indexFlusher's goroutine is IndexFlush, which shares nothing with the others but the connection.
- Notes.Marshal: the write to a temporary file and the rename in internal/notes/notes.go:74-89 are not modelled.
- IndexCache.CacheTable.Load: a row that decodes to an entry of another path is not modelled; only FlushDirty writes rows.
- IndexBuild.Walk: the workspace is a map of what the walk, the stat and the read find, without directories and without the walk's order.
- MigrationFiles.BlockIsSplit: for a file whose end marker comes first, where the code panics, the result is none; version and name taken from the file name are not modelled.
- QueueTable.NewQueue: closing the statements already prepared is not modelled.
- QueueTable.Queue.Enqueue: `created_at` and `updated_at` are not modelled; ids and times are unbounded integers, not 64-bit ones, and a statement that is committed but reported as failed counts as not done.
- Daemon.Daemon.OnEvent: creation of the watcher and events lost by the operating system are not modelled; an event reaches the loop or does not exist.
- Text.UnlinesScan: a char stands for a byte.
- Notes.DecodeYAML: a document that is not a mapping decodes to no pairs, and a value that fails to decode counts as malformed; yaml.v3 itself is a parameter.
- NotesHash.SameContentIff: SHA-256 is taken to tell all texts apart, and YAML all maps, where the claim says so.
- Notes.HashNote: SHA-256 is an uninterpreted function, and sorting the keys first is left out, since they go into a map again.
- NoteEntries.SuggestionsKeepEntry: headings and the strings taken out of YAML values are uninterpreted functions.
- IndexCache.CacheTable.Upsert: JSON and RFC 3339 are taken to give back what was encoded; names that are not valid UTF-8 are not covered.
- IndexFlush.RunKeepsInv: rows agree with entries up to the backlink count, because the code does not keep it (see above); entries are not changed after Update, as its comment asks.
- IndexRuns.BuildIsTransparent: an edit changes a file's content and time at once, and times strictly increase.
- Backlinks.ComputeBacklinks: simple case folding is a function of characters, any function.
- MigrationRuns.RunRestores: about the schema; rows lost with a dropped table stay lost.
- ShippedMigrations.ShippedRestores: a new unique index that fails on duplicate rows is a fault of that run, as rows are not modelled there.
- Command line, HTTP server and socket, Run's error group and ten-second limit, configuration, event log pruning, Store.Open: wiring and library behaviour.
- The planned worker pipeline (merge rules, retry, redaction): not in the code.
