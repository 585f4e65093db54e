# Propolis in Dafny

Propolis carries evidence from hostile logs into a ledger. Most of what it promises is about not losing,
repeating or reordering lines when files rotate, writes are torn, databases fail and processes die. This
project models the parts that keep those promises and proves them, for every input, every interleaving and
every run.

- **Log tailer** (`LineReader`, `Cursor`, `LogStream`, `Tailer`, `LogTailing`). A state machine over one live
  file, queued rotated files, an open batch with byte spans, and a durable cursor. `TailerRefinement`,
  `TailerRuns`, `Generations` and `GenerationRuns` show it to be a cursor over one logical stream of lines,
  across renames, copytruncate rotations, crashes and a first start without a cursor. `RotationExact`,
  `RecoveryLimits` and `UnreadableDrains` say exactly where it is not, `LossyRuns` adds that up over whole runs,
  and `WitnessRuns` reaches those cases with the tailer's own operations.
- **Intake** (`AppendEvents`, `Quarantine`, `IntakeBatch`, `IntakeRunning`, `IntakeRuns`). The batched append
  that halves, the runner over it, and whole runs of it: conservation, at-least-once, and the order of
  quarantine and cursor. `EndToEnd` runs it on top of the tailer, from the bytes of the log to the ledger, with
  rotations by copytruncate; `RenameEndToEnd` does so with renames.
- **Wire and gateway** (`Frame`, `Connection`, `Gateway`, `WireToTailer`). The codec, the connection loop, the
  hash-chain acceptor with its spool, and the round trip from the wire to the tailer.
- **Console** (`Rollup`, `SwrCell`, `Refresher`, `RateLimiter`, `LogRing`). Derived reads that must equal direct
  ones, a shared cache and its refresher, a limiter and a ring.
- **Feed publisher** (`Publisher`). Directory swaps that must never lose the last complete feed.
- **Arithmetic and encoding** (`Civil`, `Timestamp`, `Canonical`).

`Bytes` and `Sequences` hold what they share: lines of a byte string, and subsequences.

How the world is modelled: files are byte sequences and the disk a map from inodes; a rename, a database
transaction and a step of a concurrent task are each one atomic step; failures and crashes are parameters or
steps that may happen anywhere; time is an integer. SHA-256 is a function parameter. Where the tailer needs
fingerprints to tell files apart this is the hypothesis `Injective`; the ledger theorem asks only that the
strings hashed for the two ledgers do not collide.

Where the code does not keep a promise in full, the model follows the code. Each such case has the exact
condition and, where one helps, a concrete input:

- a rename drops a file the tailer had not opened (`RenameLosesUnopened`, `TailerRuns.StepLoses`,
  `UnopenedFileIsLost`);
- a generation whose copies are gone or unrecognised is skipped, or the old offset is kept inside another one
  (`LosesExactly`, `WithinTheCap`, `CopiesGone`, `GapBetween`, `LossAddsUp`, `OffsetCarriedIntoLine`);
- a generation stamped while empty cannot be found again (`EmptyStampLosesGenerations`,
  `LineBetweenPollsIsLost`);
- a crash before the first cursor save loses what is already rotated away (`LostExactly`,
  `CrashBeforeFirstSave`);
- a cursor saved after a partial commit into a second queued generation replays it (`PersistExact`,
  `RestartReplays`);
- the saved position is documented never to sit past a line that did not reach the ledger; with a renamed file
  still queued it does (`RestartDropsRenamed`, `CrashAfterSave`, `SavedPastRenamed`);
- a rewind hands out every line read since the last commit again, except those of a generation read to its end
  and then rotated away under the open batch (`RewindAfterTruncate`, `RewindLosesTruncated`);
- a partial commit is documented to be refused when the log was replaced in place; a log under 256 bytes replaced
  by a longer one is taken for growth, and it is not (`ThroughExactly`);
- a queued file that cannot be read is abandoned (`AbandonedExactly`, `UnreadableFileIsLost`);
- a live generation stamped while empty can be counted as lost (`RotationRecovers`, `GrowthCountedAsLoss`);
- a torn spool write makes the first record of the retry part of a longer line (`RecordsBecomeLines`,
  `TornWriteMergesRecord`);
- the newline that heals a torn quarantine record is not counted against the caps (`Quarantine.Store.Append`,
  `HealingPassesCaps`);
- the most-active panel is documented never to keep a load waiting once computed, with a third of the cap for a
  refresh to land; beside requests a scheduled refresh can be skipped while theirs is in flight, and two
  computations have to fit in that third (`NeverMisses`, `SkippedRefreshMisses`);
- the ring adds the charge of the entry and frees that of its clone, so its charge can pass the budget and it
  can hold less than fits (`PassesBudgetExactly`, `ExactPushExactly`, `RingExactly`, `SlackShrinksTheRing`);
- the timestamp conforms to its grammar for four-digit years only (`ConformsExactly`, `ConformingRange`);
- isolating a refused event is documented as O(log n) transactions; since every success goes back to the whole
  rest of the batch, the exact count is of the order of the square of the number of digits
  (`TransactionsBounded`, `QuadraticCost`, `NotLogarithmic`).

## Model

| member | source | states |
|---|---|---|
| `LineReader.ReadLinesFrom` | crates/log-tailer/src/tailer.rs:1122-1207 | Spans plus trailing discards are the bytes consumed; a complete line is delivered exactly when its content is at most the cap; every delivered line stands at the offset its span and length give; line bytes exceed the budget only by a free first line; the read stops only at the line count, at a line that does not fit, or with no further complete line |
| `LineReader.ReadTakesEntries` | crates/log-tailer/src/tailer.rs:1122-1207 | A read returns exactly the next entries owed, discards in their place, and is at the end of them unless it stopped for a limit |
| `LogStream.EntryStreamDelivers` | crates/log-tailer/src/tailer.rs:249-268 | The stream of lines is the stream of entries without the discards |
| `LineReader.SkipToNewline` | crates/log-tailer/src/tailer.rs:1260-1276 | Reading in bounded chunks finds the same next newline as a direct search, or reports that there is none |
| `LineReader.ReadMakesProgress` | crates/log-tailer/src/tailer.rs:1122-1207 | A read that asks for a line of a file that has one delivers one, whatever the byte budget |
| `LineReader.LinesAppend` | crates/log-tailer/src/tailer.rs:1122-1207 | Bytes appended to a file only add lines at the end of what a reader is owed |
| `LineReader.NothingOverLength` | crates/log-tailer/src/tailer.rs:1101-1207 | When every line is within the cap, the reader is owed all of them |
| `LogTailing.LogTailer.constructor` | crates/log-tailer/src/tailer.rs:218-232 | A tailer starts at what the cursor file held, or at nothing, with no drain and no open batch |
| `LogTailing.LogTailer.HandleRotation` | crates/log-tailer/src/tailer.rs:593-652 | The whole new state, branch by branch, as `AfterRotation`: what that does to the unread stream, the stamp and the loss counter is the rows about it below |
| `TailerRefinement.PollStampsHead` | crates/log-tailer/src/tailer.rs:593-624 | After rotation handling the stamp is that of the whole window of the live file, whatever it was before: a narrower one that still matches is widened, and every rotation takes a new one |
| `LogTailing.LogTailer.RecoverCopytruncated` | crates/log-tailer/src/tailer.rs:665-709 | Queues the generations found, oldest first, extends an open batch's snapshot with each, records a loss for a missing newer one, and starts the live file over |
| `LogTailing.LogTailer.ReadEntries` | crates/log-tailer/src/tailer.rs:270-369 | With the files whose read fails giving nothing: the entries returned are the next ones owed (drains oldest first, then the file), each over-length line reported in its place; the lines among them are a prefix of the unread stream, which loses exactly them; they are at most the line count and, beyond a first line, within the byte budget; the read stops early only when nothing is left or the next line does not fit; nothing behind a drain still queued is touched; the spans of a fresh batch describe it; the size of the log is remembered |
| `LogTailing.LogTailer.ReadDrains` | crates/log-tailer/src/tailer.rs:303-340 | Drains are read in order until the batch is full, parked when they have no more lines and abandoned when they cannot be read |
| `UnreadableDrains.AbandonedExactly` | crates/log-tailer/src/tailer.rs:303-340 | Accepting a read delivers the unread stream in full if and only if no unreadable file it reaches has a line left, and short of that exactly the lines of the unreadable files reached are lost; both are said of the queue, the files and the two limits before the call; a rewind loses nothing |
| `UnreadableDrains.AbandonedInReach` | crates/log-tailer/src/tailer.rs:303-340 | A read abandons an unreadable queued file if and only if the readable ones before it hold fewer lines than asked for and, unless at most one, fit the byte budget |
| `WitnessRuns.UnreadableFileIsLost` | crates/log-tailer/src/tailer.rs:303-340 | From a first start: the read of a renamed file fails once and the batch is accepted, after which the line left in that file is never delivered |
| `LogTailing.LogTailer.CommitBatch` | crates/log-tailer/src/tailer.rs:384-386 | Accepting the batch changes nothing but its being open |
| `LogTailing.LogTailer.CommitBatchThrough` | crates/log-tailer/src/tailer.rs:403-436 | Returns true exactly when the partial commit is allowed (`ThroughExactly` says when, in bytes); false changes nothing; true moves every source by the spans of the first lines |
| `Generations.ThroughExactly` | crates/log-tailer/src/tailer.rs:403-422 | The first lines of a described batch can be accepted if and only if the log is gone or another file, or still reaches the offset and begins with what was stamped, or a copy is the file that was stamped, or the log reaches the offset, was under 256 bytes when last looked at and has grown since |
| `TailerRefinement.ThroughKept` | crates/log-tailer/src/tailer.rs:398-416 | So always when the log was renamed or only grew |
| `Generations.ThroughRotated` | crates/log-tailer/src/tailer.rs:417-422 | And when its generation is one recovery can find |
| `LogTailing.LogTailer.UncommittedLine` | crates/log-tailer/src/tailer.rs:441-465 | The offset returned is where the line's bytes really start in the file it came from; an offset is returned exactly when the batch is described and the index is one of its lines |
| `LogTailing.LogTailer.RewindBatch` | crates/log-tailer/src/tailer.rs:483-517 | Emptied drains return to the front with their old offsets, queued ones get theirs back: the state is that before the batch |
| `LogTailing.LogTailer.PersistCursor` | crates/log-tailer/src/tailer.rs:562-581 | The front generation's place under its own fingerprint while one is being drained, otherwise the place in the current file |
| `TailerRefinement.RewindRestores` | crates/log-tailer/src/tailer.rs:483-517 | After a rewind the unread stream is what the batch took followed by what was unread |
| `TailerRefinement.ThroughTakesPrefix` | crates/log-tailer/src/tailer.rs:403-436 | After a partial commit of k lines the unread stream is the batch without its first k lines followed by what was unread |
| `TailerRefinement.RenameKeepsStream` | crates/log-tailer/src/tailer.rs:625-650 | A renamed file held open is drained before the new one: the stream is the old one followed by the new file's lines, and an open batch can still be rewound |
| `TailerRefinement.RenameLosesUnopened` | crates/log-tailer/src/tailer.rs:625-650 | The stream survives a rename if and only if the displaced file was held open or had no unread line |
| `WitnessRuns.UnopenedFileIsLost` | crates/log-tailer/src/tailer.rs:625-650 | From a first start: a read, a rename, a read filled by the renamed file and a second rename, after which the line of the file in between is never delivered |
| `TailerRefinement.GrowthKeepsPositions` | crates/log-tailer/src/tailer.rs:593-624 | A file that only grew since it was stamped keeps every position, however short the stamp |
| `WitnessRuns.GrowthCountedAsLoss` | crates/log-tailer/src/tailer.rs:593-624 | From a first start: a position saved on an empty log and a restart after it grew; every line is delivered and a loss is counted |
| `TailerRuns.RunDeliversLog` | crates/log-tailer/src/tailer.rs:177-652 | In every state of every run of appends, renames of any file, reads, commits, rewinds, partial commits, saves and crashes: the lines past the position are those taken, then those pending, in log order; the saved position stands on a line boundary of a file under its stamp |
| `TailerRuns.OpenedRunLosesNothing` | crates/log-tailer/src/tailer.rs:270-517 | In every run without crashes that renames only files held open, accepted + taken + pending lines are exactly the log, in order |
| `TailerRuns.StepLoses` | crates/log-tailer/src/tailer.rs:593-652 | Only a rename and a crash lose anything: a rename exactly the unaccepted lines of a displaced file not held open, a crash exactly the lines before the resumed place that were never accepted |
| `TailerRuns.RestartPending` | crates/log-tailer/src/tailer.rs:177-232 | A restarted tailer has to read the file at the log's path, from the saved offset if the cursor names that file and from its start otherwise; either way an end of the log |
| `TailerRuns.CrashAfterSave` | crates/log-tailer/src/tailer.rs:562-581 | A crash right after a save, with renamed files queued, passes by exactly the lines of the queued files |
| `TailerRuns.RotationKeeps` | crates/log-tailer/src/tailer.rs:593-652 | Across a rotation nothing pending is lost, repeated or reordered |
| `TailerRuns.ThroughStream` | crates/log-tailer/src/tailer.rs:403-436 | A partial commit is right even when the log grew or was renamed after the batch was read |
| `TailerRuns.ThroughAlways` | crates/log-tailer/src/tailer.rs:398-422 | In every state of every run with renames, any first lines of a batch of one read can be accepted |
| `Generations.RecoveryFinds` | crates/log-tailer/src/tailer.rs:857-932 | A generation rotated away is noticed, and the copy that is it is the one found |
| `Generations.RecoveryQueues` | crates/log-tailer/src/tailer.rs:665-709 | Recovery queues exactly that copy from the read offset and any newer copy from its start, each under its own fingerprint |
| `Generations.RotationRecovers` | crates/log-tailer/src/tailer.rs:593-709 | After rotation handling the unread stream is the unread rest of the generation and of every later one, and the tailer is bound to the live one; a loss is counted if and only if the generation is still live, was stamped while empty and growth does not explain that |
| `RotationExact.LosesExactly` | crates/log-tailer/src/tailer.rs:593-709 | For every tailer whose generation was rotated away, whatever its stamp: where rotation handling lands (a copy, or the live file at its start or at the old offset); the stream is unchanged if and only if what lies between is what is delivered instead; what is delivered is still the rest of the log if and only if the landing does not tear a line it skips |
| `RotationExact.WithinTheCap` | crates/log-tailer/src/tailer.rs:593-624 | Where the line at the landing is within the cap: unchanged if and only if nothing lies between, and only lines of the log are delivered if and only if the landing is not inside a line |
| `RotationExact.LossExactly` | crates/log-tailer/src/tailer.rs:715-731 | Of a generation rotated away a loss is recorded exactly when no copy is found and the old offset is not kept; the counter goes up if and only if, besides, the last look at the file, if there was one, saw bytes past the position |
| `RotationExact.CopiesGone` | crates/log-tailer/src/tailer.rs:665-709 | The same when the copies themselves are missing or other files took their names |
| `RotationExact.GapBetween` | crates/log-tailer/src/tailer.rs:937-957 | When only the older copy is left: nothing is lost if and only if the generation between had no line; the counter goes up if and only if the last look at the file, if there was one, saw bytes past the position |
| `WitnessRuns.OffsetCarriedIntoLine` | crates/log-tailer/src/tailer.rs:614-620 | From a first start: three rotations between two polls onto a larger file, after which the tail of a line is delivered as a line with no loss counted |
| `GenerationRuns.RunSurvivesCrashes` | crates/log-tailer/src/tailer.rs:177-709 | In every run from the first start, which finds no cursor, with copytruncate rotations, crashes and restarts before or after the first save: the lines before the position are accepted or lost, the taken and unread ones are the rest of the log in order; the cursor file is never ahead of what was accepted; a restart resumes exactly where it says; the stamp is that of the whole window the last read saw |
| `GenerationRuns.CrashResumes` | crates/log-tailer/src/tailer.rs:177-232 | A tailer restarted from a saved position has exactly the log from that position on to read |
| `GenerationRuns.FindableRecovers` | crates/log-tailer/src/tailer.rs:595-606 | A generation can be recovered if and only if it is one of the last two rotated, the last read of this process, or the one its cursor comes from, saw bytes of it, and no later generation begins with those |
| `GenerationRuns.ThroughWhenFindable` | crates/log-tailer/src/tailer.rs:403-436 | In every state of every run, any first lines of the open batch can be accepted as long as its generation can be found; always when the log was not rotated since |
| `GenerationRuns.LossEstimated` | crates/log-tailer/src/tailer.rs:715-731 | A loss is counted when the last read left bytes of the file unread, and estimated at so many |
| `GenerationRuns.LostExactly` | crates/log-tailer/src/tailer.rs:177-232 | Lines are lost only when a process begins, or the log is rotated, without a position to go on from; the lost lines are then exactly those of the generations already rotated away that were never accepted, and none if and only if all of those were |
| `GenerationRuns.RunLosesNoMore` | crates/log-tailer/src/tailer.rs:177-709 | In every run, after its last such step nothing more is lost |
| `WitnessRuns.CrashBeforeFirstSave` | crates/log-tailer/src/tailer.rs:177-232 | From a first start: one of two lines read, a copytruncate and a restart without a cursor, which delivers the new file only |
| `LossyRuns.RunDeliversInOrder` | crates/log-tailer/src/tailer.rs:177-709 | In every run with copytruncate rotations and crashes whose reads may fail to find their generation and land elsewhere, as long as not inside a line: what is taken and unread is always lines of the log, each at most once and in log order |
| `LossyRuns.ReadLoses` | crates/log-tailer/src/tailer.rs:593-709 | A read loses exactly the lines between the tailer's place and its landing that were not accepted before |
| `LossyRuns.BetweenIsSkipped` | crates/log-tailer/src/tailer.rs:593-709 | Those are the rest of the generation left, all of the generations between, and the landing's lines before the place |
| `LossyRuns.StepLoses` | crates/log-tailer/src/tailer.rs:177-232 | A restart, or a rotation without a position, leaves lost exactly the lines before where it goes on that were never accepted; no other step but a read loses anything |
| `LossyRuns.LossAddsUp` | crates/log-tailer/src/tailer.rs:177-709 | Over any stretch of any run without restarts the lost lines grow by exactly what its reads passed by unaccepted |
| `GenerationRuns.BlankReads` | crates/log-tailer/src/tailer.rs:593-652 | The first read of a tailer without a cursor follows the live file from its start |
| `GenerationRuns.PersistedPlace` | crates/log-tailer/src/tailer.rs:562-581 | The persisted place is a line boundary of its generation under a stamp of it, with at least as many lines from there on as are unread |
| `GenerationRuns.PersistedSuffix` | crates/log-tailer/src/tailer.rs:562-581 | From the persisted place on the log is the lines accepted since, then exactly what is unread |
| `RecoveryLimits.EmptyStampLosesGenerations` | crates/log-tailer/src/cursor.rs:243-252 | With a stamp taken on an empty file, no line is lost in a rotation if and only if no generation in between has a complete line |
| `WitnessRuns.LineBetweenPollsIsLost` | crates/log-tailer/src/cursor.rs:243-252 | From a first start: a line written between two looks at an empty log and rotated away is never read, with no loss counted |
| `RecoveryLimits.PersistExact` | crates/log-tailer/src/tailer.rs:562-581 | A restart from the saved cursor has exactly the unread stream if and only if nothing behind the front of the queue was consumed |
| `RecoveryLimits.RewindAfterTruncate` | crates/log-tailer/src/tailer.rs:665-709 | After a copytruncate under an open batch a rewind goes back to where the batch began if and only if bytes of the generation were left when it was rotated away, or the batch had taken no line of it; otherwise exactly those lines are gone |
| `WitnessRuns.RewindLosesTruncated` | crates/log-tailer/src/tailer.rs:471-517 | From a first start: a line handed out, its file rotated away, a second read and a rewind, after which the line is not handed out again |
| `WitnessRuns.RestartReplays` | crates/log-tailer/src/tailer.rs:562-581 | From a first start: a batch over a rotated copy and the live file, a partial commit, a save and a restart, which reads an accepted line again |
| `WitnessRuns.RestartDropsRenamed` | crates/log-tailer/src/tailer.rs:562-581 | With a renamed file at the front of the queue the saved place is in the file that replaced it: a restart has the same stream if and only if no queued file has a line left, and otherwise loses exactly the queued lines |
| `WitnessRuns.SavedPastRenamed` | crates/intake/src/runner.rs:722-731 | From a first start: a position saved after the second of four lines lies past the third, which no restart delivers |
| `AppendEvents.Ledger.AppendEvents` | crates/core-scoring/src/repository/batch.rs:72-107 | For every behaviour of the database the ledger gains a prefix of the events, at least the reported one and more only when a commit's reply was lost; an event is blamed only when it is invalid or was refused alone; against a steady database the prefix ends exactly at the first event that is invalid or refused, with that reason, after exactly `Transactions` transactions |
| `AppendEvents.Ledger.AppendHalving` | crates/core-scoring/src/repository/batch.rs:84-107 | The halving loop ends, isolates the first refused event, and costs exactly `Transactions` |
| `AppendEvents.CourseGoesOn` | crates/core-scoring/src/repository/batch.rs:84-101 | Each transaction keeps the search before the refused event and the transactions left as counted |
| `AppendEvents.TransactionsBounded` | crates/core-scoring/src/repository/batch.rs:84-107 | A batch of n events costs at most (digits(n) + 1)^2 transactions |
| `AppendEvents.QuadraticCost` | crates/core-scoring/src/repository/batch.rs:33-40 | For every k some batch of 2k + 2 digits costs at least k(k + 3), so the square is the order of the cost |
| `AppendEvents.NotLogarithmic` | crates/core-scoring/src/repository/batch.rs:33-40 | No multiple of the number of digits bounds the transactions |
| `AppendEvents.FirstOfEither` | crates/core-scoring/src/repository/batch.rs:73-81 | Stopping at the first invalid event and then at the first refused one is stopping at the first of either |
| `Quarantine.Store.Append` | crates/intake/src/quarantine.rs:118-149 | Refuses, writing nothing, exactly when a cap would be passed; acknowledges only a complete write; whether or not the write is acknowledged, the directory passes a cap, by one, if and only if a torn record was healed at that cap and the whole buffer reached the file; other sensors' files are untouched |
| `Quarantine.HealingPassesCaps` | crates/intake/src/quarantine.rs:118-149 | A concrete store with a torn record, an append that is acknowledged, and a directory one byte and one line past its caps |
| `Quarantine.Store.CheckCaps` | crates/intake/src/quarantine.rs:167-195 | Passes exactly when the bytes of all files plus the new record, and the newlines of all files, are within the caps |
| `Quarantine.Store.Open` | crates/intake/src/quarantine.rs:123-133 | Opening or creating a file changes no file's content |
| `Quarantine.Store.CountNewlines` | crates/intake/src/quarantine.rs:226-237 | Counts the newlines of a file |
| `Quarantine.AppendedIsOneLine` | crates/intake/src/quarantine.rs:135-143 | A record is exactly one new line, after the old lines and a torn record closed off as its own |
| `Quarantine.AcknowledgedStand` | crates/intake/src/quarantine.rs:118-149 | Whatever writes were torn, every acknowledged record stands as a complete line, in order |
| `Quarantine.NewlinesAreLines` | crates/intake/src/quarantine.rs:226-237 | The newlines counted are the lines of the file |
| `IntakeRunning.IntakeRunner.RunBatch` | crates/intake/src/runner.rs:342-609 | For any verdicts, reply-store answers, database, unreadable files, disk changes and quarantine failures: the lines are a prefix of the unread stream; the append is given up untried if and only if the replies fail together and not alone, and against a steady database it stops exactly at the first event that is invalid, not accepted or names the first reply refused, with that reason; the ledger gains a prefix of their events, none naming a reply that is not stored; the tailer ends exactly `moved` lines on; counters, wedge and next batch size are those of the outcome; a wedged line is set aside unless there is no quarantine, the write fails or its record does not fit; a written record is that of the refused line with the offset at which it starts in the file it was read from; the cursor is saved only after a quarantine |
| `IntakeRunning.HealthyBatch` | crates/intake/src/runner.rs:462-499 | With the replies stored and every event valid and accepted by a steady database, all events are in the ledger and the whole batch is accepted |
| `IntakeRunning.IntakeRunner.QuarantineLine` | crates/intake/src/runner.rs:657-720 | The tailer moves, and the cursor is saved, only after the record of that line, with its own offset in its own file, is acknowledged; without a record the reason is one of three |
| `IntakeRunning.IntakeRunner.NoteFailure` | crates/intake/src/runner.rs:614-640 | Event-specific refusals of one content count up, another content restarts, other failures leave the streak |
| `IntakeRunning.IntakeRunner.StoreReplies` | crates/intake/src/runner.rs:462-491 | Names the first reply refused on its own, or says the failure did not reproduce |
| `IntakeRunning.IntakeRunner.AppendBatch` | crates/intake/src/runner.rs:462-515 | Not tried if and only if storing the replies fails and storing each alone does not; otherwise it stops as `RunBatch` says, and events behind a refused reply are not appended |
| `IntakeRunning.FailureOf` | crates/intake/src/runner.rs:481-491 | A reply is held against its line only when the store refused it |
| `IntakeRunning.IntakeRunner.Settle` | crates/intake/src/runner.rs:564-604 | After a failure the tailer ends at the failed line, one past it when quarantined, or at the batch start when it refuses |
| `IntakeRunning.SortLines` | crates/intake/src/runner.rs:362-450 | Every line is put under its kind, with events and replies in log order |
| `IntakeBatch.Conserved` | crates/intake/src/runner.rs:503-604 | Whenever the tailer accepts, lines moved past = ingested + rejected + probe + stats + quarantined |
| `IntakeBatch.MovedPast` | crates/intake/src/runner.rs:503-604 | The lines moved past hold exactly the events ingested, then the one set aside |
| `IntakeBatch.EventAtPlace` | crates/intake/src/runner.rs:443-450 | The n-th event comes from the n-th convertible line, and the lines before it hold exactly the events before it |
| `IntakeBatch.PlacesExactly` | crates/intake/src/runner.rs:362-450 | The positions kept for a kind of line are exactly those of its lines, each once and in order |
| `IntakeBatch.RepliesExactly` | crates/intake/src/runner.rs:423-446 | An event is listed with a reply exactly when the line it comes from has one |
| `IntakeBatch.CountersExactly` | crates/intake/src/runner.rs:516-560 | Each counter is the number of lines of its kind among those reached; a batch not tried counts only its error |
| `IntakeBatch.LengthsAre` | crates/intake/src/runner.rs:357-361 | The bytes counted are those of the lines written out, without their newlines |
| `IntakeBatch.CursorMovedMeans` | crates/intake/src/runner.rs:60-68 | True exactly when the batch was clean or the position moved, as long as the tailer accepted |
| `IntakeBatch.NextBatchSize` | crates/intake/src/runner.rs:160-176 | Always between 100 and 1000 lines |
| `IntakeBatch.BatchGrowthFits` | crates/intake/src/runner.rs:160-176 | After a failed or short batch the floor; after a full clean one the largest size, at most double and at most the cap, for which lines of that average fit the byte budget, or the floor |
| `IntakeRuns.EveryRunKeeps` | crates/intake/src/runner.rs:342-609 | In every state of every run with crashes: the events owed for the lines passed are in the ledger in log order, exactly those unless a crash, an ambiguous commit or a refused partial commit came before; the record of every line set aside is a line of the quarantine file; the counters account for the position |
| `IntakeRuns.NothingLost` | crates/intake/src/runner.rs:657-720 | Behind the position every convertible line was in no process's reach, or its event is in the ledger, or its record, naming its offset, is a line of the quarantine file's bytes, wherever the cursor was saved |
| `IntakeRuns.SavedBehind` | crates/intake/src/runner.rs:722-731 | In every run whose saves name no place past the position, the saved position stays behind it |
| `IntakeRuns.CutKeeps` | crates/log-tailer/src/tailer.rs:625-650 | A rename that takes a log's unread end out of reach keeps every promise about the lines before it |
| `IntakeRuns.SetAsideStands` | crates/intake/src/runner.rs:657-720 | The line a poll sets aside converts, and after the poll its record is a line of the quarantine file |
| `IntakeRuns.SetAsideNeedsThreeRefusals` | crates/intake/src/runner.rs:614-640 | A record is written, or a line passed, only at the third event-specific refusal of that content or later, undisturbed in between |
| `IntakeRuns.PollStaysExact` | crates/intake/src/runner.rs:330-341 | From an exact ledger a poll leaves an exact one if and only if its commit was not ambiguous and no partial commit over committed events was refused |
| `IntakeRuns.ThirdRefusalWedges` | crates/intake/src/runner.rs:614-640 | A refused line is due for quarantine if and only if its failure is its own and at least two refusals of the same content came before, with no clean batch, other line's refusal or restart in between; other failures neither count nor clear |
| `EndToEnd.LogReachesLedger` | crates/intake/src/runner.rs:342-609 | Runner and tailer together, from the first start and the bytes of the log: through copytruncate rotations, failures and crashes, every convertible line before the position, and so before the one the cursor file names, has its event in the ledger or its record in the quarantine file, unless it is lost as `GenerationRuns.LostExactly` says; what the accepted lines owe is in the ledger in order |
| `EndToEnd.RunKeeps` | crates/intake/src/runner.rs:342-609 | In every joint run the runner's log, position, saved position and accepted lines are the tailer's |
| `EndToEnd.BatchReads` | crates/intake/src/runner.rs:342-349 | What the runner's contract says of its read, when every file can be read and the generation can be found, is a read step of the tailer's runs |
| `EndToEnd.BatchSettles` | crates/intake/src/runner.rs:564-604 | What the runner's contract says of how the batch ended and of the quarantine file is the settling step of the joint runs |
| `EndToEnd.NeverRefused` | crates/intake/src/runner.rs:585-604 | As long as the generation of the batch can be found the tailer refuses no part of it, so what a failed batch committed is not appended again |
| `RenameEndToEnd.RenamedLogReachesLedger` | crates/intake/src/runner.rs:342-609 | The same with renames of any file instead of copytruncate: every line before the position is in the ledger, in the quarantine file or not convertible, unless lost as `TailerRuns.StepLoses` says |
| `RenameEndToEnd.RunKeeps` | crates/intake/src/runner.rs:342-609 | In every such run the runner's log, position, resumed position and accepted lines are the tailer's |
| `RenameEndToEnd.BatchReads` | crates/intake/src/runner.rs:342-349 | What the runner's contract says of its read, when every file can be read, is a read step of the rename runs |
| `RenameEndToEnd.BatchSettles` | crates/intake/src/runner.rs:564-604 | What the runner's contract says of how the batch ended and of the quarantine file is the settling step of the rename runs |
| `RenameEndToEnd.NeverRefused` | crates/intake/src/runner.rs:585-604 | The same in every run with renames, always |
| `IntakeRuns.CrashKeeps` | crates/intake/src/runner.rs:722-731 | After a crash the lines behind the resumed position are accounted for, except those skipped between the old position and it; those past it are owed again |
| `Frame.EncodePrefix` | crates/collector-wire/src/frame.rs:61-73 | The bytes hashed: header, then each record under its length |
| `Frame.EncodeFrame` | crates/collector-wire/src/frame.rs:75-79 | Prefix, then hash |
| `Frame.DecodeFrame` | crates/collector-wire/src/frame.rs:81-151 | The loop with a moving offset decides every input as `Decode` does, which the lemmas below show to be the inverse of the encoding |
| `Frame.DecodeOfEncode` | crates/collector-wire/src/frame.rs:61-151 | Every batch within bounds decodes from its encoding |
| `Frame.EncodeOfDecode` | crates/collector-wire/src/frame.rs:81-151 | Every accepted byte string is the encoding of its batch, which is within bounds |
| `Frame.SurvivesWire` | crates/collector-wire/src/frame.rs:61-151 | A batch comes back from the wire if and only if it is within bounds |
| `Frame.HeaderRefused` | crates/collector-wire/src/frame.rs:81-112 | Each fault of the header has its own error, in order: too long, too short, another magic, another version, no records, too many |
| `Frame.RecordsRefused` | crates/collector-wire/src/frame.rs:113-134 | Records are refused for the fault of the first that is not within bounds, after those that are |
| `Frame.HashRefused` | crates/collector-wire/src/frame.rs:135-143 | A frame is refused for its hash if and only if it is otherwise the encoding of a well-formed batch |
| `Frame.ParseEncoded` | crates/collector-wire/src/frame.rs:113-134 | Encoded records parse back and end where they end |
| `Frame.ParseSound` | crates/collector-wire/src/frame.rs:113-134 | What parses is the encoding of records within bounds |
| `Connection.HandleConnection` | crates/gateway/src/server.rs:74-131 | The batches delivered are whole frames from the start of the stream, in order; the loop ends at the first position without a decodable frame or when an ack cannot be written; an undecodable frame is rejected with its own reason |
| `Connection.DeliversExactly` | crates/gateway/src/server.rs:74-131 | Whatever follows the last well-formed frame, the sink is handed exactly the frames before it and nothing after |
| `Connection.RejectedFor` | crates/gateway/src/server.rs:132-150 | The reason in the ack: the hash, if and only if nothing else is wrong; the size or the newline of the first faulty record; otherwise malformed |
| `Gateway.GatewaySink.Accept` | crates/gateway/src/verify.rs:47-126 | One call's whole effect on its collector, as `Step`, and no effect on any other; what `Step` answers and writes is the rows below |
| `Gateway.AnswersExactly` | crates/gateway/src/verify.rs:66-123 | After any offers, failures and restarts, in terms of the chain behind the state: duplicate if and only if the chain has that number, a gap if and only if it is past the next, a mismatch if and only if it is the next and does not name the chain's last hash, accepted if and only if it is, names it and nothing fails, retry if and only if something does; with its reason, and with the number after the chain the sink goes on from |
| `Gateway.AcceptedExtends` | crates/gateway/src/verify.rs:94-126 | What is accepted extends the chain in memory and on disk, with its records in the spool; nothing else changes the chain |
| `Gateway.SafeNamesChild` | crates/gateway/src/state.rs:87-94 | An id is safe if and only if, as a path, it names a file directly in the directory, and holds no backslash or control character |
| `Gateway.GatewaySink.WriteRecords` | crates/gateway/src/spool.rs:32-46 | Each record and its newline in order, or a prefix of that when the write fails; nothing for an unsafe id |
| `Gateway.GatewaySink.Restart` | crates/gateway/src/verify.rs:54-65 | Only what was in memory is forgotten |
| `Gateway.OnlyNextTouchesSpool` | crates/gateway/src/verify.rs:67-93 | Only the next batch of the chain of a safe id touches the spool; duplicates and rejects touch neither spool nor state |
| `Gateway.DurableStateIsBacked` | crates/gateway/src/verify.rs:47-126 | Across any offers, spool and store failures, unreadable state and restarts: a durable state (n, h) is the head of a chain of batches 1..n from the zero hash, whose records are all in the spool, whole and in that order |
| `Gateway.UnsafeWritesNothing` | crates/gateway/src/state.rs:77-94 | An unsafe collector id never leaves a byte on disk |
| `WireToTailer.RecordsBecomeLines` | crates/gateway/src/spool.rs:32-46 | A batch stands in the spool as its records, one line each, if and only if the spool did not end inside a line |
| `WireToTailer.TornWriteMergesRecord` | crates/gateway/src/verify.rs:94-104 | A concrete torn write and retry after which the durable state covers a record that is not a line |
| `WireToTailer.RecordsStayLines` | crates/gateway/src/verify.rs:94-126 | As long as no torn write stops inside a line, every record behind the durable state is a line of the spool, in order, through every other failure |
| `WireToTailer.SpooledOnce` | crates/gateway/src/verify.rs:94-126 | Without failures, and with restarts anywhere, each batch of the chain is spooled exactly once |
| `WireToTailer.RecordsReachTheTailer` | crates/gateway/src/spool.rs:1-46 | The records of decoded batches are read back by the tailer as exactly the same lines in the same order, none over length |
| `Rollup.RollupStore.FoldBatch` | crates/console/src/rollup.rs:169-236 | One transaction's whole effect on table and cursor, and the ids it covered; without the lock, none; the invariant is kept |
| `Rollup.RollupStore.RefreshWith` | crates/console/src/rollup.rs:156-165 | So many folds one after another, stopping early only when there is nothing to fold or the lock is held; returns the ids covered |
| `Rollup.RollupStore.GroupBy` | crates/console/src/rollup.rs:208-224 | The grouped counts and newest times of an id range |
| `Rollup.GroupsAre` | crates/console/src/rollup.rs:208-224 | Each group is the count and newest time of exactly its events |
| `Rollup.AggregateCounts` | crates/console/src/rollup.rs:213-219 | The aggregate of the events a filter takes is their number and the newest of their times, and nothing when there are none |
| `Rollup.FoldKeeps` | crates/console/src/rollup.rs:169-236 | A fold of any batch size keeps the table equal to the aggregate of the events up to the cursor, for every hour still answered for, and never lowers the cursor |
| `Rollup.AppendKeeps` | crates/console/src/rollup.rs:9-14 | Appending to the ledger leaves what is folded alone |
| `Rollup.WindowExact` | crates/console/src/rollup.rs:245-271 | Per listener and hour the three parts sum to the direct count and newest time if and only if the hint hides no event; a hint not above the cursor never does |
| `Rollup.EveryWindowExact` | crates/console/src/rollup.rs:156-271 | In every run of appends and folds, every window starting within 45 days, read with any cursor value seen earlier as its hint, equals a direct scan |
| `Rollup.EveryWindowCounts` | crates/console/src/rollup.rs:156-271 | So every such window is the number and the newest time of exactly the events from its start on, of that hour and listener |
| `Rollup.UptoCovers` | crates/console/src/rollup.rs:196-208 | There is a next batch if and only if an event past the cursor is left, and it is the next `batch` of those, or all when fewer are left |
| `Rollup.FoldsCatchUp` | crates/console/src/rollup.rs:156-165 | So many folds cover so many batches of the ledger, and in the end all of it |
| `Rollup.StartsOver` | crates/console/src/rollup.rs:184-195 | A cursor ahead of its ledger starts the roll-up over, and the table is right again whatever it held |
| `Rollup.FoldPrunes` | crates/console/src/rollup.rs:225-229 | A fold that covers anything leaves no hour from before its cut-off |
| `Rollup.HoursDoNotStraddle` | crates/console/src/rollup.rs:247-251 | An hour lies wholly on one side of an hour boundary |
| `SwrCell.EveryInterleavingKeeps` | crates/console/src/read_state.rs:250-342 | Under every interleaving of gets, refreshes, failures and panics: the flag is set exactly while one refresh is in flight, the gate is held by exactly one loader, and the slot holds the stored computation that started last |
| `SwrCell.StepKeeps` | crates/console/src/read_state.rs:250-342 | Every atomic step keeps that |
| `SwrCell.ServesWithinAge` | crates/console/src/read_state.rs:250-268 | Nothing older than the age cap or more than one stamp behind is served from the slot, fresh answers are of the stamp asked for and younger than the fresh time, what is served is the computation that started last, and without stale serving only fresh answers are |
| `SwrCell.MissesExactly` | crates/console/src/read_state.rs:250-268 | A request waits for a computation if and only if nothing is held, what is held is past the cap or more than one stamp behind, or stale answers are not served and it is not of this stamp or no longer fresh |
| `SwrCell.GatedIsAnswered` | crates/console/src/read_state.rs:318-327 | Under the gate it is answered by what became fresh meanwhile, or goes on to compute it |
| `SwrCell.ComputedIsHeld` | crates/console/src/read_state.rs:270-301 | A computation that succeeds is held unless one that started later is; one that fails leaves what is held; either way its gate or flag is free again |
| `SwrCell.StaleIsReplaced` | crates/console/src/read_state.rs:311-316 | Whoever is served a stale answer leaves a refresh in flight |
| `SwrCell.StoreKeeps` | crates/console/src/read_state.rs:291-301 | A computation that started earlier never replaces a later one |
| `Refresher.NeverMisses` | crates/console/src/read_state.rs:117-169 | With the refresher beside any requests, each a step of the cell: from the first computation on the panel is served at every instant of every run when two thirds of the cap, a poll and a computation fit in the cap on an idle console, or with a second computation when requests refresh too |
| `Refresher.PassesKeepUp` | crates/console/src/read_state.rs:141-167 | In those runs no pass begins later than two thirds of the cap and a poll after the last due one |
| `Refresher.AsksExactly` | crates/console/src/read_state.rs:141-167 | A pass asks for a refresh if and only if a stamp boundary was crossed, or a poll and two thirds of the cap went by, since it last did, and waits for it unless one was in flight |
| `Refresher.SkippedRefreshMisses` | crates/console/src/read_state.rs:117-131 | A concrete run in which the times fit an idle console, a scheduled refresh is skipped for a request's, and the panel is then past the cap |
| `Refresher.OneStampPerCap` | crates/console/src/read_state.rs:250-268 | Within one cap the stamp advances at most once |
| `Publisher.FileSystem.Publish` | crates/feed/src/publisher.rs:116-204 | Whatever fails and at every instant of it: the feed is the last committed build, complete; it succeeds if and only if recovery, staging and the swap do, of a build without an excluded entry; success means the new build is public, and when nothing fails nothing else is left; failure leaves the old one, at the public path unless moving in and moving back both failed; a rejected build still restores a parked feed |
| `Publisher.FileSystem.Swap` | crates/feed/src/publisher.rs:428-481 | Succeeds if and only if recovery does and, with a feed there, clearing the parking place and both renames do, or, with none, the one rename does; the feed is complete at every instant; when nothing fails only the new build is left |
| `Publisher.FileSystem.Replace` | crates/feed/src/publisher.rs:440-481 | Over a feed that is there: what is parked is cleared when it is seen, and a failure leaves the feed public unless two operations failed |
| `Publisher.FileSystem.Exchange` | crates/feed/src/publisher.rs:446-480 | Succeeds if and only if neither rename fails; a failed move in is rolled back; a failed clean-up does not matter |
| `Publisher.FileSystem.Recover` | crates/feed/src/publisher.rs:386-407 | Restores the parked build only onto an absent public path, fails only when that rename does or the tests missed a public directory, and otherwise leaves nothing parked under an absent public path |
| `Publisher.FileSystem.Life` | crates/feed/src/publisher.rs:116-204 | Any number of publishes, each cut off at any instant, keep a complete feed that was moved in at some point |
| `Publisher.FileSystem.RemoveAll` | crates/feed/src/publisher.rs:442-444 | A removal cut off anywhere takes files of that directory only, and never the feed |
| `Publisher.FileSystem.Stage` | crates/feed/src/publisher.rs:116-204 | Succeeds if and only if no step of it fails; a finished staging directory holds the whole build, and staging never touches the feed |
| `Publisher.FileSystem.CreateStaging` | crates/feed/src/publisher.rs:250-266 | What an earlier publish left is cleared when it is seen, and the directory is then without a file of the build |
| `Publisher.FileSystem.Park` | crates/feed/src/publisher.rs:446 | The feed is complete in its parking place once it has left the public path |
| `Publisher.FileSystem.Restore` | crates/feed/src/publisher.rs:451 | Moving the parked build back leaves it complete at the public path |
| `Publisher.FileSystem.MoveIn` | crates/feed/src/publisher.rs:447 | The one moment the public changes to the new build |
| `Publisher.FileSystem.Revalidate` | crates/feed/src/publisher.rs:213-238 | Passes exactly when no entry is excluded |
| `Civil.EveryDayFollows` | crates/build-stamp.rs:213-227 | Day 0 is 1970-01-01 and every integer's date is the Gregorian successor of the date before it |
| `Civil.RoundTrip` | crates/build-stamp.rs:213-227 | Every integer gives a valid date whose day number is that integer |
| `Civil.RoundTripDate` | crates/build-stamp.rs:213-227 | Every valid date is the date of its own day number |
| `Civil.YearFound` | crates/build-stamp.rs:218-221 | The closed form finds the year of every day of the 400-year era |
| `Civil.MarchMonth` | crates/build-stamp.rs:222-226 | The 153-days-in-five-months formula gives month and start for every day of the year |
| `Civil.EraIsFloor` | crates/build-stamp.rs:216-217 | The two-branch truncating division is the floor |
| `Civil.NextDayCounts` | crates/build-stamp.rs:210-213 | The reference day number goes up by one from each calendar day to the next |
| `Timestamp.ConformsExactly` | crates/build-stamp.rs:196-208 | The text is a date-time of section 5.6 of RFC 3339, with any fraction and any offset allowed, if and only if the year is 0 to 9999; it is then in UTC without a fraction and names the same instant |
| `Timestamp.ConformingRange` | crates/build-stamp.rs:196-208 | That is, exactly for -62167219200 to 253402300799 seconds |
| `Canonical.CanonicalBytes` | crates/core-scoring/src/hashing.rs:72-122 | The buffer is the fields' encodings in the frozen order |
| `Canonical.PeelPrefixed` | crates/core-scoring/src/hashing.rs:62-65 | A length-prefixed field can be taken off the front of an encoding in one way only |
| `Canonical.EncodingInjective` | crates/core-scoring/src/hashing.rs:62-122 | Two events with one encoding agree in every rendered field |
| `Canonical.ReadsBack` | crates/core-scoring/src/hashing.rs:22-122 | Every event can be read back from its encoding, field by field, in the frozen order and framing |
| `Canonical.HeadFixesLedger` | crates/core-scoring/src/hashing.rs:131-136 | Without a collision among the strings hashed, two ledgers of one length with the same head agree on every event |
| `Canonical.ChainLinks` | crates/core-scoring/src/repository/batch.rs:212-226 | Each stored link is the head of the ledger up to that event, and each previous hash the head before it |
| `RateLimiter.RateLimiter.Check` | crates/console/src/auth.rs:312-352 | The verdict is what the history of allowed attempts and resets says, despite pruning; only an allowed attempt enters the history, so a refusal changes no later verdict; at most 50,001 addresses are kept |
| `RateLimiter.RateLimiter.Reset` | crates/console/src/auth.rs:356-358 | One address is cleared and the overall window is not |
| `RateLimiter.SlidingWindow` | crates/console/src/auth.rs:312-358 | Any window's length of time holds at most the overall maximum of allowed attempts, and at most the per-address maximum from one address since its last reset |
| `RateLimiter.AllowedExactly` | crates/console/src/auth.rs:312-352 | An attempt is allowed if and only if fewer attempts than the maximum were allowed less than a window ago, of this address since its last reset and of all, and at most 50,000 addresses have one |
| `RateLimiter.PruneKeeps` | crates/console/src/auth.rs:316-321 | Pruning loses nothing inside the window and leaves exactly the active addresses |
| `RateLimiter.FrontExpired` | crates/console/src/auth.rs:337-342 | Dropping from the front of times in order is filtering |
| `LogRing.LogBuffer.Push` | crates/console/src/log_buffer.rs:131-148 | The ring after a push and what it evicted, with its invariant kept; the charge passes the budget exactly as in `PassesBudgetExactly` |
| `LogRing.PushKeeps` | crates/console/src/log_buffer.rs:131-148 | In every run the count is capped and the running charge is what is held plus the slack of what was evicted; while nothing evicted had slack the ring is the longest suffix of the pushes that fits |
| `LogRing.RingExactly` | crates/console/src/log_buffer.rs:131-148 | The ring is that suffix with a charge of exactly what it holds if and only if nothing evicted so far had slack |
| `LogRing.ExactPushExactly` | crates/console/src/log_buffer.rs:131-148 | From such a ring a push leaves such a ring if and only if the entries that must go for it have no slack |
| `LogRing.PassesBudgetExactly` | crates/console/src/log_buffer.rs:159-164 | A push takes the charge above the budget if and only if the entry is stored and the slack of the entries held and evicted leaves no room for it |
| `LogRing.EvictKeeps` | crates/console/src/log_buffer.rs:134-141 | Evicting entries without slack from an exact ring goes no further than it must |
| `LogRing.NothingLongerFits` | crates/console/src/log_buffer.rs:131-148 | No longer suffix than the one held fits |
| `LogRing.SlackShrinksTheRing` | crates/console/src/log_buffer.rs:131-148 | Concrete pushes after which slack leaves one entry where two fit, and a charge above the budget |

## Left out

- Gzip-compressed generations, free-space probing and scratch files of the tailer: `<log>.2` is uncompressed.
- Lossy UTF-8 conversion of lines: lines are their bytes.
- Changes of the log between the tailer's rotation check and its read in one call, bytes written between the copy and the truncation of a copytruncate, writes to a rotated file, and inode reuse.
- A second read joined to an open batch after a copytruncate, as a step of the runs: `ReadEntries` covers a joined read and `RecoveryLimits.RewindAfterTruncate` what a rewind then restores.
- Cursor files without a fingerprint window, their migration, and the bytes of the cursor file: saving it is one atomic step.
- `without_cursor` tailers, and `backlog_bytes`.
- What parses, converts and renders a line: classification, content hash and record text are parameters of the runner.
- `quarantine_block`, `quarantined_total`, `last_quarantine`, `reported_sensors` and `last_ingested_observed_at`: reporting only.
- Event normalisation and everything else inside the append transaction (scores, vantage points, dedup).
- The ack codec, TLS, certificates and HTTP; integer overflow of sequence numbers and days at 64 bits.
- State files of the gateway with damaged content: the code reads them as missing, which `Faults.readable` covers.
- PostgreSQL itself, time zones of the charts, and roll-up failure counting.
- Failed computations of the refresher, and clocks that step back.
- Feed rendering, manifests and checksums: a build is the number of its files. Files of an earlier build that stay beside them when the existence test misses a leftover staging directory.
- Refusal counters of the limiter, and the live channel of the log buffer.
- The directory and manifest scanners of the build stamp.
- IntakeRuns.EveryRunKeeps: positions count lines of the log, a poll reads the next ones and a save may name any place; EndToEnd.RunKeeps and RenameEndToEnd.RunKeeps derive the reading and the places from the tailer.
- IntakeRuns.NothingLost: does not promise that the saved position is behind the lines accounted for, because with a renamed file queued it is not (WitnessRuns.SavedPastRenamed); IntakeRuns.SavedBehind says when it is.
- EndToEnd.LogReachesLedger: rotations are by copytruncate and each read finds its generation; RenameEndToEnd.RenamedLogReachesLedger is the same with renames, and runs that mix the two kinds of rotation are left out.
- GenerationRuns.RunSurvivesCrashes: asks that each read can find its generation (`Findable`, in terms of the bytes the last read saw); LossyRuns covers the runs in which one cannot.
- LossyRuns.RunDeliversInOrder: asks that no read lands inside a line, and that the copies are where the rotation put them; RotationExact.LosesExactly and RotationExact.CopiesGone state what one read does otherwise.
- EndToEnd.BatchReads: takes every file as readable; UnreadableDrains.AbandonedExactly states what a read that fails costs.
- RenameEndToEnd.BatchReads: takes every file as readable, as above.
- LogRing.PushKeeps: asks that a clone is charged no more than its original, since the code's subtraction needs it.
