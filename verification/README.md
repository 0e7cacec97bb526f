# Change data capture: a verified model

The repository reads a MySQL binlog, assembles committed transactions, optionally takes an initial
snapshot, and applies everything to a sink, where the replication checkpoint commits together with the
rows. This project models that path in Dafny and proves what it promises: over whole runs with any number
of workers, source commits at any time, crashes and lost commit acknowledgements, the sink's tables equal
the source's tables at exactly the durable position, each transaction takes effect once and in log order,
and asking about an unknown commit gives the right answer.

`dafny verify dfyconfig.toml` checks everything.

How the modules build on each other:

- `Cursor`: source cursors, positions and their order. `Images`: row images and their validation.
- `Rows`: row changes planned as statements and executed by the sink. `Simulation`: a planned transaction
  takes an equal sink to an equal sink. `Planning`: which changes can be planned, and what a statement does.
- `Checkpoints`: what each operation of the checkpoint writer does to the writer and the sink, as
  functions. `CheckpointWriters`: the same operations as methods that update the writer and the sink in
  place, proved equal to those functions.
- `CursorTexts`: file names, LSNs and GTIDs written out and read back.
- `Keysets` and `Copying`: the batches of a snapshot reader, and the copy that loads them. `CopyProgress`:
  exactly when that copy succeeds.
  `SnapshotLocks`: why a reader's view belongs to its recorded boundary.
- `SourceLogs`, `Replication`, `Safety`, `Guarantees`: the source's log, the state machine of whole runs,
  its invariant, and the guarantees that follow from it. `Operations`: what each operation of the writer
  gives its caller. `SnapshotPhase`: histories in which resolving an unknown commit says too much.
- `Decoders`: the binlog decoder and its stream. `DecodedLogs`: what it accepts and hands out, said of the
  events alone. `JsonLines`: the JSONL printer and incremental reader.
- `Calendar`, `DecimalFit`, `BitStrings`, `Labels`: exact value arithmetic.
- `Sorting`, `Canonicalization`, `Reordering`: canonical forms and when they forget the order of entries.
- `Planner`: the conversion planner and its key safety. `PlannerAnswers`: its answers, said of the request. `Outcomes`: shared result types.

Where the code does less than its surroundings suggest, the model follows the code and the exact limit is
proved:

- A decimal may be accepted although no integer of the target precision represents it, when the target
  scale exceeds the target precision and the source has fractional digits (`DecimalFit.AcceptedIffFits`,
  `DecimalFit.AcceptedWithoutFit`).
- A validated map may have two keys with one canonical form, and then its digest depends on the order of
  its entries (`Reordering.OrderIsForgottenIffSettled`, `Reordering.ValidatedMapMayConflict`).
- A local time of 24:00:00 validates but does not come back from an instant (`Calendar.LocalRoundTrip`).
- Resolving an unknown commit does not look at the phase, so before a snapshot has been copied it calls
  transactions behind the boundary, and those among its GTIDs, applied
  (`Guarantees.ResolutionIgnoresSnapshotPhase`, `SnapshotPhase.ExampleIsMisled`).
- A PostgreSQL cursor whose upper half exceeds 32 bits is read with bits dropped, and the checkpoint then
  refuses it (`Cursor.LsnReadingsAgree`, `CursorTexts.WideLsnLosesBits`, `Cursor.WideLsnIsRefused`).

## Model

| member | source | states |
|---|---|---|
| Guarantees.SinkEqualsSource | crates/mysql_5_7/src/checkpoint.rs:347-618 | in every state of every run: once incremental, the sink tables equal the source tables (less generated columns) at exactly the durable position; before that no business row of the task is committed |
| Guarantees.ExactlyOnce | crates/mysql_5_7/src/checkpoint.rs:486-618 | every transaction with selected rows between boundary and durable position was committed exactly once, in log order; revision and both counters are the totals of the commits |
| Guarantees.ActionFollows | crates/mysql_5_7/src/checkpoint.rs:580-612 | each step leaves the durable state alone or adds one to the revision, strictly advances an incremental position, and only grows the GTID set |
| Guarantees.RunProgress | crates/mysql_5_7/src/checkpoint.rs:580-612 | between any two states of one run the revision, position and recorded GTIDs only grow, and a task never leaves the incremental phase |
| Guarantees.NeverRecordedEarly | crates/mysql_5_7/src/checkpoint.rs:271-302 | the durable GTID set names no transaction that lies past the durable position |
| Guarantees.ObservedWithCommit | crates/mysql_5_7/src/checkpoint.rs:586-612 | observed GTIDs become durable with the next acknowledged commit, together with its own, at a position not before them, and are then cleared |
| Guarantees.ObservedBecomesDurable | crates/mysql_5_7/src/checkpoint.rs:567-612 | in every run, an acknowledged write in GTID mode records everything its worker has observed, at a position at or past all of it, and the worker forgets it |
| Guarantees.RecordedWithProgress | crates/mysql_5_7/src/checkpoint.rs:567-612 | between two states of a run, an id newly in the durable GTID set comes with a strictly advanced position at or past the id's transaction |
| Guarantees.RestartSkipsApplied | crates/mysql_5_7/src/checkpoint.rs:528-612 | in every reachable incremental state, a stream reopened from the durable row filters out every committed transaction and delivers every one past the durable position, in binlog and GTID mode |
| Guarantees.ApplyErrorLeaves | crates/mysql_5_7/src/checkpoint.rs:486-618 | an apply that fails, other than by an unknown commit, leaves writer and sink as they were |
| Guarantees.CopyErrorLeaves | crates/mysql_5_7/src/checkpoint.rs:391-457 | a snapshot copy that fails, other than by an unknown commit, leaves writer and sink as they were |
| Guarantees.BoundaryErrorLeaves | crates/mysql_5_7/src/checkpoint.rs:305-390 | a failed initialize or prepare leaves writer and sink as they were |
| Guarantees.UnknownCommitIsResolved | crates/mysql_5_7/src/checkpoint.rs:217-267 | in every run, a commit whose acknowledgement is lost leaves writer and durable state alone; once the server has settled it the answer is applied if it landed and not applied if it did not, and exactly then its effects are durable |
| Guarantees.ResolutionIsSound | crates/mysql_5_7/src/checkpoint.rs:217-267 | an incremental row answers for every logged transaction: not applied exactly when it lies past the durable position, applied only when its effects are durable, unprovable only at an equal cursor that is the untouched boundary and whose GTID is not recorded |
| Guarantees.ResolutionIsDefinite | crates/mysql_5_7/src/checkpoint.rs:217-267 | once a writer has tried to commit a transaction, every later answer about it is applied or not applied |
| Guarantees.ResolutionIgnoresSnapshotPhase | crates/mysql_5_7/src/checkpoint.rs:217-267 | in every reachable state with a prepared snapshot nothing has been committed, and yet a transaction is called applied exactly when it lies before the boundary or its id is one of the boundary's GTIDs |
| SnapshotPhase.SnapshotPhaseIsReached | crates/mysql_5_7/src/checkpoint.rs:217-267 | from every source history such a state is reached for every transaction, by connecting and preparing a snapshot there |
| SnapshotPhase.ExampleIsMisled | crates/mysql_5_7/src/checkpoint.rs:217-267 | a concrete history: an inserted order is called applied while the sink holds no row |
| Guarantees.NextIsApplied | crates/mysql_5_7/src/checkpoint.rs:486-618 | a worker in step with the row plans and applies the next valid transaction with selected rows past the durable position, exactly when its changes can be planned, its id is usable, the revision is not exhausted and it touches no control table; what was observed never stands in the way |
| Operations.CommittedIsAlreadyApplied | crates/mysql_5_7/src/checkpoint.rs:528-566 | in every reachable incremental state, applying any committed transaction again is answered as already applied, with the row as it is, and changes nothing |
| Operations.ApplyingAgain | crates/mysql_5_7/src/checkpoint.rs:528-566 | applying any transaction at or before the durable position again is answered as already applied, in GTID mode if its id is recorded; otherwise the histories disagree; nothing changes |
| Operations.FilteredIsAdvanced | crates/mysql_5_7/src/checkpoint.rs:486-618 | a worker in step with the row advances past a transaction ahead without running statements, exactly when its id is usable, the revision is not exhausted and nothing was observed beyond it; the tables stay |
| Operations.FilteredIsObserved | crates/mysql_5_7/src/checkpoint.rs:271-302 | in every reachable state a worker can observe exactly the filtered transactions past what it has observed, and records just their place and, in GTID mode, their id |
| Operations.OnlyInStepWrites | crates/mysql_5_7/src/checkpoint.rs:303-618 | whatever is called, only a writer in step with the row writes, with no commit pending; transactions only of its own source and binding, with a usable id |
| Operations.OnlyOwnRouteIsAnswered | crates/mysql_5_7/src/checkpoint.rs:217-302 | a writer of another binding or source gets no row, no resolution and no observation |
| Operations.ReconnectReadsRow | crates/mysql_5_7/src/checkpoint.rs:98-208 | in every reachable state a writer of the route that connects knows exactly the durable row, and a writer of another source, sink or binding is refused |
| Operations.InitializeStartsRoute | crates/mysql_5_7/src/checkpoint.rs:305-336 | a route without a row starts at exactly the given valid boundary, which a new writer then reads; a writer with a checkpoint keeps it |
| Operations.PrepareMarksSnapshot | crates/mysql_5_7/src/checkpoint.rs:347-390 | a snapshot is marked exactly by a writer in step with a row still in the snapshot phase; the row then says the boundary, which a new writer reads |
| Operations.ViewIsCopied | crates/mysql_5_7/src/checkpoint.rs:391-457 | in every reachable state a worker that is ready copies its view: with the batches its reader delivers the copy succeeds and leaves exactly the view, its row count and an incremental row at its boundary |
| Operations.CopyNeedsWholeStream | crates/mysql_5_7/src/checkpoint.rs:391-457 | a copy that succeeds has read exactly one last batch of each scope table, in scope order, and nothing out of place, into empty targets |
| CopyProgress.CopySucceedsFrom | crates/mysql_5_7/src/checkpoint.rs:421-457 | a copy succeeds exactly on a whole stream of valid batches whose inserts the tables take and whose rows can be counted |
| CopyProgress.DeliveredIsWhole | crates/mysql_5_7/src/snapshot.rs:313-444 | the batches a reader delivers are such a whole stream |
| Guarantees.SnapshotRowsAreCounted | crates/mysql_5_7/src/checkpoint.rs:421-457 | a committed copy records as snapshot_rows exactly the number of rows in the view's tables |
| Safety.RunKeeps | crates/mysql_5_7/src/checkpoint.rs:347-618 | the replication invariant holds in every reachable state, over all interleavings of source commits, snapshots, applies, crashes and lost acknowledgements |
| Safety.ApplyMeaning | crates/mysql_5_7/src/checkpoint.rs:486-618 | an apply on a sink in step either leaves everything, or writes exactly the effect of all source transactions up to its own |
| Safety.AppliedTables | crates/mysql_5_7/src/checkpoint.rs:580-585 | running a transaction's plan takes the sink from the tables at the durable position to those after the transaction |
| Safety.CoveredIsBehind | crates/mysql_5_7/src/checkpoint.rs:528-566 | a transaction reported as already applied lies at or before the durable position, in binlog and GTID mode |
| Safety.ResolvedIsBehind | crates/mysql_5_7/src/checkpoint.rs:232-266 | a transaction resolved as applied lies at or before the durable position |
| Safety.CopiedDurable | crates/mysql_5_7/src/checkpoint.rs:391-457 | a copy of a reader's view leaves the sink equal to the source at the prepared boundary |
| CheckpointWriters.CheckpointWriter.Apply | crates/mysql_5_7/src/checkpoint.rs:486-618 | the method's effect on writer, sink and result is the function about which the guarantees are proved, acknowledged or not |
| CheckpointWriters.CheckpointWriter.Observe | crates/mysql_5_7/src/checkpoint.rs:271-302 | records a filtered transaction in order, in memory only |
| CheckpointWriters.CheckpointWriter.Initialize | crates/mysql_5_7/src/checkpoint.rs:305-336 | persists a starting boundary once; a writer with a checkpoint keeps it |
| CheckpointWriters.CheckpointWriter.PrepareSnapshot | crates/mysql_5_7/src/checkpoint.rs:347-390 | writes or moves the snapshot marker, never over an incremental checkpoint or a changed row |
| CheckpointWriters.CheckpointWriter.CopySnapshot | crates/mysql_5_7/src/checkpoint.rs:393-457 | the loop over batches in table order loads all rows and turns the row incremental in one commit |
| CheckpointWriters.CheckpointWriter.ResolveCommitUnknown | crates/mysql_5_7/src/checkpoint.rs:217-267 | reads the row and changes nothing |
| CheckpointWriters.CheckpointWriter.Connect | crates/mysql_5_7/src/checkpoint.rs:98-208 | a new writer knows exactly the durable row, bound to its own identities |
| Cursor.CursorRoundTrip | crates/mysql_5_7/src/decoder.rs:360-371 | the checkpoint reads back exactly the file and position the decoder wrote, and refuses exactly the invalid ones |
| Cursor.CursorIsCanonical | crates/mysql_5_7/src/checkpoint.rs:688-719 | every accepted MySQL cursor is the one the decoder writes for its position |
| Cursor.ComparisonIsRankOrder | crates/mysql_5_7/src/checkpoint.rs:743-787 | within one history positions compare as numbers, file number first, and never fail to compare |
| Cursor.OtherHistoryIsRefused | crates/mysql_5_7/src/checkpoint.rs:771-787 | a changed history prefix is an error, never an order |
| Cursor.LsnReadingsAgree | crates/mysql_5_7/src/checkpoint.rs:688-742 | the cursor's and the checkpoint's reading of an LSN agree exactly when the upper half fits in 32 bits |
| Cursor.WideLsnIsRefused | crates/mysql_5_7/src/checkpoint.rs:688-742 | the text 100000000/0 is read as offset zero and then refused |
| CursorTexts.WideLsnLosesBits | crates/mysql_5_7/src/checkpoint.rs:688-742 | every LSN with an upper half above 32 bits is read with its high bits dropped and then refused |
| CursorTexts.LsnIsRead | crates/mysql_5_7/src/checkpoint.rs:688-742 | every other LSN, written in hexadecimal of either letter case, reads back to its number in both readings |
| CursorTexts.FileNameIsRead | crates/mysql_5_7/src/checkpoint.rs:744-787 | a binlog file name with any zero padding reads back to its prefix and number, and a number above 64 bits is refused |
| CursorTexts.GtidIsSingle | crates/mysql_5_7/src/checkpoint.rs:539-566 | a text ending in a colon and a number is one GTID exactly if it has no comma and the number is positive |
| Images.CheckImage | crates/change_event/src/validate.rs:308-363 | the loop with its three sets accepts exactly the images with distinct columns and contiguous, present, non-generated keys |
| Rows.Plan | crates/mysql_5_7/src/sql.rs:241-283 | one planned statement per change in order, or the first planning error |
| Planning.PlanSucceeds | crates/mysql_5_7/src/sql.rs:241-283 | a valid insert, update or delete is planned exactly when its images name a key and nothing it writes is a carrier envelope |
| Planning.PlansSucceed | crates/mysql_5_7/src/sql.rs:241-283 | and a transaction exactly when all its changes are |
| Planning.ExecutionTouchesOneRow | crates/mysql_5_7/src/sql.rs:613-678 | a statement succeeds exactly when it inserts one row with a new key, or its locator names exactly one row, which it then moves or removes |
| Planning.KeysStayUnique | crates/mysql_5_7/src/sql.rs:613-678 | whatever is executed, keys stay unique |
| Rows.SinkTransaction.ExecuteStatements | crates/mysql_5_7/src/sql.rs:613-678 | executes all statements in order or reports the first failure; nothing runs when a control table is touched |
| Simulation.KeyIsWritable | crates/change_event/src/validate.rs:308-363 | a keyed validated image always has a writable column |
| Simulation.LocatorHits | crates/mysql_5_7/src/sql.rs:1033-1069 | the key predicates of a validated before image match exactly one row of an equal sink table |
| Simulation.ChangeIsSimulated | crates/mysql_5_7/src/sql.rs:928-998 | a planned insert, update (also of the key, also with unchanged columns) or delete never fails on an equal sink table and keeps it equal |
| Simulation.TransactionIsSimulated | crates/mysql_5_7/src/sql.rs:613-678 | running a whole planned transaction on equal tables succeeds and leaves them equal |
| Copying.CopyRuns | crates/mysql_5_7/src/checkpoint.rs:421-447 | a copy that succeeds has run the inserts of all its batches and counted them |
| Copying.CopyEqualsView | crates/mysql_5_7/src/checkpoint.rs:421-457 | copying one complete scan of each table into empty tables leaves the sink equal to the view |
| Copying.CopyCountsView | crates/mysql_5_7/src/checkpoint.rs:436-450 | and its row count is the number of rows in the view |
| Copying.BrokenCopyFails | crates/mysql_5_7/src/checkpoint.rs:421-447 | a copy whose reader fails anywhere never succeeds |
| Keysets.KeyOrderIsStrictTotal | crates/mysql_5_7/src/snapshot.rs:351-372 | the comparison of composite keys is a strict total order |
| Keysets.PastLastKey | crates/mysql_5_7/src/snapshot.rs:351-372 | the keyset condition leaves exactly the rows not read yet, under the lexicographic key order |
| Keysets.CutsCoverOnce | crates/mysql_5_7/src/snapshot.rs:313-431 | for n rows there are n / 256 + 1 batches of at most 256 rows that cover each row once, and only the last is short |
| Keysets.BatchesFollowCuts | crates/mysql_5_7/src/snapshot.rs:417-430 | each batch holds its range of the sorted table and is flagged last exactly when short |
| Keysets.BatchesConcatenate | crates/mysql_5_7/src/snapshot.rs:313-431 | the batches of a table concatenate to the sorted table |
| Keysets.SnapshotReader.NextBatch | crates/mysql_5_7/src/snapshot.rs:313-431 | one query delivers the next batch and moves the reader past it, unless a row is too large or does not decode |
| Keysets.SnapshotReader.Next | crates/mysql_5_7/src/snapshot.rs:432-444 | nothing follows the last table or an error |
| Keysets.ReadAll | crates/mysql_5_7/src/snapshot.rs:432-444 | consuming a reader gives exactly the batches of all tables, unless some batch is refused |
| Keysets.BatchIsAcceptable | crates/mysql_5_7/src/snapshot.rs:374-415 | batches of readable rows up to 64 KiB are handed out; a batch with an unreadable row or one above 16 MiB is refused |
| Keysets.AllRowsCounted | crates/mysql_5_7/src/snapshot.rs:313-444 | all batches together hold as many rows as the tables |
| Keysets.ReaderCarriesView | crates/mysql_5_7/src/snapshot.rs:313-444 | a reader's batches are a complete scan of the view, as the copy needs it |
| SnapshotLocks.ReaderMatchesBoundary | crates/mysql_5_7/src/snapshot.rs:186-223 | whatever commits, rotates or dies in between, a reader handed out shows the source at exactly the recorded position, with exactly the recorded GTIDs |
| SnapshotLocks.ReaderIsPrepared | crates/mysql_5_7/src/snapshot.rs:186-223 | such a reader meets what preparing a snapshot requires |
| SnapshotLocks.DeadLockNeverReturns | crates/mysql_5_7/src/snapshot.rs:90-97 | once the lock connection has died, no reader is handed out |
| SnapshotLocks.UndisturbedSnapshotReturns | crates/mysql_5_7/src/snapshot.rs:150-298 | left undisturbed, a snapshot of any number of tables is handed out at what the source reports |
| SnapshotLocks.ReadLock.Release | crates/mysql_5_7/src/snapshot.rs:90-97 | releasing succeeds only on the original, living connection |
| SnapshotLocks.ReadLock.Acquire | crates/mysql_5_7/src/snapshot.rs:76-89 | a held guard means the server holds the lock for this connection |
| Decoders.Decoder.Decode | crates/mysql_5_7/src/decoder.rs:67-122 | rejects exactly the events that may not follow the log so far, and otherwise hands out exactly what the log commits with the event |
| DecodedLogs.AcceptedFromEvents | crates/mysql_5_7/src/decoder.rs:67-371 | a log is accepted exactly when every event may stand where it stands: nothing unsupported, no statements where they are rejected, no rotation or GTID inside a block, no second BEGIN, no commit of a block without BEGIN, and captured rows only of mapped tables inside a begun block within 64 MiB |
| DecodedLogs.EmittedFromEvents | crates/mysql_5_7/src/decoder.rs:225-350 | a transaction is handed out exactly at a commit inside a block, unless no row counts in it and everything is captured; it is named after the event that opened the block and begins at its BEGIN |
| DecodedLogs.CountedRows | crates/mysql_5_7/src/decoder.rs:268-320 | the rows that count are those of the table last mapped to their id, unless it was not selected |
| DecodedLogs.FileIsLastRotation | crates/mysql_5_7/src/decoder.rs:67-122 | places name the file of the last rotation |
| Decoders.EmissionMeaning | crates/mysql_5_7/src/decoder.rs:328-350 | a transaction handed out is one opened block without another commit, rollback or rotation in it, with exactly its captured rows in event order, within the byte limit |
| Decoders.CommittedIsEmitted | crates/mysql_5_7/src/decoder.rs:328-350 | every opened block that nothing ends before its commit is handed out there, unless it is empty and everything is captured |
| Decoders.BlocksAreDisjoint | crates/mysql_5_7/src/decoder.rs:67-371 | transactions come from disjoint blocks in log order |
| Decoders.EndedStaysOut | crates/mysql_5_7/src/decoder.rs:225-232 | what was committed, rolled back or cut off contributes nothing to a later transaction |
| Decoders.RowsNeedOpening | crates/mysql_5_7/src/decoder.rs:893-929 | rows are buffered only inside an opened block and never past 64 MiB |
| Decoders.Decoder.PushAll | crates/mysql_5_7/src/decoder.rs:911-928 | appends rows in order as long as the buffer limit allows |
| Decoders.BinlogStream.Next | crates/mysql_5_7/src/binlog.rs:124-184 | hands out the next transaction of the log; ends only for a stop that was seen, or outside a transaction at the event limit or the end of the connection; fails only for an item that is broken, rejected or completes an invalid transaction, or inside a transaction at the limit or the end; then nothing follows |
| Decoders.ReadStream | crates/mysql_5_7/src/binlog.rs:124-184 | a consumer gets exactly the transactions of a good start of the feed, in order; unless a stop was seen, that start ends at the limit, at the end, or at the first refused item |
| Decoders.NothingRefusedInside | crates/mysql_5_7/src/binlog.rs:124-184 | no item of a good start is refused, so there is only one such start |
| JsonLines.Print | crates/change_event/src/json.rs:5-37 | the printer's loop writes begin, one line per row and commit |
| JsonLines.ReadBack | crates/change_event/src/reader.rs:60-160 | for every way of cutting the printed bytes into pieces with temporary ends of input between them, exactly the printed transactions are returned and finishing succeeds |
| JsonLines.ReadInput | crates/change_event/src/reader.rs:60-160 | for any input: reading it all completes exactly when its lines carry valid transactions of at most 64 MiB each, and then returns those; after an error, what was returned is carried by the first lines |
| JsonLines.JsonReader.HandlePayload | crates/change_event/src/reader.rs:104-146 | accepts exactly the line that may come next and then still has understood all lines |
| JsonLines.JsonReader.ReadTransaction | crates/change_event/src/reader.rs:71-149 | consumes bytes in order until a commit, or until everything up to a temporary end of input is consumed; input that carries transactions is never refused |
| JsonLines.JsonReader.NextTransaction | crates/change_event/src/reader.rs:60-69 | any error is final; without one, nothing is returned only at a temporary end of input with all bytes before it consumed |
| JsonLines.JsonReader.Finish | crates/change_event/src/reader.rs:151-160 | succeeds exactly when nothing failed and nothing is begun or half read |
| JsonLines.ReturnedFromBlock | crates/change_event/src/reader.rs:104-146 | every returned transaction is what one contiguous block of newline-delimited input lines says: begin, rows 1..n, commit n+1, one identity |
| Calendar.EpochIsDayZero | crates/change_event/src/compatibility.rs:4486-4495 | 1 January 1970 is day 0 |
| Calendar.NextDayIsOneLater | crates/change_event/src/compatibility.rs:4486-4495 | the next valid date is one day later, under the validator's leap rule |
| Calendar.DateRoundTrip | crates/change_event/src/compatibility.rs:4486-4508 | every valid date of any signed year maps to a day and back |
| Calendar.CivilIsDayByDay | crates/change_event/src/compatibility.rs:4496-4508 | for every integer day the closed formula is the date reached one day at a time, valid, and maps back |
| Calendar.DecoderAgreesWithPlanner | crates/mysql_5_7/src/decoder.rs:755-797 | the decoder accepts exactly the valid date-times below hour 24 and agrees with the planner's calendar |
| Calendar.SinkAgreesWithPlanner | crates/mysql_5_7/src/sql.rs:1521-1554 | the sink computes the planner's date for every instant and refuses only years its type cannot hold |
| Calendar.TimestampSurvivesPipeline | crates/mysql_5_7/src/sql.rs:1521-1554 | sink after decoder is the identity on every valid date-time of the years 1..65535 |
| Calendar.LocalRoundTrip | crates/change_event/src/compatibility.rs:4397-4484 | local to instant and back with a fixed offset is the identity exactly for hours below 24 |
| Calendar.MidnightMovesToNextDay | crates/change_event/src/compatibility.rs:4397-4484 | hour 24 comes back as the start of the next day |
| DecimalFit.AcceptanceMeaning | crates/change_event/src/compatibility.rs:3452-3619 | acceptance means an exact form at the target scale, below ten to the integer width |
| DecimalFit.AcceptedIffFits | crates/change_event/src/compatibility.rs:3452-3619 | accepted exactly when an integer of the target precision represents the value, for coefficients of any length, if the target scale is at most the precision or the value has no fractional digits |
| DecimalFit.AcceptedWithoutFit | crates/change_event/src/compatibility.rs:3452-3619 | every other plan accepts some value that does not fit |
| DecimalFit.AcceptedIsApplicable | crates/change_event/src/compatibility.rs:3452-3530 | nothing but finite values of the expected scale and listed special values is accepted |
| DecimalFit.SpecialIsAcceptedIffListed | crates/change_event/src/compatibility.rs:3452-3530 | NaN and the infinities are accepted exactly when the plan lists them |
| BitStrings.Convert | crates/change_event/src/compatibility.rs:2653-2735 | the byte loop keeps every meaningful bit under the new order and pads as told, for any length |
| BitStrings.ConversionIsUnique | crates/change_event/src/compatibility.rs:2653-2735 | that determines every output byte |
| BitStrings.ValidMeaning | crates/change_event/src/validate.rs:687-721 | the validator's masks say what each unused bit reads |
| BitStrings.ConvertedIsValid | crates/change_event/src/validate.rs:687-721 | the output validates exactly when the padding policy fits the alignment |
| BitStrings.ConversionRoundTrip | crates/change_event/src/compatibility.rs:2653-2741 | converting back with the original order and padding restores the original bytes |
| Labels.ParseQuotedMembers | crates/mysql_5_7/src/type_mapping.rs:345-421 | the iterator loop reads exactly the grammar of quoted label lists |
| Labels.ParseRendered | crates/mysql_5_7/src/type_mapping.rs:345-421 | quoting a declarable label list and parsing it gives the list back |
| Labels.QuotingRoundTrip | crates/mysql_5_7/src/type_mapping.rs:345-421 | a list comes back exactly when it is non-empty, distinct, and of non-empty NUL-free labels; parsing, quoting and parsing again changes nothing |
| Labels.LooseIsParsed | crates/mysql_5_7/src/type_mapping.rs:345-421 | white space around labels and a comma after the last change nothing |
| Labels.EscapeIsRead | crates/mysql_5_7/src/type_mapping.rs:345-421 | each backslash escape stands for its character, and an escaped NUL is refused |
| Labels.SetDecoding | crates/mysql_5_7/src/type_mapping.rs:118-148 | a mask is accepted exactly when it names declared labels only; the result holds exactly the labels whose bit is set |
| Labels.SetKeepsDeclaredOrder | crates/mysql_5_7/src/type_mapping.rs:118-148 | in declared order, without repetition |
| Canonicalization.Rewrite | crates/change_event/src/model.rs:788-829 | the rewriting loops compute the canonical form at every depth |
| Canonicalization.RewriteJson | crates/change_event/src/model.rs:831-846 | likewise for JSON documents |
| Canonicalization.CanonicalIsIdempotent | crates/change_event/src/model.rs:788-846 | canonicalizing twice is canonicalizing once, for every digest |
| Canonicalization.CanonicalIsOrdered | crates/change_event/src/model.rs:788-846 | in a canonical form SET members and object keys ascend, and map entries ascend by the digests of their keys, at every depth |
| Sorting.TextOrderMeaning | crates/change_event/src/model.rs:788-846 | texts are ordered by their first difference, a prefix first |
| Reordering.ForgetsOrder | crates/change_event/src/model.rs:788-846 | values that differ only in the order of SET members, map entries or object entries at any depth have one canonical form, if equal canonical keys carry equal canonical values |
| Reordering.CanonicalIsReordering | crates/change_event/src/model.rs:788-846 | the canonical form is itself a reordering of the value at every depth, so nothing is added, lost or changed |
| Reordering.OrderIsForgottenIffSettled | crates/change_event/src/model.rs:788-846 | and exactly then |
| Reordering.DigestForgetsOrder | crates/change_event/src/model.rs:733-735 | the stable digest forgets the order too, and tells different canonical forms apart |
| Reordering.ValidatedMapMayConflict | crates/change_event/src/validate.rs:585-594 | the validator's distinct keys do not suffice |
| Planner.Validate | crates/change_event/src/compatibility.rs:1740-1785 | the loop accepts exactly the manifests with complete, distinct entries and no explicit conversion that allows keys |
| PlannerAnswers.TransactionPlanFits | crates/change_event/src/compatibility.rs:4773-5132 | every plan for a transaction fits the request: generated flags agree, a nullable source has a nullable target, rule and code are the selected and probed ones, and the plan is one usable capability's that declares the required operations and presences, with its native type, parameters and at least its risk |
| PlannerAnswers.FieldPlanFits | crates/change_event/src/compatibility.rs:5160-5534 | the same for planning from catalog definitions; moreover key positions and key collations agree, and other collation differences are declared and confirmed |
| PlannerAnswers.TransactionIsPlanned | crates/change_event/src/compatibility.rs:4773-5132 | a capability that meets the request, alone or as the exact native one among carriers, is planned; a confirmation is asked exactly where required |
| PlannerAnswers.FieldIsPlanned | crates/change_event/src/compatibility.rs:5160-5534 | the same for planning from catalog definitions |
| PlannerAnswers.NothingQualifies | crates/change_event/src/compatibility.rs:4892-4975 | where nothing meets the request there is no plan; it is blocked exactly for a key kept from a rule that does not allow keys and for spatial types |
| PlannerAnswers.CompetitorsNeedSelection | crates/change_event/src/compatibility.rs:4977-5010 | two capabilities that meet the request and are no carriers need a selection |
| PlannerAnswers.CarriersNeedSelection | crates/change_event/src/compatibility.rs:4977-5010 | carriers alone need a selection |
| PlannerAnswers.ParametersAreChecked | crates/change_event/src/compatibility.rs:5020-5070 | invalid or missing parameters keep a capability from being planned |
| PlannerAnswers.RefusedBeforePlanning | crates/change_event/src/compatibility.rs:5160-5224 | bad input and manifests are errors; a missing or different primary key, and different key collations, block |
| PlannerAnswers.CandidatesAreRanked | crates/change_event/src/compatibility.rs:4884-4890 | candidates are listed exact first, then by risk, then by code |
| PlannerAnswers.PlanDeclaresLoss | crates/change_event/src/compatibility.rs:6406-6432 | a plan keeps the value only if it is exact, range-checked or a tagged carrier, and declares every other loss; the locator is preserved exactly for keys |
| Planner.KeySafetyForTransactions | crates/change_event/src/compatibility.rs:4773-5132 | a plan for a key, unique or locator field uses a rule that allows keys, is no explicit conversion, loses nothing and preserves the locator |
| Planner.KeySafetyForFields | crates/change_event/src/compatibility.rs:5160-5534 | the same for planning from catalog definitions, where key positions and collations moreover agree |
| Planner.LossIsConfirmed | crates/change_event/src/compatibility.rs:5483-5514 | an explicit conversion or a plan across collations is compatible only once confirmed |
| Planner.PlanDeclaresRisk | crates/change_event/src/compatibility.rs:4773-5132 | a plan never understates its rule's risk, and a plan across collations declares high risk and comparison, ordering and constraint loss |
| Planner.ChoiceIsUnambiguous | crates/change_event/src/compatibility.rs:7398-7432 | a candidate is chosen only when all others are explicit carriers, and then it is exact and native; a carrier only when it is alone and selected |
| Planner.ExactNativeIsChosen | crates/change_event/src/compatibility.rs:7398-7432 | an exact native candidate among carriers is always the one chosen |
| Planner.TransactionAnswersForgetOrder | crates/change_event/src/compatibility.rs:4884-4890 | the answer does not depend on the order in which a valid manifest lists its capabilities |
| Planner.FieldAnswersForgetOrder | crates/change_event/src/compatibility.rs:5297-5303 | likewise for planning from catalog definitions |

## Left out

- Guarantees.SinkEqualsSource: a route started without a snapshot is assumed to start where the sink already equals the source; the code does not check that.
- Simulation.ChangeIsSimulated: secondary unique indexes, triggers, server warnings and type coercions of the sink are not modelled, and keys compare by exact value.
- Checkpoints.Apply: counters other than the revision are unbounded, and the rows' text for mode and phase is always one of the known ones.
- CheckpointWriters.CheckpointWriter.Connect: the advisory lock, control-table creation and migration, and engine checks are not modelled; the lock would only remove runs.
- CheckpointWriters.CheckpointWriter.CopySnapshot: column selection of a scope is not modelled, and a progress callback that fails is an error of the next batch.
- GTID texts: the server's canonical form of a text is a function to sets, with union and inclusion for its GTID functions.
- Decoders.Decoder.Decode: recognising statement texts and event types, loading column metadata and decoding row payloads are inputs of the events.
- Decoders.BinlogStream.Next: the raw event log, and a failure to write it, are not modelled.
- JsonLines.JsonReader.NextTransaction: an I/O error of the underlying input is not modelled.
- Rows.Plan: values that a target cannot bind, other than carriers, are not modelled, so binding them never fails.
- Rows.SinkTransaction.ExecuteStatements: checks of engines, triggers, warnings and affected-row counts are not modelled.
- JsonLines.ReadBack: the JSON library is an injective encoding without newlines; UTF-8 conversion is not modelled.
- Images.CheckImage: the checks of the values themselves are modelled only for dates, times and bit strings, in their own modules.
- Calendar.LocalRoundTrip: 64-bit overflow for instants beyond the range of any 32-bit year is not modelled.
- Labels.SetDecoding: byte masks of more than eight bytes are not modelled; decoding an ENUM ordinal is an index lookup.
- Planner.KeySafetyForTransactions: the detailed type-declaration filters, option parsing and the planned parameters other than the conversion kind are arbitrary functions.
- Canonicalization.Rewrite: applying it to each column of a transaction is a plain loop.
- SnapshotLocks.ReaderMatchesBoundary: time budgets and cancellation are one way of giving up.
- Value conversions other than decimals, bit strings and fixed-offset times; IEEE 754 narrowing needs a floating-point model.
- MySQL 8.0 and 8.4 and PostgreSQL crates, the web interface, the command line and the task worker, which appears only as the actions of a run.
