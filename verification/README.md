# pg-ost: the online migration, modelled and proved in Dafny

pg-ost changes the schema of a live PostgreSQL table. It creates an empty *ghost* table with the new
schema, copies the original's rows into it chunk by chunk, replays the original's change log (logical
replication) on it in order, and finally renames the ghost to the original's name. Source writes go on
all the time; a change may be replayed before or after the copy of the row it changed. The claim at the
centre of the program is that every interleaving of source writes, stale replays and chunk copies
converges to the original table. This project models that protocol and the code it is made of, and
proves the claim, the exact conditions it needs, and what happens where a condition fails.

## How the project is organised

| file | what it models |
|---|---|
| `Values`, `Selection` | column values, keys of any arity and their order; sorted listings, boundaries (OFFSET), slices (LIMIT) |
| `Strings`, `Quoting`, `LoadMaps` | text functions; identifier and literal quoting with a scanner; load maps, printed and parsed |
| `RangeFilters` | WHERE and ORDER BY over the key: texts and the rows they select |
| `Chunks`, `ChunkCount` | the chunk iterator: coverage under any schedule, termination, exact counting |
| `Replay` | legal source changes, their replay on the ghost, and why replaying stale events is harmless |
| `Protocol` | the migration as a state machine over single steps, its invariant and the convergence theorems |
| `Shortfalls` | concrete runs that show which of the theorems' conditions the code does not establish |
| `Events`, `Sql`, `Builders` | decoded events, statements with text and meaning, the loops that build them |
| `Conversion`, `Delivery` | what the database makes of a value sent for a column of a type, and what it logs for a row change; every change of a table of typed rows can be logged and comes back as itself |
| `SqlReading`, `CopyReading` | readers for the statements' texts, as the database's parser: which texts come back as the statement they were built from, and what sending a text does |
| `Statements`, `Sending` | the statements' effects on a table; sending an event's text and arguments is replaying the event |
| `QuotedNames` | what happens to texts when a name looks quoted |
| `CopySql`, `RowCopy` | the copy statement, its text and effect; shared columns; copies alone migrating an unchanging table |
| `Batching` | the executor goroutine: batches in a transaction, copies in between; every turn is a step of `Protocol` |
| `Decoding`, `Streaming` | the pgoutput decoder and the reader's loop; routing to the queue and the cutover marker |
| `CutOver` | the rename transaction, its statements read back from their texts, and what the migration leaves under the original's name |
| `Refinement`, `WalRefinement` | the goroutines' own steps, in any interleaving, are runs of `Protocol`; the same from the log's messages on, with the decoder among the steps |
| `EndToEnd` | all of it composed, from the log's messages to the table under the original's name |

Code that updates state (cursor, batch buffer, decoder, reader, catalog) is written as classes and
methods with loops, each proved against a function of its inputs or its old state; the properties are
then proved about those functions. Goroutines are modelled by a state machine (`Protocol`) whose steps
interleave freely, and in the loops by a schedule argument: a method is given the sequence of things
its loop meets (table contents, timeouts, failures, available queue entries) and its contract holds for
every such sequence.

## Main results

* **Convergence** (`Protocol.ConvergesAlways`): in every reachable state of every run, replaying all
  pending changes on the ghost gives exactly the covered rows of the original, equal on the shared
  columns, plus the rows that key-changing updates left behind, and nothing else.
  `Protocol.ConvergedIff` turns this into the exact condition for a drained ghost to equal the original.
* **Coverage** (`Chunks.TurnsChained`, `Chunks.ChainCovers`, `Protocol.CompleteCovers`): whatever the
  table does meanwhile, the captured ranges chain from the recorded minimum to the maximum.
* **Termination** (`Chunks.LoopEndsIff`) and **exact counting** (`ChunkCount.ExactChunks`).
* **Statement semantics** (`Sending.EventTextReplays`, `RowCopy.CopyTextRuns`): the text built for any
  event with plain names, sent to any ghost table with the delivered values as arguments, does what
  replaying that event does, and fails exactly when it would write a missing column; the copy's text copies
  the shared columns of its rows. `QuotedNames.InsertTextIff` says exactly when an insert needs the plain
  names.
* **Delivery** (`Conversion.InputOutput`, `Delivery.ChangeDelivered`, `Delivery.ChangeCanBeLogged`): a change
  of a table of typed rows is logged as texts, decoded, and taken by the database for the same change.
* **Statement texts** (`SqlReading.StatementReadIff`, `CopyReading.CopyReadIff`): a text reads back as the
  statement it was built from if and only if no name in it starts and ends with a double quote and every
  key value in it is a text, an integer or null.
* **Batching** (`Batching.EverySchedule`, `Batching.OneAtATime`): for every queue, schedule and sequence of
  batch sizes set meanwhile, batching is one-at-a-time replay.
* **Refinement** (`Refinement.EveryInterleavingIsRun`): reader, executor with its batches and copies, and
  chunk iterator, interleaved in any way with source writes, only make runs of the state machine, with
  the same ghost table, whether or not the executor has stopped on the way; `Refinement.GhostConverges` is
  convergence stated about the executor's own ghost. `WalRefinement.WireIsCode` and
  `WalRefinement.WireConverges` start from the messages in the log.
* **Reader** (`Decoding.EmittedAt`, `Decoding.AckedWasRead`): each row change yields one event, stated field by
  field over the log, and nothing is acknowledged before it was read and handed over.
* **Marker** (`Streaming.ProcessedMeansRouted`): when the wait for the cutover marker succeeds, every
  earlier change of the table has been applied, is in hand or is queued, in order.
* **End to end** (`EndToEnd.WholeMigration`, `EndToEnd.CutOverMigrates`): on every run from the log's
  messages, when the marker came back, no change was logged after it, the counter has reached the number of
  changes and the copies are over, each with a LIMIT that was enough, a cutover that succeeds leaves under the
  original's name a table with every row of the original. `CutOver.SwapMigrates` says it of the state machine, and
  `Shortfalls.DrainedCutoverReached` is a run that meets its conditions.

## Where the code does less than one may expect

Each of these is a lemma with a concrete run or an exact condition.

* Seeing the cutover marker shows that earlier changes were queued, not that they were applied:
  `Shortfalls.CutoverBeforeApply` reaches a cutover that loses a row. `Shortfalls.MarkerAppliedIff` says
  exactly when they were applied: when as many changes have been applied as come before the marker, and,
  if nothing was committed after it, when batch and queue are empty.
* A failed batch stops the executor, but not the reader or the cutover: `Shortfalls.SwapAfterFailedBatch`
  reaches the swap after it, with the batch lost. The exact condition is again `Shortfalls.MarkerAppliedIff`,
  which holds of those states too.
* A name that starts and ends with a double quote is taken for quoted already, although catalog names are
  raw. A row with such a column fails its batch, which stops the executor
  (`QuotedNames.QuotedColumnFails`, `Batching.QuotedBatchFails`), or has the value written to the column named
  within the quotes (`QuotedNames.QuotedColumnMixedUp`). Where the part within the quotes holds no double
  quote, a text means exactly the statement over the names without their quotes (`QuotedNames.SimpleRuns`), and
  an insert does its replay if and only if its names are plain (`QuotedNames.InsertTextIff`). A rename renames
  the other table (`CutOver.QuotedTableRenamesOther`).
* An UPDATE that changes the key upserts the new key and leaves the old row in the ghost, although the
  comment in the source speaks of deleting it: `Shortfalls.KeyChangeLeavesRow`.
* The copy reads the chunk size again when it runs; lowered in between, it loses rows:
  `Shortfalls.LoweredChunkSizeLosesRow`. With a chunk size that never changes, an INSERT into a range that was
  handed out pushes another row past the LIMIT: `Shortfalls.InsertLosesRow`. `Selection.CopyCoversIff` gives
  the exact condition.
* The chunk loop does not stop when more than a chunk of rows lies at or above the recorded maximum:
  `Chunks.LoopEndsIff`. Boundaries are not capped at that maximum, so the range from the maximum to
  itself need not be the last one: `Chunks.LastRangeNeedNotBeFinal`. `Chunks.LastRangeIff` says when it is:
  when every look taken after it was handed out, with the cursor still there, finds at most a chunk of
  rows at or above the maximum.
* After DROP COLUMN, a replayed INSERT or UPDATE still names the dropped column, and its batch fails and
  stops the executor: `Batching.BatchFailsIff`.
* `UnquoteIdentifier` slices out of range (modelled as an error) exactly on a lone double quote, and
  quoting is not injective: `Quoting.UnquoteFailsIff`, `Quoting.QuoteCollisionIff`.
* A key value that is neither a text nor an integer is printed without quotes in the copy's filter, and
  does not read back: `CopyReading.ValueReadIff`.
* `BuildOrderByClause` with `desc` makes only the last column descending:
  `RangeFilters.BuiltDescIsReverseIff`.
* A second marker in the same changelog table would be an UPDATE, which the handler ignores:
  `Streaming.MarkerRecognisedIff`.

## What the theorems assume

* No name of the schema, the tables or their columns starts and ends with a double quote.
* Keys are non-null and every key column has one type, a 64-bit integer or a text, so that the `%v` text of
  two values is equal only for equal values. Text columns sort by character codes.
* Columns that both tables have are of the same type in both. A column takes a value by its type's input
  function applied to the value's text (`Conversion.Input`), which undoes the output function that logical
  replication delivers with (`Conversion.InputOutput`); a value that would print differently once taken is not
  delivered for that column (`Conversion.Delivered`).
* The table has REPLICA IDENTITY FULL and no unchanged TOAST markers; every changed row carries all the
  original's columns. The stream holds the changes in commit order, and a change is visible to queries
  from its place in that order on. The ghost has no unique constraint besides the migration key.
* `Protocol.Drained` states what the cutover needs beyond the marker: queue, batch and copies drained, no
  change after the marker, and every copy's LIMIT at least the number of rows of its half-open range.
  Nothing in the source establishes it.

## Model

| member | source | states |
|---|---|---|
| Values.Trichotomy | internal/logic/applier.go:291-335 | keys of any arity are totally ordered as ORDER BY over the key columns orders them |
| Values.LeqTransitive | internal/logic/applier.go:291-335 | that order is transitive |
| Selection.Least | internal/logic/applier.go:291-314 | the row of ORDER BY key LIMIT 1 is a least key, and the only one |
| Selection.Greatest | internal/logic/applier.go:319-335 | the row of ORDER BY key DESC LIMIT 1 is a greatest key |
| Selection.SortedUnique | internal/logic/applier.go:366-374 | an ordered listing of a set of keys is unique, so OFFSET and LIMIT are determined |
| Selection.BoundaryFacts | internal/logic/applier.go:366-393 | the next boundary has exactly a chunk of rows before it, is strictly above the cursor, and is missing exactly when at most a chunk is left |
| Selection.CopyKeysSound | internal/logic/applier.go:539-550 | a copy takes only rows of the table inside its closed range |
| Selection.CopyCoversIff | internal/logic/applier.go:486-550 | a copy takes every row of [lo, hi) exactly when its LIMIT is at least their number |
| Selection.CopyPoint | internal/logic/applier.go:539-550 | the copy of [k, k] takes the row k |
| Selection.CopyKeysSlice | internal/logic/applier.go:539-550 | filter, ORDER BY and LIMIT give a contiguous slice of the sorted keys |
| Strings.SplitJoin | internal/base/load_map.go:31-67 | splitting joined parts at a separator they do not contain gives the parts back |
| Strings.JoinSplit | internal/base/load_map.go:31-67 | joining undoes splitting, so the pieces are the only ones without the separator |
| Strings.TrimSpaceCut | internal/base/load_map.go:33-44 | trimming cuts off the white space around the text and nothing else |
| Strings.ParseIntDecimal | internal/base/load_map.go:46-49 | parsing a printed integer gives it back exactly within the int64 range |
| Strings.ParseIntIff | internal/base/load_map.go:46-49 | a text is parsed to n exactly when it is a sign or none, leading zeros and the digits of n, and n has 64 bits |
| Quoting.UnquoteQuoteIff | internal/sql/parser.go:121-136 | unquoting undoes quoting exactly on names that do not look quoted already |
| Quoting.UnquoteFailsIff | internal/sql/parser.go:131-136 | unquoting slices out of range exactly on a lone double quote |
| Quoting.UnquoteIs | internal/sql/parser.go:131-136 | a name without quotes is left as it is; within quotes each pair of double quotes becomes one, from left to right, and nothing else changes |
| Quoting.QuoteIdempotent | internal/sql/parser.go:121-128 | quoting twice is quoting once, for every string |
| Quoting.QuoteCollisionIff | internal/sql/parser.go:121-128 | two names get one quoted form exactly when one is the other's quoted form |
| Quoting.ScanQuotedIff | internal/sql/parser.go:121-128 | the SQL scanner reads a quoted identifier back as the name exactly on the same names |
| Quoting.ScanFormattedText | internal/logic/applier.go:454-466 | the SQL scanner reads a formatted text literal back as the same text, whatever follows |
| LoadMaps.ParseLoadMap | internal/base/load_map.go:25-55 | is refused exactly when some piece, trimmed, is not empty and has no equals sign or no 64-bit numeral after its first one; the first such piece is what the error names; otherwise each name, trimmed, has the value of the last piece that names it |
| LoadMaps.String | internal/base/load_map.go:58-68 | the text is every entry once, in some order of iteration |
| LoadMaps.RoundTrip | internal/base/load_map.go:25-68 | parsing a printed map gives the map back, for every iteration order |
| LoadMaps.RoundTripIff | internal/base/load_map.go:25-68 | it does so exactly when no name holds a comma, an equals sign or outer white space |
| RangeFilters.CompareRowsIsOrder | internal/logic/applier.go:431-451 | SQL's row comparison is the key order, for every arity, on keys without nulls |
| RangeFilters.WhereSelectsAtOrAbove | internal/logic/applier.go:363-374 | the boundary query's filter selects exactly the keys at or above the cursor |
| RangeFilters.ComparisonSelectsInterval | internal/logic/applier.go:590-614 | the copy's filter selects exactly the closed interval |
| RangeFilters.BuildRangeWhereClause | internal/logic/applier.go:431-451 | builds the bound's text, bare for one column and as a row for several |
| RangeFilters.BuildRangeComparison | internal/logic/applier.go:590-614 | builds the conjunction of the two bounds' texts |
| RangeFilters.FirstIsExtreme | internal/logic/applier.go:291-335 | the first row ordered by every key column DESC is the greatest key, ascending the least |
| RangeFilters.BuildOrderByClause | internal/sql/builder.go:205-217 | the text of an ordering in which the last column alone takes the direction |
| CopyReading.BuiltOrderRead | internal/sql/builder.go:205-217 | over plain names that text reads back as the columns in their order, each ascending but the last, which is descending exactly with desc |
| RangeFilters.BuiltDescIsReverseIff | internal/sql/builder.go:205-217 | with desc it reverses the key order exactly for at most one column |
| Chunks.FormatInjective | internal/logic/applier.go:414-420 | comparing printed values is comparing values, within one column type |
| Chunks.Applier.constructor | internal/logic/applier.go:33-46 | starts with no recorded range and no final chunk returned |
| Chunks.Applier.ReadMigrationRangeValues | internal/logic/applier.go:273-339 | records the least key and then the greatest key of the table as it is at each query; empty table and missing key as in the source |
| Chunks.Applier.HasMoreRows | internal/logic/applier.go:404-428 | true below the maximum, and once more at it; sets only finalChunkReturned |
| Chunks.Applier.CalculateNextIterationRangeEndValues | internal/logic/applier.go:342-395 | sets the range end to the boundary query's row, or to the maximum when there is none; a failing query changes nothing |
| Chunks.Applier.AdvanceIterationRangeMin | internal/logic/applier.go:399-401 | moves only the iteration minimum to the range end |
| Chunks.Applier.IterateChunks | internal/logic/migrator.go:432-494 | cursor, captured ranges and outcome are those of folding one turn over whatever the loop meets |
| Chunks.TurnChained | internal/logic/migrator.go:449-474 | one turn, whatever the table holds, keeps the captured ranges chained from the recorded minimum to the cursor |
| Chunks.TurnsChained | internal/logic/migrator.go:432-494 | under every schedule the ranges chain, and a completed loop has handed out [Max, Max] |
| Chunks.ChainCovers | internal/logic/migrator.go:432-494 | every key from the recorded minimum to the maximum lies in some [lo, hi) or in the range [Max, Max] |
| Chunks.ChunkFitsWhenCalculated | internal/logic/applier.go:366-393 | when a range is calculated, [lo, hi) holds at most a chunk of rows |
| Chunks.LoopEnds | internal/logic/migrator.go:435-493 | with at most a chunk of rows at or above the maximum the loop ends, by the measure of rows above the cursor and finalChunkReturned |
| Chunks.LoopRunsOn | internal/logic/migrator.go:435-493 | with more rows there it never ends |
| Chunks.LoopEndsIff | internal/logic/migrator.go:435-493 | on a table that stays as it is, the loop ends exactly when at most a chunk of rows is at or above the recorded maximum |
| Chunks.StoppedIff | internal/logic/migrator.go:435-493 | the loop ends without completing exactly when it meets an abort, or a lost connection with a range recorded, while it runs |
| Chunks.LastRangeNeedNotBeFinal | internal/logic/applier.go:364-375 | a schedule after which [Max, Max] is not the last range handed out |
| Chunks.LastRangeIff | internal/logic/migrator.go:432-494 | after a completed loop [Max, Max] is the last range if and only if each look taken with the cursor at Max, after [Max, Max] was handed out, found at most a chunk of rows at or above Max |
| ChunkCount.CopyAt | internal/logic/applier.go:539-550 | the copy from the i-th to the j-th key takes the keys between them, up to its LIMIT |
| ChunkCount.FollowsPlan | internal/logic/migrator.go:435-493 | from any position the loop hands out exactly the planned ranges and ends |
| ChunkCount.ExactChunks | internal/logic/migrator.go:435-493 | N rows take ceil((N-1)/c)+1 chunks (none for N = 0), each row copied once in key order, the greatest twice exactly when c does not divide N-1 |
| Replay.StepKeeps | internal/logic/applier.go:617-654 | a change committed to the original and replayed on the ghost keeps the row of a key in step |
| Replay.CopiedAhead | internal/logic/applier.go:617-654 | a ghost row copied from the end of the log still has those values after the whole stale log is replayed over it |
| Replay.ApplyLocal | internal/logic/applier.go:617-654 | replay at one key never depends on other keys |
| Replay.ApplyAppend | internal/logic/applier.go:617-654 | replaying two stretches of the log is replaying them joined |
| Replay.NothingVacated | internal/logic/applier.go:734-740 | without key-changing updates no key is left behind |
| Protocol.StreamStep | internal/logic/migrator.go:307-368 | every step keeps the log: the original is the start after the logged changes, and none is lost, repeated or reordered on its way to the ghost |
| Protocol.SettledStep | internal/logic/migrator.go:371-429 | every step keeps the content of the settled ghost |
| Protocol.CopyKeepsSettled | internal/logic/migrator.go:476-480 | a copy, run at any time, adds exactly its rows to the settled ghost |
| Protocol.CopyInvStep | internal/logic/migrator.go:432-494 | every step keeps the chain of ranges and the coverage by the copies that have run |
| Protocol.RunKeepsInv | internal/logic/migrator.go:371-494 | every run keeps the whole invariant |
| Protocol.ConvergesAlways | internal/logic/migrator.go:371-494 | in every reachable state, replaying what is pending gives the covered rows of the original, the rows left behind, and nothing else |
| Protocol.CompleteCovers | internal/logic/migrator.go:456-493 | once the loop is over and its last copy has run, every row of the original was copied or given by the log, if every LIMIT was enough |
| Protocol.ConvergedIff | internal/logic/migrator.go:371-494 | a drained ghost has exactly the original's rows if and only if every row is covered and none was left behind |
| Protocol.DrainedWithKeyChanges | internal/logic/applier.go:720-740 | with key-changing updates each original row is in the ghost, and each further ghost key was vacated and not reused or deleted since |
| Protocol.MarkerOrdering | internal/logic/migrator.go:581-605 | when the marker is seen, the changes before it are the first of those applied, in hand and queued, in stream order |
| Shortfalls.MarkerAppliedIff | internal/logic/migrator.go:581-605 | those changes have been applied exactly when as many have been; with none after the marker, exactly when batch and queue are empty |
| Protocol.DrainedPendingEmpty | internal/logic/migrator.go:548-605 | with the marker seen and everything drained, nothing is pending |
| Protocol.DrainedCutover | internal/logic/migrator.go:548-605 | a drained cutover finds every row of the original in the ghost |
| Shortfalls.CutoverBeforeApply | internal/logic/migrator.go:362-365 | a run that swaps while a row committed before the marker is missing from the ghost |
| Shortfalls.SwapAfterFailedBatch | internal/logic/migrator.go:399-402 | a run that swaps after a batch has failed, with a row of the batch missing from the ghost |
| Shortfalls.KeyChangeLeavesRow | internal/logic/applier.go:736-740 | a drained run whose ghost still holds the old key of an updated row |
| Shortfalls.LoweredChunkSizeLosesRow | internal/logic/applier.go:486-538 | a drained run that never copied a row, its chunk size lowered between calculation and copy |
| Shortfalls.InsertLosesRow | internal/logic/applier.go:519-550 | a drained run in which every chunk size and LIMIT is the same and a row that was there from the start and never written again is missing from the ghost, after an insert into its range |
| Shortfalls.DrainedCutoverReached | internal/logic/migrator.go:548-605 | a run on a table with a row that ends in a drained, converged cutover |
| Events.GetValueByName | internal/sql/types.go:133-140 | the value of the first column of that name, if there is one |
| Builders.IsKeyColumn | internal/logic/applier.go:683-690 | whether the column is in the unique key |
| Builders.NonKeySnoc | internal/logic/applier.go:680-696 | the columns outside the key keep their order and repetitions |
| Builders.PresentSnoc | internal/logic/applier.go:769-778 | so do the key columns that a tuple has |
| Builders.NothingSentIff | internal/logic/applier.go:657-822 | nothing is sent exactly for an event without the tuple it needs, for a delete without any key column, and for an update that neither changes the key nor has another column |
| Builders.UpdateColumns | internal/logic/applier.go:680-696 | the EXCLUDED clauses of the columns outside the key, in order |
| Builders.UniqueKeyChanged | internal/logic/applier.go:725-734 | whether some key column that both tuples have prints differently |
| Builders.SetClauses | internal/logic/applier.go:742-763 | the numbered set clauses of the columns outside the key, with their values |
| Builders.WhereClauses | internal/logic/applier.go:769-778 | the where clauses of the key columns, numbered on, with the old values |
| Builders.BuildInsertQuery | internal/logic/applier.go:657-717 | text and arguments of the upsert, DO NOTHING when there is nothing to set |
| Builders.BuildUpdateQuery | internal/logic/applier.go:720-789 | text and arguments of the update: an upsert for a changed key, none when there is nothing to set |
| Builders.BuildDeleteQuery | internal/logic/applier.go:792-822 | text and arguments of the delete by key |
| Builders.QueryBuilder.BuildUpsertQuery | internal/sql/builder.go:73-121 | the reference upsert of the columns, by its own loops |
| Builders.QueryBuilder.BuildUpdateQuery | internal/sql/builder.go:124-145 | the reference update of the columns, numbered through |
| Builders.QueryBuilder.BuildDeleteQuery | internal/sql/builder.go:148-159 | the reference delete by the columns |
| Builders.InsertTexts | internal/logic/applier.go:657-740 | the two builders, called for the columns of one event, give the same text for an insert or a key change |
| Builders.UpdateTexts | internal/logic/applier.go:742-789 | and for another update, by the columns outside the key and the key columns; the applier gives none when nothing is set |
| Builders.DeleteTexts | internal/logic/applier.go:792-822 | and for a delete, by the key columns |
| Builders.BuildRangeCondition | internal/sql/builder.go:162-178 | the applier's bound with placeholders for its literals |
| Builders.ConditionPlaced | internal/sql/builder.go:162-178 | its i-th placeholder is $ and the decimal of argStart + i |
| Builders.BuildBetweenCondition | internal/sql/builder.go:181-202 | the applier's range comparison with placeholders for its literals |
| Builders.BetweenPlaced | internal/sql/builder.go:181-202 | it is the lower bound with the placeholders from minArgStart on, AND the upper bound with those from maxArgStart on |
| Builders.BetweenPlaceholdersApart | internal/sql/builder.go:181-202 | its two ends use different placeholders exactly when their numbers do not overlap |
| Statements.Placeholders | internal/logic/applier.go:656-822 | in every built statement the placeholders are $1..$n, each once, one per argument, and each argument is the value of its column |
| Statements.NothingToSet | internal/logic/applier.go:765-767 | the empty query of a key-only table is the update's meaning |
| Statements.KeyChangeDetected | internal/logic/applier.go:725-740 | comparing printed key columns finds exactly the key changes |
| Sending.EventTextReplays | internal/logic/applier.go:617-822 | for every event with plain names and every ghost table, what the database makes of the built text and the delivered arguments is the event's replay, and an error exactly when it would write a column the ghost lacks |
| Sending.SameStatement | internal/logic/applier.go:656-822 | the statement built for an event does not depend on whether its values are the delivered texts or the typed values |
| Conversion.InputOutput | internal/replication/decoder.go:157-190 | a column's input function undoes the output function exactly on the values of the column's type |
| Delivery.RowDelivered | internal/replication/decoder.go:157-190 | a row of typed values, logged as texts and decoded, is taken for the same row, nulls for nulls |
| Delivery.ChangeDelivered | internal/replication/decoder.go:103-154 | a legal change of typed rows, logged and decoded, can be replayed and means the same change |
| Delivery.ChangeCanBeLogged | internal/replication/reader.go:214-238 | at any time before the swap, every such change is a possible step of the interleaving of log, decoder and goroutines, and commits that change |
| Delivery.IntegerKeyUpdateLogged | internal/replication/reader.go:214-238 | a possible run that logs an UPDATE of a row with an integer key |
| QuotedNames.SimpleRuns | internal/sql/parser.go:121-128 | the text over names that are plain or quoted without inner double quotes does exactly what the statement over the unquoted names does |
| QuotedNames.InsertTextIff | internal/logic/applier.go:657-717 | for an insert over such names whose columns the ghost has, the text does the replay on every ghost table if and only if the names are plain |
| QuotedNames.QuotedColumnFails | internal/sql/parser.go:121-128 | an event that fits the ghost, with a column whose name has its double quotes in it: its text fails |
| QuotedNames.QuotedColumnMixedUp | internal/sql/parser.go:121-128 | when the ghost also has the column named within the quotes, the text does not do the replay |
| SqlReading.StatementReadIff | internal/logic/applier.go:656-822 | the text of an upsert, update or delete reads back as exactly that statement if and only if no name in it looks quoted already |
| SqlReading.BuiltIsPlain | internal/logic/applier.go:656-822 | with plain names in the context and the event, every name in the statement built for it is plain |
| SqlReading.ItemsRead | internal/logic/applier.go:669-706 | a joined list reads back as its items |
| CopyReading.ValueReadIff | internal/logic/applier.go:454-469 | a formatted key value reads back as the same value, whatever follows in the list, exactly when it is a text, an integer or null |
| CopyReading.BoundRead | internal/logic/applier.go:590-614 | a bound of the range reads back with its columns and values, for one column and for several |
| CopyReading.CopyReadIff | internal/logic/applier.go:524-570 | the copy statement's text, line breaks included, reads back as exactly that statement if and only if its names are plain and its key values texts, integers or null |
| Statements.ApplyKeepsKeyed | internal/logic/applier.go:617-654 | replay keeps every ghost row under its own unique key |
| RowCopy.IntersectionOrder | internal/logic/applier.go:166-172 | the shared columns come each once, in the original's order |
| RowCopy.Intersection | internal/logic/applier.go:166-172 | a column is shared exactly when both tables have it |
| RowCopy.CalculatedAreShared | internal/logic/applier.go:142-179 | the calculated list has exactly the columns that replay and copies are proved to agree on |
| RowCopy.Copier.CalculateSharedColumns | internal/logic/applier.go:142-179 | sets the shared columns to the ordered intersection of the two lists |
| RowCopy.Copier.CopyQuery | internal/logic/applier.go:482-570 | builds the copy statement's text, with the original's columns when none is shared and DO NOTHING when nothing can be set |
| RowCopy.Copier.ApplyIterationInsertQueryWithRange | internal/logic/applier.go:482-587 | sends the text of the range with the chunk size of that moment and reports it with the affected rows, or leaves the ghost as it was |
| RowCopy.SelectsRange | internal/logic/applier.go:519-550 | filter, order and limit take exactly the first rows of the closed range |
| RowCopy.InsertAllCopies | internal/logic/applier.go:524-570 | upserting the selected rows one by one is copying the set of them |
| RowCopy.CopyTextRuns | internal/logic/applier.go:482-587 | sent to the database, the copy statement's text is the state machine's copy of the shared columns |
| RowCopy.ReportsCopied | internal/logic/applier.go:573-587 | unless the table has only key columns, the affected rows are exactly the rows copied |
| RowCopy.FallbackFails | internal/logic/applier.go:490-495 | with no column shared, falling back to the original's columns makes the statement fail |
| RowCopy.CopyMany | internal/logic/applier.go:524-570 | copying again changes nothing; two copies are the copy of both sets |
| RowCopy.StatementsMigrate | internal/logic/applier.go:142-587 | on an unchanging table, for every chunk size, the texts of the loop's ranges, sent one after the other, all succeed and make an empty ghost the original projected to the shared columns, defaults elsewhere |
| Batching.EventBatch.constructor | internal/dml/event.go:148-152 | starts empty |
| Batching.EventBatch.Add | internal/dml/event.go:155-157 | appends the event |
| Batching.EventBatch.Clear | internal/dml/event.go:165-167 | empties the batch |
| Batching.Executor.ApplyDMLEventQueries | internal/logic/applier.go:617-654 | all the texts take effect, or the ghost is as it was |
| Batching.Executor.DrainEvents | internal/logic/migrator.go:384-398 | the batch is the next n events of the queue: each test before its n-th event found it smaller than the batch size of that moment, and the next one did not, or no further event was there |
| Batching.BatchSizeIff | internal/logic/migrator.go:384-398 | those two conditions determine n |
| Batching.Executor.ProcessQueued | internal/logic/migrator.go:384-405 | commits, counts and clears the batch, or stops with it in hand |
| Batching.Executor.ExecuteWriteFuncs | internal/logic/migrator.go:371-429 | for every schedule, the executor's state is that of folding one turn over what it meets |
| Batching.RunAllReplays | internal/logic/applier.go:617-654 | the texts of a batch succeed exactly when every event fits, and then do the one-at-a-time replay |
| Batching.EverySchedule | internal/logic/migrator.go:371-429 | committed batches and the one in hand are the dequeued events in order, each of 1 to max(1, the greatest batch size set meanwhile) events, and the counter is the committed number |
| Batching.OneAtATime | internal/logic/migrator.go:371-429 | the ghost is the fold of the committed events, one by one in queue order, and the copies between them |
| Batching.BatchFailsIff | internal/logic/migrator.go:399-402 | with plain names, a batch stops the executor, leaving ghost and counter, exactly when the connection fails or an event writes a column the ghost lacks |
| Batching.TurnStopsIff | internal/logic/migrator.go:371-429 | a turn stops the executor exactly when it is the end or a panic, when its batch fails, or when its copy loses the connection; one that finds nothing to do changes nothing |
| Batching.QuotedBatchFails | internal/logic/migrator.go:399-402 | a batch with a column whose name has its double quotes in it fails although every event fits |
| Batching.BatchIsStep | internal/logic/migrator.go:384-405 | a batch of the executor is the state machine taking it from the queue and committing it, or stopping with it in hand |
| Batching.CopyIsStep | internal/logic/migrator.go:414-484 | a copy of the executor is the state machine's, or stops the executor on a lost connection and changes nothing else; unless the table has only key columns, it adds the number of copied rows to the context's count |
| Decoding.PgOutputDecoder.constructor | internal/replication/decoder.go:28-33 | knows no relation and no transaction |
| Decoding.PgOutputDecoder.DecodeTuple | internal/replication/decoder.go:157-190 | the relation's columns, each with the tuple's text or binary data at its place, and null for any other kind or a missing one; none without a tuple |
| Decoding.PgOutputDecoder.Decode | internal/replication/decoder.go:36-154 | errors exactly on unparsable messages, TRUNCATE, and row changes of relations that no message named; yields an event exactly for a row change, with its log position, the names of the relation in force, the kind, the tuples and the given transaction |
| Decoding.LatestRelationIff | internal/replication/decoder.go:43-45 | the relation in force is that of a Relation message after which none came for its id |
| Decoding.LatestXidIff | internal/replication/reader.go:232-237 | the transaction is that of a Begin message after which none came with a transaction, and 0 when none came at all |
| Decoding.FailsIff | internal/replication/decoder.go:36-154 | what cannot be decoded, stated over the messages before it |
| Decoding.EmittedAt | internal/replication/decoder.go:36-154 | each row change yields, after its predecessors' events, one with its log position, the names of the relation in force, its kind and tuples, and the transaction begun last before it |
| Decoding.EmittedCount | internal/replication/decoder.go:36-154 | as many events as row changes |
| Decoding.Reader.SendStandbyStatusUpdate | internal/replication/reader.go:245-263 | acknowledges the current position; on failure nothing changes |
| Decoding.Reader.Handle | internal/replication/reader.go:214-238 | moves the position to the end of the message, decodes, hands the event over, then tracks the transaction |
| Decoding.Reader.OneRound | internal/replication/reader.go:163-240 | one round of the loop, with the order of its checks |
| Decoding.Reader.StreamEvents | internal/replication/reader.go:160-242 | for every schedule, messages read, acknowledgements and outcome are those of folding the rounds; every acknowledgement is of the end of the last message read by then, whose events had all been handed over |
| Decoding.ReadIsPrefix | internal/replication/reader.go:160-242 | the messages read are a prefix of those received; decoding fails only at a message that cannot be decoded |
| Decoding.RunsOnIff | internal/replication/reader.go:160-242 | the loop goes on exactly as long as no round ends it: context done, streaming stopped, a failed update or receive, an undecodable message, or a cancelled hand-over |
| Decoding.AckedIff | internal/replication/reader.go:176-209 | as long as it goes on, n messages are acknowledged exactly when an update is due or asked for after n of them |
| Decoding.AckedWasRead | internal/replication/reader.go:214-263 | no received message that was still to be read when an update was sent starts before the acknowledged position, if messages do not overlap in the log |
| Decoding.HandOne | internal/replication/reader.go:214-238 | one more message keeps everything read handed over, and every earlier acknowledgement sound |
| Streaming.Migrator.HandleChangelogEvent | internal/logic/migrator.go:335-368 | forwards a cutover marker to a waiting cutover, and nothing else |
| Streaming.Migrator.StreamEvents | internal/logic/migrator.go:307-332 | queues exactly the original table's events, in order, and forwards the markers that are heard |
| Streaming.RoutedAt | internal/logic/migrator.go:320-331 | the queue gets an event exactly when its schema and table are the original's |
| Streaming.HeardAt | internal/logic/migrator.go:320-368 | the cutover hears exactly what a row of the changelog table announces while it listens |
| Streaming.MarkerIff | internal/logic/migrator.go:335-368 | a marker is the value, beginning with cutover-, of an inserted row whose hint is state |
| Streaming.WaitForEventsUpToLock | internal/logic/migrator.go:581-605 | succeeds exactly when the marker is written and comes before a timeout or a panic |
| Streaming.DecodedWellFormed | internal/replication/decoder.go:103-154 | decoded changes under REPLICA IDENTITY FULL have the tuples that replay needs |
| Streaming.RoutedAreChanges | internal/logic/migrator.go:320-331 | what reaches the queue is the stream's changes, in order, none lost or repeated |
| Streaming.HeardMeansRouted | internal/logic/migrator.go:320-368 | a heard marker came in the stream, and the original's events before it are the first in the queue |
| Streaming.ProcessedMeansRouted | internal/logic/migrator.go:307-605 | when the wait succeeds, the original's events before the marker are the first of those committed, in the executor's hand and queued; all are committed exactly when the applied counter has reached their number |
| Streaming.MarkerRecognisedIff | internal/logic/applier.go:209-227 | the marker's change is recognised exactly when no state was in the changelog before |
| CutOver.RenamesSwap | internal/logic/applier.go:869-891 | the two renames succeed one after the other exactly on a catalog that can be swapped |
| CutOver.ScriptRuns | internal/logic/applier.go:847-891 | the text of each statement of the script, over plain names, is run as that statement |
| CutOver.QuotedTableRenamesOther | internal/logic/applier.go:869-891 | the rename of a table with double quotes in its name renames the table named within them |
| CutOver.Applier.Transaction | internal/logic/applier.go:847-891 | the transaction's texts, over plain names, succeed exactly without a fault and with both tables there and the old name free; whatever happens, the lock is asked for under the lock timeout and no table is renamed unless the original is held |
| CutOver.Applier.AtomicCutOver | internal/logic/applier.go:825-903 | leaves the catalog as when its transaction began, or swaps exactly original to old and ghost to original; says exactly when; from before the first rename until the commit it holds the original in ACCESS EXCLUSIVE mode, under the configured lock timeout |
| CutOver.Migrator.CutOver | internal/logic/migrator.go:548-578 | swaps exactly when the flag file is gone, the marker is written and comes back, and the rename transaction succeeds; without the processed marker the database is not touched; the critical section is entered before the marker is awaited and left when the cutover ends |
| Refinement.SimWrite | internal/logic/migrator.go:320-331 | a source or changelog write is the state machine's, with the entry its event stands for |
| Refinement.SimReceive | internal/logic/migrator.go:320-368 | routing one event is the state machine's delivery |
| Refinement.SimBatch | internal/logic/migrator.go:384-405 | a batch is taking it and committing it, or stopping with it in hand |
| Refinement.SimCopy | internal/logic/migrator.go:414-418 | a queued copy is the state machine's, or stops with the ghost as it was |
| Refinement.SimIterate | internal/logic/migrator.go:449-474 | a turn of the iterator is the state machine's next chunk |
| Refinement.EveryInterleavingIsRun | internal/logic/migrator.go:307-494 | every interleaving of the goroutines' steps, the executor's stop and what the others do after it included, is a run of the state machine with the same ghost table |
| Refinement.GhostConverges | internal/logic/migrator.go:307-494 | when all has been applied and copied, the executor's ghost has every row of the original, and no other without key-changing updates |
| WalRefinement.WireIsCode | internal/replication/reader.go:160-242 | every interleaving of logging and decoding messages with the other goroutines' steps is one on decoded events, which are at any time the events of the log's messages |
| WalRefinement.ReaderInStep | internal/replication/reader.go:160-242 | what the reader's loop has handed over are the events received, and gives the executor's queue |
| WalRefinement.WireConverges | internal/logic/migrator.go:307-494 | convergence from the log's messages to the executor's ghost, for keys of integers and texts |
| CutOver.SwapMigrates | internal/logic/migrator.go:548-605 | at a drained cutover, the table now under the original's name has every row of the former original with equal values, no other row without key-changing updates, and all the original's columns if the ghost kept them |
| EndToEnd.MarkerSettles | internal/logic/migrator.go:581-605 | when the wait succeeds, no change follows the marker and the counter has reached the number of changes, nothing is unread, queued or in hand |
| EndToEnd.WholeMigration | internal/logic/migrator.go:307-605 | after every run on the log's messages with a successful wait, no change after the marker, all counted and every LIMIT enough, a swap leaves every row of the original under its name, with the values of the columns both tables have, and no other row without key-changing updates |
| EndToEnd.CutOverMigrates | internal/logic/migrator.go:548-605 | a cutover that ends well on such a run leaves that table in the catalog, and the former original under the old name |

## Left out

- Batching.Executor.ApplyDMLEventQueries: a commit that fails is taken as not applied; a lost connection can leave that open.
- Batching.Executor.ExecuteWriteFuncs: queue entries that carry a write function are not modelled, because the source never enqueues one.
- Decoding.PgOutputDecoder.Decode: starts from parsed messages; the byte format and in-progress (streamed) transactions are not modelled.
- Decoding.PgOutputDecoder.DecodeTuple: values stay text, as in the source; that the database's input function takes them for the values logged is proved for 64-bit integers and texts, and for other types reduced to the printed text.
- CutOver.Applier.AtomicCutOver: the locks it holds are modelled, the reads and writes of other sessions that they block are not; waiting for a lock is a success or a fault.
- Streaming.WaitForEventsUpToLock: time is reduced to the order of values, timeout and panic.
- Sending.EventTextReplays: for names that look quoted its failure is proved as an equivalence for inserts (QuotedNames.InsertTextIff); for updates and deletes only what the text means instead is (QuotedNames.SimpleRuns), and for names with further double quotes within only that the text does not read back as the statement (SqlReading.StatementReadIff).
- Connections, slots, publications, replica identity changes, hooks, servers, throttling rules, logging and configuration: input and output around the protocol; a throttle is a turn in which no chunk is taken.
- Parsing of ALTER statements: the ghost's column list is taken as given.
- TRUNCATE, unchanged TOAST values, nullable keys, further unique constraints on the ghost and truncation of long names: excluded by assumption.
- Delivery through the panic channel, and shutdown of the goroutines: no guarantee is claimed. After the executor has stopped, the others may stop at any time or go on up to the swap.
- SQL at large: the readers accept exactly the forms the builders write, and a statement on another relation is refused. An update that moves keys is refused when the table it leaves has two rows of one key.
- A transaction of several changes is a run of single commits in the state machine; it adds interleavings, never removes one.
