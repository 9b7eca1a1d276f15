# Sirius: a verified model of its query runtime and pin path

Sirius runs DuckDB queries on GPUs. This project models the parts of it where a mistake is
hardest to see by reading one function, and proves what they promise over every input, every
interleaving and every fault.

| file | what it models |
|---|---|
| `ExecutionWindow.dfy`, `ExecutionRuns.dfy`, `ExecutionOutcomes.dfy`, `ExecutionWork.dfy`, `ExecutionProgress.dfy`, `ExecutionWitness.dfy` | the execution-window protocol of `gpu_execution`: permit, nesting flag, active window, registration, cleanup with its backstop, the health latch and the decision to replay on the CPU |
| `UniqueProbe.dfy`, `ExactRetention.dfy`, `RetentionOrder.dfy`, `PinVerdicts.dfy`, `PinRetention.dfy` | the pin-time uniqueness proof: the cheap per-chunk probe and the byte-capped retention of column copies for the exact check |
| `SlabLayout.dfy` | the device pin's slab: aligned placement, fill, and the positional allocator of the re-read |
| `PinDrivers.dfy` | row-range validation of decoded chunks and the result lists of the three pin drivers |
| `BlockCopy.dfy` | copies into and out of a payload of fixed-size blocks, and the staging loop |
| `SqlRewrite.dfy`, `SqlCallText.dfy`, `SqlScanner.dfy` | the scanner that renames Sirius-owned `read_parquet` calls, against "lex, rename, print" and against a description on characters alone |
| `ObjectStoreScopes.dfy`, `ScopePublication.dfy` | the published object-store scopes: the ordered list, longest-prefix lookup, and copy-on-write publication under two mutexes |
| `Basics.dfy` | the option and byte types the other modules share |
| `CivilCalendar.dfy`, `TimestampText.dfy`, `DecimalDigits.dfy`, `DecimalText.dfy` | days to civil dates, and the text of timestamps, dates and decimals |

How the source is rendered:

- Concurrent protocols are step machines. A step runs one thread from one lock operation, blocking
  wait or shared access to the next, and every step that can throw may take a fault instead.
  Runs are arbitrary sequences of steps.
- Code that loops over buffers or updates fields is a method or a class, proved against functions
  on values; the theorems are about those functions.
- Clocks, devices, memory spaces and library calls answer through parameters (`Fate`, `Look`,
  `Attempt`, `fault`, ...), so a statement holds for every answer they can give.
- Integer widths appear where they matter: the truncating division and the unsigned wrap of the
  calendar, the unsigned magnitude of decimals, and the ranges in which no intermediate overflows.

Where the source and its comments disagree, the code is followed:

- A comment at `src/sirius_context.hpp:355` says a failed begin makes the runtime unavailable. The
  code latches only when the backstop cleanup fails or the failure is classified as fatal.
- A comment at `src/pin_table.cpp:414-415` says which columns keep their exact check does not depend
  on how the chunks interleave. `SurvivorsDependOnOrder` gives two batches for which it does;
  `LeadingColumnsStayIffTheyFit` gives the exact condition on the inputs for leading columns, which no
  order changes (`LeadingColumnsIgnoreOrder`), and `KeptColumnsIgnoreOrder` a condition for all of them.

The execution-window theorems assume what `src/sirius_context.hpp:131` states: a connection runs
one statement of its own at a time, so two constructors of one connection do not overlap.
`CheckSufficesIffSerialized` shows that the nesting check needs exactly that, and
`UnserializedWindowsOverlap` what happens without it.

## Model

| member | source | states |
|---|---|---|
| ExecutionWindow.StepLocalOk | src/sirius_context.cpp:753-908 | every step of a call, faulted or not, from constructor through body, cleanup and destructor to the replay decision, keeps what must hold at its program point |
| ExecutionWindow.ApplyKeepsInv | src/sirius_context.cpp:544-715 | any step of any call or worker, any latch and any gate shut after a fatal error keep the invariant of the whole runtime: tickets unique, one engaged window per connection, flags owned, every call where its program point says |
| ExecutionRuns.RunKeepsInv | src/sirius_context.cpp:725-908 | the invariant holds in every state of every run |
| ExecutionRuns.WindowsGiveBack | src/sirius_context.cpp:725-908 | once a window is over, however it ended, its permit was released exactly once if ever granted, its active entry is gone, and its connection flag is not its own any more |
| ExecutionRuns.NoTwoWindowsOnAConnection | src/sirius_context.cpp:753-830 | a connection with Sirius state never has two open windows |
| ExecutionRuns.LatchNeverClears | src/sirius_context.hpp:571-590 | neither latch is ever cleared, in any run |
| ExecutionRuns.LatchBeforePermit | src/sirius_context.cpp:819-894 | if mandatory cleanup failed, the health latch is set before that window's permit is released |
| ExecutionRuns.LateWindowsRegisterNothing | src/sirius_context.cpp:544-581 | a window whose health check comes after a latch never registers anything |
| ExecutionRuns.ReleasedInOrderAndQuiet | src/sirius_context.cpp:583-677 | query state is released in the order creator, repositories, scan state with keys, plan, registry entry, each at most once, only with the gate shut and all work drained |
| ExecutionRuns.ReleasedMeansClean | src/sirius_context.cpp:863-894 | a lease that reads released implies no keys, no registry entry, no scan state |
| ExecutionRuns.FailureLeavesLaterStepsUndone | src/sirius_context.cpp:625-715 | from the step at which cleanup throws, no later step releases anything of that query |
| ExecutionRuns.OtherQueriesUntouched | src/sirius_context.cpp:625-677 | a step of one call leaves every other query's state exactly as it was |
| ExecutionRuns.BorrowedPlansStayAlive | src/sirius_engine.cpp:141-308 | while anything may still use a query's plan, the registry retains it |
| ExecutionRuns.ReplayIsSafe | src/sirius_extension.cpp:552-707 | CPU replay starts only after a GPU failure that is no interrupt, with fallback on, counted once, and a judgement that the sources and the connection allowed, with no permit, window, keys or registration left, and with no Sirius-owned S3 call in the text |
| ExecutionRuns.ReplayExactlyWhenAllowed | src/sirius_extension.cpp:637-691 | every judgement of a failed call ends in the replay exactly when the failure is no interrupt, fallback is on, the sources allow it, the connection admits it and the text refers to no owned file; otherwise the call throws |
| ExecutionRuns.DecisionSeesNoHeldLease | src/sirius_extension.cpp:665-674 | every failure that reaches the replay decision was counted exactly once and never sees a lease still held |
| ExecutionOutcomes.BodiesHoldWhatTheyUse | src/sirius_context.cpp:753-830 | while its body executes a window holds an unreleased permit, its active entry, completion, registry entry, repositories and creator, has passed the health check, and owns the flag of its connection; a plan is retained before scans are prepared |
| ExecutionOutcomes.FaultFreeCallsSucceed | src/sirius_extension.cpp:571-637 | a call none of whose steps throws, on a connection without an open window and a runtime no latch has stopped, never throws, counts no failure and never reaches the replay decision |
| ExecutionOutcomes.ThrownCallsNeverComplete | src/sirius_extension.cpp:571-637 | a call that threw, other than in the engine teardown, never completes from there on |
| ExecutionOutcomes.FailuresHaveCauses | src/sirius_extension.cpp:610-635 | the failure a call reports is one it threw itself, a nested window it found, or a refusal by a runtime that a latch had stopped |
| ExecutionOutcomes.LatchesExactly | src/exec/query_lifecycle_registry.hpp:267-292 | over every run the fatal latch is up exactly when a fatal error was reported or came from elsewhere, and the health latch exactly when a cleanup or an engine teardown had failed or it was set elsewhere |
| ExecutionWork.WorkIsConserved | src/exec/query_lifecycle_registry.hpp:101-211 | in every run what is in flight for a registered query is exactly what its workers submitted, transferred and borrowed, less what they withdrew, settled and returned |
| ExecutionWork.FatalStopsRegistration | src/exec/query_lifecycle_registry.hpp:336-345 | once a fatal error is latched, a query that is not registered never is, in any run |
| ExecutionWork.QuietBeforeTheEnd | src/sirius_engine.cpp:141-311 | when a teardown follows a completed query, the engine lets go of its plan, or a window leaves after a best-effort retirement, and no fault cut that short, the gate is shut and no producer, submission or lease is left |
| ExecutionWork.RefusalsAndBeginFailures | src/sirius_extension.cpp:610-651 | a refused window reaches the replay decision, if at all, as unavailable; one whose begin failed never does, and its call throws |
| ExecutionProgress.Drives | src/sirius_context.cpp:753-908 | a call that holds a permit and waits for no work has a fault-free step, or the refusal of a late plan, that brings it closer to dropping the permit |
| ExecutionProgress.Drains | src/sirius_context.cpp:583-601 | what a retiring call waits for is a submission or lease of its own query that its workers can end |
| ExecutionProgress.PermitsComeBack | src/sirius_context.cpp:753-908 | from every state of every run a call that holds a permit can be driven to give it back, by such steps alone |
| ExecutionProgress.OwnStepLowers | src/sirius_context.cpp:753-908 | every step of a permit holder that can happen at all, faulted or not, lowers its rank or drops the permit |
| ExecutionProgress.PermitIsHeldForBoundedSteps | src/sirius_context.cpp:753-908 | in every run and under every schedule a call takes at most 53 steps of its own while it holds its permit |
| ExecutionWitness.ReplayIsReachable | src/sirius_extension.cpp:552-707 | some run opens a window, fails on the GPU, closes the window and starts the replay |
| ExecutionWitness.CheckSufficesIffSerialized | src/sirius_context.cpp:753-780 | passing the nesting check keeps a connection to one window exactly when the flag is up already or no other constructor of the connection is under way |
| ExecutionWitness.UnserializedWindowsOverlap | src/sirius_context.cpp:753-815 | without that, a run opens two windows on one connection |
| UniqueProbe.ObserveKeepsEvidence | src/late_mat/pin_uniqueness.cpp:210-335 | each observed chunk extends the evidence (one covering range per chunk, no repeat inside any) and a dropped column never becomes a candidate again |
| UniqueProbe.RunsOfSorted | src/late_mat/pin_uniqueness.cpp:313-326 | over sorted values the count of runs equals the length exactly when no value repeats |
| UniqueProbe.NeighboursApart | src/late_mat/pin_uniqueness.cpp:353-366 | proper ranges sorted by minimum whose neighbours are disjoint are disjoint pair by pair |
| UniqueProbe.NeighboursDecide | src/late_mat/pin_uniqueness.cpp:353-366 | the sorted neighbours are disjoint exactly when the ranges are, pair by pair |
| UniqueProbe.ProvenIsDistinct | src/late_mat/pin_uniqueness.cpp:337-368 | a column the cheap stage calls proven repeats no value in all chunks it was shown |
| ExactRetention.MakeRoomFrame | src/pin_table.cpp:416-423 | making room keeps the books; each column is unchanged or was emptied from above the one being served |
| ExactRetention.MakeRoomEvicts | src/pin_table.cpp:414-423 | eviction clears the highest column first, only a column that does not fit with all below it, and stops short of the cap only with nothing left above |
| ExactRetention.RetainFromKeeps | src/pin_table.cpp:398-456 | after a batch every column holds one chunk of every batch so far, in order, or nothing |
| ExactRetention.AbandonClears | src/pin_table.cpp:282-300 | abandoning gives back every chunk, reservation and byte, and declines nothing |
| ExactRetention.HandleBatchKeepsInv | src/pin_table.cpp:331-457 | one batch, with its decode retry, observation and retention or any of the abandon paths, keeps the books, whole columns and probe evidence |
| ExactRetention.RunKeepsInv | src/pin_table.cpp:274-456 | those hold after any run of batches |
| ExactRetention.RunBalances | src/pin_table.cpp:274-456 | total bytes equal the sum of the columns' and stay within the cap; each column has as many reservations as chunks; a column that holds anything holds one chunk of every batch |
| ExactRetention.FittingColumnsAreSpared | src/pin_table.cpp:398-456 | if the selected ones of columns 0..i over all batches fit in the cap, column i is never declined or evicted for the cap, whatever the batch order and whatever later columns hold |
| RetentionOrder.RetainingIffSteady | src/pin_table.cpp:331-388 | a pin still has its exact stage at the end exactly when some column is selected, every batch decodes at once with the right width on one device, and the rows fit in a cuDF column |
| RetentionOrder.UndeclinedIsJudged | src/late_mat/pin_uniqueness.cpp:210-335 | in such a pin a column not declined is a candidate exactly when it was selected and each of its chunks passes by itself, and then no copy of it was refused |
| RetentionOrder.FittingColumnKeptIff | src/pin_table.cpp:398-456 | a column that fits in the cap with the selected ones before it keeps its check exactly when the pin is steady, its chunks pass and its copies are not refused |
| RetentionOrder.LeadingColumnsStayIffTheyFit | src/pin_table.cpp:376-456 | the exact condition on the inputs: the selected ones among the first m columns all keep their check exactly when the pin is steady, they are sound, and their bytes over all batches fit in the cap |
| RetentionOrder.LeadingColumnsIgnoreOrder | src/pin_table.cpp:414-415 | whether the selected ones among the first m columns all keep their check is the same for every order of the batches, of any pin |
| RetentionOrder.FirstOverflowIsDeclined | src/pin_table.cpp:413-428 | in a steady pin the first selected column that does not fit is declined for the cap in every order, dropped by the probe afterwards or not, and the sound ones before it keep their check |
| RetentionOrder.KeptColumnsAre | src/pin_table.cpp:398-456 | when at most the last selected column overflows, behind sound ones, a column keeps its check exactly when the pin is steady, it is sound and it fits with those before it |
| RetentionOrder.KeptColumnsIgnoreOrder | src/pin_table.cpp:414-415 | in that case the whole set of kept columns is the same for every order of the batches |
| RetentionOrder.UnsoundColumnsMatter | src/pin_table.cpp:414-415 | two batches of two 64-bit columns of which only the second overflows, whose order decides its check because the first column holds a null |
| RetentionOrder.SumsOfPermutation | src/pin_table.cpp:387-413 | the bytes due and the rows do not depend on the order of the batches |
| RetentionOrder.SurvivorsDependOnOrder | src/pin_table.cpp:414-415 | two batches of a 64-bit and an 8-bit column of which one order keeps the check of the second column and the other does not |
| ExactRetention.ExactCountDecides | src/late_mat/pin_uniqueness.cpp:148-180 | the sort-and-count check answers true exactly when the chunks together repeat no value |
| ExactRetention.VerdictsSpeakForTheTable | src/pin_table.cpp:502-541 | a final `proven` means no value repeats in the whole table; a column left open by the cheap stage that the exact one can count is proven when no value repeats and refused when one does |
| PinVerdicts.ObserveFully | src/late_mat/pin_uniqueness.cpp:210-335 | after one look at a chunk: exactly who stays a candidate, when the column is left undecidable, and which range is noted |
| PinVerdicts.RunIsMarked | src/pin_table.cpp:282-300 | over every run the probe knows the exact stage of a column to be there exactly while the ledger keeps it |
| PinVerdicts.RunFinds | src/late_mat/pin_uniqueness.cpp:210-335 | over every run a selected column stays a candidate exactly when every batch has the right width, every chunk passes, and after the exact check was lost no chunk of an automatic column was unreadable or met an earlier span |
| PinVerdicts.CheapVerdict | src/late_mat/pin_uniqueness.cpp:337-368 | the cheap verdict from the inputs: proven exactly when no chunk is left open and all values of each chunk lie below or above all values of every other |
| PinVerdicts.ExactVerdict | src/pin_table.cpp:502-541 | a column left open whose check was kept and whose values can be counted is proven when no value repeats in the table and refused when one does; in every other case the cheap verdict stands |
| PinVerdicts.VerdictIsTheTables | src/pin_table.cpp:502-541 | over every run the final verdict on every column is the one its table calls for |
| PinVerdicts.FittingColumnsAreDecided | src/pin_table.cpp:398-541 | a column that fits in the cap with the selected ones before it, passes, is refused no copy and can be counted is decided, in a pin nothing makes give up |
| PinVerdicts.RunFailsIff | src/pin_table.cpp:331-348 | a pin fails exactly when a batch cannot be decoded at all, or only after giving back copies and no column holds any bytes |
| PinRetention.Retention.constructor | src/pin_table.cpp:274-291 | the fields start as the empty ledger over the selected columns |
| PinRetention.Retention.ReleaseColumn | src/pin_table.cpp:282-287 | the fields afterwards are the ledger with that column given back |
| PinRetention.Retention.AbandonExact | src/pin_table.cpp:292-300 | the loop leaves the fields as the abandoned ledger |
| PinRetention.Retention.EvictFor | src/pin_table.cpp:416-423 | the eviction loop leaves the fields as the ledger with room made |
| PinRetention.Retention.RetainOne | src/pin_table.cpp:398-455 | one column's retention, with every decline path, is the ledger's column step |
| PinRetention.Retention.Retain | src/pin_table.cpp:376-458 | the batch loop, or the abandon path taken instead, is the ledger's batch step |
| PinRetention.Retention.HandleOneBatch | src/pin_table.cpp:331-458 | decode with one retry, observe, retain; fails exactly when the ledger step does |
| PinRetention.Retention.Finish | src/pin_table.cpp:502-541 | every verdict is the one due from the state at the end of the batches (ExactVerdict says which that is), and a pin whose columns are whole ends with nothing held |
| PinRetention.ProbeWholePin | src/pin_table.cpp:274-544 | the whole loop fails exactly when a batch cannot be decoded; else each verdict is the one the table calls for, a proven column repeats no value in it, and a column that fits, passes and can be counted is proven or refused by whether a value repeats |
| SlabLayout.PlaceLeaves | src/pin_table.cpp:939-951 | the placement loop computes the offsets, slots and final cursor of the layout |
| SlabLayout.SlotsInOrder | src/pin_table.cpp:939-951 | slots name the leaves with a footprint, in order |
| SlabLayout.OwnSlot | src/pin_table.cpp:931-951 | a leaf with a footprint owns the slot numbered by such leaves before it |
| SlabLayout.SlicesApart | src/pin_table.cpp:927-954 | offsets are 256-aligned and increasing, slices are disjoint and end before the cursor |
| SlabLayout.SlicesTight | src/pin_table.cpp:942-951 | each slice starts at the first aligned byte after the one before, the first at 0 |
| SlabLayout.EndOfLast | src/pin_table.cpp:942-951 | the final cursor is the end of the last slice |
| SlabLayout.FillPayload | src/pin_table.cpp:952-971 | after zero fill and copies each slice holds its leaf's bytes, lies inside the payload, and every byte not copied is zero |
| SlabLayout.Slab.Bump | src/compression/device_compressed_blob.hpp:48-57 | the k-th allocation gets the k-th offset, the base once they are used up |
| SlabLayout.Reread | src/pin_table.cpp:972-990 | re-reading in order hands each allocating leaf the slot numbered by allocating leaves before it |
| SlabLayout.HandedOwnSlice | src/pin_table.cpp:931-951 | a leaf is handed its own slice exactly when no leaf with bytes but no footprint precedes it |
| SlabLayout.RereadMatchesLayout | src/pin_table.cpp:931-951 | every leaf is handed its own slice exactly when no leaf with bytes but no footprint precedes one that allocates |
| SlabLayout.StageBatch | src/pin_table.cpp:939-990 | laid out, filled and re-read, an allocating leaf with no such leaf before it gets an aligned slice of its footprint, inside the payload, that holds its bytes |
| PinDrivers.ValidateChunk | src/pin_table.cpp:128-152 | a chunk is accepted exactly when its row groups continue the rows so far without a gap and their rows are the rows decoded |
| PinDrivers.AcceptedIsPartition | src/pin_table.cpp:128-152 | a native pin is accepted exactly when all its row groups in order tile the rows from 0 and each chunk counts its own groups; the rows then sum to N |
| PinDrivers.RowInOneGroup | src/pin_table.cpp:128-152 | every row of such a tiling lies in one row group and no other |
| PinDrivers.PinTables | src/pin_table.cpp:696-725 | the plain driver succeeds exactly on accepted chunks, with parallel lists in batch order |
| PinDrivers.PinToHost | src/pin_table.cpp:727-843 | the host driver fails exactly when a chunk is rejected or an uncompressed copy cannot be made; else its lists are parallel, a chunk is compressed exactly when staging succeeded with no failure before it, and from a failure on none is |
| PinDrivers.PinToDevice | src/pin_table.cpp:864-1030 | the device driver fails exactly when a chunk is rejected or compression fails after the source is gone; else as for the host |
| PinDrivers.StatisticsLineUp | src/pin_table.cpp:766 | the statistics list is parallel to the chunks exactly when every batch has statistics, and empty exactly when none has |
| PinDrivers.StatisticsAt | src/pin_table.cpp:766 | what is kept, in order: the statistics of each batch that has some, behind those of the batches before it |
| BlockCopy.Payload.constructor | src/pin_table.cpp:793-796 | the allocated blocks are of one size and distinct |
| BlockCopy.Payload.CopyIn | src/compression/compressed_representation.cpp:36-60 | copying into the blocks equals one write at the offset of the flattened payload; all other bytes keep their value and no block past the last is touched |
| BlockCopy.Payload.CopyOut | src/compression/compressed_representation.cpp:62-86 | copying out returns the bytes at the offset of the flattened payload |
| BlockCopy.WriteInBlock | src/compression/compressed_representation.cpp:49-59 | overwriting part of one block overwrites exactly that part of the flattened payload |
| BlockCopy.Stage | src/pin_table.cpp:797-806 | the staging loop writes each buffer in order into the flattened payload |
| BlockCopy.StagedBuffersReadBack | src/pin_table.cpp:793-806 | after staging any number of disjoint buffers each is found unchanged at its offset and the rest of the payload is untouched |
| BlockCopy.StageAndReadBack | src/compression/compressed_representation.cpp:36-86 | buffers staged in a fresh payload and copied out again come back as they were |
| SqlRewrite.PrintLex | src/sirius_sql_rewrite.cpp:98-202 | printing the tokens of any query gives the query back |
| SqlRewrite.EncodedLiteralReadsBack | src/sirius_sql_rewrite.cpp:62-80 | a literal written with doubled quotes is closed where it ends and decodes to its value |
| SqlRewrite.CallAgrees | src/sirius_sql_rewrite.cpp:85-160 | the scanner's lookahead at a character agrees with the call found among the tokens |
| SqlRewrite.RewrittenLexes | src/sirius_sql_rewrite.cpp:98-202 | lexing the output gives the input's tokens with the owned names replaced |
| SqlRewrite.RewriteChangesOnlyOwnedNames | src/sirius_sql_rewrite.cpp:98-202 | token by token, only the names of owned calls change; comments, literals and quoted identifiers come out identical and in order |
| SqlRewrite.LexCut | src/sirius_sql_rewrite.cpp:98-202 | cut at any character, a text lexes into its tokens before the cut and those of the piece |
| SqlRewrite.StateOfTokens | src/sirius_sql_rewrite.cpp:103-160 | the flags up after a text are those its last token leaves up |
| SqlRewrite.StatesMatchEverywhere | src/sirius_sql_rewrite.cpp:98-202 | after every prefix of the query and the matching prefix of the output the same of the four flags are up, inside comments, literals, quoted names and renamed words too |
| SqlRewrite.InputPositionMatches | src/sirius_sql_rewrite.cpp:98-202 | every character position of the query has a matching one in the output |
| SqlRewrite.OutputPositionMatches | src/sirius_sql_rewrite.cpp:98-202 | every character position of the output has a matching one in the query |
| SqlRewrite.RewriteIdempotent | src/sirius_sql_rewrite.cpp:98-202 | rewriting a rewritten query changes nothing |
| SqlRewrite.RewrittenLength | src/sirius_sql_rewrite.cpp:98-202 | the output is seven characters longer for each owned call |
| SqlRewrite.ReferencesExactlyOwnedCalls | src/sirius_sql_rewrite.cpp:204-211 | the reference predicate holds exactly when some token begins an owned call |
| SqlCallText.OwnedCallIsSpelled | src/sirius_sql_rewrite.cpp:29-94 | the test of a call holds exactly of the texts that spell read_parquet in any capitalisation, blanks, a parenthesis, blanks and a closed literal whose value begins with s3:// in any capitalisation |
| SqlCallText.DecodedEncodes | src/sirius_sql_rewrite.cpp:62-80 | a closed quoted text is what encoding its decoded value gives, the quote that closes it, and a rest with no quote in front |
| SqlCallText.LineCommentLaw | src/sirius_sql_rewrite.cpp:111-160 | a line comment keeps its flag up to the first newline, and from there on the text counts as if it began there |
| SqlCallText.BlockCommentLaw | src/sirius_sql_rewrite.cpp:117-166 | a block comment keeps its flag up to the first closing mark, and from there on the text counts as if it began there |
| SqlCallText.QuotedLaw | src/sirius_sql_rewrite.cpp:128-178 | between quotes of either kind every value, its quotes doubled, keeps the flag up; the single quote behind it lowers it |
| SqlCallText.CallsAreTokens | src/sirius_sql_rewrite.cpp:98-202 | a call starts at a character exactly when a token begins there that is the unqualified name of an owned call |
| SqlCallText.RewriteIsSplice | src/sirius_sql_rewrite.cpp:98-202 | token by token or character by character, the rewritten query is the same text |
| SqlCallText.ReferencesExactlyCalls | src/sirius_sql_rewrite.cpp:204-211 | the reference predicate holds exactly when a call starts somewhere in the text |
| SqlCallText.EverySpellingIsRenamed | src/sirius_sql_rewrite.cpp:98-202 | every spelling of an owned call, in any capitalisation and with any blanks, is renamed |
| SqlScanner.SkipWhitespace | src/sirius_sql_rewrite.cpp:51-57 | skips only blanks, tabs, newlines, returns and vertical or form feeds, and stops at the first other character |
| SqlScanner.StartsWithFolded | src/sirius_sql_rewrite.cpp:40-49 | true exactly when each character of the prefix stands in the value as itself or as the same letter in the other case, 32 code points away |
| SqlScanner.ParseSingleQuotedLiteral | src/sirius_sql_rewrite.cpp:62-80 | returns a value and an end exactly when the text there is that value between quotes, its own quotes doubled, with no further quote behind |
| SqlScanner.ShouldRewriteReadParquetCall | src/sirius_sql_rewrite.cpp:85-94 | true exactly when blanks, a parenthesis, blanks and a literal follow whose value begins with s3:// in any capitalisation |
| SqlScanner.OwnedCallBeginsAt | src/sirius_sql_rewrite.cpp:180-195 | outside comments and quotes: true exactly when neither a word character nor a dot stands before the place and an owned call is spelled there |
| SqlScanner.RewriteSiriusOwnedRemoteParquetCalls | src/sirius_sql_rewrite.cpp:98-202 | the scanning loop computes "lex, rename owned calls, print", which is the query with sirius_read_parquet written at every place where a call starts and every other character copied; it ends with the flags of the whole query |
| SqlScanner.ReferencesSiriusOwnedS3Parquet | src/sirius_sql_rewrite.cpp:204-211 | true exactly when a call starts at some character of the query |
| ObjectStoreScopes.WithScopeEdits | src/sirius_ffi.cpp:479-491 | every edit leaves prefixes distinct and longest first, and changes the scope under its key alone |
| ObjectStoreScopes.ResolveScope | src/sirius_ffi.cpp:286-303 | returns the snapshot of the unique longest published prefix of the scheme-lowered URI, the default scope only when no other matches, refuses an unmatchable key, and returns nothing exactly when nothing matches |
| ObjectStoreScopes.AnswerIsUnique | src/sirius_ffi.cpp:286-303 | the right answer is unique and depends on what is published, not on the list |
| ObjectStoreScopes.EditsCommute | src/sirius_ffi.cpp:479-491 | puts and drops of different keys commute for every lookup |
| ScopePublication.NextKeepsInv | src/sirius_ffi.cpp:447-491 | every step of any writer or reader, with or without a failed allocation, keeps the invariant: edited cells are private, and the published set denotes the committed updates |
| ScopePublication.PublishedIsTheLog | src/sirius_ffi.cpp:447-491 | under every interleaving the published set denotes the committed updates applied in lock order, each successful call is committed exactly once and a failed one never |
| ScopePublication.CallsFailOnlyByFault | src/sirius_ffi.cpp:463-491 | in every run a put or drop fails only if an allocation failed on one of its own moves |
| ScopePublication.FaultlessCallsTakeEffect | src/sirius_ffi.cpp:463-491 | a call with no failing allocation never fails; once it has returned its update is in the log, and at the commit the published set held the put scope under its key, or nothing after a drop |
| ScopePublication.FaultedCallsChangeNothing | src/sirius_ffi.cpp:463-491 | a call whose allocation fails returns an error and nothing of it is ever committed |
| ScopePublication.EffectIsTheLastPut | src/sirius_ffi.cpp:478-491 | a key stands for a scope exactly when its last put in the log has that scope and no later update touches the key |
| ScopePublication.CapturedNeverChanges | src/sirius_ffi.cpp:452-456 | while a reader holds a captured set, the memory it points to stays what was captured, and that denotes the updates committed up to the capture |
| ScopePublication.HeldLookupServesTheCapture | src/sirius_ffi.cpp:286-303 | a lookup in a held set is served by the longest prefix whose last update committed before the capture was a put, whatever has been published since |
| ScopePublication.CaptureSeesEarlierUpdates | src/sirius_ffi.cpp:452-476 | a capture sees every update committed before it |
| ScopePublication.NeverStuck | src/sirius_ffi.cpp:441-476 | the two mutexes never deadlock: while a call is unfinished some call can move |
| ScopePublication.MovesAreProgress | src/sirius_ffi.cpp:441-476 | a move leaves its thread waiting for a lock or brings it nearer to its end, and moves no other |
| ScopePublication.CaptureOfAPutIsReachable | src/sirius_ffi.cpp:447-491 | some run publishes a put and a capture then holds exactly that scope |
| CivilCalendar.YearOfEraBrackets | src/debug_utils.cpp:249-251 | the year of era found is the one whose days contain the day of era |
| CivilCalendar.CivilFromDaysInverts | src/debug_utils.cpp:243-257 | every day maps to a valid date whose day number, counted year by year and month by month, is that day |
| CivilCalendar.DayNumberInverts | src/debug_utils.cpp:243-257 | every valid date comes back from its day number |
| CivilCalendar.CivilFromDaysIncreases | src/debug_utils.cpp:243-257 | later days are later dates, negative days included |
| CivilCalendar.NextDayIsSuccessor | src/debug_utils.cpp:243-257 | day d + 1 maps to the calendar day after day d's date |
| CivilCalendar.EpochIsDayZero | src/debug_utils.cpp:243-257 | day 0 is 1970-01-01 |
| TimestampText.StampRoundTrip | src/debug_utils.cpp:260-352 | every printed timestamp reads back to its value with all fields in range, before 1970 too |
| TimestampText.TextHasShape | src/debug_utils.cpp:260-352 | the text has at least four characters of year with no superfluous zero, two digits each of month and day, a time, and a trimmed fraction or none |
| TimestampText.StampIsUnique | src/debug_utils.cpp:260-352 | of all texts of that shape the printed one is the only one that reads back to the value |
| TimestampText.FractionAgrees | src/debug_utils.cpp:286-350 | a fraction has the same digits at every resolution once trailing zeros are gone |
| TimestampText.PrintFraction | src/debug_utils.cpp:288-295 | padding and popping zeros prints the fraction of the same number of nanoseconds: a point and at most nine digits, the last not zero, that read back to it |
| TimestampText.FormatTimestamp | src/debug_utils.cpp:260-352 | at each of the four resolutions the text is a date, a blank, eight characters of time, and a fraction only for a broken second, without trailing zeros; it reads back to the value, and no other text of that shape does |
| TimestampText.FormatDate | src/debug_utils.cpp:355-359 | the date printed for a day reads back to that day and is the only text of its shape that does |
| DecimalDigits.PaddedSplits | src/debug_utils.cpp:188-193 | padding to one digit more than the scale and cutting there splits the number into whole part and last digits |
| DecimalDigits.ReadParts | src/debug_utils.cpp:188-193 | whole part and last digits together read back as the number |
| DecimalDigits.PartsAreUnique | src/debug_utils.cpp:188-193 | a whole part without superfluous zeros and any last digits are those of the number they read as |
| DecimalText.FixedPointRoundTrip | src/debug_utils.cpp:180-228 | the text reads back to raw value and scale for every value |
| DecimalText.FixedPointIsUnique | src/debug_utils.cpp:180-228 | the printed text is the only one in normal form that reads back to raw value and scale |
| DecimalText.FixedPointShape | src/debug_utils.cpp:180-228 | exactly scale fraction digits, at least one integer digit, no superfluous leading zero |
| DecimalText.Magnitude | src/debug_utils.cpp:183-186 | the wrapping unsigned negation is the absolute value, at the type minimum too |
| DecimalText.PlacePoint | src/debug_utils.cpp:188-193 | the padding loop yields the padded digits with the point before the last scale of them |
| DecimalText.FormatDecimal | src/debug_utils.cpp:180-195 | the 32- and 64-bit printer prints the fixed-point text for every value of its type |
| DecimalText.PrintDigits | src/debug_utils.cpp:207-217 | the divide-and-reverse loop prints the decimal digits |
| DecimalText.FormatDecimal128 | src/debug_utils.cpp:199-228 | the 128-bit printer prints the same text, so the two agree wherever both apply |

## Left out

- Execution window: modelled as a step machine on values rather than as methods, because the interleaving of calls is the point; update in place and aliasing of the C++ objects are not captured.
- Execution window with a missing Sirius context: that path ends before any of the protocol.
- Internals of query admission, scan manager, task creator and completion handler: abstract steps that may wait or throw; tickets are unique and the latches are only ever set.
- CUDA, cuDF, rmm and Simpatico calls, streams and device guards: buffers are byte sequences, and whether a call succeeds is a parameter.
- ExecutionRuns.RunKeepsInv: covers the runs in which the constructors of one connection do not overlap, as the source demands of its callers; CheckSufficesIffSerialized gives the exact condition.
- RetentionOrder.KeptColumnsIgnoreOrder: says nothing about columns behind one that overflows or about a last column that overflows behind one that is not sound; there the outcome can depend on the batch order.
- The byte cap as a fraction of device memory goes through a double; the cap is a parameter.
- The thresholds in `compress_and_stage_batch` compare through a double; whether a batch is staged is a parameter.
- `align_up` by bit mask is modelled by its arithmetic meaning, and 64-bit overflow of summed sizes is not modelled.
- Zone-map statistics, narrowing of carriers and placement over devices: bookkeeping beside the modelled paths.
- `key_defeats_prefix_match` and `lowercase_scheme` are function parameters; validation of a configuration before it is published is not modelled.
- Destruction of retired scope sets and mutation of a shared configuration by its owner: sets hold snapshots by value.
- TimestampText.FormatTimestamp: requires that the subtraction before the floor division does not leave 64 bits and that the day and the shifted day fit 32 bits; outside that range the source's arithmetic is undefined.
- TimestampText.FormatTimestamp: one method with the unit as a parameter stands for the four functions, which differ only in their constants.
- The rest of the text output (tables, strings, floating point), configuration, planning, logging and the C API would only add easy members.
