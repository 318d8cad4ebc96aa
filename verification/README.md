# Verified models of the KPM output path, the trigger protocols and the receiver evidence chain

This project models three parts of the system and proves properties of the models.

**The collector's output path.** Rows of a KPM indication are shape-checked and turned into
records (`KpmCallback`), mapped to canonical records (`KpmAdapter`; `KpmMeaning` says what they show
of the source structs), validated (`CanonicalRecord`, `Utf8`), pushed through a bounded ring under a
try-lock and drained by one worker (`OutputPipeline` for the locked regions, `PipelineRuns` for their
interleavings, `PipelineResults` for what every run guarantees, `PipelineErrors` for the error
counters), and printed as CSV and JSONL through a bounded buffer (`Serializer`, specified by `Json` and `Csv`) into files that may fail at every call
(`FileSink`). `ParquetConverter` is the consumer of the JSONL lines. The printers are checked
against readers written from RFC 8259 and RFC 4180, the string validator against section 4 of
RFC 3629.

**The one-shot trigger protocols.** `OneShotRuns` interleaves any number of legacy and
post-validation T2 processes on shared files; `PostvalTrigger` and `TriggerExecutor` are the two
places that write the FIFO. `BindingRuns` interleaves any number of binding writers and readers;
`BindingSwaps` traces which file each reader consumed, and `BindingFiles` has the same operations run
alone. `Supervisor` is the bounded sequence and `SequenceRuns` composes it with its commands, the FIFO
and one reader; `SequenceBindings` shows that its runs are runs of `BindingRuns`. `TransactionChain`
is the record-by-record validator of the same idea.

**From receiver evidence to the stationarity decision.** `ReceiverEvidence` (capture and parser),
`Snapshot` (the concurrent reader of the two capture files), `ActuatorTimeline` (builder and both
loaders), `Canonicalizer`, `Stationarity` and `Freshness`; `EvidenceChain` joins them.
`Bytes`, `Decimals` and `Fifo` hold what several modules share.

Code that updates state is a class or a method with loops, proved against functions of the state;
interleavings are state machines whose steps are the atomic operations of the code (a locked
region, one atomic, one file operation), and theorems about runs hold for every legal sequence of
steps.

## Where the code does less than its documentation or neighbours expect

- `components/kpm-readonly-collector/docs/collector-03/output-backend-contract-prototype.md` says the CSV sink writes complete rows
  only. A short write or failed flush can leave a part of one record in the file, at once or at the
  close (`FileSink.ShortWriteTears`). `FileSink.CompleteRecordsOnly` is the exact condition on the closed
  file, `FileSink.FileAfterClose` its content, and `PipelineResults.ShutdownResult` says what a file holds
  in any case.
- A post-validation status can record attempt count 0 although the whole trigger line was written:
  when closing the FIFO raises after the write. `PostvalTrigger.RecordedAttempts` is the exact
  condition, `PostvalTrigger.CloseErrorHidesTheWrite` a run. The executor of the legacy path does not
  have this gap (`TriggerExecutor.Execute`).
- The C validator accepts a diagnostic without a message, the Parquet converter refuses it.
  `ParquetConverter.ConverterContract` shows that this is the only disagreement; the adapter always
  writes a message, so the chain as a whole holds (`ParquetConverter.IndicationsConvert`).
- A writer that fails after its exclusive create unlinks the binding by name. A reader between
  reading and linking can then consume another writer's binding and run the first one's ratio:
  `BindingRuns.CleanupCanSwapTheBinding`. `BindingSwaps.OtherRatioExactlyWhenSwapped` is the exact
  condition for each command: a removal and a new creation at its slot between its reader's open and
  link, ending in a file completed with another ratio. The command is run at most once either way, and
  in the composed sequence a swap never happens (`SequenceBindings.SequenceNeverSwaps`).
- The supervisor counts a trigger attempt before it starts the command. When the time budget is used up
  just then, or the program cannot be started, the count is one more than the triggers started:
  `Supervisor.Run.RunLive` states when.
- The scientific adjudication result is not a write-once field and is checked only at
  SCIENTIFICALLY_ADJUDICATED (`TransactionChain.AdjudicationUncheckedElsewhere`): an aborted chain that
  never triggered can be closed with VALID (`TransactionChain.AbortedChainIsAccepted`), and so can a
  clean chain that was adjudicated INVALID (`TransactionChain.ContradictedChainIsAccepted`). A closing
  record shows whether the clean path lies behind it (`TransactionChain.RecordShowsItsPath`); only with
  that path can the adjudication have been VALID, and even then no field of the closing record decides
  it (`TransactionChain.ClosingRecordDecidesNothing`). A closing VALID is right exactly when the
  SCIENTIFICALLY_ADJUDICATED record of the same chain says VALID.
- Capture and parser allow two lines with the same wall-clock time; the freshness gate refuses all rows
  then (`EvidenceChain.EqualWallTimesAreRefused`). `EvidenceChain.CanonicalRowsLoad` shows that this is
  the only way its row checks can fail on rows that come from the parser. The canonicaliser refuses
  parsed intervals exactly for a partial duration that is zero as a float
  (`EvidenceChain.VanishingPartialIsRefused`) or a loss above 100 percent
  (`EvidenceChain.ExcessLossIsRefused`): `EvidenceChain.ParserOutputCanonicalises`.

## Assumptions

- Mutex, condition-variable and thread calls succeed, atomics are sequentially consistent, and no
  submit is in progress when the pipeline object is freed. A waiting thread is modelled by the
  predicate it waits for.
- A finite double is identified with the text `%.17g` prints for it, a JSON number of at most 24
  bytes. Counters and times are unbounded integers; the 64-bit wrap-around of counters is not
  modelled, that of a builder's length is.
- SHA-256, UTF-8 decoding, the interval pattern, the conversion of decimals to floats and the JSON
  encoding of timestamp rows are arbitrary functions. Of the encoding only its round trip and its
  single line feed are used; of the conversion, in `EvidenceChain` only, that it keeps the order and
  returns whole microseconds of at most fifteen digits unchanged, and of the pattern that it has no
  sign.
  Decimals are exact reals.
- The conditional rules, patterns and bounds of the transaction schema
  (`datasets/schemas/sci-oran-prompt12r-experiment-transaction-v1.0.0.schema.json`) are part of what
  `TransactionChain` accepts, for the fields it has.
- What the system answers (stdio results, clocks, process exits, the progress of another process)
  is a parameter that may take any value.
- Bit operations of the C sources are stated as the arithmetic they perform.

## Model

| member | source | states |
|---|---|---|
| Utf8.BoundedStringValid | components/kpm-readonly-collector/src/canonical_serialize.c:120-177 | accepts a buffer exactly when a NUL occurs in it and the bytes before the NUL encode some sequence of Unicode scalar values |
| Utf8.ScanCharacter | components/kpm-readonly-collector/src/canonical_serialize.c:133-174 | one character: it advances exactly over the single scalar value the bytes start with, and refuses overlong forms, surrogates and values above 0x10FFFF |
| Utf8.WellFormedStep | components/kpm-readonly-collector/src/canonical_serialize.c:120-177 | a byte string is well formed exactly when its first character is a scalar value's encoding and the rest is well formed, which is why one forward scan decides it |
| Utf8.EncodeAllInjective | components/kpm-readonly-collector/src/canonical_serialize.c:120-177 | a byte string encodes at most one sequence of scalar values |
| CanonicalRecord.OptionalStringValid | components/kpm-readonly-collector/src/canonical_serialize.c:179-182 | an absent string is never examined |
| CanonicalRecord.ValidateDiagnostic | components/kpm-readonly-collector/src/canonical_serialize.c:327-350 | no reason is given exactly for diagnostics without pair indexes, descriptor or value, with a code, a diagnostic status and, for a length mismatch, unequal lengths |
| CanonicalRecord.ValidateMeasurement | components/kpm-readonly-collector/src/canonical_serialize.c:351-409 | no reason is given exactly for measurements with equal pair indexes, one descriptor of the announced type and exactly the value type and status ask for |
| CanonicalRecord.Validate | components/kpm-readonly-collector/src/canonical_serialize.c:269-411 | accepts exactly the records whose strings are terminated UTF-8 and whose kind-specific fields fit together |
| CanonicalRecord.ValidShows | components/kpm-readonly-collector/src/canonical_serialize.c:269-411 | what a reader of a valid record may rely on: its kind, indexes, exactly one descriptor and the value and status its type asks for, or a non-empty code and no value |
| CanonicalRecord.ValidIsPrintable | components/kpm-readonly-collector/src/canonical_serialize.c:269-411 | a valid record has a name for every enum it prints and no infinite or NaN real |
| CanonicalRecord.InterpretFields | components/kpm-readonly-collector/src/canonical_serialize.c:544-665 | the 28 printed fields determine every value and every presence flag of the record's view |
| Json.BodyRoundTrip | components/kpm-readonly-collector/src/canonical_serialize.c:667-712 | an RFC 8259 string reader undoes the escaping of any byte string and stops at the closing quote |
| Json.EscapeRoundTrip | components/kpm-readonly-collector/src/canonical_serialize.c:673-708 | each escape, short or six bytes, reads back as its one byte; bytes printed bare are neither quote, backslash nor control characters |
| Json.MembersRoundTrip | components/kpm-readonly-collector/src/canonical_serialize.c:714-722 | keys, colons and commas: the member list reads back as the 28 name-value pairs |
| Json.LineRoundTrip | components/kpm-readonly-collector/src/canonical_serialize.c:795-920 | an RFC 8259 reader recovers the 28 members of any line and stops after its line feed |
| Json.FieldKeysDistinct | components/kpm-readonly-collector/src/canonical_serialize.c:818-912 | no two members of a line have the same key |
| Json.RecordRoundTrip | components/kpm-readonly-collector/src/canonical_serialize.c:795-920 | reading a printable record's line gives back its view: every present field and every presence flag |
| Json.LinesDistinguishRecords | components/kpm-readonly-collector/src/canonical_serialize.c:795-920 | records with different views print different lines |
| Json.FileRoundTrip | components/kpm-readonly-collector/src/canonical_serialize.c:795-920 | a concatenation of lines reads back as exactly the records, in order |
| Json.LineIsClean | components/kpm-readonly-collector/src/canonical_serialize.c:667-712 | the line of a valid record is well-formed UTF-8 and its only byte below 0x20 is the final line feed, so lines and records correspond one to one |
| Json.LineFitsRecordBuffer | components/kpm-readonly-collector/include/tcd_kpm_collector/file_sink.h:11 | even when every byte takes a six-byte escape the line of a valid record is shorter than the sink's 8192-byte buffer |
| Csv.QuotedRoundTrip | components/kpm-readonly-collector/src/canonical_serialize.c:440-454 | a quoted cell reads back as its bytes, whatever quotes, commas or line feeds it holds |
| Csv.RowRoundTrip | components/kpm-readonly-collector/src/canonical_serialize.c:544-665 | every row decodes to exactly 28 cells and the RFC 4180 reader stops after the row's own line feed |
| Csv.ScalarReadsBack | components/kpm-readonly-collector/src/canonical_serialize.c:461-519 | a present empty string and an absent field read back as different things |
| Csv.RecordRoundTrip | components/kpm-readonly-collector/src/canonical_serialize.c:544-665 | reading a printable record's row gives back its view |
| Csv.RowsRoundTrip | components/kpm-readonly-collector/src/canonical_serialize.c:544-665 | a concatenation of rows reads back as exactly the records, in order |
| Csv.HeaderRoundTrip | components/kpm-readonly-collector/src/canonical_serialize.c:521-543 | the header decodes to the 28 field names in order |
| Csv.RowFitsRecordBuffer | components/kpm-readonly-collector/include/tcd_kpm_collector/file_sink.h:11 | the row of a valid record is shorter than 8192 bytes too |
| Serializer.Builder.constructor | components/kpm-readonly-collector/src/canonical_serialize.c:16-25 | an empty builder over a destination, terminated when there is room |
| Serializer.Builder.CopyBytes | components/kpm-readonly-collector/src/canonical_serialize.c:35-42 | the memcpy writes exactly the leading bytes that fit behind the stored text and nothing else |
| Serializer.Builder.AppendBytes | components/kpm-readonly-collector/src/canonical_serialize.c:27-61 | refines appending to an unbounded text: the buffer keeps the longest prefix that fits and a NUL, length and overflow describe the unbounded text, saturating at SIZE_MAX |
| Serializer.Builder.StoredPrefix | components/kpm-readonly-collector/src/canonical_serialize.c:35-60 | copy and terminator together leave the longest prefix of the extended text |
| Serializer.Builder.AppendUnsigned | components/kpm-readonly-collector/src/canonical_serialize.c:68-92 | appends the decimal numeral; the 32-byte scratch buffer is always large enough |
| Serializer.Builder.AppendSigned | components/kpm-readonly-collector/src/canonical_serialize.c:94-107 | appends the signed decimal numeral |
| Serializer.Builder.AppendDouble | components/kpm-readonly-collector/src/canonical_serialize.c:109-118 | appends the text of a finite double |
| Bytes.NumeralLengths | components/kpm-readonly-collector/src/canonical_serialize.c:68-107 | a u32 prints in at most 10 bytes, a u64 or i64 in at most 20 |
| Bytes.SignedDecimalRoundTrip | components/kpm-readonly-collector/src/canonical_serialize.c:79-107 | a printed integer reads back as itself |
| Serializer.Builder.JsonAppendEscaped | components/kpm-readonly-collector/src/canonical_serialize.c:673-708 | the switch appends the escape of exactly this byte |
| Serializer.Builder.JsonAppendString | components/kpm-readonly-collector/src/canonical_serialize.c:667-712 | the loop appends the quoted escaped string, at any capacity |
| Serializer.Builder.CsvAppendString | components/kpm-readonly-collector/src/canonical_serialize.c:440-454 | the loop appends the quoted string with its quotes doubled, at any capacity |
| Serializer.BuilderResult | components/kpm-readonly-collector/src/canonical_serialize.c:429-438 | Ok exactly when text and terminator fit; the required length is the text's whatever the capacity |
| Serializer.SerializeCsvHeader | components/kpm-readonly-collector/src/canonical_serialize.c:531-543 | prints the header under the same contract as a record |
| Serializer.SerializeCsvRecord | components/kpm-readonly-collector/src/canonical_serialize.c:544-665 | an invalid record or a null destination is refused untouched; otherwise the required length is independent of the capacity, Ok means the row fits, and the buffer holds the longest prefix that fits and a NUL |
| Serializer.SerializeJsonlRecord | components/kpm-readonly-collector/src/canonical_serialize.c:795-920 | the same for the JSONL line |
| Serializer.JsonPrintedIsLine | components/kpm-readonly-collector/src/canonical_serialize.c:714-722 | printing key by key with a comma before every member but the first gives exactly the line |
| Serializer.CsvPrintedIsRow | components/kpm-readonly-collector/src/canonical_serialize.c:456-459 | printing cell by cell with separators gives exactly the row |
| FileSink.FileSink.Open | components/kpm-readonly-collector/src/file_sink.c:109-164 | opens exactly under the stated conditions; an open sink's file is the text of no records, and a failed open leaves no open sink |
| FileSink.FileSink.WriteData | components/kpm-readonly-collector/src/file_sink.c:39-57 | one fwrite and one fflush: a short write or a failed flush makes the sink failed, with any part of the bytes taken already in the file and the rest kept or lost |
| FileSink.FileSink.WriteRecord | components/kpm-readonly-collector/src/file_sink.c:166-211 | refuses when closed or failed, otherwise serialises through the 8192-byte buffer and writes |
| FileSink.FileSink.CloseStream | components/kpm-readonly-collector/src/file_sink.c:213-247 | flushes, closes, and reports Ok only for a sink that never failed |
| FileSink.Serialize | components/kpm-readonly-collector/src/file_sink.c:185-203 | only an invalid record fails to serialise: the buffer never is too small |
| FileSink.WriteTracks | components/kpm-readonly-collector/src/file_sink.c:39-57 | whatever stdio does, a sink that has not failed has exactly the text of its records on disk; a failed one wrote every record before the failing one, at most a part of that one, and nothing after it; Ok means the record is completely in the file |
| FileSink.CompleteRecordsOnly | components/kpm-readonly-collector/src/file_sink.c:39-57 | over any history of writes and a close, whatever stdio does, the file consists of complete records exactly when no byte or every byte of the first failing record, if there is one, reached it |
| FileSink.FileAfterClose | components/kpm-readonly-collector/src/file_sink.c:166-247 | the file after any write history and a close: the whole text when no write failed, otherwise the records before the first failure and exactly the bytes of the failing one that stdio moved by then |
| FileSink.ShortWriteTears | components/kpm-readonly-collector/src/file_sink.c:46-50 | for every valid record there are stdio outcomes under which a short write followed by a clean close leaves a torn record |
| FileSink.CloseTracks | components/kpm-readonly-collector/src/file_sink.c:213-247 | closing keeps a prefix with every reported record; Ok exactly when the sink never failed and both flush and close succeeded, and then the file is the whole text |
| FileSink.JsonlFileReadsBack | components/kpm-readonly-collector/src/file_sink.c:166-211 | a complete JSONL file reads back as exactly the records written, in order |
| FileSink.CsvFileReadsBack | components/kpm-readonly-collector/src/file_sink.c:141-161 | a complete CSV file is the header followed by rows that read back as the records |
| OutputPipeline.EnqueueAppends | components/kpm-readonly-collector/src/output_pipeline.c:547-551 | the array write and the modular tail append one record to the ring and keep tail = (head + count) mod N |
| OutputPipeline.DequeueTakesFirst | components/kpm-readonly-collector/src/output_pipeline.c:327-331 | the modular head takes the oldest record off the ring |
| OutputPipeline.Pipeline.constructor | components/kpm-readonly-collector/src/output_pipeline.c:408-420 | an empty ring and zero counters |
| OutputPipeline.Pipeline.OpenSinks | components/kpm-readonly-collector/src/output_pipeline.c:443-465 | true leaves every enabled sink open on an empty record list |
| OutputPipeline.Pipeline.EnqueueLocked | components/kpm-readonly-collector/src/output_pipeline.c:536-554 | the locked region of try_submit: refused exactly after stop or when full, otherwise one enqueue |
| OutputPipeline.Pipeline.TrySubmit | components/kpm-readonly-collector/src/output_pipeline.c:506-555 | true exactly for a valid record with the lock, before stop and with room; then one enqueue, otherwise one drop and the failed flag, and nothing else |
| OutputPipeline.Pipeline.TakeLocked | components/kpm-readonly-collector/src/output_pipeline.c:327-333 | the worker takes the oldest record and becomes busy |
| OutputPipeline.Pipeline.AccountIndicationLocked | components/kpm-readonly-collector/src/output_pipeline.c:158-167 | indication counters advance when the sequence number changes |
| OutputPipeline.Pipeline.AccountRecordLocked | components/kpm-readonly-collector/src/output_pipeline.c:154-190 | one record bucket, the rejected-row counters and the last receive time |
| OutputPipeline.Pipeline.AccountFileLocked | components/kpm-readonly-collector/src/output_pipeline.c:139-152 | ok or error with its reason, and the failed flag on error |
| OutputPipeline.Pipeline.AccountLocked | components/kpm-readonly-collector/src/output_pipeline.c:271-288 | the accounting region of process_record |
| OutputPipeline.Pipeline.ProcessRecord | components/kpm-readonly-collector/src/output_pipeline.c:256-291 | both writes outside the lock, then the accounting region and the snapshot |
| OutputPipeline.Pipeline.ComposeLocked | components/kpm-readonly-collector/src/output_pipeline.c:192-224 | a snapshot adds the drops to every enabled backend |
| OutputPipeline.Pipeline.PublishLocked | components/kpm-readonly-collector/src/output_pipeline.c:237-253 | the region after publishing a snapshot |
| OutputPipeline.Pipeline.FinishLocked | components/kpm-readonly-collector/src/output_pipeline.c:337-345 | the worker becomes idle |
| OutputPipeline.Pipeline.CloseCsv | components/kpm-readonly-collector/src/output_pipeline.c:693-707 | close and account for the CSV sink; only a clean close leaves the failed flag alone |
| OutputPipeline.Pipeline.CloseJsonl | components/kpm-readonly-collector/src/output_pipeline.c:709-723 | close and account for the JSONL sink |
| OutputPipeline.Pipeline.CloseAndDecide | components/kpm-readonly-collector/src/output_pipeline.c:693-753 | after the join: true exactly when nothing was dropped and nothing ever failed |
| PipelineRuns.QueueStep | components/kpm-readonly-collector/src/output_pipeline.c:298-347 | every step of every party keeps accepted = processed ++ in flight ++ ring, the tail equation and the busy and stop flags |
| PipelineRuns.CallsStep | components/kpm-readonly-collector/src/output_pipeline.c:515-534 | only valid records are ever accepted or waiting for the lock |
| PipelineRuns.DropStep | components/kpm-readonly-collector/src/output_pipeline.c:515-545 | every submit is accepted, dropped or still undecided; the failed flag says exactly that a drop was marked, an error was counted or the last snapshot failed |
| PipelineResults.BucketsPartition | components/kpm-readonly-collector/src/output_pipeline.c:169-186 | valid records fall into exactly one of the five buckets |
| PipelineResults.AccountCounts | components/kpm-readonly-collector/src/output_pipeline.c:154-190 | the accounting region keeps every bucket equal to the number of such records and the indication counters equal to the number of indications started |
| PipelineResults.BackendWrites | components/kpm-readonly-collector/src/output_pipeline.c:264-269 | a write keeps backend counters and file in agreement, its result pending |
| PipelineResults.BackendAccounts | components/kpm-readonly-collector/src/output_pipeline.c:277-288 | accounting a pending result keeps them in agreement |
| PipelineResults.BackendCloses | components/kpm-readonly-collector/src/output_pipeline.c:693-723 | a close is clean exactly when the backend has not counted a single error |
| PipelineErrors.EveryReasonIsCounted | components/kpm-readonly-collector/src/output_pipeline.c:119-152 | in every run the flush errors of each file backend are its writes and closes whose fflush failed, its close errors the failed fcloses after a good fflush, its write errors the short writes and all that was refused after a failure; the metrics reasons are those publishing failed for |
| PipelineErrors.ErrorsStep | components/kpm-readonly-collector/src/output_pipeline.c:139-152 | every step of every party keeps each reason counter equal to what stdio did so far |
| PipelineErrors.WriteResult | components/kpm-readonly-collector/src/file_sink.c:39-57 | what a write returns in terms of its stdio outcome |
| PipelineResults.EveryRun | components/kpm-readonly-collector/src/output_pipeline.c:298-347 | all invariants hold at every moment of every run of any number of submitters, the worker and shutdown |
| PipelineResults.AcceptedAreProcessedInFlightOrQueued | components/kpm-readonly-collector/src/output_pipeline.c:298-347 | at every moment the accepted records are those processed, the one in flight and those in the ring, oldest first, never more than the capacity queued |
| PipelineResults.NothingAcceptedAfterStop | components/kpm-readonly-collector/src/output_pipeline.c:536-545 | once stop is requested no continuation accepts another record |
| PipelineResults.JoinedMeansProcessed | components/kpm-readonly-collector/src/output_pipeline.c:686-691 | when the worker has exited every accepted record was processed exactly once, in order |
| PipelineResults.ShutdownResult | components/kpm-readonly-collector/src/output_pipeline.c:661-754 | true exactly when nothing was dropped, no error was counted and the last snapshot was published, and then each enabled file is the complete text; in any case each file holds every record counted as written, at most part of one more, and nothing else |
| PipelineResults.SuccessfulFilesReadBack | components/kpm-readonly-collector/src/output_pipeline.c:661-754 | after a shutdown that answered true the files read back as every record ever submitted, in order |
| PipelineResults.IdleMeansAccounted | components/kpm-readonly-collector/src/output_pipeline.c:590-625 | when wait_idle returns true everything accepted is processed, each file backend's ok + error and the five buckets add up to the number accepted, and the buckets are the per-kind counts |
| PipelineResults.SnapshotCountsEverySubmit | components/kpm-readonly-collector/src/output_pipeline.c:192-224 | idle and with no call in progress, accepted + dropped = submits and each backend's published ok + error is the number of submits |
| PipelineResults.SnapshotAtAnyTime | components/kpm-readonly-collector/src/output_pipeline.c:192-224 | in any snapshot the queue depth is what nobody has taken, and every error of an open backend has a reason, a drop counting as a write error |
| PipelineResults.WorkerDrains | components/kpm-readonly-collector/src/output_pipeline.c:310-325 | after stop every worker step brings its exit closer and no other step moves it away |
| PipelineResults.WorkerHasAStep | components/kpm-readonly-collector/src/output_pipeline.c:298-347 | after stop the worker always has a step until it exits |
| PipelineResults.CollectorQueue | components/kpm-readonly-collector/include/tcd_kpm_collector/output_pipeline.h:15 | with the collector's 64 slots at most 65 accepted records are unprocessed |
| KpmCallback.NothingTruncated | components/kpm-readonly-collector/src/kpm_callback.c:315-418 | the records of a message number one per value of every sound row plus one diagnostic per other row |
| KpmCallback.RowRecordsAre | components/kpm-readonly-collector/src/kpm_callback.c:287-419 | a sound row gives one record per value, in order, with equal metadata and record indexes, and the value, descriptor, UE identifiers, flags and lengths of the source structs and the status they ask for; any other row gives one diagnostic, a length mismatch exactly for two sound lists of different lengths |
| KpmCallback.ValueCopied | components/kpm-readonly-collector/src/kpm_callback.c:176-215 | a value is copied whole: the integer, the real, no value or unknown, and only an unknown type is unsupported |
| KpmCallback.DescriptorCopied | components/kpm-readonly-collector/src/kpm_callback.c:113-174 | an identifier is copied whole, of a name at most 255 bytes with its length and a truncation flag; a null name with a length and an unknown type are unsupported |
| KpmCallback.UeCopied | components/kpm-readonly-collector/src/kpm_callback.c:44-111 | the UE identifiers of each kind are those of the source struct, the first F1AP identifier of a gNB if there is one |
| KpmCallback.RecordPosition | components/kpm-readonly-collector/src/kpm_callback.c:309-418 | record j of row i comes after the records of the rows before it |
| KpmCallback.IndicationContents | components/kpm-readonly-collector/src/kpm_callback.c:669-720 | the records of an indication are those of its one message without UE and report index, of each report in order with its index and UE, or one record that says the format is unknown |
| KpmCallback.MissingListsAre | components/kpm-readonly-collector/src/kpm_callback.c:295-307 | the callback errors of an indication are exactly its lists that declare a length but are null |
| KpmCallback.CountersPartition | components/kpm-readonly-collector/src/kpm_callback.c:217-270 | the status counters partition the created records |
| KpmCallback.CallbackContext.Retain | components/kpm-readonly-collector/src/kpm_callback.c:217-285 | one record counted once and handed on |
| KpmCallback.CallbackContext.BuildRecord | components/kpm-readonly-collector/src/kpm_callback.c:370-414 | the record of one value, with the value, descriptor, UE identifiers and status of the source structs |
| KpmCallback.CallbackContext.ProcessValues | components/kpm-readonly-collector/src/kpm_callback.c:365-417 | hands on the records of one row, in order |
| KpmCallback.CallbackContext.ProcessFormat1 | components/kpm-readonly-collector/src/kpm_callback.c:287-419 | hands on the records of every row, in order; a missing row list is one callback error |
| KpmCallback.CallbackContext.ProcessReports | components/kpm-readonly-collector/src/kpm_callback.c:693-708 | the UE reports in order |
| KpmCallback.CallbackContext.ProcessMessage | components/kpm-readonly-collector/src/kpm_callback.c:669-720 | dispatch on the message format |
| KpmCallback.CallbackContext.OnIndication | components/kpm-readonly-collector/src/kpm_callback.c:599-732 | stamps the sequence number, hands on all records of the message, and requests stop at the configured maximum |
| KpmAdapter.IndicationRecordsBuilt | components/kpm-readonly-collector/src/kpm_callback.c:287-419 | what the adapter may rely on for every record of every indication |
| KpmAdapter.MeasurementCarries | components/kpm-readonly-collector/src/output_adapter.c:172-247 | the canonical record of a measurement carries its times, places, lengths, name or identifier and value, each in its own field |
| KpmAdapter.DiagnosticCarries | components/kpm-readonly-collector/src/output_adapter.c:129-170 | the canonical record of a diagnostic carries its places, lengths, mapped status, code and a message |
| KpmAdapter.UeValueDistinguishes | components/kpm-readonly-collector/src/output_adapter.c:84-127 | two UEs of one type that are printed alike have the same identifier |
| KpmAdapter.AdapterContract | components/kpm-readonly-collector/src/output_adapter.c:172-269 | a record of an indication becomes a valid canonical record exactly when its name, up to a NUL and 255 bytes, is non-empty well-formed UTF-8 and its real is finite; diagnostics always do |
| KpmAdapter.ShortNamesPass | components/kpm-readonly-collector/src/kpm_callback.c:133-162 | a non-empty NUL-free UTF-8 name of at most 255 bytes is copied whole |
| KpmAdapter.LongNamesAreCut | components/kpm-readonly-collector/src/kpm_callback.c:146-162 | a longer name is cut after 255 bytes and flagged, its length kept |
| KpmAdapter.NodeIdIsGood | components/kpm-readonly-collector/src/flexric_discovery.c:61-102 | the printed node identifier always fits its buffer and is well-formed UTF-8 |
| KpmAdapter.Submit | components/kpm-readonly-collector/src/output_adapter.c:282-306 | fills the canonical record and submits it |
| KpmMeaning.ValueIsShown | components/kpm-readonly-collector/src/output_adapter.c:129-306 | the canonical record of every value of a sound row shows the times, places, lengths and UE of its row, and its own value and descriptor when UE, descriptor and value are supported; otherwise it is a diagnostic with the code of the first that is not |
| KpmMeaning.RejectedIsShown | components/kpm-readonly-collector/src/output_adapter.c:249-280 | the one record of any other row is a diagnostic: length_mismatch exactly for two sound lists of different lengths, else invalid_input |
| KpmMeaning.UnknownFormatIsShown | components/kpm-readonly-collector/src/output_adapter.c:150-170 | the record of an unknown message format is an invalid_input diagnostic with code unknown_message_format |
| KpmMeaning.IntegerReachesTheLine | components/kpm-readonly-collector/src/output_adapter.c:237-240 | end to end: the integer of the indication is the integer an RFC 8259 reader finds on its line |
| ParquetConverter.PrintedPairs | components/kpm-readonly-collector/tools/parquet/jsonl_to_parquet.py:63-69 | a printed line has no duplicate key, exactly the catalogue's keys, and one possible row |
| ParquetConverter.ScalarsAccepted | components/kpm-readonly-collector/tools/parquet/jsonl_to_parquet.py:120-155 | every field of a printable record has the catalogue's type and nullability, a real being a finite double |
| ParquetConverter.SemanticsOfView | components/kpm-readonly-collector/tools/parquet/jsonl_to_parquet.py:163-222 | the semantic checks on the decoded row, in terms of the record's view |
| ParquetConverter.LineAccepted | components/kpm-readonly-collector/tools/parquet/jsonl_to_parquet.py:225-262 | the whole line check in terms of the record's view |
| ParquetConverter.ConverterContract | components/kpm-readonly-collector/tools/parquet/jsonl_to_parquet.py:163-222 | of the records the C validator accepts, the converter refuses exactly the diagnostics without a message |
| ParquetConverter.SilentDiagnosticIsRefused | components/kpm-readonly-collector/tools/parquet/jsonl_to_parquet.py:186-186 | a concrete record that the C side writes and the converter refuses |
| ParquetConverter.IndicationsConvert | components/kpm-readonly-collector/tools/parquet/jsonl_to_parquet.py:225-262 | end to end: every admissible record of any indication is written as a line the converter accepts |
| OneShotRuns.OneDispatchPerRunAndOperation | scripts/experiment-harness/prompt12-t2-critical-section.py:153-190 | over any number of processes of both kinds, interleaved and crashing anywhere, at most one dispatch per run directory and per operation id under one claim root, by the creator of the intent and of the claim |
| OneShotRuns.OneWritePerRunAndOperation | scripts/experiment-harness/prompt12-t2-postval-fast-trigger.py:151-177 | at most one write call on the FIFO per run directory and per operation id under one claim root, by the dispatching process or the executor it started |
| OneShotRuns.Step | scripts/experiment-harness/prompt12-t2-critical-section.py:120-190 | every step keeps: past a claim means having created it, dispatched means both claims made, written means dispatched, nothing twice |
| PostvalTrigger.FifoOnce | scripts/experiment-harness/prompt12-t2-postval-fast-trigger.py:213-243 | writes exactly when the FIFO, the token and the 0 to 800 ms freshness check at the write allow it, once |
| PostvalTrigger.Live | scripts/experiment-harness/prompt12-t2-postval-fast-trigger.py:246-277 | the status the finally block records, and the one write |
| PostvalTrigger.RecordedAttempts | scripts/experiment-harness/prompt12-t2-postval-fast-trigger.py:246-277 | the recorded count is 0 exactly when no write was made or closing raised after it, 1 exactly for a whole write, unknown exactly otherwise; control executed and a pass are recorded exactly for a whole write completed within 800 ms of the sample, unknown without replay exactly for one completed outside it |
| PostvalTrigger.NoSampleNoDispatch | scripts/experiment-harness/prompt12-t2-postval-fast-trigger.py:256-277 | without a sample nothing is dispatched, and the record says so |
| PostvalTrigger.CloseErrorHidesTheWrite | scripts/experiment-harness/prompt12-t2-postval-fast-trigger.py:238-243 | a concrete run that writes the whole trigger line and records no attempt |
| TriggerExecutor.Gates | scripts/experiment-harness/prompt12-precontrol-trigger-executor.py:165-497 | admits exactly when every gate holds, which is exactly when no exit code has anything to report, and a refusal's code names a check that failed |
| TriggerExecutor.Execute | scripts/experiment-harness/prompt12-precontrol-trigger-executor.py:135-648 | one write at most, exactly in FIFO mode with all gates passed and the FIFO open; the report, its gate and counts and the exit code are exact in every case, a pass of a no-control run included |
| Fifo.FifoFile.Write | scripts/experiment-harness/prompt12-t2-postval-fast-trigger.py:230-231 | one os.write |
| BindingFiles.WriteExclusive | scripts/experiment-harness/prompt12-pretrigger-ratio-binding-writer.py:95-132 | never touches an existing name, writes the whole payload however short the writes, and removes the name again on any later failure |
| BindingFiles.ReaderLoop.Consume | scripts/experiment-harness/prompt12-production-local-fifo-reader.py:288-319 | link then unlink, with the uncertain outcomes |
| BindingFiles.ReaderLoop.HandleToken | scripts/experiment-harness/prompt12-production-local-fifo-reader.py:400-477 | a command is started exactly when the next binding is present, unconsumed, valid and consumed with certainty, with its ratio; only success moves on |
| BindingRuns.Step | scripts/experiment-harness/prompt12-production-local-fifo-reader.py:288-319 | every step keeps: linked means having created the consumed name, executed means linked, bindings held are complete files for this transition |
| BindingRuns.AtMostOneCommandPerTransition | scripts/experiment-harness/prompt12-production-local-fifo-reader.py:288-319 | any readers and writers, any interleaving and stops: each transition's command is started at most once, only by the reader whose link created the consumed name, with an allowed ratio |
| BindingRuns.ConsecutiveTransitions | scripts/experiment-harness/prompt12-production-local-fifo-reader.py:373-477 | each reader runs consecutive transitions from its initial one |
| BindingRuns.BindingIdsDiffer | scripts/experiment-harness/prompt12-production-local-fifo-reader.py:213-223 | no reader starts commands for two bindings with the same id |
| BindingRuns.RatioIsTheConsumedBindings | scripts/experiment-harness/prompt12-production-local-fifo-reader.py:426-468 | while no writer fails after its create, the binding consumed is complete, is one for that transition and has the ratio run; BindingSwaps has the exact condition |
| BindingRuns.CleanupCanSwapTheBinding | scripts/experiment-harness/prompt12-pretrigger-ratio-binding-writer.py:118-127 | a run in which a writer's cleanup lets a reader consume one binding and run the ratio of another |
| BindingSwaps.OtherRatioExactlyWhenSwapped | scripts/experiment-harness/prompt12-pretrigger-ratio-binding-writer.py:118-127 | for every run and every command in it: the consumed binding has another ratio than the one run exactly when, between that reader's open and link, a failed writer removed the slot's name, the slot was created again, last as some file n, and n is completed with another ratio |
| BindingSwaps.SameRatioExactlyWhenHarmless | scripts/experiment-harness/prompt12-production-local-fifo-reader.py:426-468 | and the consumed binding is complete with the ratio run exactly when every such swap ends in a file completed with that ratio |
| BindingSwaps.CommandHistory | scripts/experiment-harness/prompt12-production-local-fifo-reader.py:188-319 | the two moments are that reader's open of the file whose ratio was run and its link of the file now consumed, in this order |
| BindingSwaps.TraceStep | scripts/experiment-harness/prompt12-production-local-fifo-reader.py:188-319 | every step keeps: a slot's name is the file created there last; between open and link the slot holds the file opened, or one created after a removal since, or nothing after one |
| Supervisor.WaitForObservation | scripts/experiment-harness/prompt12-bounded-orchestration-supervisor.py:127-137 | the wait completes exactly when the target is within the phase limit and the budget covers it; the phase timeout occurs exactly for a target beyond the limit |
| Supervisor.StationarityGate | scripts/experiment-harness/prompt12-bounded-orchestration-supervisor.py:168-196 | passes after e extensions exactly when round e of three is the first not to answer no, has time and answers yes; each refusal is exact in the same way; no target is beyond the phase limit, so the phase timeout cannot occur |
| Supervisor.TimeForMeans | scripts/experiment-harness/prompt12-bounded-orchestration-supervisor.py:168-180 | a round has time exactly when 11 or 10 s, and 5 s more for each extension, are covered by what has passed and the budget |
| Supervisor.OneOutcome | scripts/experiment-harness/prompt12-bounded-orchestration-supervisor.py:168-196 | only one round can end a gate, and only with one result |
| Supervisor.TriggersAreGated | scripts/experiment-harness/prompt12-bounded-orchestration-supervisor.py:235-271 | in any prefix of the script every trigger directly follows its binding and a gate passed since the previous trigger, in order |
| Supervisor.StartedCounts | scripts/experiment-harness/prompt12-bounded-orchestration-supervisor.py:252-258 | in a prefix of the script a third of the events are started triggers, which is what attempts are compared with |
| Supervisor.Run.Gate | scripts/experiment-harness/prompt12-bounded-orchestration-supervisor.py:230-233 | a passed gate is the next event |
| Supervisor.Run.OneTransition | scripts/experiment-harness/prompt12-bounded-orchestration-supervisor.py:235-271 | one transition goes exactly as far as its events happen: live traffic and a binding command that succeeds, its marker and a trigger command that is started, a trigger that succeeds and a gate that passes; its failure is that of the first event that does not; attempts, started triggers and successes are related exactly |
| Supervisor.Run.RunLive | scripts/experiment-harness/prompt12-bounded-orchestration-supervisor.py:213-286 | a run does exactly the longest prefix of the script whose events happen in its environment, and fails for the first that does not; it passes if and only if all nineteen happen, the traffic still runs and the finalization succeeds; at most 141 s are observed |
| SequenceRuns.EveryRun | scripts/experiment-harness/prompt12-production-local-fifo-reader.py:400-477 | supervisor, commands, FIFO and reader composed: executed <= consumed <= tokens read <= tokens written <= bindings kept <= bindings written at all times, at most one binding is ever cleaned up, the reader never finds its binding missing, the executed ratios are a prefix of the plan, and what the supervisor did is a start of its script |
| SequenceRuns.EveryTriggerIsGated | scripts/experiment-harness/prompt12-bounded-orchestration-supervisor.py:235-271 | in every composed run each trigger directly follows its binding and a gate passed since the previous trigger |
| SequenceRuns.PlanPrefix | scripts/experiment-harness/prompt12-bounded-production-binding-builder.py:14-14 | the planned ratios |
| SequenceBindings.SequenceIsABindingRun | scripts/experiment-harness/prompt12-production-local-fifo-reader.py:288-319 | every run of the composed sequence is a run of the binding protocol with one reader and one writer for each binding: same names, same files, same place of the reader, same commands |
| SequenceBindings.StepSimulates | scripts/experiment-harness/prompt12-production-local-fifo-reader.py:288-319 | each step of the composed sequence is matched by the file operations behind it |
| SequenceBindings.SequenceNeverSwaps | scripts/experiment-harness/prompt12-pretrigger-ratio-binding-writer.py:118-127 | in a composed run, although a binding command may clean up, the binding consumed for each command has the ratio run |
| TransactionChain.ChainsAreShort | scripts/experiment-harness/prompt12r-validate-transaction-transition.py:31-86 | no accepted chain has more than fourteen records |
| TransactionChain.StatesAdvance | scripts/experiment-harness/prompt12r-validate-transaction-transition.py:31-86 | a rank rises at every step, so no state occurs twice |
| TransactionChain.FailureClassMeansFailureState | scripts/experiment-harness/prompt12r-validate-transaction-transition.py:452-483 | a failure class appears exactly when a failure state was visited |
| TransactionChain.TriggerValues | scripts/experiment-harness/prompt12r-validate-transaction-transition.py:493-544 | the trigger fields take three values: confirmed exactly after TRIGGERED_EXACTLY_ONCE, ambiguous exactly after PRESTEP_ADMITTED straight to INVALID_POSTTRIGGER |
| TransactionChain.TriggerChangesOnce | scripts/experiment-harness/prompt12r-validate-transaction-transition.py:493-544 | they change at most once and never revert |
| TransactionChain.WriteOnceHolds | scripts/experiment-harness/prompt12r-validate-transaction-transition.py:431-449 | the identity never changes and a write-once field keeps its value over any distance |
| TransactionChain.DecisionsAdvance | scripts/experiment-harness/prompt12r-validate-transaction-transition.py:578-606 | every decision is later than all before it, and each record names the state before it |
| TransactionChain.PrbStaysVerified | scripts/experiment-harness/prompt12r-validate-transaction-transition.py:324-337 | once verified the observed PRB state stays the required one |
| TransactionChain.ValidMeansConfirmed | scripts/experiment-harness/prompt12r-validate-transaction-transition.py:547-575 | VALID at SCIENTIFICALLY_ADJUDICATED means the last three states were TRIGGERED_EXACTLY_ONCE, APPLIED_VERIFIED, POSTSTEP_COMPLETE, one confirmed trigger and all evidence on record |
| TransactionChain.RecordShowsItsPath | scripts/experiment-harness/prompt12r-validate-transaction-transition.py:493-575 | a chain went through TRIGGERED_EXACTLY_ONCE, APPLIED_VERIFIED and POSTSTEP_COMPLETE and no failure state exactly when its record shows one of four states, the confirmed trigger and no failure class |
| TransactionChain.PathBehindAValid | scripts/experiment-harness/prompt12r-validate-transaction-transition.py:547-575 | the path behind a record that says VALID: for a SCIENTIFICALLY_ADJUDICATED record always the clean one, for a CLOSED or DESTROYED one exactly when the trigger is confirmed and the failure class is NONE |
| TransactionChain.AdjudicationUncheckedElsewhere | scripts/experiment-harness/prompt12r-validate-transaction-transition.py:547-575 | at any other state the adjudication result can be replaced by anything and the chain is still accepted |
| TransactionChain.ClosingSaysAnything | scripts/experiment-harness/prompt12r-validate-transaction-transition.py:547-575 | the result on a CLOSED or DESTROYED record can be replaced by anything: the chain is accepted, and adjudicated, just the same |
| TransactionChain.Readjudicated | scripts/experiment-harness/prompt12r-validate-transaction-transition.py:547-575 | the adjudication of an accepted chain can be replaced exactly by VALID or INVALID, and after INVALID_POSTTRIGGER only by INVALID |
| TransactionChain.ClosingRecordDecidesNothing | scripts/experiment-harness/prompt12r-validate-transaction-transition.py:547-575 | an accepted chain with this very CLOSED or DESTROYED record that was adjudicated VALID exists exactly when the record shows the clean path, and then one adjudicated INVALID exists as well |
| TransactionChain.ContradictedChainIsAccepted | scripts/experiment-harness/prompt12r-validate-transaction-transition.py:547-575 | a concrete chain of twelve records adjudicated INVALID whose closing record, with the confirmed trigger and no failure class, says VALID |
| TransactionChain.AbortedChainIsAccepted | scripts/experiment-harness/prompt12r-validate-transaction-transition.py:547-575 | a concrete chain that conforms to the schema, aborted and never triggered, whose closing record says VALID |
| ReceiverEvidence.Capture | scripts/experiment-harness/capture-iperf-receiver.py:91-134 | the loop produces the raw file and one row per line |
| ReceiverEvidence.OffsetsTile | scripts/experiment-harness/capture-iperf-receiver.py:102-117 | row i is exactly line i of the raw file, each row starts where the previous one ends, the last ends the file |
| ReceiverEvidence.RowRecords | scripts/experiment-harness/capture-iperf-receiver.py:102-117 | a row records the number, clocks, length, digest and text of its own line |
| ReceiverEvidence.ClassifyVerdicts | scripts/experiment-harness/parse-iperf-receiver.py:82-101 | complete means within a microsecond of 0.2 s, partial means positive and shorter; a recorded duration is within a microsecond of the real one |
| ReceiverEvidence.CheckRow | scripts/experiment-harness/parse-iperf-receiver.py:184-229 | one pass of the loop accepts a row exactly when its offsets, length, digest, text, clocks and sequence number fit |
| ReceiverEvidence.Parse | scripts/experiment-harness/parse-iperf-receiver.py:156-251 | succeeds exactly when every row passes every integrity check and every number of an interval line converts to a finite float or an int, and then gives the intervals in order |
| ReceiverEvidence.ParsedIsIntact | scripts/experiment-harness/parse-iperf-receiver.py:184-229 | a parse succeeds if and only if all numbers convert and every row has the digest, text and length of the bytes at its offset, the next sequence number and clocks in order |
| ReceiverEvidence.SliceIsSound | scripts/experiment-harness/parse-iperf-receiver.py:187-229 | any consecutive rows with raw bytes that begin with their lines pass every check at rebased offsets |
| ReceiverEvidence.SuffixParses | scripts/experiment-harness/parse-iperf-receiver.py:190-205 | parsing any suffix of a capture passes every check, succeeds whenever the full parse does, and gives the matching suffix of the full parse |
| Snapshot.FilesGrow | scripts/experiment-harness/capture-iperf-receiver.py:102-132 | both files only grow |
| Snapshot.WholeLines | scripts/experiment-harness/capture-iperf-receiver.py:102-132 | when both files end in a line feed at one moment they hold k complete rows and k or k+1 lines |
| Snapshot.StablePairSnapshot | scripts/experiment-harness/prompt12-bounded-stationarity-command.py:153-195 | what is accepted is the content of both files at one single moment, both ending in a line feed, with sizes that were the same over the stability time; a quiet pair of files never times out |
| Snapshot.AcceptedSnapshotParses | scripts/experiment-harness/prompt12-bounded-stationarity-command.py:153-195 | however capture and snapshot interleave, an accepted pair passes every check of the parser, which then yields the first k rows unless a number in one of their lines does not convert |
| ActuatorTimeline.BuildEvents | scripts/experiment-harness/build-actuator-timeline.py:252-394 | returns events exactly when the counts agree and every control is sound, three per control in order |
| ActuatorTimeline.EventsSay | scripts/experiment-harness/build-actuator-timeline.py:355-392 | the three events of each control carry its ratio, that share of 52 PRBs and a PASS, at the times of its three log lines |
| ActuatorTimeline.LoadActuatorTimeline | scripts/experiment-harness/canonicalize-iperf-receiver.py:167-318 | the applied times exactly for an accepted timeline |
| ActuatorTimeline.RowsPass | scripts/experiment-harness/canonicalize-iperf-receiver.py:203-233 | identity, unique record ids and strictly increasing times |
| ActuatorTimeline.LoadPostT0 | scripts/experiment-harness/evaluate-output-stationarity.py:213-303 | the applied time of one control, exactly under its conditions |
| ActuatorTimeline.BuiltTimelineLoads | scripts/experiment-harness/canonicalize-iperf-receiver.py:167-318 | every list built for one to six controls is accepted, recovering exactly the applied-readback times |
| ActuatorTimeline.AcceptedTimelineHasT0 | scripts/experiment-harness/evaluate-output-stationarity.py:213-303 | an accepted timeline of at most eighteen events meets the evaluator's conditions at every control index, with the same applied time, distinct ids and the PRBs of each ratio |
| ActuatorTimeline.FirstControlsArePrefix | scripts/experiment-harness/build-actuator-timeline.py:278-392 | the list for the first k controls is a prefix of the full list |
| Canonicalizer.CrossingsAreInjective | scripts/experiment-harness/canonicalize-iperf-receiver.py:354-388 | crossing rows that do not overlap cross different applied events |
| Canonicalizer.Canonicalize | scripts/experiment-harness/canonicalize-iperf-receiver.py:463-576 | succeeds exactly when the order holds and every row is classified and meets the number rules of the iperfInterval schema, and keeps the rows in order |
| Canonicalizer.ClassesAre | scripts/experiment-harness/canonicalize-iperf-receiver.py:126-388 | the classes in numbers: when a row has one at all, and that complete means behind the guard with no applied time inside, crossing the same with one inside |
| EvidenceChain.OutputRises | scripts/experiment-harness/parse-iperf-receiver.py:184-247 | what a sound pair parses to rises in sequence number and monotonic clock and never falls in wall clock |
| EvidenceChain.ParsedIntervalPasses | scripts/experiment-harness/canonicalize-iperf-receiver.py:126-164 | base_interval_class accepts every parsed interval but a partial one whose duration rounds to zero; a complete one lasts 0.2 s exactly |
| EvidenceChain.ParserOutputCanonicalises | scripts/experiment-harness/canonicalize-iperf-receiver.py:463-576 | without a timeline the canonicaliser accepts the output of every successful parse exactly when no partial duration rounds to zero and no loss exceeds 100 percent; its order checks never fail |
| EvidenceChain.ExcessLossIsRefused | scripts/experiment-harness/canonicalize-iperf-receiver.py:562-571 | a parsed complete interval with a loss of 150 percent has a class and is refused by the schema of canonical rows |
| EvidenceChain.VanishingPartialIsRefused | scripts/experiment-harness/canonicalize-iperf-receiver.py:137-146 | a parsed partial interval whose duration is zero as a float is refused by base_interval_class |
| EvidenceChain.CanonicalRowsLoad | scripts/experiment-harness/prompt12-precontrol-freshness.py:175-200 | canonical rows made from a parse rise, so the evaluator's loader takes any selection of them; the gate's own loader takes them exactly when no two successive intervals have the same wall-clock time |
| EvidenceChain.EqualWallTimesAreRefused | scripts/experiment-harness/prompt12-precontrol-freshness.py:175-183 | two successive intervals that arrive at one wall-clock time pass capture, parser and canonicaliser and are refused by the gate |
| EvidenceChain.SnapshotReachesGate | scripts/experiment-harness/prompt12-bounded-stationarity-command.py:153-195 | from an accepted snapshot through parser and canonicaliser to rows the freshness gate can select from and the evaluator loads |
| Stationarity.LatestEligibleRun | scripts/experiment-harness/evaluate-output-stationarity.py:368-404 | the latest run, and an error exactly when an eligibility test raises |
| Stationarity.LatestRunIsLastBlock | scripts/experiment-harness/evaluate-output-stationarity.py:368-404 | that run is the last maximal block of consecutive eligible contiguous rows: maximal to the left, nothing eligible after it, empty only when nothing is eligible |
| Stationarity.LastBlockUnique | scripts/experiment-harness/evaluate-output-stationarity.py:368-404 | that description fits only one run of the rows |
| Stationarity.MeasureWindow | scripts/experiment-harness/evaluate-output-stationarity.py:407-500 | a window is measured exactly when its geometry holds and its mean is positive |
| Stationarity.Evaluate | scripts/experiment-harness/evaluate-output-stationarity.py:536-736 | the gates of the latest run's last two full windows, the shift against the first window's mean and the duration in numbers; it fails exactly for a row or window that cannot be measured |
| Stationarity.WindowsAreLast | scripts/experiment-harness/evaluate-output-stationarity.py:602-622 | the two windows are adjacent, 25 samples each, and less than one window of the run is left after them |
| Stationarity.WindowsAfterT0 | scripts/experiment-harness/evaluate-output-stationarity.py:337-350 | after a step both windows lie wholly after the transition origin |
| Stationarity.CvIsFivePercent | scripts/experiment-harness/evaluate-output-stationarity.py:480-486 | the gate on squares is the five-percent bound on the coefficient of variation of the population standard deviation |
| Stationarity.ShiftIsFivePercent | scripts/experiment-harness/evaluate-output-stationarity.py:632-654 | the shift gate is five percent of the first window's mean |
| Stationarity.MeasurableMeans | scripts/experiment-harness/evaluate-output-stationarity.py:407-500 | a window is measured exactly for 25 complete rows of 0.2 s, each beginning where the one before ends, over 5 s, to the microsecond, with a positive mean |
| Stationarity.EligibleMeans | scripts/experiment-harness/evaluate-output-stationarity.py:333-350 | a row is eligible exactly when it is complete, of 0.2 s, and after a step begins no earlier than the transition origin |
| Stationarity.VarianceIs | scripts/experiment-harness/evaluate-output-stationarity.py:471-478 | the variance is the mean of the squares less the square of the mean |
| Freshness.LoadRows | scripts/experiment-harness/prompt12-precontrol-freshness.py:141-201 | the complete rows within the cutoff, exactly when times increase and their durations are 0.2 s |
| Freshness.KeptAre | scripts/experiment-harness/prompt12-precontrol-freshness.py:185-199 | the rows kept are exactly the complete ones up to the cutoff |
| Freshness.ValidateWindow | scripts/experiment-harness/prompt12-precontrol-freshness.py:204-239 | 25 rows without gap spanning exactly 5 s |
| Freshness.Select | scripts/experiment-harness/prompt12-precontrol-freshness.py:295-322 | the latest 50 of the loaded rows, exactly when the rows load, there are 50, and both windows hold and are consecutive |
| Freshness.SelectionMeans | scripts/experiment-harness/prompt12-precontrol-freshness.py:295-322 | its checks hold exactly for 50 complete rows of 0.2 s without a gap, each half spanning 5 s |
| Freshness.SelectionIsOneRun | scripts/experiment-harness/prompt12-precontrol-freshness.py:295-322 | the selected rows are one eligible run of the evaluator with two windows of good geometry |
| Freshness.LoadIntervals | scripts/experiment-harness/evaluate-output-stationarity.py:145-210 | accepts exactly non-empty rows with distinct record ids, a wall clock that never goes back and a rising monotonic clock |
| Freshness.RisingSelectionLoads | scripts/experiment-harness/prompt12-precontrol-freshness.py:305-307 | the latest 50 of rows whose ids and clocks rise are always accepted by that loader |
| Freshness.EvaluateSelection | scripts/experiment-harness/prompt12-precontrol-freshness.py:396-523 | whenever the evaluator returns on the 50 rows the window-binding check passes; it raises exactly for rows its loader refuses and for a mean that is not positive |
| Freshness.ElevenSeconds | scripts/experiment-harness/evaluate-output-stationarity.py:662-670 | behind the startup guard and on the 0.2 s grid the eleven-second minimum holds |
| Freshness.SelectedAreBehindGuard | scripts/experiment-harness/canonicalize-iperf-receiver.py:161-164 | every canonical row classified complete ends behind the startup guard |
| Freshness.Admit | scripts/experiment-harness/prompt12-precontrol-freshness.py:502-580 | when it gives a verdict, exactly for loadable rows with positive means, that is exactly both variation gates, a second mean within five percent of the first, an end at 11 s or later and a sample that is neither too old nor from the future |

## Left out

- CanonicalRecord.Validate: which reason string a refused record gets is computed but not stated; callers only test for acceptance.
- TriggerExecutor.Gates: when several checks fail, which of their codes is reported is not stated, only that the reported one failed.
- Snapshot.StablePairSnapshot: the deadline is a bound on the passes of the loop, because how many passes fit depends on the clock.
- PipelineResults.WorkerDrains: the join is shown to return if the worker keeps being scheduled; fairness itself is assumed.
- The NULL-pointer arguments of the C entry points other than the destination buffer: Dafny values are never null.
- Closing a sink and the region that accounts for it are one step of `PipelineRuns`, as are publishing a snapshot and its region: nobody else uses the sink or the snapshot then.
- The two loads of the drop counter in one snapshot call are one value in `ComposeSnapshot`; the lemmas about snapshots hold for any such value.
- The raw type numbers, the truncation flag's later use, and the last-record copy kept under its own try-lock in the callback: nothing downstream reads them.
- Which destination fields of the callback and adapter structs keep padding or stale bytes: the structs are values here.
- Optional whitespace in the RFC 8259 reader and CR LF line breaks in the RFC 4180 reader: the printers emit neither.
- Asynchronous interrupts (KeyboardInterrupt) in the trigger processes.
- Power-loss durability: files survive process crashes here, fsync is only a call that may fail.
- The legacy process's stationarity and ratio children and the waiting for a sample are single steps that may fail.
- Symbolic-link, path and identity checks of the Python tools, their command-line plumbing, and their schema checks other than those of transaction records and of the numbers in canonical rows.
- Timestamp parsing from log lines in the timeline builder: a line has a time or it has none.
- The rounding of Decimal square roots and the textual form of reports.
- The Prometheus text format, config parsing, node discovery, the resource observer, the evidence adjudicators and the dry-run orchestrator are not modelled.
- In `SequenceRuns` a binding is written, and loaded, in one step each; `BindingRuns` has the single file operations.
- The rounding of Decimal arithmetic to 28 significant digits in the receiver parser.
