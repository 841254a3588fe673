# KZ Global API: replay codec, writer, outbox

A model of how the KZ Global API module records runs, stores them and hands them to its server, with proofs.

**Codec.** A run is captured as a raw row-major stream (`.krpr`): a 256-byte header, then events, keyframes and XOR
deltas. For storage it is transposed into columns (`.krpz`, under zstd). `KrpFormat`, `KrpGrammar`, `KrpColumns` and
`KrpLayout` say what records, streams and columnar bodies are; `KrpMap`, `KrpBuild`, `KrpReaders` and `KrpReplay` are
the four loops of the codec with their cursors; `KrpSections` and `KrpCodec` prove them inverse to each other in both
directions and the columnar walk equal to a row-by-row decoder. zstd is a parameter that gives back what it compressed.

**Writer.** `WriterSpec` is the writer thread as a state machine over 33 player slots and the bytes of their files,
`WriterThread` the same as a class over the thread's static arrays, `WriterRuns` the proof that over every sequence of
signals, map changes and restarts each file decodes to exactly what was accepted for it, `WriterCounts` what the
checkpoint and gocheck counters miss, `WriterEffects` what a reader of files and headers finds after a signal, and
`RunNames` that finished runs have names of their own. `EndToEnd` composes writer, codec and outbox: what was recorded
is what is played, and what is published about it is what playback counts. `CaptureWitnesses` holds histories that end
badly.

**Outbox.** `RetryQueue` and `RetryBounds` are the in-memory retry queue, its in-place loops and what they guarantee
over any clock. `OutboxSpec` is the durable handoff as atomic steps over the queue, the two tables, the files, the
acknowledgements, the game and upload threads, the operator, and crashes; `Outbox` is the same as a class,
`OutboxSafety` the proof that no submitted run is silently lost, `OutboxEffects` what single steps leave behind,
`OutboxRetries` the retry bounds over every continuation of its histories, and `OutboxWitnesses` histories that end
badly.

**Below these.** `ReplayNames` (file names and base-36), `Ranking` (best replay and pruning), `LogMerge`, `Crc32`,
`UploadChunks`, and `Bytes` and `Options` for shared notions.

Results where the code is not what its documentation, tests or comments say, each with the exact condition and, where
it takes a history to get there, a lemma with that history:

- Playback refuses a capture whose first accepted record is an event, which the writer can produce: it only makes the
  first *frame* a keyframe. Condition: `EndToEnd.WhatWasRecordedIsPlayed`; history:
  `CaptureWitnesses.EventFirstIsRefused`.
- File-name order is rank order only for times below 100000000 ms; the documentation states it without a bound.
  Condition: `Ranking.NameOrderOfBetter`, and for pruning `Ranking.PruningGoesWrongExactly`; two files:
  `Ranking.LongRunsAreMisplaced`.
- `kz_replay_parse_uid` accepts every class digit (`ReplayNames.ParsePrinted`), while `test/replay_uid_test.cpp`
  expects the digit 2 to be refused.
- An ERROR answer without a message text deletes the row of a submission and leaves its run in neither table.
  Condition: `OutboxSafety.AnswersThatLoseARun`; history: `OutboxWitnesses.UnexplainedErrorLosesARun`.
- A rejected upload is sent again only if its run is not marked active, and the acknowledgement marks it. Condition:
  `OutboxSafety.RejectedUploadIsSentExactly`, with `OutboxSafety.ActiveUntilReleased` for how long the mark lasts;
  history: `OutboxWitnesses.RejectionThatDoesNothing`. The mark can go before the upload does:
  `OutboxWitnesses.QueuedIsNotAlwaysActive`, `OutboxWitnesses.UnmarkedIsSentAgain`.
- A reconnect makes pending uploads due but does not send the marked ones, where `docs/server-integration.md` says they
  are retried: the passes use their retries up unsent. Condition: `OutboxSafety.RetriedUploadIsSentExactly`, over
  continuations `OutboxSafety.PassesOfActiveRunsSendNothing` and `OutboxRetries.MarkedUploadIsGivenUp`; histories:
  `OutboxWitnesses.ReconnectThatSendsNothing`, `OutboxWitnesses.ReconnectThatGivesUp`.
- An accepted upload is sent again if a second retry entry of it is left and its files could not be moved: the cleanup
  stops at the first entry. Condition: `OutboxSafety.AcceptedUploadIsSentAgainExactly`; history:
  `OutboxWitnesses.AcceptedRunIsSentAgain`.
- A message is sent again up to `kz_api_retries_max` + 1 times, where `addons/amxmodx/configs/kz_global.cfg` calls the
  variable the maximum number of attempts. Exact number: `RetryBounds.SoleEntryAttempts`; history:
  `OutboxWitnesses.ReconnectThatGivesUp`.
- UNPAUSE resumes with wrong counters when events were accepted since the header was stamped, and the class digit is
  wrong when so every gocheck was forgotten. Conditions: `WriterCounts.UnpauseCountsExactly`,
  `WriterCounts.ClassDigitIsExact`; histories: `CaptureWitnesses.RejectedCaptureMiscounts`,
  `CaptureWitnesses.ForgottenGochecksMisclassify`.

`dafny verify dfyconfig.toml` checks the whole project.

## Model

| member | source | states |
|---|---|---|
| `KrpMap.MapSections` | src/kz_global_api/krp_format.cpp:24-119 | `map_sections` answers ok exactly for the bodies that some records with a leading keyframe transpose to (up to trailing bytes), and every error exactly in its case, in the order of the checks (`MapAnswer`); on ok the view describes the body |
| `KrpFormat.HeaderAnswers` | src/kz_global_api/krp_header_validate.cpp:8-29 | the answer to a header, byte by byte: truncated below 256 bytes, bad_magic unless it starts with the eight magic bytes in little-endian order, bad_version unless version 1 follows, ok otherwise |
| `KrpMap.CountRow` | src/kz_global_api/krp_format.cpp:82-95 | one mask row adds one to exactly the columns whose mask bit is set; bits 112 to 127 count nowhere |
| `KrpSections.ChecksAcceptExactlyTheImages` | src/kz_global_api/krp_format.cpp:24-119 | the validator's checks hold of a body if and only if it represents some record sequence, and then of only one |
| `KrpSections.CheckedBodyRepresents` | src/kz_global_api/krp_format.cpp:35-118 | a body that passes the checks is the transposition of the records read off its columns |
| `KrpSections.RepresentedBodyPasses` | src/kz_global_api/krp_format.cpp:35-118 | a transposed body with a leading keyframe passes every check |
| `KrpBuild.BuildKrpzBody` | src/kz_global_api/krp_format.cpp:121-228 | ok, truncated and corrupt_sections each if and only if the bytes after the header are whole records, end inside a record, reach an unknown type; on ok the output is the transposed body |
| `KrpGrammar.EncodeIsPrefixFree` | src/kz_global_api/krp_format.cpp:131-189 | no record's encoding is a prefix of another's: the first record of a stream is determined |
| `KrpGrammar.SplitIsUnique` | src/kz_global_api/krp_format.cpp:131-189 | a stream splits into records and a stuck rest in at most one way |
| `KrpGrammar.OutcomesExclude` | src/kz_global_api/krp_format.cpp:131-189 | no stream meets two of the three outcomes of parsing |
| `KrpGrammar.RecordsAreUnique` | src/kz_global_api/krp_format.cpp:131-189 | a whole stream has one sequence of records |
| `KrpColumns.UntransposeTranspose` | src/kz_global_api/krp_format.cpp:121-290 | rows to columns and back gives the same records |
| `KrpColumns.TransposeUntranspose` | src/kz_global_api/krp_format.cpp:121-290 | consistent columns to rows and back gives the same columns |
| `KrpReaders.BuildKrpr` | src/kz_global_api/krp_format.cpp:229-290 | on an accepted body the loop over the 112 cursors writes the raw capture of exactly the records the body represents, sizes zeroed |
| `KrpReaders.HeldRecords` | src/kz_global_api/krp_format.cpp:24-119 | an accepted body holds one sequence of records, which the readers' cursors run over |
| `KrpReaders.CursorEnds` | src/kz_global_api/krp_format.cpp:234-287 | everything is consumed exactly: each column cursor starts where its column starts and ends where the next begins, the event cursor ends where the body does, and the mask rows are used up |
| `KrpReaders.CursorInColumn` | src/kz_global_api/include/krp_codec.h:58-110 | between records each of the 112 cursors stays inside its own column |
| `KrpReaders.CursorReads` | src/kz_global_api/include/krp_codec.h:82-108 | every cell a set mask bit asks for lies in the cursor's column and is that record's value |
| `KrpReaders.EventReads` | src/kz_global_api/include/krp_codec.h:76-80 | the event cursor reads inside the events section, and reads that record's event id |
| `KrpReplay.ForEachRecord` | src/kz_global_api/include/krp_codec.h:53-116 | the column-cursor walk makes exactly the calls that replaying the represented records row by row makes, with their record indices |
| `KrpFormat.ReplayTells` | src/kz_global_api/include/krp_codec.h:53-116 | what is reported of record k has its index and its kind, and a frame is the one held after the records so far |
| `KrpCodec.ColumnReplayIsRowReplay` | src/kz_global_api/include/krp_codec.h:54-116 | refinement: the walk over columns equals the row decoder run over the rebuilt capture, also for keyframes with partial masks |
| `KrpCodec.RebuiltBody` | src/kz_global_api/krp_format.cpp:121-290 | converse round trip: rebuilding the capture of an accepted body and transposing it again gives the body's first `total` bytes |
| `KrpCodec.RebuiltCapture` | src/kz_global_api/krp_format.cpp:121-290 | transposing a capture and rebuilding it gives the same bytes with the four size fields zeroed, unused mask bits included |
| `KrpCodec.BuiltBodySections` | src/kz_global_api/krp_format.cpp:56-116 | on a built body the validator only answers ok or first_frame_not_keyframe, the latter exactly without a leading keyframe |
| `KrpCodec.Compress` | src/kz_global_api/krp_format.cpp:322-350 | which error `compress` gives is decided by header and grammar, and ok means zstd of the transposed body |
| `KrpCodec.Decompress` | src/kz_global_api/krp_format.cpp:352-369 | `decompress` answers zstd's error or what the validator answers to the body, and on ok rebuilds its capture |
| `KrpCodec.NeverAboveTheCap` | src/kz_global_api/krp_format.cpp:291-318 | a frame is decompressed if and only if its declared size is known, not 0 and at most 100 MiB, and zstd can; nothing is truncated but the empty input |
| `KrpCodec.Playback` | src/kz_global_api/kz_replay_pb.cpp:687-762 | playback answers zstd's error or what the validator answers to the body, and on ok makes the calls of the records in it |
| `KrpCodec.CompressionRoundTrip` | src/kz_global_api/krp_format.cpp:322-369 | decompress(compress(x)) succeeds if and only if x starts with a keyframe and is at most 100 MiB, is then x with its size fields zeroed, and otherwise answers first_frame_not_keyframe or, above the cap, a zstd error |
| `KrpCodec.CompressionPlaysBack` | src/kz_global_api/krp_format.cpp:322-350 | the compressed capture plays if and only if the same condition holds, with the same answers, and plays the capture's records |
| `Bytes.XorBitByBit` | src/kz_global_api/include/krp_codec.h:99-106 | each bit of the XOR of two bytes is set if and only if it is set in one of them |
| `Bytes.XorRestores` | src/kz_global_api/include/krp_codec.h:99-106 | re-applying an XOR difference to the previous byte gives the current one, and it is 0 exactly if nothing changed |
| `Bytes.LoadedBit` | src/kz_global_api/krp_format.cpp:84-94 | bit k of the 64-bit block the column readers load is bit k % 8 of mask byte k / 8, as the row readers test it |
| `KrpDelta.WriteDelta` | src/kz_global_api/kz_replay.cpp:521-554 | the loop writes exactly a delta record's mask and changed bytes |
| `KrpDelta.DeltaMaskBits` | src/kz_global_api/kz_replay.cpp:537-548 | mask bit i is set exactly if byte i differs |
| `KrpDelta.DeltaCarries` | src/kz_global_api/kz_replay.cpp:537-548 | the byte a delta carries has exactly the bits that differ between the frames |
| `KrpDelta.DeltaFlips` | src/kz_global_api/include/krp_codec.h:99-106 | a reader flips exactly the bits a delta carries for a byte, and copies nothing else |
| `KrpDelta.DeltaDecodes` | src/kz_global_api/kz_replay.cpp:521-554 | applying a delta to the frame it was made against gives the new frame |
| `KrpDelta.KeyframeDecodes` | src/kz_global_api/kz_replay.cpp:498-520 | a keyframe gives its frame whatever came before |
| `WriterThread.Writer.Process` | src/kz_global_api/kz_replay.cpp:646-947 | each signal updates the per-slot arrays and the files exactly as the state machine's step does |
| `WriterRuns.StepAgrees` | src/kz_global_api/kz_replay.cpp:662-930 | every signal keeps the invariant: each file is a header and complete records that decode to what was accepted for it, with a keyframe first after START and UNPAUSE, each open slot stands at its end holding its last frame, and no file starts with a delta |
| `WriterThread.Writer.Run` | src/kz_global_api/kz_replay.cpp:657-947 | the loop over any queue of inputs continues any history: it ends in the state, and with the logs, of the longer history, and in the invariant |
| `WriterThread.Writer.Restart` | src/kz_global_api/kz_replay.cpp:938-946 | the end of the thread closes every open file unstamped; the statics then start over and the files stay |
| `WriterRuns.EveryRunAgrees` | src/kz_global_api/kz_replay.cpp:646-947 | the invariant holds after every sequence of signals, map changes and restarts, which leave captures behind that UNPAUSE can reopen |
| `WriterRuns.OtherSlotsUntouched` | src/kz_global_api/kz_replay.cpp:661-930 | a signal leaves every other slot as it was |
| `WriterRuns.OtherFilesUntouched` | src/kz_global_api/kz_replay.cpp:661-930 | a signal leaves every file alone that is not the slot's own, the one it opens or the one it renames to |
| `WriterEffects.StartHeaderReads` | src/kz_global_api/kz_replay.cpp:676-696 | the header START writes reads back as the start, the nickname and the STEAM text of its player, as far as they fit their fields; everything else is the template's |
| `WriterEffects.SteamidReadsBack` | src/kz_global_api/kz_replay.cpp:690 | the STEAM text gives the short steamid back, and passes the module's own check of such texts if and only if the short one has neither dash nor dot |
| `WriterEffects.StartOpens` | src/kz_global_api/kz_replay.cpp:664-706 | START with usable names opens a fresh capture for the slot, with counters and frame counter 0 |
| `WriterEffects.UnusableNamesOpenNothing` | src/kz_global_api/kz_replay.cpp:679-773 | START and UNPAUSE with an unusable name open nothing and touch no file; START closes what was open |
| `WriterEffects.UnpauseOpensExactly` | src/kz_global_api/kz_replay.cpp:763-801 | UNPAUSE opens a capture if and only if there is one for the player on this map, at its end |
| `WriterEffects.PauseIsUndone` | src/kz_global_api/kz_replay.cpp:748-801 | PAUSE closes a capture and UNPAUSE gives back file, place and counters, with the records untouched |
| `WriterEffects.RejectDeletesExactly` | src/kz_global_api/kz_replay.cpp:802-822 | REJECT deletes exactly the file the slot was recording, if told to, closes the slot and forgets its counters |
| `WriterEffects.FinishTakesAway` | src/kz_global_api/kz_replay.cpp:823-889 | FINISH closes the slot and the recording is under its final name, or nowhere with nothing handed over |
| `WriterEffects.FinishedHeaderReads` | src/kz_global_api/kz_replay.cpp:864-876 | the finished header reads back as the nickname, as far as it fits, and the run counts; the rest of the file is the recording's |
| `WriterCounts.StepBalances` | src/kz_global_api/kz_replay.cpp:662-930 | every signal keeps the balance: counters miss what was forgotten, header counts that and what was accepted since their stamp |
| `WriterCounts.EventsTakeRoom` | src/kz_global_api/kz_replay.cpp:498-513 | an event takes two bytes of the file, so a capture `ftell` can measure holds fewer of them than a 32-bit counter can count |
| `WriterCounts.EveryHistoryBalances` | src/kz_global_api/kz_replay.cpp:437-497 | over every history, restarts included, and of every file `ftell` can measure: an open slot's counters, and the header counts, are the numbers of CHECKPOINT and GOCHECK records in it less those the books say they miss |
| `WriterCounts.BooksOf` | src/kz_global_api/kz_replay.cpp:646-947 | every history has its books, which follow only what was accepted and when headers were stamped |
| `WriterCounts.CountersRightExactly` | src/kz_global_api/kz_replay.cpp:714-725 | after any history the counters of an open slot on a measurable file are right if and only if no event of either kind was forgotten |
| `WriterCounts.UnpauseCountsExactly` | src/kz_global_api/kz_replay.cpp:763-801 | after any history UNPAUSE resumes a measurable capture with the right counters if and only if no event of either kind was accepted since the header's last stamp and none was forgotten before |
| `WriterCounts.CountersAreConserved` | src/kz_global_api/kz_replay.cpp:437-497 | over every orderly history, and of every capture `ftell` can measure: the counters of an open slot are the numbers of CHECKPOINT and GOCHECK records in its file, and so are the header counts of files with nothing accepted since their stamp, as paused and finished ones |
| `WriterCounts.PublishesExactly` | src/kz_global_api/kz_replay.cpp:829-838 | FINISH publishes a capture if and only if both names are usable and `ftell` can measure it; otherwise the file is deleted |
| `WriterCounts.FinishHandsOver` | src/kz_global_api/kz_replay.cpp:890-924 | FINISH hands on one output under the file's name, a submission if and only if the run is to be submitted and its player is not banned, and in it the player, the map of the file, the time and the slot's counters, each in its place |
| `WriterCounts.FinishPublishesCounters` | src/kz_global_api/kz_replay.cpp:844-914 | after any history FINISH stamps the counters and submits them, which miss exactly what was forgotten, and the default class digit is 1 exactly if the gocheck counter is not 0 |
| `WriterCounts.FinishPublishesCounts` | src/kz_global_api/kz_replay.cpp:844-914 | after an orderly history every file FINISH publishes has the numbers of CHECKPOINT and GOCHECK records in it in its header and in its submission, and its default class digit is 1 exactly if it holds a GOCHECK record |
| `WriterCounts.ClassDigitIsExact` | src/kz_global_api/kz_replay.cpp:844 | after any history the default digit tells a run with gochecks from one without if and only if not every one of its GOCHECK records, of at least one, was forgotten |
| `WriterCounts.RejectForgetsCounts` | src/kz_global_api/kz_replay.cpp:802-822 | an instance: after REJECT without deletion and UNPAUSE the gocheck counter is what the header said at START, whatever the file holds |
| `CaptureWitnesses.EventFirstIsRefused` | src/kz_global_api/kz_replay.cpp:707-747 | START, EVENT, FRAME, FINISH from a freshly started writer: a finished replay that playback answers with first_frame_not_keyframe, whatever zstd does |
| `CaptureWitnesses.RejectedCaptureMiscounts` | src/kz_global_api/kz_replay.cpp:785-822 | START, any number of GOCHECKs, REJECT without deletion, UNPAUSE: the counter is 0 and the file holds them all |
| `CaptureWitnesses.ForgottenGochecksMisclassify` | src/kz_global_api/kz_replay.cpp:844 | and FINISH then names a run with gochecks one without |
| `EndToEnd.EveryCaptureCompresses` | src/kz_global_api/kz_replay.cpp:646-947 | every file the writer can produce is accepted by `compress`, zstd failures aside |
| `EndToEnd.WhatWasRecordedIsPlayed` | src/kz_global_api/kz_replay.cpp:646-947 | for every history, restarts included: a compressed file plays exactly the frames and events accepted for it, in order and at their indices, if and only if the first thing accepted was a frame and the file is at most 100 MiB, and is refused with first_frame_not_keyframe or, above the cap, a zstd error otherwise |
| `EndToEnd.PublishedCountsArePlayed` | src/kz_global_api/kz_replay.cpp:844-914 | what an orderly run publishes is what its replay shows: whoever plays the compressed file counts as many CHECKPOINT and GOCHECK events as header and submission say, and the default class digit is 1 exactly if there is a GOCHECK among them |
| `EndToEnd.SubmissionsAreReady` | src/kz_global_api/kz_replay.cpp:840-922 | a submitted run's raw file is in place under its final name, which is a usable path segment exactly if an explicit prefix is |
| `WriterEffects.SubmissionMatchesItsName` | src/kz_global_api/kz_replay.cpp:844-914 | a submission's name parses as its own time, and as class 1 exactly if its gochecks are not 0 |
| `WriterEffects.EveryMapMatches` | src/kz_global_api/kz_replay.cpp:646-947 | after every history, restarts included, a recording lies in the directory of the map its header names |
| `WriterEffects.SubmissionNamesItsMap` | src/kz_global_api/kz_replay.cpp:829-910 | so a submission names the map its run was recorded on, cut to the 63 characters that are read of the field |
| `WriterEffects.MarkedRunsNeverRank` | src/kz_global_api/kz_replay.cpp:847-856 | the run of a banned player starts with x, one with an explicit prefix with that, and neither ranks if it starts with a letter |
| `RunNames.NameOfOne` | src/kz_global_api/kz_replay.cpp:844 | a name fixes the player and the moment of the START, whatever its first character |
| `RunNames.EveryRunApart` | src/kz_global_api/kz_replay.cpp:646-947 | in every history in which no player starts two runs in the same millisecond, recordings and finished runs are all of different STARTs, and each is named after its own |
| `RunNames.EveryRunHasItsOwnName` | src/kz_global_api/kz_replay.cpp:840-889 | then FINISH gives no name twice: no finished replay replaces an earlier one |
| `EndToEnd.NextSubmissionIsNew` | src/kz_global_api/kz_replay.cpp:840-922 | then each submission is of a run the outbox has not been given before, as its state machine requires |
| `ReplayNames.ParsePrinted` | src/kz_global_api/kz_replay_uid.cpp:6-44 | parsing inverts FINISH's name for every class digit, every 32-bit time and any steamid and timestamp text, underscores included |
| `ReplayNames.ParsesExactly` | src/kz_global_api/kz_replay_uid.cpp:14-44 | exactly which names parse, and as what: those with two numbers before two underscores, the first a class up to 9 |
| `ReplayNames.NumberIsRead` | src/kz_global_api/kz_replay_uid.cpp:27-39 | of white space, an optional sign and digits the value of the digits is read |
| `ReplayNames.OnlyNumbersAreRead` | src/kz_global_api/kz_replay_uid.cpp:27-39 | and nothing else is read to its end |
| `ReplayNames.OtherPrefixNeverParses` | src/kz_global_api/kz_replay.cpp:849-856 | a name starting with 'x' or any other character that cannot start a number never parses |
| `ReplayNames.ToBase36` | src/kz_global_api/kz_util.cpp:315-328 | the loop ends after at most 13 digits inside its 16-byte buffer, and the destination gets the digits, cut to fit |
| `ReplayNames.Base36ReadsBack` | src/kz_global_api/kz_util.cpp:315-328 | the digits read back to the value |
| `ReplayNames.Base36Digits` | src/kz_global_api/kz_util.cpp:315-328 | the digits are 0 to 9 and then a to z, the most significant first |
| `ReplayNames.RunNamesAreUsable` | src/kz_global_api/kz_path_validate.cpp:6-26 | the composed name passes the path check, and with another first character exactly if that character is allowed |
| `ReplayNames.SegmentsStayInside` | src/kz_global_api/kz_path_validate.cpp:6-26 | a usable segment holds no separator and is neither a directory itself nor its parent |
| `ReplayNames.StampsTellRunsApart` | src/kz_global_api/kz_replay.cpp:843-844 | a name determines its run: equal names mean equal class, time, steamid and start timestamp |
| `Ranking.FindBestInDir` | src/kz_global_api/kz_replay_uid.cpp:55-97 | the loop returns a ranked file that no ranked file beats, or none exactly if there is none |
| `Ranking.BestRankIsUnique` | src/kz_global_api/kz_replay_uid.cpp:46-97 | any two such results have the same class and time, so directory order does not matter |
| `Ranking.TimeOrder` | src/kz_global_api/kz_replay.cpp:844 | how two zero-padded times compare as text: as the digits they share, the shorter last |
| `Ranking.NameOrderOfBetter` | src/kz_global_api/kz_replay.cpp:278-281 | exactly when a better run's name sorts first, with no bound on times |
| `Ranking.NameOrderRefinesRank` | src/kz_global_api/kz_replay.cpp:278-281 | for times below 10^8 ms and names that sort after the digits, name order refines the ranking |
| `Ranking.PruneReplays` | src/kz_global_api/kz_replay.cpp:250-298 | pruning keeps all other files and exactly the first `max` replays by name, or everything when a guard says so |
| `Ranking.PruningCounts` | src/kz_global_api/kz_replay.cpp:250-298 | pruning leaves everything when switched off or waiting for the end of the map, and otherwise at most the limit, and removes replays only |
| `Ranking.PruningKeepsTheBestOnes` | src/kz_global_api/kz_replay.cpp:278-297 | no pruned replay outranks a kept one |
| `Ranking.PruningKeepsTheBest` | src/kz_global_api/kz_replay.cpp:278-297 | pruning to at least one replay does not change the best class and time |
| `Ranking.PruningAPair` | src/kz_global_api/kz_replay.cpp:278-297 | without the bound on times: pruning two runs to one keeps the better if and only if the classes differ or its time is below the other's leading digits |
| `Ranking.KeptExactly` | src/kz_global_api/kz_replay.cpp:283-297 | a replay is kept if and only if fewer than `max` replays sort before it |
| `Ranking.PruningGoesWrongExactly` | src/kz_global_api/kz_replay.cpp:278-297 | for any directory and any `max`: a removed replay outranks a kept one if and only if a better run whose name sorts later and the run before it lie on either side of the limit |
| `Ranking.SomePruningGoesWrongExactly` | src/kz_global_api/kz_replay.cpp:278-297 | some `max` goes wrong for a directory if and only if it holds such a pair |
| `Ranking.LongRunsAreMisplaced` | docs/replay-format.md:116-124 | of runs of 100000000 and 99999999 ms the slower name sorts first, and pruning the two to one deletes the better, so name order is not rank order as documented |
| `RetryQueue.Queue.RetryPass` | src/kz_global_api/kz_ws_msgs.cpp:561-638 | the erasing iterator loop does one pass: the queue and the attempted entry are those of the pass function |
| `RetryQueue.Queue.Clear` | src/kz_global_api/kz_storage.cpp:132-172 | the loop drops exactly the ephemeral entries and collects their ids for deletion |
| `RetryQueue.Queue.RequeueAll` | src/kz_global_api/kz_storage.cpp:174-182 | every entry becomes due and new again |
| `RetryQueue.Queue.EraseUpload` | src/kz_global_api/kz_ws_msgs.cpp:994-1005 | the cleanup erases the first upload entry of the run and no other |
| `RetryBounds.PassAttemptsTheFirst` | src/kz_global_api/kz_ws_msgs.cpp:561-638 | a pass attempts the first sendable entry only, drops the due entries before it and leaves the rest alone |
| `RetryBounds.PassAttemptsNone` | src/kz_global_api/kz_ws_msgs.cpp:561-638 | without a sendable entry a pass attempts nothing and drops exactly the due entries |
| `OutboxEffects.AttemptIsWorthSending` | src/kz_global_api/kz_ws_msgs.cpp:570-582 | a pass only attempts an entry that is due, has attempts left, is not empty, and is neither a map change nor a player leaving |
| `RetryBounds.AttemptsAreBounded` | src/kz_global_api/kz_ws_msgs.cpp:567-636 | over any clock, saves and deletions, attempts of a message are paid from a budget only a new save refills |
| `RetryBounds.AttemptsAreApart` | src/kz_global_api/kz_ws_msgs.cpp:565-567 | attempts of a message with one entry are more than the delay apart |
| `RetryBounds.RetryBound` | src/kz_global_api/kz_ws_msgs.cpp:561-638 | a new or requeued message is attempted at most max + 1 times, more than the delay apart |
| `RetryBounds.PassProgress` | src/kz_global_api/kz_ws_msgs.cpp:565-638 | a measure summed over the entries falls with every attempt and every removal |
| `RetryBounds.SpansDrain` | src/kz_global_api/kz_ws_msgs.cpp:561-638 | without new saves, whatever the clock does and however many passes there are: the queue is empty once the passes span as many delays as it is owed |
| `RetryBounds.QueueDrains` | src/kz_global_api/kz_ws_msgs.cpp:561-638 | so entries no later than a time are gone once the passes after it span as many delays as their measure |
| `RetryBounds.QueueDrainsInTime` | src/kz_global_api/kz_ws_msgs.cpp:561-638 | with a pass every frame, that is so after a time that depends on the measure, the delay and the longest frame alone |
| `RetryBounds.SoleEntryAttempts` | src/kz_global_api/kz_ws_msgs.cpp:565-632 | a message alone in the queue is attempted exactly once in every delay the passes span, up to `max + 1` times: the bound is met |
| `OutboxRetries.EntriesAreUnique` | src/kz_global_api/kz_storage.cpp:87-263 | in every reachable state each message has at most one entry in the retry queue |
| `OutboxRetries.ContinuationBound` | src/kz_global_api/kz_ws_msgs.cpp:561-638 | whatever the outbox does between the passes only takes entries away or adds new messages: attempts stay within the budget and apart |
| `OutboxRetries.OutboxRetryBound` | src/kz_global_api/kz_ws_msgs.cpp:561-638 | from any reachable state, in every continuation of the outbox without reconnect or restart, with saves, acknowledgements, ends of maps, operators and passes as they come, a new or requeued message is attempted at most max + 1 times, more than the delay apart |
| `OutboxRetries.ContinuationDrains` | src/kz_global_api/kz_ws_msgs.cpp:561-638 | in any continuation that renews nothing, with any clock, any number of passes and any saves between them: once the passes span as many delays as the messages of a state are owed, only messages saved since are left |
| `OutboxRetries.OutboxDrains` | src/kz_global_api/kz_ws_msgs.cpp:561-638 | so of the messages in the queue of any reachable state none is left, and nothing at all if nothing is saved |
| `OutboxRetries.OutboxDrainsInTime` | src/kz_global_api/kz_ws_msgs.cpp:561-638 | with a pass every frame, after a time that depends on their measure, the delay and the longest frame alone |
| `OutboxRetries.MarkedUploadIsGivenUp` | src/kz_global_api/kz_ws_msgs.cpp:586-632 | in every continuation of a reached state that neither renews nor releases a marked upload, its attempts are counted, at most max + 1 of them and more than the delay apart, and none is carried out; once the passes span as many delays as the measure of the queue, it has no entry left |
| `Outbox.Outbox.SaveMessage` | src/kz_global_api/kz_storage.cpp:184-263 | queue entry, row, id and the spreading of timestamps, as the state machine saves |
| `Outbox.Outbox.DeleteMessage` | src/kz_global_api/kz_storage.cpp:265-303 | the entries and the row of one message go |
| `Outbox.Outbox.ClearEphemeral` | src/kz_global_api/kz_storage.cpp:132-172 | at the end of a map the ephemeral messages go from queue and outgoing table |
| `Outbox.Outbox.LoadTables` | src/kz_global_api/kz_storage.cpp:87-131 | the retry queue becomes the rows of both tables |
| `Outbox.Outbox.AckRecord` | src/kz_global_api/kz_ws_msgs.cpp:912-967 | RECORD_ACK does what the state machine says, refused names and missing files included |
| `Outbox.Outbox.AckFile` | src/kz_global_api/kz_ws_msgs.cpp:968-1100 | FILE_ACK does what the state machine says, with the order of cleanup and moves |
| `Outbox.Outbox.AckError` | src/kz_global_api/kz_ws_msgs.cpp:711-768 | ERROR condemns the run of a stored submission and nothing else |
| `Outbox.Outbox.Receive` | src/kz_global_api/kz_ws.cpp:71-110 | a message runs its handler before anything is deleted |
| `Outbox.Outbox.FinishMessage` | src/kz_global_api/kz_ws.cpp:109-128 | the task is queued, then the answered row deleted; without room the row stays |
| `Outbox.Outbox.RunOneTask` | src/kz_global_api/kz_ws_msgs.cpp:477-518 | the game thread's tasks: discard, send, requeue |
| `Outbox.Outbox.RetryOne` | src/kz_global_api/kz_ws_msgs.cpp:561-638 | the retry pass with what it does for the entry it attempts |
| `Outbox.Outbox.ProcessItem` | src/kz_global_api/kz_replay.cpp:948-1020 | an upload compresses a raw file first, or is given up until a retry |
| `Outbox.Outbox.OperatorDeletes` | src/kz_global_api/main.cpp:819-824 | an operator deletes one message |
| `Outbox.Outbox.OperatorClears` | src/kz_global_api/kz_storage.cpp:517-538 | an operator clears a table |
| `Outbox.Outbox.Run` | src/kz_global_api/kz_ws_msgs.cpp:529-639 | any inputs in any order, continuing any history: the module ends where the state machine does, in a safe state |
| `OutboxEffects.SavedIsThere` | src/kz_global_api/kz_storage.cpp:184-263 | a saved message is in its table under an id no row had and in the queue as a new entry of that id; no other row or entry changes |
| `OutboxEffects.SavesAreSpread` | src/kz_global_api/kz_storage.cpp:224-240 | a message saved soon after another becomes due at least five seconds after that save, at most five seconds late, and on time otherwise |
| `OutboxEffects.DeletedIsGone` | src/kz_global_api/kz_storage.cpp:265-303 | a deleted message is in neither table nor queue; everything else is |
| `OutboxEffects.MapEndClears` | src/kz_global_api/kz_storage.cpp:132-172 | when a map ends exactly its own kinds of messages go, from the queue and from the outgoing table |
| `OutboxEffects.OperatorDeletesOne` | src/kz_global_api/main.cpp:819-824 | an operator's deletion is a deletion of that one message |
| `OutboxEffects.OperatorEmpties` | src/kz_global_api/kz_storage.cpp:517-538 | clearing empties one table and takes exactly its entries out of the queue |
| `OutboxEffects.OpeningMakesDue` | src/kz_global_api/kz_storage.cpp:174-183 | a reconnect makes every entry due with all its attempts, and changes nothing else |
| `OutboxEffects.RestartKeepsTheTables` | src/kz_global_api/kz_storage.cpp:87-131 | a process that starts over has the tables, the files and the ids it had, and nothing else |
| `OutboxEffects.LoadedIsTheTables` | src/kz_global_api/kz_storage.cpp:87-131 | loading makes the queue exactly the rows of both tables, as new entries due the delay after their rows were made |
| `OutboxEffects.AnsweredIsGone` | src/kz_global_api/kz_ws.cpp:109-128 | an answered message leaves table and queue exactly if its answer hands nothing over or finds room, and only then is the task queued |
| `OutboxEffects.AcknowledgementCounts` | src/kz_global_api/kz_ws_msgs.cpp:912-967 | an acknowledgement counts if and only if its name is usable and the raw file is there |
| `OutboxEffects.AcceptedFilesMove` | src/kz_global_api/kz_ws_msgs.cpp:1000-1066 | an accepted upload's files leave their place exactly if both can be moved; other runs' files and rows stay |
| `OutboxEffects.RefusedIsDiscarded` | src/kz_global_api/kz_ws_msgs.cpp:711-768 | a run is to be discarded if and only if the answer is explained and names a stored submission of it |
| `OutboxEffects.RequeuedIsSaved` | src/kz_global_api/kz_ws_msgs.cpp:477-518 | a requeued upload has a row and an entry of its own again, and is marked if there was room |
| `OutboxEffects.ItemIsUsedUp` | src/kz_global_api/kz_replay.cpp:948-978 | an upload item is used up; a raw file that is there and readable is compressed and stays |
| `OutboxSafety.TakeKeeps` | src/kz_global_api/kz_ws.cpp:71-130 | every step keeps the handoff invariant: held rows, files, types, ids, tasks and the pending answer |
| `OutboxSafety.EveryStateIsSafe` | src/kz_global_api/kz_ws.cpp:92-127 | the invariant holds in every reachable state, crashes and restarts included |
| `OutboxSafety.NoRunIsLost` | src/kz_global_api/kz_ws.cpp:92-127 | in every reachable state a submitted run is in one of the two tables with its raw file on disk, unless since its submission its file was accepted, its submission refused, or an operator deleted a row of it |
| `OutboxSafety.OnlyEndsEnd` | src/kz_global_api/kz_ws_msgs.cpp:711-1100 | only those inputs end a run |
| `OutboxSafety.LoadingResumesEveryRun` | src/kz_global_api/kz_storage.cpp:87-131 | after a restart, loading puts every unfinished run back into the retry queue as a new entry |
| `OutboxSafety.AnswersThatLoseARun` | src/kz_global_api/kz_ws.cpp:92-127 | an answer to a run's only row keeps it held if and only if it is the run's acknowledgement or acceptance, an explained error, or an acknowledgement that hands a task over and finds no room; the guards are those of the handlers |
| `OutboxSafety.DiscardLeavesNothing` | src/kz_global_api/kz_ws_msgs.cpp:744-755 | a discard leaves neither file nor upload row nor mark of its run, and changes nothing else |
| `OutboxWitnesses.RefusedRunIsGone` | src/kz_global_api/kz_ws_msgs.cpp:711-768 | a history: submitted, refused with a message, discarded; neither file nor row of the run is left |
| `OutboxSafety.SaveIsAtomic` | src/kz_global_api/kz_storage.cpp:184-263 | asking for an id and saving are one save when nothing is saved between |
| `OutboxSafety.SubmissionNeedsAFreeId` | src/kz_global_api/kz_storage.cpp:216-263 | a submission reaches the table if and only if its id is still free |
| `OutboxSafety.SharedIdLosesASubmission` | src/kz_global_api/kz_storage.cpp:184-263 | two threads that ask for an id before either saves share it, and the later submission is not stored |
| `OutboxWitnesses.UnexplainedErrorLosesARun` | src/kz_global_api/kz_ws_msgs.cpp:718-721 | from a reached state: an ERROR without a message leaves a submitted run in neither table |
| `OutboxSafety.RejectedUploadIsSentExactly` | src/kz_global_api/kz_ws_msgs.cpp:477-518 | a rejected upload is queued again if and only if it is not marked active, has a file and finds room, and with a file that is there |
| `OutboxSafety.RejectedUploadIsSent` | src/kz_global_api/kz_ws_msgs.cpp:477-518 | and then the upload thread has a compressed file to send for it |
| `OutboxSafety.AcknowledgedUploadIsSent` | src/kz_global_api/kz_ws_msgs.cpp:912-967 | a run that is acknowledged is marked, has an upload row, and its raw file is compressed and sent |
| `OutboxSafety.QueuedUploadsHaveTheirFiles` | src/kz_global_api/kz_replay.cpp:948-978 | in every reachable state, restarts included, a queued upload of an unfinished run has its file: the upload thread never gives such a run up for a missing file |
| `OutboxSafety.RejectedUploadStays` | src/kz_global_api/kz_ws_msgs.cpp:496-503 | a rejected upload that is marked active is not sent again: nothing changes |
| `OutboxSafety.ActiveUntilReleased` | src/kz_global_api/kz_ws_msgs.cpp:936-967 | a marked run loses its mark exactly by its acceptance, its discard, an upload item of it that finds no room or cannot be read, or a restart |
| `OutboxSafety.RejectionsOfActiveRunsDoNothing` | src/kz_global_api/kz_ws_msgs.cpp:496-503 | from the moment a run is marked until one of those, whatever happens in between, a rejection of its upload changes nothing |
| `OutboxWitnesses.RejectionThatDoesNothing` | src/kz_global_api/kz_ws_msgs.cpp:496-503 | a reached state, with the run sent and both files there, in which its rejection changes nothing |
| `OutboxWitnesses.QueuedIsNotAlwaysActive` | src/kz_global_api/kz_replay.cpp:948-978 | a reached state in which a queued upload is not marked: a run acknowledged twice whose first item could not be read |
| `OutboxWitnesses.UnmarkedIsSentAgain` | src/kz_global_api/kz_ws_msgs.cpp:496-514 | and one step later a reached state in which the run was sent without its mark, and its rejection does send it again |
| `OutboxSafety.RetriedUploadIsSentExactly` | src/kz_global_api/kz_ws_msgs.cpp:586-626 | an attempted upload is queued again if and only if it is not active, has a file and finds room, and with a file that is there, the compressed one first |
| `OutboxSafety.RetriedUploadIsSent` | src/kz_global_api/kz_ws_msgs.cpp:586-626 | and then the upload thread has a compressed file to send for it, made just now if only the raw one was there |
| `OutboxSafety.PassesOfActiveRunsSendNothing` | src/kz_global_api/kz_ws_msgs.cpp:586-632 | from the moment a run is marked until its release, whatever happens in between, reconnects included, no retry pass queues its upload |
| `OutboxWitnesses.ReconnectThatSendsNothing` | src/kz_global_api/kz_ws_msgs.cpp:586-632 | a history: the run is sent, the connection opens again, the next pass attempts the upload, counts the attempt and sends nothing |
| `OutboxWitnesses.ReconnectThatGivesUp` | src/kz_global_api/kz_ws_msgs.cpp:561-638 | the same history continued by passes at any rate until they have spanned max + 2 delays: exactly max + 1 attempts were made, nothing was sent, and the run waits in the table with both files there and nothing in memory that would send it |
| `OutboxSafety.AcceptanceClearsTheTable` | src/kz_global_api/kz_ws_msgs.cpp:988-1012 | an acceptance clears all rows of the run but one entry: queue and table agree afterwards if and only if there was at most one |
| `OutboxSafety.AcceptedUploadIsSentAgainExactly` | src/kz_global_api/kz_ws_msgs.cpp:586-626 | the pass after an acceptance sends the accepted run again, though it has no row, if and only if it comes to an entry of it that was left, which takes two before, a file of it is still there, and there is room |
| `OutboxWitnesses.AcceptedRunIsSentAgain` | src/kz_global_api/kz_ws_msgs.cpp:988-1012 | a reached state in which that happens: a run acknowledged twice, uploaded and accepted, whose files could not be moved |
| `LogMerge.FlushLogs` | src/kz_global_api/kz_util.cpp:210-244 | the merge ends, emits the old front part of every queue in its own order, leaves exactly the rest, and emits in order of time if the queues are |
| `LogMerge.PartsOfSorted` | src/kz_global_api/kz_util.cpp:224 | in a queue in order of time the emitted part is exactly the entries older than the cutoff |
| `LogMerge.FindOldest` | src/kz_global_api/kz_util.cpp:222-233 | the scan finds the first queue with the oldest readable front, if any is readable |
| `Crc32.TableIsEightSteps` | src/kz_global_api/kz_util.cpp:20-64 | every table entry is eight bitwise steps of the reflected polynomial (section 8 of RFC 1952) |
| `Crc32.TableStepIsEightSteps` | src/kz_global_api/kz_util.cpp:285-289 | one table step is eight bitwise steps, for every register and byte |
| `Crc32.BitwiseOfBoth` | src/kz_global_api/kz_util.cpp:280-292 | the register after two pieces is that after the second, started from that after the first |
| `Crc32.Incremental` | src/kz_global_api/kz_util.cpp:280-292 | the loop computes the bitwise register |
| `Crc32.Crc` | src/kz_global_api/kz_util.cpp:267-279 | the checksum of RFC 1952 |
| `Crc32.ChecksumResidue` | src/kz_global_api/kz_util.cpp:267-292 | data followed by its own checksum in little-endian order has the checksum 0x2144DF1C, whatever the data |
| `Crc32.CheckValue` | src/kz_global_api/kz_util.cpp:267-292 | the checksum of 123456789 is 0xCBF43926, that of nothing 0 |
| `Crc32.OneByteChangesIt` | src/kz_global_api/kz_util.cpp:267-292 | data that differs in one byte, wherever that is, has another checksum |
| `Crc32.MapCrc` | src/kz_global_api/kz_util.cpp:293-314 | reading in pieces of any size gives the checksum of the whole file, and 0 without a file |
| `UploadChunks.SendChunks` | src/kz_global_api/kz_replay.cpp:980-1014 | the rounded-up number of messages is sent, each at most 64 KiB with its 92-byte header, index, total and checksum; all but the last full; together the file. A file `ftell` cannot measure is not sent |
| `UploadChunks.HeaderFields` | src/kz_global_api/include/kz_ws.h:63-70 | a receiver reads back owner, id, index, total and checksum from the packed header |
| `UploadChunks.ChunkCheckValue` | src/kz_global_api/kz_replay.cpp:994-1014 | a chunk's checksum is that of its bytes as they are |
| `UploadChunks.SameMessagesSameFile` | src/kz_global_api/kz_replay.cpp:994-1014 | the messages determine the file in whatever order they arrive |

## Left out

- zstd is an abstract pair of functions with a content size, assumed to give back what it compressed
  (`KrpCodec.Lossless`, which `KrpCodec.LosslessIsPossible` shows can hold); streams, levels and error codes are not
  modelled.
- SQLite, the WebSocket, TLS, HTTP and JSON: a row holds the parsed message, a server message arrives parsed, and table
  operations succeed. Threads interleave in atomic steps; queues between them are sequences with a `room` answer.
- `kz_storage_save` is one step: a crash between the push onto the retry queue and the insert is not modelled, and two
  threads sharing an id are treated only by `OutboxSafety.SubmissionNeedsAFreeId` and the lemma after it.
- stdio and file-system failures: opening, writing and renaming the writer's files succeed, also past 2^31 - 1 bytes.
  What is modelled there is that `ftell`, whose `long` has 32 bits, answers -1: PAUSE then stamps nothing, UNPAUSE reads
  nothing, and FINISH deletes the file (`WriterSpec.Measured`). In the outbox a move can fail (`moved`) and an upload
  item can be unreadable (`readable`).
- Paths longer than 255 bytes and names longer than 63, which the code cuts, and `replace_extension` on names that
  contain a dot.
- Two players with the same short steamid recording at once (`WriterSpec.Admissible`).
- The server is assumed to answer a stored submission only with its own RECORD_ACK or an explained ERROR, and only ids
  that were given out (`OutboxSpec.Honest`); `OutboxSafety.AnswersThatLoseARun` says what other answers do.
- The time conversion `sig->time * 1000.0f`, clocks and the free room in queues are parameters.
- WriterCounts.EveryHistoryBalances: says nothing of the counters of a capture that `ftell` cannot measure, which is
  never published.
- RunNames.EveryRunApart: takes it that no player starts two runs in the same millisecond and that FINISH comes with the
  short steamid of the recording, as both are read from the same player.
- WriterCounts.CountersAreConserved: speaks of orderly histories, in which UNPAUSE only resumes captures to which
  nothing was added since their stamp; what holds of every history is `WriterCounts.EveryHistoryBalances`.
- OutboxRetries.OutboxRetryBound: takes the retry limits to stay the same during a continuation, as console variables
  that nobody changes do, and so do the lemmas after it.
- Ranking.PruningGoesWrongExactly: speaks of directories whose ranked files are named as FINISH names them.
- No claim is made that a rejected upload is sent again in time: the active-uploads check can refuse it.
- Requeueing a single message by id, printing tables and checkpoints of the database (operator commands).
- The retry queue's 64 empty initial entries, which loading discards before the first pass.
- Map information, bans, downloads of replays and their retries, GET_REPLAY answers: other message types are one kind.
- The compress thread for runs that are not submitted, and the rotation of log files.
- Bots, animation, playback timing, engine hooks, cvars, natives, memory scanning and the vendored SDK.
- The checkpoint ring and the command table of `src/kz_base`: easy members only.
