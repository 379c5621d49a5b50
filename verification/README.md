# Flight recorder: verified model

A Dafny model of the robot's flight recorder and of the parts around it that can lose or misreport a
recording:

- the V5L2 file format, its encoder and its verifier (`Bytes`, `Crc`, `CrcBursts`, `Fnv`, `RecordingFile`,
  `RecordingLayout`, `RecordingEncoder`, `RecordingVerifier`, `RecordingRecovery`, `RecordingIntegrity`,
  `RecordingAccess`, `RecordingStructure`);
- the sink that writes a session to the microSD card and commits it by a rename (`Card`, `SessionNames`,
  `SinkProtocol`, `SinkSafety`, `SinkContents`, `SinkRuns`, `SinkCrashes`, `SinkOutcomes`, `RecordingSink`);
- the worker that drives the sink, the control it shares with other tasks, and both together with the card
  (`RecordingWorker`, `RecordingSurvival`, `RecordingArchives`, `RecordingTask`, `RecordingControl`,
  `RecordingSystem`);
- the inspector of recordings on a PC (`Decimal`, `JsonText`, `Json`, `Paths`, `FaultLists`, `FaultReports`,
  `InspectReport`, `Inspect`);
- the relay of alerts to the controller, the gate before driver control, and both together with the recording
  control (`AlertRelay`, `Lifecycle`, `RobotAlerts`).

The central results:

- `RecordingSurvival.AcknowledgedFramesSurvive`: on any card, for any pattern of failing C library calls and
  any interleaving with the control task, power may go at any moment after some blocks were acknowledged,
  during a call or any number of ticks after the session ended; what is then on the card gives back all of
  them but at most the last 49, and nothing but what the session was given. Frame by frame this holds of
  sessions of fewer than 2^32 frames; beyond that the verifier's own 32-bit counts wrap around, and it is said
  of the blocks.
- `RecordingSurvival.ArchivesVerify`: every `DATA.V5L` that ever appears is a whole recording, and of fewer than
  2^32 frames the verifier says so.
- `RecordingArchives.ArchiveOfTicks`: and it holds exactly the frames popped between the tick that began its session
  and the one that committed it, under the header asked for, with the drops the ring counted in between.
- `SinkRuns.ArchivesImmutable`: no later call changes one. `SinkRuns.CommittingCall` and
  `SinkRuns.CommitIsLastStep`: none appears before the last step of a finish that returns true, by which time
  footer, flush and close have succeeded.
- `RecordingStructure.CompleteExactly`: what the verifier calls complete, in terms of the file alone;
  `FaultReports.DamageNames` and its companions: which fault is named for which damage.
- `SinkOutcomes.BeginOutcome`, `WriteOutcome` and `FinishOutcome`: when each call of the sink succeeds and which error
  it leaves, in terms of which calls of the C library work.
- `RecordingSystem.SessionsOnCard`: over every interleaving of the control task, the callbacks and the worker, and
  whatever fails, the commits the control counts are the new archives on the card, each one whole recording, and
  every session asked for is one of them, or ended with one reported cause, or was cancelled unseen, or is still in
  progress.
- `RecordingIntegrity.OneBurstDetected`: in any file that verifies as complete, any change confined to four
  consecutive bytes, wherever they lie, is noticed, unless it is in the padding after the header's and the
  footer's checksums alone. `RecordingIntegrity.OneChangedByteDetected` says so of single bytes.
- `Inspect.OutputRoundTrip` and `Inspect.OrderIrrelevant`: the inspector's JSON output is well formed and reads
  back exactly, whatever bytes the paths and header texts hold; and its report and exit status, with and
  without `--json`, depend only on the set of files collected, not on how it was named or walked.
- `RobotAlerts.RecordingAlertsDelivered`: in the whole robot no alert of the recording control is lost and none
  is made up; `AlertRelay` gives the exact bounds beyond which one can be lost.

Behaviour is written twice where the program changes state: as pure functions from one state to the next,
about which the lemmas speak, and as classes and loops in the program's own shape, each proved to do what its
function says.

## Assumptions

- The C library: `mkdir` succeeds on absent names only; `rename` is atomic, and a failed one changes nothing;
  a successful `fflush` or `fclose` makes the buffer durable, a failed one may have transferred any part of
  it; a failed `fflush` keeps the rest in the buffer; `fclose` gives up the stream even when it fails (section
  7.21.5.1 of ISO/IEC 9899:2011); after a loss of power a file holds its durable bytes and some first part of
  its buffer. Each call may fail, independently of all others. Nothing but the sink writes to the card while
  it runs, and different path strings name different files.
- A card as it is found keeps recordings in directories (`SinkRuns.FoundDisk`).
- Structures are laid out without gaps except for trailing padding, little-endian, with padding bytes written
  as zero. One `char` stands for one byte of a `std::string`. `size_t` on the PC has 64 bits.
- A read that fails leaves the destination as it was.
- The ring, the drop counter and the recording control are read by the worker at arbitrary moments; what a
  tick sees of them is its input (`RecordingWorker.Tick`). Frames in the ring carry the magic number, size
  and schema of `makeEmptyLogFrame`.
- The controller's `rumble` may fail at any time; the start-up self-check sees its timeout within finitely
  many samples; driver control is called after `initialize` has returned. How a duration in microseconds is printed
  in seconds is a parameter of the inspector.

## Model

| member | source | states |
|---|---|---|
| Crc.ComputeUpdate | include/robot/telemetry/recording_file.hpp:84-95 | the bit-by-bit loop computes the fold that the checksum is defined by, from any state |
| Crc.UpdateConcat | include/robot/telemetry/recording_file.hpp:84-95 | checksumming piece by piece is checksumming the whole, as the verifier does frame by frame |
| Crc.OneByteChangesChecksum | include/robot/telemetry/recording_file.hpp:84-100 | data that differ in exactly one byte have different checksums |
| Crc.KnownChecksum | include/robot/telemetry/recording_file.hpp:84-100 | the checksum of the digits "123456789" is the published one of CRC-32, 0xCBF43926 |
| CrcBursts.BurstChangesChecksum | include/robot/telemetry/recording_file.hpp:84-100 | data that differ only within four consecutive bytes have different checksums |
| CrcBursts.ResidueOfChecksum | include/robot/telemetry/recording_file.hpp:84-100 | four bytes are the stored checksum of the data before them exactly if they lead to one fixed state |
| Fnv.ComputeHash | include/robot/telemetry/recording_file.hpp:102-112 | the loop computes the fold the hash is defined by, from any seed |
| Fnv.OneByteChangesHash | include/robot/telemetry/recording_file.hpp:102-112 | data that differ in exactly one byte have different hashes, from any seed |
| Fnv.KnownHash | include/robot/telemetry/recording_file.hpp:102-112 | the hash of the text "a" is the published one of 32-bit FNV-1a, 0xE40C292C |
| RecordingFile.RunIdOfBytes | include/robot/telemetry/recording_file.hpp:114-118 | a run's number is the hash of the twelve bytes of its boot and session |
| RecordingFile.RunsApart | include/robot/telemetry/recording_file.hpp:114-118 | sessions of one boot that differ in their lowest byte only have different run numbers |
| RecordingLayout.HeaderLayout | include/robot/telemetry/recording_file.hpp:32-60 | at which offset of a header's bytes each number and text lies |
| RecordingLayout.BlockLayout | include/robot/telemetry/recording_file.hpp:62-70 | the same for block headers |
| RecordingLayout.FooterLayout | include/robot/telemetry/recording_file.hpp:72-82 | the same for footers |
| RecordingFile.HeaderRoundTrip | include/robot/telemetry/recording_file.hpp:32-60 | reading the bytes of any header gives that header back, and its checksum holds |
| RecordingFile.BlockHeaderRoundTrip | include/robot/telemetry/recording_file.hpp:62-70 | the same for block headers, which also start with their magic number |
| RecordingFile.FooterRoundTrip | include/robot/telemetry/recording_file.hpp:72-82 | the same for footers |
| RecordingFile.OneByteBreaksSeal | include/robot/telemetry/recording_codec.hpp:149-156 | one changed byte of a checksummed structure is noticed exactly when it is not padding |
| RecordingFile.BurstBreaksSeal | include/robot/telemetry/recording_codec.hpp:149-156 | any change confined to four consecutive bytes of a checksummed structure, even across body and checksum, is noticed unless it is in the padding alone |
| RecordingEncoder.CountsAfter | include/robot/telemetry/recording_codec.hpp:39-66 | after any batches the encoder's block number and frame count are the numbers of batches and frames, modulo 2^32 |
| RecordingEncoder.LastAfter | include/robot/telemetry/recording_codec.hpp:62-64 | and it remembers the last frame of all |
| RecordingEncoder.BlockContents | include/robot/telemetry/recording_codec.hpp:39-60 | each block's sealed header names its number, its first frame, their count and size, and their checksum |
| RecordingEncoder.FooterContents | include/robot/telemetry/recording_codec.hpp:68-84 | below 2^32 frames the footer names the number of frames, the first and the last one and the number of blocks |
| RecordingVerifier.ReadPayload | include/robot/telemetry/recording_codec.hpp:212-251 | the loop over a block's frames computes the scan of the specification |
| RecordingVerifier.VerifyRecording | include/robot/telemetry/recording_codec.hpp:140-313 | the verifier's loop computes the specified report for every reader, reads that fail included, and ends |
| RecordingRecovery.CutRecordingRecovered | include/robot/telemetry/recording_codec.hpp:140-313 | of a recording cut at any byte the verifier recovers exactly the blocks that are whole, and reports truncation |
| RecordingRecovery.FinishedRecordingVerified | include/robot/telemetry/recording_codec.hpp:263-306 | the whole report on any finished recording; it is complete exactly when it has frames and its footer still names the first |
| RecordingRecovery.FinishedRecordingComplete | include/robot/telemetry/recording_codec.hpp:263-306 | below 2^32 frames: complete exactly when it has a frame, with no fault but those its frames show |
| RecordingStructure.CompleteExactly | include/robot/telemetry/recording_codec.hpp:140-313 | a file is complete exactly if it is a sealed header of the format, one or more sealed blocks numbered from one with as many well-formed frames as each says and their checksum, and a sealed footer at the very end that tells the counts, the first and the last frame |
| RecordingStructure.WholeIsComplete | include/robot/telemetry/recording_codec.hpp:140-313 | the whole report on such a file: its counts and ends, its footer's drops, and no fault but those its frames show |
| RecordingStructure.FooterDecides | include/robot/telemetry/recording_codec.hpp:263-306 | whatever footer ends a recording's blocks, it is accepted exactly if it tells the numbers of frames and blocks modulo 2^32 and the first and last sequence and time; else it is reported as mismatched |
| RecordingStructure.FooterOfComplete | include/robot/telemetry/recording_codec.hpp:278-306 | in any complete file the last 48 bytes tell the counts, ends and drops of the report |
| RecordingStructure.BlocksRemovedNoticed | include/robot/telemetry/recording_codec.hpp:186-306 | a finished recording of fewer than 2^32 blocks from which any whole blocks were cut out, at the end or anywhere else, is not complete |
| RecordingStructure.RemovedUnnoticed | include/robot/telemetry/recording_codec.hpp:278-287 | the bound is reached: of 2^32 + 1 blocks of one and the same frame all but the first can be cut out unnoticed |
| RecordingIntegrity.RefusalsNeverComplete | include/robot/telemetry/recording_codec.hpp:140-313 | reads that fail never make a recording complete: whatever is reported complete is what the bytes alone give |
| RecordingIntegrity.OneBurstDetected | include/robot/telemetry/recording_codec.hpp:140-313 | in any file that verifies as complete, any change confined to four consecutive bytes, within one structure or payload or across two, is noticed exactly if it is not in the padding alone; if it is, the report is the same |
| RecordingIntegrity.OneChangedByteDetected | include/robot/telemetry/recording_codec.hpp:140-313 | the same of one changed byte |
| RecordingAccess.ValidBytesWithin | include/robot/telemetry/recording_codec.hpp:168-312 | the verifier never counts bytes beyond the end of the data |
| RecordingAccess.CopyVerifiedRecordingFrame | include/robot/telemetry/recording_codec.hpp:343-370 | the walk over the block headers ends and finds the frame that FramesComeBack describes |
| RecordingAccess.FramesComeBack | include/robot/telemetry/recording_codec.hpp:343-370 | of a whole or cut recording, every counted frame is handed out as it was appended, and no other index is answered |
| FaultReports.DamagedUnreadable | include/robot/telemetry/recording_codec.hpp:347-352 | of a file with a bad block or payload no frame is handed out, not even of the blocks before it |
| FaultReports.HeaderUnreadable | include/robot/telemetry/recording_codec.hpp:347-352 | nor of one with a bad header or of another format |
| SessionNames.ParseOfFormat | src/platform/pros_recording_sink.cpp:53-55 | a directory's name parses back to its storage sequence and start time, for all naturals |
| SessionNames.FormatInjective | src/platform/pros_recording_sink.cpp:53-55 | different sequences or times give different names |
| SessionNames.NamesInOrder | src/platform/pros_recording_sink.cpp:53-55 | of the first million storage sequences all names have 19 characters and sort as text by sequence, then by start time |
| SessionNames.DirectoryPathInjective | src/platform/pros_recording_sink.cpp:53-55 | and different directories of one robot |
| SessionNames.NamesFitBuffers | src/platform/pros_recording_sink.cpp:44-69 | no path is ever cut by its buffer |
| SinkSafety.CallKeeps | src/platform/pros_recording_sink.cpp:26-146 | every call keeps: the open stream writes DATA.TMP of a directory without DATA.V5L; archives and directories are never lost or changed; streams match the sink |
| SinkContents.FinishedWhole | src/platform/pros_recording_sink.cpp:108-131 | a finish that returns true on an intact session leaves exactly header, batches in order and footer, all durable |
| SinkContents.CallSound | src/platform/pros_recording_sink.cpp:26-146 | every call keeps: the open file holds what was emitted, the flush counter is the number of blocks since the last successful flush (modulo 2^32), and all blocks before these are durable |
| SinkRuns.RunSound | src/platform/pros_recording_sink.cpp:26-146 | and so does every sequence of calls, whatever fails |
| SinkRuns.ArchivesImmutable | src/platform/pros_recording_sink.cpp:49-131 | at every moment of every run, each archive of every earlier moment is there unchanged |
| SinkRuns.ArchivesAreWholeRecordings | src/platform/pros_recording_sink.cpp:108-131 | every new archive at any moment was committed by a finish that returned true, and holds the whole recording if the session was intact; CommittingCall says which finish, and that it came before |
| SinkRuns.CommittingCall | src/platform/pros_recording_sink.cpp:108-131 | a new archive seen at some moment of a run was committed by one of its calls, a finish that returned true, and not before the last moment of that call |
| SinkRuns.CommitIsLastStep | src/platform/pros_recording_sink.cpp:108-131 | that last moment is the rename of a file to which the footer was written last and which flush and close had made durable; no earlier moment shows an archive |
| SinkRuns.FailedFinishLeavesNone | src/platform/pros_recording_sink.cpp:108-131 | wherever finish fails, the session has no archive at any moment |
| SinkRuns.StreamsConserved | src/platform/pros_recording_sink.cpp:70-146 | streams opened minus streams closed is one if the sink holds a stream and zero if not; abort leaves none |
| SinkRuns.ErrorOfCall | src/platform/pros_recording_sink.cpp:20-150 | a call leaves an error exactly if it returns false, and an error already there stays |
| SinkRuns.ErrorLatched | src/platform/pros_recording_sink.cpp:148-150 | between two begins the error is the first one raised, and is there exactly if some call returned false |
| SinkRuns.FirstFreeName | src/platform/pros_recording_sink.cpp:49-64 | the search stops within its attempts; it creates the first free name, counting modulo 2^32, and nothing else, or nothing, and then every name was taken or a call failed otherwise |
| SinkRuns.BegunSession | src/platform/pros_recording_sink.cpp:76-86 | after a begin that returns true the file is one durable header that reads back as naming the session, start time and run asked for and every field of the metadata, and its storage sequence and start time are those parsed from the directory's name |
| SinkRuns.BoundedLoss | src/platform/pros_recording_sink.cpp:88-106 | after a write that returns true the flush counter is the number of blocks since the last successful flush, also across failed ones; all before these are durable, and they are at most 49, unless 2^32 or more blocks went by without a successful flush |
| SinkOutcomes.BeginRefused | src/platform/pros_recording_sink.cpp:33-43 | a begin without a card fails with CardMissing, one for a robot without a name with DirectoryCreate, and neither makes a directory |
| SinkOutcomes.BeginOutcome | src/platform/pros_recording_sink.cpp:38-86 | with a card and a name, begin returns true exactly if one of the 10000 names is free and each C library call works, and else leaves the error of the first that does not; CardMissing is never among them |
| SinkOutcomes.WriteOutcome | src/platform/pros_recording_sink.cpp:88-106 | write returns true exactly if there is a stream with a writing encoder, a batch that fits, both fwrite calls take all and, at the fiftieth block since the last flush, the flush works; else which error |
| SinkOutcomes.FinishOutcome | src/platform/pros_recording_sink.cpp:108-132 | finish returns true exactly if the footer is taken and flush, close and rename work; else the error of the first that does not |
| SinkOutcomes.IntactWrites | include/robot/telemetry/recording_codec.hpp:27-66 | an open session's encoder is writing, so write and finish are not refused for want of one |
| SinkOutcomes.AbortKeepsData | src/platform/pros_recording_sink.cpp:134-140 | abort makes all that was written durable if its flush or its close works |
| SinkCrashes.EveryMomentOfCall | src/platform/pros_recording_sink.cpp:26-146 | at every moment of any call that does not commit, the session's file starts with what was durable and is a beginning of one recording |
| SinkCrashes.ClosedFilesUntouched | src/platform/pros_recording_sink.cpp:26-146 | a file the sink no longer writes keeps its bytes through every later call |
| RecordingSink.ByteWriter.WriteBytes | src/platform/pros_recording_sink.cpp:142-146 | true exactly if the stream took every byte |
| RecordingSink.RecordingFileEncoder.Begin | include/robot/telemetry/recording_codec.hpp:27-37 | resets the encoder, takes the writer and emits the header |
| RecordingSink.RecordingFileEncoder.Append | include/robot/telemetry/recording_codec.hpp:39-66 | numbers the block, emits its header and payload, and counts the frames only if both were taken |
| RecordingSink.RecordingFileEncoder.Finish | include/robot/telemetry/recording_codec.hpp:68-84 | emits the footer and gives up the writer |
| RecordingSink.ProsRecordingSessionSink.RaiseError | src/platform/pros_recording_sink.cpp:148-150 | the first error stays |
| RecordingSink.ProsRecordingSessionSink.EnsureDirectory | src/platform/pros_recording_sink.cpp:20-24 | succeeds if the directory is created or there already |
| RecordingSink.ProsRecordingSessionSink.AllocateDirectory | src/platform/pros_recording_sink.cpp:49-64 | at most 10000 attempts, the sequence wrapping around; the result and the card are those of the search whose outcome FirstFreeName describes |
| RecordingSink.ProsRecordingSessionSink.StartSession | src/platform/pros_recording_sink.cpp:66-85 | paths, stream, header and flush, with the error of whichever fails |
| RecordingSink.ProsRecordingSessionSink.Begin | src/platform/pros_recording_sink.cpp:26-86 | aborts an open stream and clears error, encoder and counter, then either leaves a streaming session in a new directory or fails with the error of the step that failed; every field and the card as the protocol says |
| RecordingSink.ProsRecordingSessionSink.Write | src/platform/pros_recording_sink.cpp:88-106 | refuses without a stream or frames, else emits one block; the batch counts only if every byte was taken |
| RecordingSink.ProsRecordingSessionSink.CountBlock | src/platform/pros_recording_sink.cpp:98-105 | every fiftieth block is followed by a flush; a failed one is retried by the next block |
| RecordingSink.ProsRecordingSessionSink.Finish | src/platform/pros_recording_sink.cpp:108-132 | footer, flush, close and rename in this order, stopping at the first failure with its error; the stream is gone once close was called |
| RecordingSink.ProsRecordingSessionSink.Abort | src/platform/pros_recording_sink.cpp:134-140 | flushes and closes an open stream, whatever either returns, and leaves none |
| RecordingTask.RecordingWorker.TickOnce | include/robot/telemetry/recording.hpp:232-272 | begin, drain one batch, finish or fail, as asked; worker, sink and card end in the state whose properties TicksDisciplined and NoSilentLoss give |
| RecordingTask.RecordingWorker.DrainBatch | include/robot/telemetry/recording.hpp:275-279 | pops until the ring fails or eight frames are popped, and writes them if there are any; ends as the specified stage |
| RecordingWorker.TicksDisciplined | include/robot/telemetry/recording.hpp:232-293 | between ticks an open session has had no failure and fewer than 50 unflushed blocks, a closed one holds no stream, and every archive is of an intact session |
| RecordingSurvival.ArchivesVerify | include/robot/telemetry/recording.hpp:223-302 | every DATA.V5L that appears in any run of the worker is a whole recording, which the verifier calls complete exactly if it has frames and its footer still names the first, as it does below 2^32 frames |
| RecordingArchives.ArchiveOfTicks | include/robot/telemetry/recording.hpp:223-302 | every DATA.V5L that appears in any run of the worker was committed by one tick, which found the session closing and the ring empty, and begun by one not after it, which named its session, start time and card; it holds exactly the batches popped from the one to the other, and its footer and the verifier's report tell the ring's drops at the end minus those at the beginning, modulo 2^32 |
| RecordingSurvival.NoSilentLoss | include/robot/telemetry/recording.hpp:232-293 | a tick leaves an open or requested session recording, or commits it, or reports exactly one cause, the sink's first error |
| RecordingSurvival.AcknowledgedFramesSurvive | include/robot/telemetry/recording.hpp:223-302 | after a loss of power at any later moment of any run, however long, one of the session's files gives back every acknowledged block but the last 49, followed only by what the session was given; and every frame of them, if these are fewer than 2^32 |
| RecordingControl.EverySessionAccounted | include/robot/telemetry/recording.hpp:63-186 | over all interleavings of the three tasks, returning to idle is never refused; each requested session is cancelled, in progress, committed, or ended by one failure or refusal; and the alerts are these and one for each start refused for want of a recorder |
| RecordingControl.StaleStopSettles | include/robot/telemetry/recording.hpp:110-122 | a state that is closing without a session is returned to idle within six steps of the worker, however the tasks interleave, and nothing is started, ended, refused or failed until then |
| RecordingControl.StartsRecording | include/robot/telemetry/recording.hpp:232-256 | however the tasks interleave, a session asked for is being recorded within six steps of the worker, if no stop comes and the sink does what it is asked |
| RecordingControl.StopCommits | include/robot/telemetry/recording.hpp:258-272 | however they interleave, an open session to be closed is committed within six steps of the worker, if the ring is empty and the sink does what it is asked |
| RecordingControl.StartsFromPresses | include/robot/telemetry/recording.hpp:63-131 | every start and every start refused comes from a press of its own; none is refused while the recorder is available, none made while it is not |
| RecordingControl.PressTakesEffect | include/robot/telemetry/recording.hpp:90-122 | a press nothing interrupts starts a session, is refused with an alert without a recorder, or stops one that is recorded |
| RecordingSystem.RunProjects | include/robot/telemetry/recording.hpp:63-302 | every run of control, worker, sink and card together is a run of the control with the sink's own answers, and at every step a run of the worker with what it then read of the control |
| RecordingSystem.SessionsOnCard | include/robot/telemetry/recording.hpp:63-302 | over all interleavings and failures: the control's commits are as many as the new archives on the card, each one whole recording; every requested session is one of these, one reported cause, cancelled or in progress; each cause is one alert, as is each refused start; and a stream is open exactly while a session is |
| JsonText.JsonEscape | tools/v5l_inspect.cpp:89-113 | the loop computes the escaped text |
| JsonText.EscapeRoundTrip | tools/v5l_inspect.cpp:89-113 | a JSON string scanner reads back exactly the text and stops exactly after it, whatever follows |
| JsonText.EscapeInjective | tools/v5l_inspect.cpp:89-113 | different texts are escaped differently |
| JsonText.EscapeClean | tools/v5l_inspect.cpp:89-113 | escaped text has no byte below 0x20, and no quote that is not part of an escape |
| Json.ParseOfPrint | tools/v5l_inspect.cpp:194-244 | parsing a printed value gives it back and stops exactly after it |
| Json.DocumentRoundTrip | tools/v5l_inspect.cpp:310-336 | a printed value and a line end are one well-formed document holding that value |
| FaultLists.PrintFaultsJson | tools/v5l_inspect.cpp:135-145 | prints the JSON array of the names of the set bits |
| FaultLists.FaultNamesRoundTrip | tools/v5l_inspect.cpp:68-81 | the names decode to exactly the known bits, for every 32-bit value |
| FaultLists.NamesOfBits | tools/v5l_inspect.cpp:68-81 | which of the twelve names is printed for which bit of any value |
| FaultLists.PrintFaultsHuman | tools/v5l_inspect.cpp:121-133 | prints NONE for zero, else the names of the set bits with commas between them |
| FaultLists.HumanListFaithful | tools/v5l_inspect.cpp:121-133 | NONE exactly for zero; otherwise the same names in the same order as the JSON list, or nothing if only unknown bits are set |
| FaultReports.FinishedNames | tools/v5l_inspect.cpp:121-145 | of a finished recording below 2^32 frames, SEQUENCE_GAP, TIME_REGRESSION, RUN_MISMATCH and NO_FRAMES are printed exactly if its frames have a gap, a step back in time, one of another run, or if there are none; and nothing else |
| FaultReports.FooterNames | tools/v5l_inspect.cpp:121-145 | with any footer after a recording's blocks, FOOTER_MISMATCH is printed exactly if it does not tell their counts and ends |
| FaultReports.CutNames | tools/v5l_inspect.cpp:121-145 | of a recording cut anywhere TRUNCATED is printed, and what the recovered frames show, and nothing else |
| FaultReports.HeaderNames | tools/v5l_inspect.cpp:121-145 | of a file whose header is not sealed or not ours BAD_HEADER is printed, of another format UNSUPPORTED_FORMAT, and nothing else |
| FaultReports.DamageNames | tools/v5l_inspect.cpp:121-145 | of a file that holds some whole blocks and then anything but the next block or a footer at its end, exactly the name of the damage is printed, among TRUNCATED, BAD_BLOCK_HEADER, BAD_PAYLOAD, BAD_FOOTER and TRAILING_DATA, with what the frames seen show; it is not complete, and the blocks before are counted |
| InspectReport.FixedTextField | tools/v5l_inspect.cpp:83-87 | the field's bytes up to its first zero, or all of them |
| InspectReport.PrintJson | tools/v5l_inspect.cpp:194-244 | prints the entry's 34 members in order |
| InspectReport.EntryCounts | tools/v5l_inspect.cpp:194-244 | under which name each of the entry's path, status, faults, counts, ends and sizes stands |
| InspectReport.EntryHeader | tools/v5l_inspect.cpp:205-225 | the same for the header's texts, formats and sequences |
| InspectReport.EntryRobot | tools/v5l_inspect.cpp:218-232 | the same for its hashes and the robot's revisions |
| InspectReport.PrintHuman | tools/v5l_inspect.cpp:147-192 | prints the whole report of one file, in order, but for how seconds are printed |
| InspectReport.HashPrinted | tools/v5l_inspect.cpp:177-182 | eight digits are printed of each hash, and they name it |
| InspectReport.PrintIoError | tools/v5l_inspect.cpp:316-320 | prints the entry of an unreadable file |
| InspectReport.ReportDetermined | tools/v5l_inspect.cpp:194-244 | entries printed alike have the same path, status, known faults, counts, sizes and printed header fields |
| Paths.Sort | tools/v5l_inspect.cpp:301 | sorts by unsigned bytes |
| Paths.LessMeans | tools/v5l_inspect.cpp:301 | where two paths first differ, the one that ends or has the smaller byte comes first |
| Paths.OneSortedList | tools/v5l_inspect.cpp:301 | every algorithm that sorts gives the same list |
| Paths.Unique | tools/v5l_inspect.cpp:302 | keeps one of each run of equal paths |
| Paths.CanonicalKeeps | tools/v5l_inspect.cpp:301-302 | the result is strictly increasing and has the same paths |
| Paths.CanonicalOfSet | tools/v5l_inspect.cpp:301-302 | two collections give the same list exactly if they hold the same paths |
| Inspect.ReadArguments | tools/v5l_inspect.cpp:249-258 | the flag is set exactly if --json is among the arguments, and all others are inputs, in order |
| Inspect.InputsMean | tools/v5l_inspect.cpp:251-258 | every argument but the flag is an input |
| Inspect.CollectPaths | tools/v5l_inspect.cpp:265-300 | plain inputs and the .V5L and .TMP files of directories, in order, and whether any scan failed |
| Inspect.ExtensionMeans | tools/v5l_inspect.cpp:284-291 | a regular file counts if its extension is V5L or TMP, in capitals or not |
| Inspect.CollectedMeans | tools/v5l_inspect.cpp:265-300 | a path is collected exactly if it is an input that is no directory, or of a recording met in one that is |
| Inspect.ReportAll | tools/v5l_inspect.cpp:308-338 | both modes print one report per path, in order, unreadable files to the error stream in the human one; the status is 1 exactly if a scan failed or a file could not be read, else 2 exactly if some file did not pass, else 0 |
| Inspect.Run | tools/v5l_inspect.cpp:248-339 | status 1 and a message without inputs or without files, else the report on the distinct paths in ascending order |
| Inspect.ExitMeans | tools/v5l_inspect.cpp:248-338 | status 0 exactly if there were inputs and files, every directory could be listed, every file read and passed; 2 exactly if only this last is missing; else 1 |
| Inspect.OutputRoundTrip | tools/v5l_inspect.cpp:310-336 | the whole JSON output parses to an array with one entry per distinct path in ascending order |
| Inspect.EntryTells | tools/v5l_inspect.cpp:194-212 | each entry starts with its path and whether it was unreadable, deficient or passed, and holds the names of its faults and its header's texts |
| Inspect.OrderIrrelevant | tools/v5l_inspect.cpp:249-338 | two runs whose collected paths form the same set of files, read alike, print the same report and end with the same status, whatever their inputs and however their directories were walked |
| Inspect.InputOrderIrrelevant | tools/v5l_inspect.cpp:249-338 | in particular, the order and repetition of the inputs do not matter |
| Inspect.PassMeans | tools/v5l_inspect.cpp:115-119 | a finished recording passes exactly if it has frames, none was dropped, and they run without gap, step back in time or frame of another run |
| AlertRelay.NoSpuriousAlerts | src/main.cpp:111-162 | over all interleavings successful rumbles never exceed alerts plus the one unhealthy self-check, and each iteration tries to rumble or draws, never both |
| AlertRelay.RumblesCaused | src/main.cpp:111-162 | of any steps, successful rumbles are no more than the alerts and the one failed self-check among them |
| AlertRelay.AlertsDelivered | src/main.cpp:132-162 | whenever both tasks are caught up, with fewer than 2^32 alerts not relayed and fewer than 2^32 writes not answered, each step that raised an alert, and one with which the self-check failed, is followed by a rumble that succeeded |
| AlertRelay.CaughtUpExactly | src/main.cpp:132-162 | of the states in which both tasks are caught up, the bounds hold of exactly those in which everything was relayed and answered |
| AlertRelay.PendingStaysPending | src/main.cpp:147-162 | an alert stays pending over any number of failed rumbles, and the next look finds it |
| AlertRelay.OverrunLost | src/main.cpp:136-142 | 2^32 alerts between two looks of the telemetry task go unnoticed |
| AlertRelay.BoxOverrunLost | src/main.cpp:147-156 | and so do 2^32 relayed alerts between two looks of the controller task |
| RobotAlerts.RecordingAlertsDelivered | src/main.cpp:93-162 | of the whole robot from power on, over all interleavings: every alert of the recording control comes after the self-check, is relayed and answered once the tasks are caught up, as is an unhealthy self-check, with fewer than 2^32 alerts not relayed and fewer than 2^32 writes not answered; and nothing else rumbles but one unhealthy check |
| Lifecycle.RobotRuntime.RunStartupSelfCheck | src/main.cpp:93-115 | ends with the first sample that completes the check, and publishes an alert exactly if unhealthy |
| Lifecycle.CheckTiming | include/robot/platform/hardware_self_test.hpp:80-121 | the self-check never ends before three seconds, ends with the first sample after five, in between once every required device has answered, and at three already if nothing can help |
| Lifecycle.RobotRuntime.InitializeHardware | src/main.cpp:85-91 | the drive is initialised only with a valid configuration |
| Lifecycle.RobotProgram.InitializeRobot | src/main.cpp:222-266 | tries hardware, output task, other tasks and self-check in this order, the output task only after the hardware; publishes an alert exactly if unhealthy, last; shows the first thing missing |
| Lifecycle.LinesMean | src/main.cpp:250-262 | each line is shown exactly for the first thing missing that it names |
| Lifecycle.RobotProgram.RunOpcontrol | src/main.cpp:282-290 | stays locked or enters the control loop once, the state otherwise unchanged; ControlGate says when |
| Lifecycle.ControlGate | src/main.cpp:222-290 | after any callbacks, driver control enters the control loop exactly if the last start-up had a valid configuration, an initialised drive and both tasks |
| Lifecycle.OthersDisable | src/main.cpp:268-281 | after any callbacks, every other one disables the robot if there has been a start-up, and changes nothing else |
| Lifecycle.StartInOrder | src/main.cpp:222-266 | what a start-up does, in order: hardware, output task only with it, the other tasks, disabling, self-check, and an alert exactly if that failed |
| Lifecycle.ControlRunsAfterCheck | src/main.cpp:93-119 | wherever the control loop was entered, all events of the start-up of a drivable robot came before, in order and up to its completed self-check, and no other start-up in between |

## Left out

- InspectReport.PrintHuman: how a duration is printed in seconds, in floating point, is a parameter.
- FileRecordingByteReader: a bounds check around a file stream; a reader that may refuse any read stands for it.
- JsonText.EscapeRoundTrip: the scanner takes `\u` escapes for single characters and refuses surrogates; the printer emits only those below 0x20.
- Json.ParseOfPrint: the parser takes no negative, fractional or exponent numbers and no `null`, which are never printed.
- Inspect.CollectPaths: the directory walk and the extension that the file system library gives a path are inputs.
- Paths.Sort: the library's sorting algorithm; an insertion stands for it, and OneSortedList says that it does not matter.
- RecordingTask.RecordingWorker.TickOnce: the ring itself, the frames discarded after a failure, and the control; what a
  tick pops and what it reads of the control are inputs here; RecordingSystem takes the latter from the control itself.
- RecordingSystem.SessionsOnCard: the session's number and start time, which the worker reads of the control, stay inputs.
- RecordingControl.EverySessionAccounted: the button's debouncing and epochs; any press may start or stop a session.
- RecordingAccess.CopyVerifiedRecordingFrame: a copy beyond the data gives no frame here; FramesComeBack shows that it does not happen below 2^32 frames.
- AlertRelay.AlertsDelivered: by itself needs that no alert precedes the end of the self-check; RobotAlerts proves it.
- RobotAlerts.RecordingAlertsDelivered: one start-up, from power on; that driver control is called only once `initialize`
  has returned is an assumption about the kernel.
- Lifecycle.RobotRuntime.RunStartupSelfCheck: which devices a sample sees and what faults it would end with are inputs.
- makeRecordingMetadata, copyRecordingText and hashRobotConfig: they only fill in the metadata.
- FlightRecorderProducer, SpscRing and the contents of log frames beyond the fields the verifier reads.
- The scheduler, drive, HMI rendering, LCD text and mutex implementations.
