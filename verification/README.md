# Icepod, verified

Icepod records several audio channels at once so that a crash loses nothing that was already acknowledged.
This project models the parts of it that carry that promise and proves what they keep:

- **The store.** `Storage` is a session directory: files with what a process sees of them and what has been
  synced, the manifest's directory entry, and the relation `Crash` that says what the next process may find.
  Every primitive may fail, and nothing else changes the directory. Each notes the state it leaves, in a trace and,
  up to and including the first failure, in a history; so a crash between any two elementary actions, inside the
  channel loops too, is a moment of these. On it run `Journal`, `ManifestFile`, `Recorder` and `Recovery`, in the imperative form of the
  sources. `CrashSafety` is the invariant of every moment, `Endurance` what outlasts even a failure,
  `Durability` the promise; `Retries`, `TornTails`, `LiveRecovery` and `Leftovers` are its limits.
- **The formats.** `Bytes`, `Crc32` (bit by bit), `Postcard` (the payload codec), `JournalFormat` and
  `JournalLaws` (record bytes and the parser), `Rf64` (the audio files, with an independent chunk reader),
  `Interleave` (frames and channels), `Division` (what makes samples whole frames). `WireFormat` and `AudioFormat`
  tell the bytes of journal and audio files in numbers, without the writers and readers, and `Utf8` what a text is.
- **The realtime handoff.** `HandoffMachine` is the protocol of callback, worker and the two rings, one ring
  operation or copy per step, worker steps anywhere in between. `HandoffLaws` proves its invariant,
  `HandoffRuns` what whole runs deliver, in terms of the callback's inputs alone. `Realtime` is the code in its
  own form, each of its actions proved to be a step of the protocol.
- **The service.** `Service` is the command machine around at most one recorder, `ReplayCache` its bounded
  response cache, `Control` the runs of its own state, `Protocol` its alphabet, `State` the transition relation.
  `Answers` and `Clients` are what a client sees of it: how each answer follows from the one before.

## How the main results fit together

The frontiers of a recording are ordered at every moment, by `CrashSafety.Safe`: manifest, then acknowledged
frames, then journaled commits, then synced audio on every channel, then frames submitted. Each elementary
action keeps the order (`GrowKeepsSafe` to `ManifestStepKeepsSafe`), every method of the recorder is built from
those actions, and the recorder carries the order for its whole history, through finalization too; no operation
drops anything from that history, and between two calls its last entry is the present state.
`Durability.EveryCrashIsCovered` joins this to `Recovery.Plan`: after a crash at any such moment before the
first final rename, recovery finds at least what was acknowledged and at most what was submitted, complete on
every channel, up to the last commit that survived. Once something has failed the order may break, but a second
invariant, `Endurance.Secured`, holds of every state of the trace, those inside later calls included: frames
acknowledged before the failure stay durable and recoverable (`Durability.AcknowledgedOutlastFailure`). The renames
end recoverability but not the audio: at every moment each channel's acknowledged samples are in its part file or in
its final file (`Durability.EveryCrashKeepsAudio`, `Durability.EveryCrashKeepsSecured`).

## Where the code and its promises differ

- `docs/crash-recovery.md:18` says that after a failed final rename `.part` remains and recovery can produce
  output. Finalization renames channel by channel and recovery needs every part file, so one rename ends
  recoverability of all channels: `Durability.RecoverableIffUnpublished` gives the exact condition. Finalizing a
  take of several channels always passes through such a moment: `Durability.HalfPublishedIsStranded`.
- A recovery can be repeated exactly if no output of an earlier attempt is there: one that was cut short, by a
  crash or a failed write, after it had created its first file locks the session against every later recovery,
  although all parts and commits are intact: `Retries.RecoverableAgainIff`, `Retries.InterruptedRecovery`.
- `Recover { all: true }` also selects the session being recorded (`crates/icepod-audio-service/src/main.rs:257-273`).
  It succeeds exactly if a frame was committed; then it takes the sequence numbers the recorder uses next, and
  nothing the recorder journals and acknowledges afterwards is ever read back: `LiveRecovery.LivePlan`,
  `LiveRecovery.RecoverLive`, `LiveRecovery.NextRecordReadIff`.
- The byte rate in the format chunk is right exactly for sample rates below 2^30: `Rf64.ByteRateExact`.
- `capture` counts whole frames only. The frame counter and the label of the next block are right exactly if
  every call so far carried whole frames: `HandoffRuns.FramesCountedIffWhole`, `HandoffRuns.NextLabelExactIffWhole`.
  The samples themselves are kept in order in any case.
- The service's own state does not follow the transition relation: pause and resume leave Faulted as if nothing
  had happened, and a failed stop leaves the service Faulted with no recorder, which no command can change:
  `Control.StateMovesIff`, `Control.FailedStopIsFinal`.
- `insert_gap` journals the gap twice, once with the frame at which it starts and once at which it ends; the
  sum of gap records is not the amount of silence. `Recorder.Recorder.InsertGap` states the silence itself.
- `insert_gap` multiplies frames by channels in 64 bits (`crates/icepod-core/src/recorder.rs:212`). From a product
  of 2^64 on, it inserts less silence than it reports, or is refused as ending inside a frame: 2^63 frames on two
  channels are accepted and reported as an incident, and nothing is inserted. A gap has its length if and only if
  the product is below 2^64: `Recorder.GapLengthIff`, `Recorder.WrappedGaps`.
- The disk limit is compared with a product that wraps as well: `Recorder.Recorder.LimitIsExact`,
  `Recorder.Recorder.LimitWraps`.
- A write that fails between two channels leaves its bytes behind, and the next batch is appended to them.
  `Leftovers.InStepIff` says exactly when such a batch is still where the recorder counts it, and
  `Leftovers.AlwaysInStepIff` that only a channel with nothing left on it is safe for every batch.
- `Journal::open` leaves a torn tail in place, so records appended after reopening are read exactly if there was
  none: `TornTails.ReopenedReadableIff`. A recovery behind a torn record therefore leaves no trace that a reader
  of the journal finds: `TornTails.RecoveryReadIff`. The condition these need, `TornTails.Recognizable`, speaks
  only of records torn in the session identity, the sequence number or the payload. For the payload it asks that
  checksums do not collide: five and more altered bytes can have any checksum, so no more can be said there.
  Old records stay a prefix in any case (`JournalLaws.TruncationKeepsPrefix`, `CrashSafety.CommitsNeverDrop`).

## Model

| member | source | states |
|---|---|---|
| `Durability.EveryCrashIsCovered` | crates/icepod-core/src/recorder.rs:164-403 | For any recorder, finalizing or not, and any state its directory went through before the first rename, up to and including the first failed action: after a crash there recovery returns exactly the surviving commits, between the frames acknowledged and the frames submitted, complete on every channel; with no surviving commit nothing had been acknowledged |
| `Durability.PresentIsCovered` | crates/icepod-core/src/recorder.rs:164-325 | Between two calls the present state is one of these, as long as nothing has failed |
| `Durability.CrashDurability` | docs/crash-recovery.md:3-10 | The same for any moment that keeps the durable frontiers in order: the frames recovered are the last surviving commit, and every channel has exactly the first of the submitted frames |
| `Durability.EveryCrashKeepsSecured` | crates/icepod-core/src/recorder.rs:164-403 | For any state the directory ever went through, failures and renames included: after a crash there every channel has, in its part or final file, all samples acknowledged by then without a failure before it; before the first rename recovery returns at least as many frames, unless outputs are in its way |
| `Durability.AcknowledgedOutlastFailure` | crates/icepod-core/src/recorder.rs:193-206 | Frames acknowledged before the first failure outlast it and everything the recorder does later: so it is for a crash at every state from the failing one on, inside calls and between them |
| `Durability.EveryCrashKeepsAudio` | crates/icepod-core/src/recorder.rs:349-367 | Renames included, a crash at any state up to the first failure leaves every acknowledged sample of every channel in its part file or in its final file |
| `Durability.RecoverableIffUnpublished` | crates/icepod-core/src/recorder.rs:428-432 | A crashed take with surviving commits can be recovered if and only if no part file has been renamed |
| `Durability.HalfPublishedIsStranded` | crates/icepod-core/src/recorder.rs:349-367 | A take of several channels that was finalized had a moment at which everything acknowledged was committed and its audio in the files, but at which no crash leaves anything recoverable |
| `Durability.RecoverAfterCrash` | crates/icepod-core/src/recorder.rs:413-492 | Running recovery on what a crash left: status Recovered, never PartiallyRecovered, every acknowledged frame, each output a finished file of the first submitted frames of its channel, and it can only fail by failing I/O once something was acknowledged |
| `Retries.RecoverableAgainIff` | crates/icepod-core/src/recorder.rs:436-467 | A directory that could be recovered, and that still has its parts, its journal and its take, can be recovered again if and only if no output exists; then with no fewer frames, and otherwise it is an output that is in the way |
| `Retries.InterruptedRecovery` | crates/icepod-core/src/recorder.rs:445-449 | A recovery cut short by a crash at any state it noted leaves a directory that can be recovered if and only if it had not created an output yet |
| `Retries.RecoverTwice` | crates/icepod-core/src/recorder.rs:413-492 | Two recoveries in a row: whatever became of the first, the second succeeds only if the first left no output, and then fails only by failing I/O |
| `Retries.SecondRecoveryRefused` | crates/icepod-core/src/recorder.rs:445-449 | A directory on which recovery succeeded makes the next recovery fail on the first existing output |
| `LiveRecovery.LivePlan` | crates/icepod-audio-service/src/main.rs:257-273 | Between calls a working recording can be recovered if and only if it has committed a frame, and then yields all committed frames |
| `LiveRecovery.RecoverLive` | crates/icepod-core/src/recorder.rs:413-492 | Recovery under a live recorder: without effect before the first commit; after it, it fails only by I/O, and no record the recorder journals later is read; frames acknowledged before stay secured |
| `LiveRecovery.LiveRecoveryFreezesFrontier` | crates/icepod-core/src/recorder.rs:478-485 | Behind the two records of a recovery whatever the recorder journals next is rejected for its sequence number, and the committed frontier read back is the one before |
| `LiveRecovery.NextRecordReadIff` | crates/icepod-core/src/journal.rs:146-178 | A recorder's next record is read back if and only if no recovery came in between |
| `TornTails.ReopenedReadableIff` | crates/icepod-core/src/journal.rs:138-153 | Records appended to a reopened journal are read if and only if it had no torn tail, for a recognizable tear at any byte |
| `TornTails.RecoveryReadIff` | crates/icepod-core/src/recorder.rs:478-485 | The two records of a recovery are read if and only if the journal had no torn tail; otherwise only the old records are, or these and the torn one completed by chance |
| `TornTails.TornHeaderIsRejected` | crates/icepod-core/src/journal.rs:193-236 | A record torn inside its header with another behind it is not read: by magic, version, session, sequence, code or length, depending on where it is torn |
| `TornTails.TornChecksumHides` | crates/icepod-core/src/journal.rs:214-224 | A record torn inside its checksum is read only if the next one completes it by chance, and the next one is not read then either |
| `TornTails.TornRecordHides` | crates/icepod-core/src/journal.rs:138-153 | Nothing appended behind a recognizable torn record is read |
| `Leftovers.InStepIff` | crates/icepod-core/src/recorder.rs:193-199 | A batch appended behind what a failed write left on a channel is found where the recorder counts it if and only if these bytes, continued by the batch, begin with the batch |
| `Leftovers.AlwaysInStepIff` | crates/icepod-core/src/recorder.rs:193-199 | Every later batch is in its place on a channel if and only if the failed write left nothing there |
| `Leftovers.OutOfStep` | crates/icepod-core/src/recorder.rs:193-199 | A write of two frames that came to the first sample of one channel and not to the other puts the retry out of step between them |
| `Endurance.SafeIsSecured` | crates/icepod-core/src/recorder.rs:384-396 | While nothing has failed everything acknowledged is secured: durable on every channel, under durable commits of this take |
| `Endurance.JournalKeepsSecured` | crates/icepod-core/src/journal.rs:155-180 | A journal that grows, by complete records or not, keeps secured frames secured |
| `Endurance.JournalStepKeepsSecured` | crates/icepod-core/src/journal.rs:173-176 | So does every state inside an append, torn at any byte or synced |
| `Endurance.ManifestStepKeepsSecured` | crates/icepod-core/src/session.rs:76-91 | So does every state of a manifest replacement within the take, whatever the manifest claims |
| `Endurance.SecuredOutlasts` | crates/icepod-core/src/recorder.rs:413-435 | Secured frames survive a crash: commits that cover them, one session, and their samples on every channel |
| `CrashSafety.CommitsNeverDrop` | crates/icepod-core/src/journal.rs:189-245 | Extending a journal, torn or not, keeps the old records as a prefix and never lowers the largest commit |
| `CrashSafety.SurvivingLastIsLargest` | docs/crash-recovery.md:5 | Of the commits that survive a crash of a recording the last is the largest, so taking the maximum and taking the last agree |
| `CrashSafety.CrashIsRecoverable` | crates/icepod-core/src/recorder.rs:413-435 | What survives a crash of a safe moment commits at least the acknowledged frames, at most the submitted ones, names one session, and has the promised audio on every channel |
| `CrashSafety.SurvivingFrontier` | crates/icepod-core/src/journal.rs:155-178 | Any journal cut at or after its last sync still parses to every durable commit and to no foreign record |
| `CrashSafety.FrontierOfRecords` | crates/icepod-core/src/recorder.rs:417-424 | The maximum that recovery takes over parsed records is the largest commit that was journaled |
| `CrashSafety.CommittedIsLargest` | crates/icepod-core/src/recorder.rs:417-424 | It bounds the count of every commit record read and is the count of one of them, or 0 |
| `CrashSafety.GrowKeepsSafe` | crates/icepod-core/src/recorder.rs:198 | A write to one channel, complete or partial, keeps the frontiers in order |
| `CrashSafety.FlushKeepsSafe` | crates/icepod-core/src/recorder.rs:385-387 | A sync of one channel keeps them in order |
| `CrashSafety.PatchKeepsSafe` | crates/icepod-core/src/recorder.rs:551-559 | Overwriting header bytes, completely or partially, keeps them in order |
| `CrashSafety.MoveKeepsSafe` | crates/icepod-core/src/recorder.rs:365 | A final rename keeps them in order |
| `CrashSafety.MoveKeepsAudio` | crates/icepod-core/src/recorder.rs:365 | A final rename keeps every channel's audio, in its part or its final file |
| `CrashSafety.SubmitKeepsSafe` | crates/icepod-core/src/recorder.rs:164 | Being handed more frames keeps them in order |
| `CrashSafety.AcknowledgeKeepsSafe` | crates/icepod-core/src/recorder.rs:206 | Acknowledging no more than is durably committed keeps them in order |
| `CrashSafety.JournalStepKeepsSafe` | crates/icepod-core/src/journal.rs:173-176 | Every state inside a journal append, torn at any byte or synced, keeps them in order |
| `CrashSafety.AppendedIsSafe` | crates/icepod-core/src/journal.rs:155-178 | A completed append, durable or not, keeps them in order and leaves the journal a complete log |
| `CrashSafety.ManifestStepKeepsSafe` | crates/icepod-core/src/session.rs:76-91 | Every state inside a manifest replacement keeps them in order, if the manifest claims no more than is durable |
| `CrashSafety.UnjournaledIsSafe` | crates/icepod-core/src/recorder.rs:102-137 | Before the journal exists every state of creation is safe |
| `ManifestFile.WriteAtomic` | crates/icepod-core/src/session.rs:76-91 | Write, sync, rename, sync the directory: on success the manifest is named and durable; every state in between names the old or the new one |
| `ManifestFile.ReplaceIsAtomic` | crates/icepod-core/src/session.rs:76-110 | A crash anywhere inside a replacement leaves the old manifest or the new one, never a torn one |
| `Storage.Store.Append` | crates/icepod-core/src/recorder.rs:198 | A write at the end of a file; a failed one leaves some prefix of the bytes, and no file outgrows the largest offset |
| `Storage.Store.Overwrite` | crates/icepod-core/src/recorder.rs:553-556 | A write inside a file; a failed one leaves some prefix of the bytes |
| `Storage.Store.Sync` | crates/icepod-core/src/recorder.rs:386 | A sync makes what the process sees of the file durable, or fails and changes nothing |
| `Storage.Store.Rename` | crates/icepod-core/src/recorder.rs:365 | A rename moves the file with its durable content, or fails and changes nothing |
| `Storage.Store.SyncDirectory` | crates/icepod-core/src/session.rs:98-110 | The directory sync makes the named manifest the one that survives |
| `Recorder.Create` | crates/icepod-core/src/recorder.rs:66-155 | No channels and rate zero are refused in that order; otherwise an I/O error or a recorder whose invariant holds, in state Recording, with one unpublished channel for each label in order, the rate asked for, nothing submitted, marked or noted, and the four opening records journaled |
| `Recorder.CreateParts` | crates/icepod-core/src/recorder.rs:102-119 | The channel loop of creation leaves one header per part file, every state in between safe |
| `Recorder.FirstManifest` | crates/icepod-core/src/recorder.rs:121-136 | The first manifest is durable before the journal exists, every state in between safe |
| `Recorder.Recorder.Begin` | crates/icepod-core/src/recorder.rs:138-153 | The opening records and the second manifest are journaled in order and establish the recorder's invariant |
| `Recorder.Recorder.WriteInterleaved` | crates/icepod-core/src/recorder.rs:164-207 | Exactly when each refusal occurs, and that it changes nothing but for a full disk, which adds one incident and journals it; on success the frames are appended to the take, acknowledged and counted as written and committed, and exactly the two records that say so are journaled; whatever happens the invariant, the take so far, all earlier frames and the history are kept |
| `Recorder.Recorder.WriteParts` | crates/icepod-core/src/recorder.rs:193-199 | The loop over channels: afterwards every file holds its channel of everything submitted |
| `Recorder.Recorder.WritePart` | crates/icepod-core/src/recorder.rs:193-199 | One round: channels up to this one hold the new frames, the others do not yet |
| `Recorder.Recorder.Commit` | crates/icepod-core/src/recorder.rs:384-396 | Sync all, journal the frontier durably, rewrite the manifest, in that order; on success manifest, journal and audio are level |
| `Recorder.Recorder.RecordCommit` | crates/icepod-core/src/recorder.rs:388-394 | The durable commit record may be journaled because every channel is synced |
| `Recorder.Recorder.Record` | crates/icepod-core/src/journal.rs:155-178 | One journal append keeps the file a complete log as long as nothing failed, and every state in between safe |
| `Recorder.Recorder.PersistManifest` | crates/icepod-core/src/recorder.rs:398-402 | The manifest is replaced only by one that claims no more than is durable |
| `Recorder.GapLengthIff` | crates/icepod-core/src/recorder.rs:209-213 | A gap is inserted in the length asked for if and only if frames times channels is below 2^64 |
| `Recorder.WrappedGaps` | crates/icepod-core/src/recorder.rs:209-213 | 2^63 frames on two channels insert nothing; 6148914691236517206 frames on three channels are refused as two samples that make no frame |
| `Recorder.Recorder.LimitIsExact` | crates/icepod-core/src/recorder.rs:177-181 | The configured limit is compared with the true number of audio bytes as long as that is below 2^64 |
| `Recorder.Recorder.LimitWraps` | crates/icepod-core/src/recorder.rs:177-181 | 2^60 frames on four channels pass any limit |
| `Recorder.Recorder.InsertGap` | crates/icepod-core/src/recorder.rs:209-226 | Silence of the wrapped number of samples is submitted and acknowledged, one incident is added, the gap is journaled with the length asked for, once with the frame it starts at and once with the frame it ends at; exactly when it is refused, as not recording or as ending inside a frame, without effect |
| `Recorder.Recorder.Pause` | crates/icepod-core/src/recorder.rs:228-241 | Refused exactly when the transition relation does, without effect; otherwise the manifest's state moves even if journaling then fails, and success journals the start of the pause |
| `Recorder.Recorder.Resume` | crates/icepod-core/src/recorder.rs:243-256 | The same in the other direction, with the end of the pause |
| `Recorder.Recorder.AddMarker` | crates/icepod-core/src/recorder.rs:258-284 | A request answered before gets its marker back and changes nothing; otherwise one marker at the current frame, and a note too long to journal changes nothing |
| `Recorder.MarkerAppended` | crates/icepod-core/src/recorder.rs:258-284 | Distinct request ids and ordered frames within the take survive the addition of a marker for a new request |
| `Recorder.Recorder.RecordIncident` | crates/icepod-core/src/recorder.rs:286-325 | The record of that incident is journaled, the incident listed, and nothing else of the take changes |
| `Recorder.IncidentsToldApartIff` | docs/crash-recovery.md:13 | Two kinds of incident have different journal codes except for exactly two pairs: timestamp and unknown discontinuity, critical disk and writer failure |
| `Recorder.Recorder.Finalize` | crates/icepod-core/src/recorder.rs:327-382 | Refused exactly when the transition relation does; on success every channel's finished, durable file holds exactly the submitted samples under its final name, the manifest is complete, each channel published under its title, everything else in it as it was, and the five closing records are journaled in order; validation can only fail after a failed write; with several channels it has been half published on the way |
| `Recorder.Recorder.PublishAll` | crates/icepod-core/src/recorder.rs:349-367 | The publication loop: channel by channel finished, validated, renamed |
| `Recorder.Recorder.FinishPart` | crates/icepod-core/src/recorder.rs:350-356 | Sizes, sync and validation of one part: the result is the finished file, durable |
| `Recorder.FilledIsFinished` | crates/icepod-core/src/recorder.rs:551-588 | Filling the sizes into header plus audio gives the finished file, which passes validation |
| `Recovery.RecoverSession` | crates/icepod-core/src/recorder.rs:413-492 | On any directory: every error but I/O is the one the directory determines; success returns the determined frame count, finished files of exactly these samples, the manifest classified by whether all commits were recovered, and two more journal records; an error other than I/O leaves the journal alone; every state on the way keeps parts, journal and take |
| `Recovery.Rebuild` | crates/icepod-core/src/recorder.rs:436-485 | The second half: copies, manifest, journal, with the same frame |
| `Recovery.SafeFramesIsGreatest` | crates/icepod-core/src/recorder.rs:428-435 | The frames recovered are the greatest number, not above the commits, that every part file holds completely |
| `RecoveryPlans.RecoversIff` | crates/icepod-core/src/recorder.rs:413-492 | On any directory with a manifest and a journal recovery returns n frames if and only if some commit record says at least n, every part has them, the same is not true of n + 1, no output exists, the rate is not zero and every record is of this session |
| `RecoveryPlans.EarlyErrors` | crates/icepod-core/src/recorder.rs:413-435 | Exactly when recovery answers, before it writes anything, that there is no manifest, no journal, a part missing, and which, or nothing committed |
| `RecoveryPlans.LateErrors` | crates/icepod-core/src/recorder.rs:440-478 | Exactly when a recovery that has frames to return is stopped by an output that exists, the first of them, by a zero rate or by a record of another session |
| `Recovery.Narrow` | crates/icepod-core/src/recorder.rs:428-432 | The narrowing loop computes that number, or names the first missing part |
| `Recovery.CopyAll` | crates/icepod-core/src/recorder.rs:438-467 | The copy loop rebuilds every channel or stops at the error the directory determines, adding outputs only |
| `Recovery.CopyChannel` | crates/icepod-core/src/recorder.rs:440-466 | One channel: a new synced file equal to the finished file of the part's first samples |
| `Recovery.ReadThenWrite` | crates/icepod-core/src/recorder.rs:459-462 | Copying bytes and copying samples are the same: writing the samples read gives the bytes back |
| `Recovery.JournalRecovery` | crates/icepod-core/src/recorder.rs:478-485 | The reopened journal is refused exactly for a foreign record, and otherwise gets the two recovery records with the next sequence numbers |
| `Journal.Journal.Append` | crates/icepod-core/src/journal.rs:155-178 | Refused exactly for an oversized payload, without effect; on success exactly the record's bytes, synced if asked, and the next sequence number; every state in between is a prefix of that write |
| `Journal.Create` | crates/icepod-core/src/journal.rs:126-136 | An exclusive create, sequence numbers from 0 |
| `Journal.Open` | crates/icepod-core/src/journal.rs:138-153 | Refused exactly for a foreign record; continues after the last readable record |
| `JournalFormat.ParseLoop` | crates/icepod-core/src/journal.rs:189-245 | The parsing loop computes the recursive parser, on all bytes |
| `JournalFormat.WrittenIsParsed` | crates/icepod-core/src/journal.rs:155-178 | What append wrote is parsed back, whatever follows it |
| `JournalFormat.WrittenIsRejected` | crates/icepod-core/src/journal.rs:232-236 | A record that does not continue its predecessor is not read |
| `JournalFormat.TornIsRejected` | crates/icepod-core/src/journal.rs:206-212 | A record cut at any byte is not read |
| `JournalFormat.ParseIsLocal` | crates/icepod-core/src/journal.rs:193-241 | Reading a record depends on that record's bytes only |
| `WireFormat.OpeningRecords` | crates/icepod-core/src/journal.rs:82-110 | Record codes 1 to 4 with payloads 0 to 3, written and read: the bytes of each record, in numbers, are what append writes for it and what the parser takes for it, whatever follows |
| `WireFormat.ClosingRecords` | crates/icepod-core/src/journal.rs:82-110 | The same for the other records without fields, codes 18, 20, 21 and 22 |
| `WireFormat.FrameRecords` | crates/icepod-core/src/journal.rs:15-79 | The same for the records that count frames: code 5 and variant 4 are frames written, code 6 and variant 5 frames committed, 19 and 18 a stopped segment, 23 and 22 a completed recovery, for every count |
| `WireFormat.EventRecords` | crates/icepod-core/src/journal.rs:15-79 | The same for pauses, xruns, lost devices and disk space |
| `WireFormat.WideRecords` | crates/icepod-core/src/journal.rs:15-79 | The same for the records with several fields: identity, frame and note of a marker; frame and missing count, if any; frame and length of a gap; the text of a fault |
| `WireFormat.IncidentRecords` | crates/icepod-core/src/recorder.rs:286-325 | The code and payload with which each incident is journaled |
| `WireFormat.LargestPayload` | crates/icepod-core/src/journal.rs:157-206 | Writer and reader refuse payloads of more than 2^20 bytes, and no others for their size |
| `WireFormat.VarintGroups` | crates/icepod-core/src/journal.rs:156 | Byte i of an encoded integer is its i-th group of seven bits, lowest first, the top bit set on all but the last, and none is spent needlessly |
| `WireFormat.ChecksumOrder` | crates/icepod-core/src/journal.rs:172 | A checksum is stored least significant byte first |
| `Postcard.DecodedVariant` | crates/icepod-core/src/journal.rs:225-230 | Whatever decodes to a record kind starts with the variant of that kind |
| `Utf8.ValidUtf8Iff` | crates/icepod-core/src/journal.rs:225-230 | The texts that decoding accepts are exactly the encodings of Unicode scalar values |
| `Bytes.LittleEndian` | crates/icepod-core/src/journal.rs:165-172 | Two, four and eight byte numbers are written least significant byte first |
| `JournalLaws.LogIsParsed` | crates/icepod-core/src/journal.rs:189-245 | A log parses back to exactly its records; any bytes after it leave them a prefix |
| `JournalLaws.ReopenedLog` | crates/icepod-core/src/journal.rs:138-178 | Appends over several open sessions are one log, with sequences 0, 1, 2 and so on |
| `JournalLaws.TruncationKeepsPrefix` | crates/icepod-core/src/journal.rs:189-245 | For all byte strings, the records of a prefix are a prefix of the records of the whole |
| `JournalLaws.CutLog` | crates/icepod-core/src/journal.rs:252-276 | A written log cut at any byte yields exactly the records wholly inside the cut |
| `JournalLaws.CorruptionIsDetected` | crates/icepod-core/src/journal.rs:193-224 | Changing up to four consecutive checksummed bytes outside the length field, or the stored checksum, of any record makes the parser return exactly the records before it |
| `JournalLaws.ParserSound` | crates/icepod-core/src/journal.rs:189-245 | On arbitrary bytes: records of one session, consecutive sequences, each backed by its own adjacent range with matching magic, version, length, code, payload and checksum |
| `Crc32.BurstDetected` | crates/icepod-core/src/journal.rs:220-224 | Two inputs that differ inside a window of at most four bytes have different checksums |
| `Crc32.UpdateInjective` | crates/icepod-core/src/journal.rs:220-222 | The register after any data determines the register before it |
| `Crc32.ChecksumRoundTrip` | crates/icepod-core/src/journal.rs:172 | A checksum stored little-endian reads back |
| `Crc32.CheckValue` | crates/icepod-core/src/journal.rs:172 | The checksum of the digits 1 to 9 is the published check value |
| `Postcard.CodecRoundTrip` | crates/icepod-core/src/journal.rs:156 | Every record payload decodes to what was encoded, also with bytes after it, as the reader tolerates |
| `Postcard.VarintRoundTrip` | crates/icepod-core/src/journal.rs:225-230 | A variable-length integer reads back, with its tail |
| `Postcard.ShortWithoutText` | crates/icepod-core/src/journal.rs:157-162 | Only payloads with text can be too large to journal |
| `Bytes.FixedWidthRoundTrip` | crates/icepod-core/src/journal.rs:165-172 | Every fixed-width number reads back from its little-endian bytes |
| `Rf64.Header` | crates/icepod-core/src/recorder.rs:494-549 | 690 bytes for every label, identity and sample rate |
| `Rf64.FinishedIsValid` | crates/icepod-core/src/recorder.rs:551-588 | After finalization validation accepts, for every identity, nonzero rate and audio |
| `Rf64.ReadsBack` | crates/icepod-core/src/recorder.rs:494-559 | An independent reader, which walks the chunks and refuses a file whose block alignment or byte rate does not fit its other numbers, gets back the rate, 32-bit float mono in frames of four bytes, the texts, originator and version of bext, each cut or zero-padded to its field, and exactly the samples |
| `AudioFormat.HeaderIs` | crates/icepod-core/src/recorder.rs:494-549 | All 690 bytes of a header, in numbers and in order |
| `AudioFormat.FinishedIs` | crates/icepod-core/src/recorder.rs:551-559 | A finished file is these bytes with the sizes for its samples, and the samples |
| `AudioFormat.SampleAt` | crates/icepod-core/src/recorder.rs:195-197 | Where each byte of each sample is |
| `AudioFormat.StampReads` | crates/icepod-core/src/recorder.rs:511-528 | The description names session, take, channel and device, in this order and wording |
| `AudioFormat.PublishedFile` | crates/icepod-core/src/recorder.rs:349-367 | The part file and the final file of a channel, byte for byte, from manifest, device and frames |
| `AudioFormat.RecoveredFileIs` | crates/icepod-core/src/recorder.rs:440-466 | The recovered file of a part that carries the first n frames, byte for byte; its device is "recovered" |
| `AudioFormat.ValidationSees` | crates/icepod-core/src/recorder.rs:562-588 | Validation accepts a file if and only if its length, its three words, its data size and its sample count are right and the rate is not zero |
| `AudioFormat.DamageIsSeenIff` | crates/icepod-core/src/recorder.rs:562-588 | Damage to a finished file that keeps its length is noticed if and only if it touches bytes 0 to 3, 8 to 15 or 28 to 43 |
| `Rf64.ByteRateExact` | crates/icepod-core/src/recorder.rs:542 | The stated byte rate is four times the sample rate if and only if the rate is below 2^30 |
| `Rf64.SamplesRoundTrip` | crates/icepod-core/src/recorder.rs:195-197 | Samples read back from their bytes |
| `Interleave.TrackOf` | crates/icepod-core/src/recorder.rs:194-197 | The de-interleaving loop produces the bytes of one channel of the frames |
| `Interleave.TrackIsDeinterleaved` | crates/icepod-core/src/recorder.rs:193-200 | Sample f of channel c is interleaved sample f times channels plus c |
| `Interleave.FramesConcat` | crates/icepod-core/src/recorder.rs:195 | Buffers cut at whole frames give the frames of the whole stream |
| `Interleave.FramesOfInterleaved` | crates/icepod-core/src/recorder.rs:195 | Cutting an interleaved buffer gives its frames back |
| `HandoffLaws.StepKeeps` | crates/icepod-core/src/realtime.rs:80-162 | Every step of callback or worker keeps the whole invariant of the handoff |
| `HandoffRuns.BlocksAreConserved` | crates/icepod-core/src/realtime.rs:47-61 | After any run every block is in exactly one place, nothing ever found a ring full, and neither push can be refused next |
| `HandoffRuns.DeliveredInPlace` | crates/icepod-core/src/realtime.rs:81-131 | Delivered blocks have sequence numbers 0, 1, 2 and so on, each is an unbroken part of the input, in order and without overlap, with the timestamp of the call that brought its first sample, never ahead of its start frame, and exactly at it if all calls carried whole frames |
| `HandoffRuns.FramesCountedIffWhole` | crates/icepod-core/src/realtime.rs:108 | Between calls the frame counter equals the frames given in if and only if every call carried whole frames |
| `HandoffRuns.NextLabelExactIffWhole` | crates/icepod-core/src/realtime.rs:95-99 | The next block's start frame names its true position if and only if every call so far carried whole frames |
| `HandoffRuns.FramesBalance` | crates/icepod-core/src/realtime.rs:85-93 | Whole frames in: offered frames are delivered, waiting, current or counted as dropped |
| `HandoffRuns.GapsAreDrops` | crates/icepod-core/src/realtime.rs:96-97 | Whole frames in: the distance between consecutive blocks is exactly the number of frames dropped between them |
| `HandoffRuns.NothingLost` | crates/icepod-core/tests/properties.rs:11-36 | While a block was always available, delivered, waiting, current and unread samples are the input, for any call sizes |
| `HandoffRuns.CanonicalCut` | crates/icepod-core/src/realtime.rs:104-115 | Without drops and flushes block i is piece i of the input cut at the block size |
| `HandoffRuns.ChunkingIndependence` | crates/icepod-core/tests/properties.rs:11-36 | Two such runs over the same samples, in calls of any sizes, with any workers and pools, publish the same blocks and the same partial block |
| `Realtime.Handoff.constructor` | crates/icepod-core/src/realtime.rs:47-78 | A new handoff has its whole pool in the free ring |
| `Realtime.Handoff.Capture` | crates/icepod-core/src/realtime.rs:81-131 | With the worker acting anywhere in between, the call follows the protocol to its end, has consumed its input, drops at most once, and takes a number of rounds bounded by its input, not by the worker |
| `Realtime.Handoff.Round` | crates/icepod-core/src/realtime.rs:82-130 | One round: a drop that ends the call, or progress that fills whole blocks from the second round on |
| `Realtime.Handoff.Acquire` | crates/icepod-core/src/realtime.rs:83-100 | A block is taken exactly if one is free, labelled with the next frame and the call's timestamp; otherwise the rest of the input is counted as dropped |
| `Realtime.Handoff.Publish` | crates/icepod-core/src/realtime.rs:110-129 | The push of a full block always succeeds |
| `Realtime.Handoff.FlushPartial` | crates/icepod-core/src/realtime.rs:133-148 | A block with anything in it is published, an empty one is kept |
| `Realtime.Handoff.Pop` | crates/icepod-core/src/realtime.rs:152-154 | The oldest filled block, with the next sequence number, an unbroken part of what came in and the timestamp of the call that brought its first sample, and at its start frame if only whole frames came in |
| `Realtime.Handoff.Recycle` | crates/icepod-core/src/realtime.rs:156-161 | Returning a popped block is never refused |
| `Realtime.CallsDecide` | crates/icepod-core/src/realtime.rs:81-148 | The inputs and timestamps of a run, and what the run theorems ask of it, depend on the caller's calls only |
| `State.NoShortcutToCompleted` | crates/icepod-core/src/state.rs:27-48 | No run of transitions completes a started take without finalizing or recovering it |
| `State.EnteredFrom` | crates/icepod-core/src/state.rs:27-48 | From where each state can be entered |
| `Service.Service.constructor` | crates/icepod-audio-service/src/main.rs:320-328 | A new service is idle, without recorder, with an empty cache, and valid |
| `Service.Service.Execute` | crates/icepod-audio-service/src/main.rs:58-81 | A wrong token changes nothing; a request whose id is that of one of the last 1024 executed, told by position, gets exactly that response, errors included, and changes nothing; any other is executed once and adds its response, with its effect or with the one error that its failure is answered with, and service and recorder stay coupled |
| `Service.Service.ExecuteCommand` | crates/icepod-audio-service/src/main.rs:83-281 | Every command's effect on recording and service state if it succeeds, what it can fail for and says if not, and field by field what its answer tells; List, Devices, Inspect and what Recover says of other sessions than the live one are a parameter |
| `Clients.NextAnswer` | crates/icepod-audio-service/src/main.rs:283-302 | The answer to any successful command, all eight fields of it, follows from any earlier snapshot of the same state: what each command adds to which count, and that it moves no other |
| `Clients.TwoAnswers` | crates/icepod-audio-service/src/main.rs:58-81 | So it is for a status request and the command after it |
| `Clients.Ask` | crates/icepod-audio-service/src/main.rs:89 | A status request is always answered and changes nothing |
| `Answers.MarkFollows` | crates/icepod-audio-service/src/main.rs:161-167 | A mark raises the number of markers by one, or by none if one answers the request already, and moves nothing else |
| `Answers.FaultFollows` | crates/icepod-audio-service/src/main.rs:212-256 | A fault raises the number of incidents by one, a known gap the frames by its wrapped length, and the state is Faulted exactly after loss of input or disk |
| `Answers.SimulationFollows` | crates/icepod-audio-service/src/main.rs:183-211 | A simulation ends with as many frames written and committed as there were and it adds, at most 2^64 - 1 |
| `Answers.StartFollows` | crates/icepod-audio-service/src/main.rs:122-148 | A start from Armed begins an empty take with as many channels as were pending |
| `Answers.StopFollows` | crates/icepod-audio-service/src/main.rs:168-182 | A stop leaves no session, no counts and the pending channels |
| `Service.Service.Recover` | crates/icepod-audio-service/src/main.rs:257-273 | The live session is selected like any other: before its first commit that is an error without effect, after it a recording that no longer reaches the journal's readers, also if a later session then makes the command fail |
| `Service.Service.Act` | crates/icepod-audio-service/src/main.rs:88-256 | The dispatch of the commands that change the recording, with the effect of each and the errors it can end in |
| `Service.Service.Remember` | crates/icepod-audio-service/src/main.rs:73-79 | Insertion and eviction keep the queue the ids of the last 1024 executed requests, oldest first, and the map exactly their responses |
| `Service.Service.Configure` | crates/icepod-audio-service/src/main.rs:92-121 | Succeeds exactly for a nonzero rate, some channel and one of the states Idle, Configured, Armed and Completed; a refusal changes nothing |
| `Service.Service.Start` | crates/icepod-audio-service/src/main.rs:122-148 | Never discards a recorder; from Armed it begins a recording of the pending configuration or fails only by I/O |
| `Service.Service.Pause` | crates/icepod-audio-service/src/main.rs:149-154 | Exactly when it is refused, and that the manifest moves even if the service's state does not |
| `Service.Service.Resume` | crates/icepod-audio-service/src/main.rs:155-160 | The same in the other direction |
| `Service.Service.Mark` | crates/icepod-audio-service/src/main.rs:161-167 | Exactly one marker answers the request, also when it is repeated after eviction from the cache, and no other marker changes |
| `Service.Service.Stop` | crates/icepod-audio-service/src/main.rs:168-182 | The recorder is given up in any case; success completes the take with all its frames and markers, failure only after failed I/O |
| `Service.Service.Simulate` | crates/icepod-audio-service/src/main.rs:183-211 | Success adds exactly the next frames of the signal, whatever the callback size, and nothing else |
| `Service.Generate` | crates/icepod-audio-service/src/main.rs:198-204 | The nested loops build the interleaved buffer of the signal's frames |
| `Service.Service.InjectFault` | crates/icepod-audio-service/src/main.rs:212-256 | A fault becomes the take's last incident, a known gap as much silence as its wrapped number of samples makes; a gap that cannot be filled changes nothing and says why; only loss of input or disk faults the service, and none the manifest; every other failure is failed I/O |
| `Service.FaultsByName` | crates/icepod-audio-service/src/main.rs:214-250 | Under which name the manifest lists each fault |
| `Service.AddedSamples` | crates/icepod-audio-service/src/main.rs:198-204 | Every sample that a simulation adds is the signal of its channel at its frame |
| `Service.TheOnlyMarker` | crates/icepod-core/src/recorder.rs:258-266 | Among markers in order, the one that answers a request is the only one |
| `ReplayCache.InsertedCaches` | crates/icepod-audio-service/src/main.rs:73-79 | After an insertion the queue is the ids of the last 1024 responses, told by position, and the map takes each of them, and nothing else, to its response |
| `ReplayCache.AnsweredFromRecent` | crates/icepod-audio-service/src/main.rs:65-67 | An id is cached if and only if one of the last 1024 executed requests, told by position, had it, with the response of that request, and at most 1024 are |
| `Control.RunsStayCoupled` | crates/icepod-audio-service/src/main.rs:88-256 | Over every run of commands with any outcomes the service is between states it can leave, records only with a recorder, and has one only while Recording, Paused or Faulted |
| `Control.LifeCycle` | crates/icepod-audio-service/src/main.rs:88-256 | A service can be configured, started, paused, resumed and stopped, and configured and started again, and a take that lost its input can still be stopped; the state after each step |
| `Control.AfterKeepsCoupled` | crates/icepod-audio-service/src/main.rs:88-256 | One command keeps this, and start with a recorder changes nothing |
| `Control.FailedStopIsFinal` | crates/icepod-audio-service/src/main.rs:172-180 | Faulted without a recorder, no run of commands ever leaves that state |
| `Control.StateMovesIff` | crates/icepod-core/src/state.rs:27-48 | The service's state follows the transition relation except exactly for arming, a successful stop, and pause or resume out of Faulted |

## Left out

- Directory entries: names of part files and of the journal are taken to survive once created or renamed; the source syncs the directory for the manifest only.
- Header writes: the many small writes of an audio header are one action, which may be cut anywhere; so is the write of a temporary file and that of `completed.json`, which nothing reads.
- Arithmetic on u64 and u32 wraps as in a release build; a debug build would stop there. Files cannot outgrow 2^63 - 1 bytes, so frame counts of what is on disk never wrap. The size of a block in the handoff is taken not to wrap.
- `Realtime.Handoff`: sequence numbers, frame counts and counters are unbounded, where the source has u64; blocks are values, so the in-place copy into a reused buffer is the splice of a sequence and sharing of buffers is not modelled. A drop or saturation that finds its ring full is decided at that step; rings are assumed linearizable.
- The worker is assumed to return only blocks it popped and not to edit them.
- `Postcard`, `Crc32` and the Uuid type follow their published formats; the crates postcard, crc32fast and uuid are not part of this model. Uuids, timestamps and texts formatted from them are parameters; label and device texts are their bytes.
- Session and file names, and what `sanitize` makes of them: part files are named by channel, which assumes distinct names.
- `Service.Service.Execute`: List, Devices and Inspect, and Recover as far as it concerns other sessions than the live one, are answered by a parameter; so is whether a recovery of several sessions comes to the live one. Texts of errors are named causes. A 64-bit usize is assumed for the callback size.
- Simulated samples are an uninterpreted function of channel and frame; float arithmetic, meters and integer conversion are not modelled.
- After the first I/O error later frames are not promised anything: a retry after a write that failed between two channels can leave them out of step (`Leftovers.OutOfStep`), and the source does not prevent it. What was acknowledged before stays recoverable.
- The memory that a gap or batch needs, after any wrapping of its size, free-space queries, sockets, IPC framing, tokens' files and permissions, device listing, GUI and command line.
- Duration estimates, and the disk limit beyond its place in `write_interleaved`.
