# Playback, settings and storage of the streaming server, modelled in Dafny

The project models ten components of the server and proves what they keep over whole runs or
for all inputs. Each component has its own modules; operations that update state in place are
classes or methods with loops, proved against functions about which the lemmas speak.

| modules | component |
|---|---|
| `Playback`, `PlaybackRuns`, `PlaybackSelection`, `PlaybackIdle`, `PlaybackFields`, `PlaybackEngine`, `SelectionGenerations`, `SelectionRefinement` | streams, leases, selections and idle pausing of `BackendEngineFS` |
| `SettingsProtocol`, `SettingsOrder`, `SettingsSerial`, `SettingsCoordinator` | settings transactions: lock, admission gate, tracker sequences, close and drain |
| `Text`, `Subtitles`, `SubtitleRoundTrip`, `SubtitleTags`, `SubtitlePattern` | WebVTT printing and parsing |
| `Ebml`, `SeekHead`, `SampleTable`, `SampleLookup`, `Residues` | EBML integers, the Matroska SeekHead, MP4 sample-to-chunk tables |
| `Updater`, `UpdaterHelper` | applying an update and rolling it back |
| `PieceCache`, `DiskCache`, `TornPieces`, `PersistRuns` | the piece cache, reassembly and the disk budget |
| `CachedStream` | the chunk-cached stream |
| `CacheCleaner`, `CacheEviction`, `CacheDirectories` | cache eviction by age and size |
| `SingleFlight`, `SingleFlightEngine` | shared probes and hashes |
| `Hls`, `HlsReading` | segments, playlists and their capacity |

`dafny verify dfyconfig.toml` checks everything.

## How runs are modelled

A request handler or task body is one step of the playback machine; a spawned task is a later
step that holds what it captured; the lease sweep is one step that drops the expired leases and
one later step per expired key. The clock only moves forward. Outcomes of calls into a torrent
handle, the file system, the network or the memory cache's eviction are parameters, so the
theorems hold for every outcome. `SelectionGenerations` uses a finer grain, in which drawing a
generation and storing a selection are separate; `SelectionRefinement` proves that the playback
machine refines it. The settings protocol interleaves the phases
of all its tasks; the single-flight and persist protocols interleave the locked sections of all
their callers. The updater's disk lets any operation fail or leave junk behind, and records
every state the files have been in.

## Where the code does not do what it is meant to

Each of these has a condition that says exactly when the property does hold, and a lemma with
a concrete input or run where the condition does not show one by itself.

- The lease sweep does not look at a lease again before it clears the selection
  (`RaceLosesSelection`, `ExpiryExactly`, `OneSelectedExactly`), and a torrent that is registered
  under a lease or selection left over begins with an empty plan (`EarlyLeaseUnselected`,
  `AddExactly`).
- A torrent at rest need not have the selection of its newest activation: the last of its
  pending activations to store can be one that a later one has overtaken
  (`NewestNotAlwaysSelected`, `StoreExactly`, `NewestExactly`).
- Cues at 100 hours or later are printed and then dropped by the parser (`RoundTripExactly`).
- The idle flag forgets a pause when a torrent that was removed while paused comes back
  (`ReturnedPaused`, `FlagsHonestExactly`).
- The sample lookup wraps its 32-bit sums: it can miss the right chunk, go round for ever, or
  come upon the right chunk by accident (`FindsExactly`, `HalfRangeNeverEnds`,
  `EmptyRunNeverEnds`, `EndlessExactly`, `RightByAccident`); and tables are cut at a
  hundred entries (`StscComplete`, `TruncationExactly`).
- Rolling an update back leaves newly installed files in place (`ApplyThenRollback`), and a
  retried update takes its backups from what a first attempt left (`RetryThenRollback`,
  `RemovedThenRetried`).
- Persists that overlap can exceed the cache limit (`WritesAddUp`, `OverlapExceeds`), and a
  piece cut short can pass the length check and give wrong bytes (`TornPieceUnnoticed`,
  `GatheredLength`, `TearExactly`).
- The cached stream's read loop goes round without end when the inner file is shorter than the
  declared length (`PollRead`).
- Nested download directories make the cleaner count files twice (`TotalExactly`,
  `NestedWalkOverEvicts`).
- A file can be probed again right after a probe succeeded (`SecondProbeAfterSuccess`,
  `OneSuccessPerFileExactly`).

## Model

| member | source | states |
|---|---|---|
| `PlaybackSelection.OneSelectedExactly` | enginefs/src/lib.rs:238-345 | in every state of a run of requests, delayed tasks and sweeps, every live lease and per-file stream entry of a registered multi-file torrent names the selected file and the last priority plan names exactly that selection, or none: if and only if no sweep meets a lease that was granted again and no torrent of several files is registered while a selection or live lease of it is left over |
| `PlaybackSelection.OneSelectedFile` | enginefs/src/lib.rs:704-1045 | so from the empty state every run without such meetings ends with one selected file per torrent |
| `PlaybackSelection.AddExactly` | enginefs/src/lib.rs:558-570 | a registration keeps that invariant for its torrent if and only if the torrent has at most one file or nothing of it is left over, since a new engine begins with an empty plan |
| `PlaybackSelection.EarlyLeaseUnselected` | enginefs/src/lib.rs:928-982 | that happens in two steps: a lease granted before its torrent is registered leaves the new torrent with a live lease and no selection |
| `PlaybackSelection.ExpiryExactly` | enginefs/src/lib.rs:264-345 | handling one expired key keeps that invariant if and only if the lease was not granted again after the sweep collected the key |
| `PlaybackSelection.RaceLosesSelection` | enginefs/src/lib.rs:264-345 | the exception is real: a legal run from the empty state ends with a live lease and no selection, because the sweep does not look at the lease again |
| `PlaybackSelection.UninterruptedSweep` | enginefs/src/lib.rs:264-345 | a sweep that handles its collected keys without interruption keeps the invariant for every torrent |
| `PlaybackEngine.ExpireLeasesSelects` | enginefs/src/lib.rs:238-345 | whatever order the lease pass takes the expired keys in, one selected file per torrent is kept |
| `PlaybackSelection.CleanupSelects` | enginefs/src/lib.rs:1277-1409 | a delayed cleanup of any file with any captured generation keeps the invariant |
| `PlaybackSelection.StartSelects` | enginefs/src/lib.rs:704-797 | starting a stream keeps the invariant, whichever resume calls fail |
| `PlaybackSelection.RefreshSelects` | enginefs/src/lib.rs:928-982 | granting or renewing a lease keeps the invariant |
| `PlaybackRuns.StreamsAccounted` | enginefs/src/lib.rs:720-1121 | over every run the per-torrent count is the number of open streams, each per-file count is at most the open streams of the file and equal to it for torrents with at most one file, and no zero entry is stored |
| `PlaybackRuns.AccountedStep` | enginefs/src/lib.rs:854-857 | each single request, task and sweep step keeps that accounting, including the pruning of other files' entries at an activation |
| `PlaybackIdle.IdlePausedExactly` | enginefs/src/lib.rs:1159-1249 | in every state of a run an idle-paused torrent has no counted stream, no live lease and no selection: if and only if each activity on it while it is paused gets one of its resume calls through |
| `PlaybackIdle.IdlePausedIsIdle` | enginefs/src/lib.rs:755-875 | so it holds throughout every run from the empty state whose resume calls for the torrent succeed |
| `PlaybackIdle.ServeQuietExactly` | enginefs/src/lib.rs:755-1045 | each request keeps that if and only if it wakes the torrent where it has to; renewing a live lease never has to |
| `PlaybackIdle.FlagsHonestExactly` | enginefs/src/lib.rs:467-530 | whatever pause and resume calls fail, in every state of a run the idle flag says whether this code last paused or last resumed the torrent: if and only if no torrent is registered again that was removed while paused |
| `PlaybackIdle.ReturnedPaused` | enginefs/src/engine.rs:39-59 | that does happen: added, paused by the sweep, removed by the sweep and added again, a torrent is paused while the flag of its new engine says it is not |
| `PlaybackIdle.StartWakesExactly` | enginefs/src/lib.rs:755-772 | a stream started on an idle-paused torrent leaves it consistent if and only if one of the resume calls made for it succeeds |
| `PlaybackFields.PausesExactly` | enginefs/src/lib.rs:467-530 | the sweep or a delayed task turns an awake torrent's idle flag on if and only if seeding is off, no stream is counted, no lease is live at that time, nothing is selected, nobody reads it, its metadata is known and the pause call succeeds |
| `PlaybackFields.FieldsAfter` | enginefs/src/lib.rs:704-1409 | every request, task and sweep step told field by field from the state before: which torrents are registered, each flag and plan, each lease with its 300 seconds, each counter, selection and generation, the active file, the clock and the policy |
| `PlaybackFields.TasksFollow` | enginefs/src/lib.rs:1089-1145 | which cleanup, pause, resume and expiry tasks a step adds, with the generation a cleanup captures, and which one it takes away |
| `PlaybackEngine.JudgedExactly` | enginefs/src/lib.rs:467-530 | the sweep's idle pass pauses exactly the engines that are awake and idle in that sense, and leaves the others as they are |
| `PlaybackEngine.LeasePassClears` | enginefs/src/lib.rs:238-345 | the lease pass clears exactly the selections whose file's lease expired and that nothing streams, in whatever order it takes the keys |
| `SelectionGenerations.StaleCleanupSpares` | enginefs/src/lib.rs:833-848 | with generation draw and selection insert as separate steps, under any interleaving a cleanup never removes a selection stored after the cleanup was scheduled, even of the same file |
| `SelectionRefinement.RunsRefine` | enginefs/src/lib.rs:818-848 | every run of the playback machine is matched, with the same selections, generations and pending cleanups, by a run of the finer machine in which each activation stores as soon as it has drawn |
| `SelectionRefinement.PendingCleanupSpares` | enginefs/src/lib.rs:1277-1346 | so in every playback run a cleanup pending at some point leaves alone every selection made after that point, even of the same file |
| `SelectionRefinement.StepMatches` | enginefs/src/lib.rs:1277-1346 | each single request, task and sweep step is some undisturbed actions of the finer machine |
| `SelectionGenerations.OrderedAlways` | enginefs/src/lib.rs:1277-1346 | over every interleaving, generations in use are never drawn again and a cleanup matches only selections older than itself |
| `SelectionGenerations.AtomicActivationsNewest` | enginefs/src/lib.rs:833-848 | over every run in which each activation stores its selection as soon as it has drawn its generation, every selection carries the newest generation drawn for its torrent |
| `SelectionGenerations.StoreExactly` | enginefs/src/lib.rs:833-836 | one store, on a torrent with a selection or without, leaves every torrent at rest with the selection of its newest activation if and only if other activations of its torrent are still pending or it is the newest itself |
| `SelectionGenerations.NewestExactly` | enginefs/src/lib.rs:833-848 | over every run from the start, with any number of activations in flight: a torrent with no activation under way always has the selection of its newest one, if any, if and only if no store ends its torrent's pending activations after a later one has drawn |
| `SelectionGenerations.NewestNotAlwaysSelected` | enginefs/src/lib.rs:833-836 | the exception is real: two activations that store in the opposite order leave the torrent at rest with the older selection |
| `PlaybackEngine.BackendEngineFs.OnStreamStart` | enginefs/src/lib.rs:704-737 | the in-place code computes the state function about which the run theorems are proved |
| `PlaybackEngine.BackendEngineFs.ActivateRequestedFile` | enginefs/src/lib.rs:739-797 | the same for activating a file, with both resume calls |
| `PlaybackEngine.BackendEngineFs.ActivateMultifileFile` | enginefs/src/lib.rs:818-888 | the same for the multi-file activation: new generation, selection, pruning of other files, plan |
| `PlaybackEngine.BackendEngineFs.ReconcileMultifileEngine` | enginefs/src/lib.rs:890-924 | sends the plan for a multi-file torrent and nothing otherwise |
| `PlaybackEngine.BackendEngineFs.RefreshHlsPlayback` | enginefs/src/lib.rs:928-982 | sets the lease's expiry and activates the file if the engine exists |
| `PlaybackEngine.BackendEngineFs.RefreshExistingHlsPlayback` | enginefs/src/lib.rs:985-1045 | renews exactly a lease that is still live, drops an expired one, and says which |
| `PlaybackEngine.BackendEngineFs.EndHlsPlayback` | enginefs/src/lib.rs:1049-1086 | removes the lease and spawns cleanup and pause exactly when there was one |
| `PlaybackEngine.BackendEngineFs.OnStreamEnd` | enginefs/src/lib.rs:1089-1145 | decrements both counts, dropping zeros, and spawns exactly the tasks the new counts call for |
| `PlaybackEngine.BackendEngineFs.ScheduleFileCleanup` | enginefs/src/lib.rs:1259-1284 | captures the generation of the file's own selection, or none |
| `PlaybackEngine.BackendEngineFs.DelayedCleanup` | enginefs/src/lib.rs:1277-1409 | does nothing for a file in use or a newer selection, and otherwise clears and replans |
| `PlaybackEngine.BackendEngineFs.ReleaseFile` | enginefs/src/lib.rs:1310-1405 | clears the selection of this file only and points the active file and the plan at what is left |
| `PlaybackEngine.BackendEngineFs.ExpireLeases` | enginefs/src/lib.rs:238-345 | drops every expired lease at once and then handles each expired key exactly once |
| `PlaybackEngine.BackendEngineFs.IsActive` | enginefs/src/lib.rs:1178-1211 | true exactly when a stream, a per-file stream, a live lease or a selection exists for the torrent |
| `PlaybackEngine.BackendEngineFs.PauseIfIdle` | enginefs/src/lib.rs:1159-1249 | pauses exactly an idle torrent with metadata while seeding is off, undoing the flag when the call fails |
| `PlaybackEngine.BackendEngineFs.PauseIdle` | enginefs/src/lib.rs:467-530 | the sweep's idle pass judges every engine by the state the pass began in, in any order |
| `PlaybackEngine.BackendEngineFs.SetSeedingEnabled` | enginefs/src/lib.rs:1428-1438 | sets the policy and spawns the resume task exactly when seeding is enabled |
| `PlaybackEngine.BackendEngineFs.ResumeAfterSeeding` | enginefs/src/lib.rs:1438-1457 | resumes every idle-paused torrent whose call succeeds and keeps the flag of the others |
| `PlaybackEngine.BackendEngineFs.WakeIdle` | server/src/routes/stream.rs:106-127 | an idle-paused torrent is resumed before its metadata is resolved; a failed call leaves the flag set |
| `SettingsProtocol.FreeLockMeansSynced` | server/src/state.rs:556-578 | after any interleaving of saves, updates, tracker saves, failed writes, cancelled callers and close: whenever the lock is free the file equals raw once anything was written, and raw and live agree on unprotected fields |
| `SettingsProtocol.StartCoherent` | server/src/state.rs:128-150 | the state a process starts in satisfies the hypotheses of the run theorems |
| `SettingsProtocol.ProtectedValuesKept` | server/src/state.rs:659-691 | over every run without a trusted change of a protected value, the protected raw values stay what they were |
| `SettingsProtocol.ProtectedWritten` | server/src/routes/system.rs:521-530 | a transaction writes to file and raw the protected values it changes from live's, and raw's old ones otherwise; live gets every value it names |
| `SettingsProtocol.RefusedExactly` | server/src/routes/system.rs:682-960 | a transaction is refused if and only if it is an untrusted update that names a protected value other than live's |
| `SettingsProtocol.ProgressExactly` | server/src/state.rs:556-691 | a caller gets in exactly while the gate is open and its update is not refused; a successful write is in file and log, and a failed one leaves both alone |
| `SettingsProtocol.CoherentStep` | server/src/state.rs:556-691 | every step of every task keeps the agreement, phase by phase, inside the lock and outside it |
| `SettingsProtocol.LockedStep` | server/src/state.rs:152-160 | at most the lock's holder is inside the critical section, in every phase |
| `SettingsProtocol.PreserveProtected` | server/src/routes/system.rs:533-541 | what goes to disk has raw's protected values and live's unprotected ones |
| `SettingsSerial.CommitsAreSerial` | server/src/state.rs:556-691 | after any interleaving the file is at every instant what the committed saves, updates and tracker saves would have written one after another in commit order, and whenever the lock is free raw and live are the result of that serial run |
| `SettingsSerial.LiveTrackersNewest` | server/src/state.rs:659-691 | after any run from the start, whenever the lock is free the live trackers and their time are those of the committed save with the largest sequence |
| `SettingsSerial.LastUpdateWins` | server/src/routes/system.rs:682-960 | no update is lost: in the serial run a settings field has the value of the last committed update that sets it |
| `SettingsSerial.FieldUntouched` | server/src/routes/system.rs:682-960 | and a field that no committed update sets keeps its first value |
| `SettingsSerial.LastChangeWins` | server/src/routes/system.rs:521-530 | in the serial run raw's protected value is that of the last committed update that changed it, or the first value if none did |
| `SettingsSerial.LastNamedIsLive` | server/src/routes/system.rs:682-960 | and live's is that of the last committed update that names it |
| `SettingsSerial.ProtectedAfterRun` | server/src/routes/system.rs:682-960 | so after any interleaving, whenever the lock is free, file, raw and live have each protected value from those updates |
| `SettingsSerial.StartSerial` | server/src/state.rs:128-150 | the state a process starts in is the empty serial run |
| `SettingsOrder.CommitsIncrease` | server/src/state.rs:172-233 | over every run the sequences of committed tracker saves strictly increase |
| `SettingsOrder.NewestPasses` | server/src/state.rs:667-676 | a tracker save passes its check if and only if it is the newest admitted one, so a save rejected at close makes none stale |
| `SettingsOrder.OlderNeverRevives` | server/src/state.rs:667-691 | once a sequence is admitted no older save passes again, whether the newer one commits, fails or waits |
| `SettingsOrder.ActiveCountExact` | server/src/state.rs:189-226 | over every run the active count is the number of admitted unfinished tasks |
| `SettingsOrder.NothingAdmittedAfterClose` | server/src/state.rs:235-244 | after close the gate stays shut and no task becomes admitted |
| `SettingsOrder.RunsAreBounded` | server/src/state.rs:246-265 | a run takes at most as many task steps as its tasks had left plus nine per arrival, so a drain cannot go on for ever |
| `SettingsOrder.DrainProgress` | server/src/state.rs:246-265 | while an admitted task is unfinished some task can take a step |
| `SettingsOrder.DrainedExactly` | server/src/lib.rs:928-929 | the active count is zero if and only if no admitted task is unfinished |
| `SettingsCoordinator.SettingsPersistenceCoordinator.NextSequence` | server/src/state.rs:172-176 | draws the next tracker sequence |
| `SettingsCoordinator.SettingsPersistenceCoordinator.RegisterTransaction` | server/src/state.rs:189-226 | admits exactly while the gate is open, raising the newest sequence and the active count only then |
| `SettingsCoordinator.SettingsPersistenceCoordinator.TransactionDropped` | server/src/state.rs:60-72 | lowers the active count and tells waiters exactly when it reaches zero |
| `SettingsCoordinator.SettingsPersistenceCoordinator.CloseGate` | server/src/state.rs:235-244 | closes admission and changes nothing else |
| `SettingsCoordinator.SettingsPersistenceCoordinator.SaveTransaction` | server/src/state.rs:556-578 | an explicit save writes live under raw's protected values, and raw follows the file or neither changes |
| `SettingsCoordinator.SettingsPersistenceCoordinator.TrackerTransaction` | server/src/state.rs:667-691 | a stale save changes nothing and reports success; a current one changes file, raw and live together or not at all |
| `SettingsCoordinator.SettingsPersistenceCoordinator.UpdateTransaction` | server/src/routes/system.rs:682-960 | an update of protected values from an untrusted caller is refused; otherwise file, raw and live change together or not at all, file and raw get exactly the protected values that the update changes, and untouched ones stay raw's |
| `SettingsCoordinator.PrepareSettingsUpdate` | server/src/routes/system.rs:553-594 | refuses exactly an untrusted change of a protected value, and otherwise marks exactly the protected values that change |
| `SubtitleRoundTrip.RoundTripExactly` | enginefs/src/subtitles.rs:68-89 | parsing the printed cues gives back times and styled texts in order if and only if every styled text is trimmed, free of carriage returns and blank lines, and every time is under 100 hours |
| `SubtitleRoundTrip.PrintedParses` | enginefs/src/subtitles.rs:207-267 | for any cues with clean styled texts, exactly the cues under 100 hours come back, in order |
| `SubtitleRoundTrip.ParsedTextsClean` | enginefs/src/subtitles.rs:207-258 | whatever the input, every text the parser returns is trimmed and free of carriage returns and blank lines |
| `SubtitleRoundTrip.TimingRoundTrip` | enginefs/src/subtitles.rs:361-369 | a printed timing line parses back to its two times if and only if both are under 100 hours |
| `Subtitles.ToVtt` | enginefs/src/subtitles.rs:68-89 | the printing loop yields the header and every cue's block in order |
| `SubtitleTags.PrintedReads` | enginefs/src/subtitles.rs:68-89 | what it prints reads as one block for every cue, in order, with the cue's number from one, both times in hours, minutes, seconds and milliseconds whatever their size, and its text under exactly its styling tags |
| `SubtitleTags.StyledExactly` | enginefs/src/subtitles.rs:371-396 | the styled text, and no other string, is taken apart from the outside in into colour class without hashes, underline, italic, bold and the cue's own text; without a style it is the text itself |
| `Subtitles.ParseVtt` | enginefs/src/subtitles.rs:207-258 | the parsing loop yields the cues of the blocks that have a well-formed timing line, in order |
| `Subtitles.ReadBlock` | enginefs/src/subtitles.rs:219-254 | one block gives a cue exactly when its first line with an arrow matches the timing pattern |
| `SubtitlePattern.TimingExactly` | enginefs/src/subtitles.rs:210-213 | a line is read as timing if and only if it is stamp, arrow and stamp with any white space before and between and anything behind, and gives those two times |
| `SubtitlePattern.BlockExactly` | enginefs/src/subtitles.rs:216-254 | a block is a cue if and only if its first line with an arrow is such a line; the text is what follows, trimmed |
| `SubtitlePattern.TrimExactly` | enginefs/src/subtitles.rs:239-246 | trimming takes away white space at both ends and nothing else |
| `SubtitlePattern.NormalizeEnds` | enginefs/src/subtitles.rs:214 | every kind of line end becomes one, and the text of a line stays as it is |
| `Ebml.ParseVint` | enginefs/src/backend/metadata.rs:238-257 | reads the leading-zero width and the value, or nothing when the data is too short or the width exceeds eight |
| `Ebml.VintRoundTrip` | enginefs/src/backend/metadata.rs:238-257 | decoding inverts encoding at every width from 1 to 8 whatever bytes follow, as section 4 of RFC 8794 defines the encoding |
| `Ebml.VintIsEncoded` | enginefs/src/backend/metadata.rs:238-257 | whatever decodes is the encoding of its value at its width |
| `SeekHead.ParseElementHeader` | enginefs/src/backend/metadata.rs:221-236 | element size and header length, from two consecutive integers |
| `SeekHead.ElementHeaderRoundTrip` | enginefs/src/backend/metadata.rs:221-236 | the header of an encoded Seek, SeekID or SeekPosition element is read back with its size and length |
| `SeekHead.ParseSeekElement` | enginefs/src/backend/metadata.rs:286-336 | the scan keeps the last complete identifier and position in 32 and 64 bits, never reads out of bounds, and terminates |
| `SeekHead.ParseSeekHead` | enginefs/src/backend/metadata.rs:259-284 | on any encoded list of Seek entries, with any other bytes before, between, after and inside them in which no wanted element begins, the result is the position of the first entry whose identifier is Cues, or none; all slices are in bounds and the scan terminates on any bytes |
| `SeekHead.SeekHeadFindsFirstCues` | enginefs/src/backend/metadata.rs:259-336 | the same about the specification of the scan, for identifier and position in either order and sizes of any width |
| `SeekHead.CutEntryRead` | enginefs/src/backend/metadata.rs:267-272 | a last Seek element whose payload is cut short is read as far as it goes |
| `SeekHead.CutPayloadIgnored` | enginefs/src/backend/metadata.rs:296-329 | an identifier or position that is cut short is ignored |
| `SeekHead.NumberExact` | enginefs/src/backend/metadata.rs:298-303 | identifiers of up to four bytes and positions of up to eight lose nothing in their registers |
| `SampleLookup.SampleToChunk` | enginefs/src/backend/metadata.rs:751-776 | the loop with sums that wrap, as a release build has them: on a well-formed table it leaves at the first chunk that stops it, with that chunk's number in 32 bits, and never leaves if none does; given the turns to reach the sample's own chunk, and before chunk numbers come round again, it answers with that chunk if and only if the sum formed in it stays in range |
| `SampleLookup.LookupExactly` | enginefs/src/backend/metadata.rs:760-773 | where the loop leaves and whether it ever does, told from the table alone |
| `SampleLookup.HolderStopsExactly` | enginefs/src/backend/metadata.rs:766-769 | no chunk before the sample's own stops the loop, and that one does if and only if its sum stays in range |
| `SampleLookup.FindsExactly` | enginefs/src/backend/metadata.rs:751-776 | the loop answers with the chunk that holds the sample if and only if the sum formed in it stays in range, for every number of turns up to the one at which chunk numbers come round |
| `SampleLookup.EverFindsExactly` | enginefs/src/backend/metadata.rs:751-776 | however long it takes, it answers with that chunk if and only if the sum stays in range or the first chunk to stop the loop is a later one of the same number in 32 bits |
| `SampleLookup.EndlessExactly` | enginefs/src/backend/metadata.rs:760-773 | on any well-formed table the loop goes round for ever if and only if no chunk before the last run stops it and the sample is beyond the largest number to which the last run's first samples come in 32 bits: 2^32 - g plus a rest, for the greatest common divisor g of the run's sample count and 2^32 |
| `SampleLookup.EvenRunEndlessExactly` | enginefs/src/backend/metadata.rs:760-773 | with one run of k samples per chunk, k a proper divisor of 2^32, the loop goes round for ever if and only if the sample is beyond 2^32 - k + 1 |
| `SampleLookup.HalfRangeNeverEnds` | enginefs/src/backend/metadata.rs:760-773 | a well-formed table on which it does not end: chunks of 2^31 samples, asked for sample 2^31 + 2, which chunk 2 holds |
| `SampleLookup.EmptyRunNeverEnds` | enginefs/src/backend/metadata.rs:760-773 | a table of empty chunks, which the reader accepts, keeps the loop going for ever for every sample after the first |
| `SampleLookup.RightByAccident` | enginefs/src/backend/metadata.rs:771-772 | the bound on the turns is tight: after chunk numbers have come round, the right chunk can be answered although the sum left its range |
| `SampleTable.SampleToChunkChecked` | enginefs/src/backend/metadata.rs:751-776 | the same loop in a build that checks its arithmetic: the one chunk whose sample range holds the sample, or a stop exactly when the sum formed in that chunk overflows |
| `SampleTable.HoldsUnique` | enginefs/src/backend/metadata.rs:751-776 | no sample lies in two chunks |
| `SampleTable.SomeChunkHolds` | enginefs/src/backend/metadata.rs:751-776 | every sample from one on lies in some chunk |
| `SampleTable.OverflowExample` | enginefs/src/backend/metadata.rs:767-772 | the overflow is real: one chunk of 2^32 - 1 samples, asked for sample 2 |
| `SampleTable.ParseStsc` | enginefs/src/backend/metadata.rs:718-749 | reads at most a hundred entries and only those that fit |
| `SampleTable.StscRoundTrip` | enginefs/src/backend/metadata.rs:718-749 | an encoded table is read back up to its hundredth entry, whatever follows it |
| `SampleTable.StscCut` | enginefs/src/backend/metadata.rs:718-749 | whatever count the header gives and wherever the data ends, as many entries come back as the count, the limit of a hundred and the complete entries allow |
| `SampleTable.StscComplete` | enginefs/src/backend/metadata.rs:724-728 | the whole table comes back if and only if it has at most a hundred entries |
| `SampleTable.TruncationExactly` | enginefs/src/backend/metadata.rs:724-728 | the table cut at a hundred entries puts a sample into its own chunk if and only if that chunk comes before the first entry that is not read, or counting on in steps of the last entry that is read arrives at the same chunk |
| `Updater.AppliedShape` | updater-helper/src/main.rs:68-118 | a successful apply leaves at each destination its source's bytes, no temporary files, the old bytes of every replaced file at its backup, a plan that lists exactly those, and everything else unchanged |
| `Updater.AppliedExactly` | updater-helper/src/main.rs:76-100 | an update whose paths are separate can be applied if and only if every source is there with the wanted digest |
| `Updater.ApplyThenRollback` | updater-helper/src/main.rs:120-153 | running the plan a successful apply wrote restores the old bytes of every destination that existed; all destinations are as before if and only if all existed, since new files are not removed |
| `Updater.RollbackExactly` | updater-helper/src/main.rs:120-153 | a plan goes through if and only if every backup is there when its turn comes, and adds exactly its destinations |
| `Updater.RetryThenRollback` | updater-helper/src/main.rs:82-99 | after a first attempt stopped anywhere, inside a replacement or between two, a second attempt and a rollback restore an original if and only if the first attempt had not yet removed or replaced it, or the new bytes are the old ones; and all originals if and only if that holds of each |
| `Updater.RemovedThenRetried` | updater-helper/src/main.rs:288-302 | a stop between removing the destination and the rename: the retry succeeds with an empty plan and the rollback leaves the new bytes, although the backup still holds the old ones |
| `Updater.InstalledMidway` | updater-helper/src/main.rs:82-99 | a stop between two replacements is one of the states covered |
| `Updater.NamesApart` | updater-helper/src/main.rs:259-279 | backup names differ by index, and temporary, backup and plan names never coincide |
| `UpdaterHelper.VerifyAssets` | updater-helper/src/main.rs:187-200 | succeeds if and only if every source exists with the wanted digest and none of its reads fails |
| `UpdaterHelper.ReplaceFile` | updater-helper/src/main.rs:238-314 | one replacement, with every operation free to fail or to leave junk: success gives the specified files, and no state on the way loses the old bytes |
| `UpdaterHelper.TakeBackup` | updater-helper/src/main.rs:253-270 | the backup exists with the old bytes before anything else happens to the destination |
| `UpdaterHelper.MoveIntoPlace` | updater-helper/src/main.rs:272-302 | copy beside, remove, rename: the final files and the safety of each intermediate state |
| `UpdaterHelper.ApplyUpdate` | updater-helper/src/main.rs:68-106 | whatever fails and wherever, in every intermediate state the old bytes of every existing destination are at the destination or at its backup, and every destination is the old file, missing or the new file; success is exactly the specified result; the plan file is touched only after every replacement is done; without faults it succeeds whenever it can; if an asset is not verified, or a read of the verification fails, nothing is touched; and when no operation fails, every verified update whose paths are separate succeeds |
| `UpdaterHelper.RollbackUpdate` | updater-helper/src/main.rs:120-153 | success is exactly the specified restoration; in every intermediate state of an interrupted rollback all backups are intact |
| `UpdaterHelper.RollbackAgain` | updater-helper/src/main.rs:127-149 | from any state an interrupted rollback leaves, running the plan again restores every file that existed |
| `UpdaterHelper.AppliedUndoes` | updater-helper/src/main.rs:101-106 | the plan a successful apply wrote is one that undoes it |
| `DiskCache.DiskCacheManager.Reassemble` | enginefs/src/disk_cache.rs:100-140 | from true pieces, under arbitrary memory eviction between pieces, the result is exactly the torrent's bytes from offset to offset plus size, or it is missing because a piece is; from any others it is what they add up to, and missing only if a piece is or too few bytes are available |
| `DiskCache.DiskCacheManager.GatherPieces` | enginefs/src/disk_cache.rs:104-132 | the loop asks for every piece from the first to the last, stops at the first that is missing, and computes the assembly about which the lemmas speak |
| `DiskCache.WholeFile` | enginefs/src/disk_cache.rs:104-132 | whole pieces from the first to the last add up to exactly the file's bytes |
| `DiskCache.AppendExtends` | enginefs/src/disk_cache.rs:116-131 | a whole piece extends a file's prefix by exactly the bytes of the file in that piece, in the first, middle and last piece alike |
| `DiskCache.PiecesCover` | bindings/libtorrent-sys/cpp/wrapper.cpp:941-948 | first and last piece, taken from offset and size as the binding does, reach over the whole file, also for empty files |
| `DiskCache.GatheredLength` | enginefs/src/disk_cache.rs:124-140 | for pieces of any length and content, the assembly is as long as the bytes they hold behind the file's start, up to the file's size: so the length check passes if and only if those are enough |
| `TornPieces.TearExactly` | enginefs/src/disk_cache.rs:104-140 | with one piece of any file cut short, the length check passes if and only if the pieces reach at least the gap beyond the file; and the reassembly aborts or gives the file if and only if the piece still covers its share, the check fails, or the bytes behind the tear come again at the distance of the gap |
| `TornPieces.TornPieceUnnoticed` | enginefs/src/disk_cache.rs:124-140 | a piece cut short can go unnoticed: a three-byte file passes the length check with the last piece's surplus, with wrong bytes unless its bytes repeat |
| `DiskCache.DiskCacheManager.MaybePersistFile` | enginefs/src/disk_cache.rs:55-156 | persists only within the budget and never pushes usage over it, stores exactly the file's bytes, and gives up only for the budget, a missing piece or a failed write |
| `DiskCache.DiskCacheManager.CalculateUsage` | enginefs/src/disk_cache.rs:159-182 | the summed sizes of the files in the cache directory |
| `DiskCache.StoredUsage` | enginefs/src/disk_cache.rs:143-150 | writing a file adds its size to the usage and takes away that of the file it replaces |
| `DiskCache.UsageCounts` | enginefs/src/disk_cache.rs:159-182 | the usage of an empty cache is zero, and every file counts with its size |
| `DiskCache.StoredHolds` | enginefs/src/disk_cache.rs:143-150 | after a write the cache holds the new file, no other of its name, and all the others |
| `PersistRuns.AloneStaysWithinBudget` | enginefs/src/disk_cache.rs:81-89 | over every run in which no other write falls between a persist's check and its write, usage stays within the limit |
| `PersistRuns.WritesAddUp` | enginefs/src/disk_cache.rs:81-150 | over every run, however checks and writes interleave, whatever names they write and however the writes end, usage grows by what was written less what that replaced, so the limit is passed if and only if the written files do not fit in place of those |
| `PersistRuns.OverlapExceeds` | enginefs/src/disk_cache.rs:81-89 | any number of files of different names admitted against the same usage, each of which fits alone: writing them all goes over the limit if and only if together they do not fit in place of the files of their names |
| `PersistRuns.CheckedTogether` | enginefs/src/disk_cache.rs:81-89 | such a state is reached whenever the checks come before the writes |
| `PersistRuns.OneAfterOther` | enginefs/src/disk_cache.rs:81-89 | one after the other, the second of two files is refused in exactly that case, what the first one replaced counted out |
| `PieceCache.PieceCacheManager.PutPiece` | enginefs/src/piece_cache.rs:108-159 | stores in memory and spawns a disk write exactly for a bounded, disk-backed cache; true pieces keep every layer true |
| `PieceCache.PieceCacheManager.GetPiece` | enginefs/src/piece_cache.rs:162-191 | memory first, then disk, refilling memory; from true layers only the true piece comes back |
| `PieceCache.PieceCacheManager.RunWrite` | enginefs/src/piece_cache.rs:139-157 | a spawned write puts the piece on disk, cuts it short, or fails before there is a file and leaves the disk as it was; it is recorded only if it completes |
| `PieceCache.PieceCacheManager.ClearTorrent` | enginefs/src/piece_cache.rs:232-261 | drops exactly this torrent's entries and spawns the removal of its directory |
| `PieceCache.PieceCacheManager.RunRemoval` | enginefs/src/piece_cache.rs:257-259 | removes exactly this torrent's pieces from disk |
| `CachedStream.Stream.PollRead` | enginefs/src/cache.rs:107-196 | a read returns the inner file's own bytes at the position, up to the buffer's room and the end of the chunk; together with everything read since the last seek they are one stretch of the file; the loop ends within two turns unless the inner file ends at or before a position below the declared length, where it goes round for ever as long as fetches answer at once |
| `CachedStream.PollExactly` | enginefs/src/cache.rs:107-196 | the read ends at the declared end, waits for a fetch that is not done and keeps it, hands on the error of one that failed, and gives the bytes of one that is done |
| `CachedStream.EndlessBeyond` | enginefs/src/cache.rs:107-196 | beyond the end of the inner file and before the declared end nothing is read, and while every fetch is done the loop never ends |
| `CachedStream.Stream.Turn` | enginefs/src/cache.rs:113-195 | one turn of the loop, with the fetch pending, failing or answering |
| `CachedStream.Stream.Serve` | enginefs/src/cache.rs:128-146 | a finished fetch is for the chunk of the current position, and its bytes are the file's |
| `CachedStream.Stream.StartSeek` | enginefs/src/cache.rs:91-100 | moves the position, drops the pending fetch and keeps the cache coherent |
| `CachedStream.SeekLands` | enginefs/src/cache.rs:92-96 | a seek to a position of the file lands there; one to before the start wraps to beyond the end |
| `CachedStream.Stream.Prefetch` | enginefs/src/cache.rs:47-87 | spawns loads for exactly those of the next two chunks that begin inside the file and are not cached |
| `CachedStream.Stream.RunPrefetch` | enginefs/src/cache.rs:65-85 | a prefetch adds exactly its own chunk, with the file's own bytes, and never changes a chunk already there |
| `CachedStream.ServedIsFile` | enginefs/src/cache.rs:133-146 | reading through chunks is reading the file, and a chunk ends before the position exactly when the file does |
| `CacheEviction.TotalExactly` | server/src/cache_cleaner.rs:149-224 | the running total never falls below the summed sizes of the files left, and equals them if and only if the walk meets no non-empty file twice that is not deleted for its age |
| `CacheEviction.DeletesOnlyAllowed` | server/src/cache_cleaner.rs:168-204 | protected files, metadata and files outside the walk are never deleted; every unprotected file older than thirty days is, unless the system refuses |
| `CacheEviction.RulesExactly` | server/src/cache_cleaner.rs:151-200 | protected means at or below a protected path, old means more than 2592000 seconds, and a file whose time cannot be read is from the epoch |
| `CacheEviction.ProtectedKept` | server/src/cache_cleaner.rs:165-182 | whatever the limit and the ages, nothing at or below a protected path or a metadata directory is deleted |
| `CacheEviction.AgeAloneExactly` | server/src/cache_cleaner.rs:151-215 | without a size limit a file goes if and only if the walk meets it, it is over thirty days old, neither protected nor metadata, and the system lets it go |
| `CacheEviction.EndsWithinLimit` | server/src/cache_cleaner.rs:239-266 | the run ends at or below the limit unless every unprotected file left is larger than the limit or could not be deleted |
| `CacheEviction.OldestGoFirst` | server/src/cache_cleaner.rs:226-266 | a file deleted for space is no larger than the limit and was deleted while the total was over it and after no younger file, and no deletable survivor is older |
| `CacheEviction.NestedWalkOverEvicts` | server/src/cache_cleaner.rs:156-224 | when one download directory lies inside the other a file counts twice and is deleted although it fits |
| `CacheCleaner.AgePass` | server/src/cache_cleaner.rs:156-224 | after the walk: exactly the expired files met are gone, the total is the sum over the walk, and the candidates are exactly the eligible files met |
| `CacheCleaner.SortedKeeps` | server/src/cache_cleaner.rs:234-234 | sorting permutes the candidates and orders them oldest first |
| `CacheCleaner.SortedStable` | server/src/cache_cleaner.rs:234-234 | candidates of equal time keep their order |
| `CacheDirectories.Downloads.CleanCache` | server/src/cache_cleaner.rs:105-287 | the loops compute the specified run, no file or directory loses its parent, only directories that lost a file are removed, and none that could be removed is left newly empty below the download directories |
| `CacheDirectories.Downloads.AgeScan` | server/src/cache_cleaner.rs:156-224 | the age pass computes its specification |
| `CacheDirectories.Downloads.SizeScan` | server/src/cache_cleaner.rs:239-266 | the size pass, leaving early at the limit, computes the fold over all candidates |
| `CacheDirectories.Downloads.RemoveEmptyParents` | server/src/cache_cleaner.rs:277-287 | removes exactly the specified chain of directories and leaves the rest rooted |
| `CacheDirectories.PruneExactly` | server/src/cache_cleaner.rs:277-287 | what is removed is a chain of empty directories upwards, never the root, and it stops only at the root or at a directory that has to stay |
| `CacheDirectories.FindRoot` | server/src/cache_cleaner.rs:260-262 | the first download directory that holds the path |
| `SingleFlight.OneProbePerFile` | enginefs/src/engine.rs:89-103 | in every reachable state at most one caller probes a given file, cancelled callers included |
| `SingleFlight.SharersAgree` | enginefs/src/engine.rs:96-103 | callers that shared a cell get the same result, however far apart they finish |
| `SingleFlight.UnfilledCellStays` | enginefs/src/engine.rs:104-112 | a cell without a value stays in the map however many late finishers tidy up, so none removes a newer cell |
| `SingleFlight.CachedSparesProbes` | enginefs/src/engine.rs:71-87 | the cache holds only ready results, and a caller that probes beside a cached result had looked before it was stored |
| `SingleFlight.OneSuccessPerFileExactly` | enginefs/src/engine.rs:89-118 | over every run no cell is made for a file after one of its cells was filled with a ready result: if and only if no caller joins when the filled cell is out of the map already |
| `SingleFlight.SuccessEndsProbing` | enginefs/src/engine.rs:89-118 | and in such a run nobody probes a file that was probed with success |
| `SingleFlight.SecondProbeAfterSuccess` | enginefs/src/engine.rs:104-118 | a second probe after a success does happen: a reachable state shows it |
| `SingleFlight.SoundAlways` | enginefs/src/engine.rs:66-120 | the invariant behind these: every unfilled cell is the mapped one, each is filled by one caller, and results match cells |
| `SingleFlight.CellsLast` | enginefs/src/engine.rs:439-480 | a cell keeps its file and, once filled, its value; the hash lookup of a handle that manages playback uses the same cells |
| `SingleFlight.LookExactly` | enginefs/src/engine.rs:72-79 | a lookup is answered with exactly what the cache holds for the file, if that is ready, and goes on to the cells otherwise |
| `SingleFlightEngine.Engine.LookUp` | enginefs/src/engine.rs:71-87 | the cache lookup is one step of the protocol and returns only ready results |
| `SingleFlightEngine.Engine.JoinInflight` | enginefs/src/engine.rs:89-95 | shares the file's cell or makes one, as one step |
| `SingleFlightEngine.Engine.Fill` | enginefs/src/engine.rs:96-103 | fills the cell, as one step |
| `SingleFlightEngine.Engine.RemoveInflight` | enginefs/src/engine.rs:104-112 | removes the cell only if it is still the mapped one, as one step |
| `SingleFlightEngine.Engine.StoreResult` | enginefs/src/engine.rs:113-119 | caches a ready result and returns the cell's outcome, as one step |
| `Hls.GetSegments` | enginefs/src/hls.rs:344-360 | the segments tile the duration from zero to its end without gap or overlap, each positive and at most four seconds; none for a duration of zero or less |
| `Hls.InstantInOneSegment` | enginefs/src/hls.rs:344-360 | every instant of the file lies in exactly one segment |
| `Hls.MaxDuration` | enginefs/src/hls.rs:490-495 | computes the target duration, the largest segment length rounded up |
| `Hls.TargetDuration` | enginefs/src/hls.rs:490-495 | no segment is longer than the target duration |
| `Hls.TargetReached` | enginefs/src/hls.rs:490-495 | the target duration is some segment's length rounded up, between 1 and 4 |
| `Hls.RoundedWithinTarget` | enginefs/src/hls.rs:509-516 | every announced duration, rounded to an integer, is at most the target duration (section 4.3.3.1 of RFC 8216) |
| `Hls.AnnouncedTotal` | enginefs/src/hls.rs:514-516 | the announced durations, each rounded to six decimals, add up to the rounded duration of the file |
| `Hls.CapacityExactly` | enginefs/src/hls.rs:831-866 | for a playlist with segments a capacity is given if and only if the exact sum is at most the largest allowed, and then it is that sum |
| `Hls.PlaylistFits` | enginefs/src/hls.rs:497-529 | the rendered playlist is never longer than its capacity, and as long as it exactly when it has at most ten segments |
| `Hls.GetStreamPlaylist` | enginefs/src/hls.rs:471-530 | renders the tiling segments in order, or the reloadable playlist when there are none; a returned capacity bounds the length |
| `HlsReading.PlaylistReads` | enginefs/src/hls.rs:495-530 | the rendered playlist reads as its header with the least whole target duration, for each segment in order its duration and its file name with track and number, and the end mark |
| `HlsReading.DurationReads` | enginefs/src/hls.rs:515 | a rendered duration reads as the nearest number of millionths, in six decimals |
| `HlsReading.WaitingReads` | enginefs/src/hls.rs:480-488 | the reloadable playlist is a header without an end mark |

## Left out

- Torrents whose handle manages its own playback: `manages_playback_lifecycle` is false throughout the playback model.
- Registering a torrent while streams of it are open, or while it is registered already, which changes nothing modelled; and torrents whose file count changes when metadata arrives: a torrent is registered with a fixed number of files.
- SingleFlight.CellsLast: a handle that does not manage its own playback, the only kind the playback model covers, hashes without any cell (enginefs/src/engine.rs:440-442), so that each request hashes anew; the cells speak of the other kind.
- The inactivity age in front of a torrent's removal by the sweep, the active-reader count inside an engine and the presence of metadata: inputs to the steps that ask for them.
- Per-file streaming priorities, tracker injection and the handle calls that keep or clear a single file: calls into the backend without effect on the modelled maps.
- Requests that overlap inside one handler at a finer grain than one step, except for selections and generations, which `SelectionGenerations` covers.
- The network policy, seeding and connection-limit side effects after a settings update: only file, raw and live settings are modelled, and settings fields that no step treats specially are integers by name.
- Settings payloads that are not well formed, which are refused under the lock like a forbidden change.
- Rename and directory synchronisation inside the atomic settings write: a write fails with no change or replaces the file.
- SRT and ASS parsing, format detection and tag stripping: pattern rewriting without a promised inverse.
- Digits outside ASCII, which the timing pattern of the source also accepts; and carriage returns before line ends, which are replaced before lines are split.
- SampleLookup.SampleToChunk: the loop of the source has no bound; the method takes the number of turns as a parameter, and its contract says when that many turns are enough and when no number is.
- SeekHead.ParseSeekHead: says nothing of bytes beside the entries in which the mark of a wanted element happens to begin; the scan takes them for one.
- Scans for Cues points and for MP4 boxes by marker bytes: payload bytes can match by accident.
- Positions beyond the range of machine integers in the SeekHead scan: positions are unbounded numbers.
- The runtime backup in front of an update, the MSI launch, the restart, the parent-process wait and paths without a parent or with non-Unicode names: the update starts from the verified assets.
- The digest itself: whether content matches a digest is a parameter.
- Copying a file onto itself in the updater: no claim is made for plans whose paths coincide.
- Piece waiters, pending requests as a protocol, `has_piece`, metadata pins and the weight limits of the memory cache: eviction is arbitrary instead.
- File names with directories inside the disk cache: a cached file is one name under its torrent.
- CachedStream.Stream.PollRead: the loop of the source has no bound; the method takes the number of turns as a parameter, and its contract says when that many turns are enough and when no number is.
- TornPieces.TearExactly: speaks of one piece cut short among whole ones; of several it is only known when their length passes the check, by `GatheredLength`.
- Several streams that share one cache: other streams' entries are arbitrary, and entries of this file are assumed to be its chunks.
- How protected paths are collected from engine statistics, and changes to the directories during a cleaning run: the protected set and the walk are inputs.
- 64-bit wrap-around of sizes in the cleaner and the disk cache: sizes are unbounded numbers.
- The 15-second timeout of the hash: an outcome like any other.
- Floating-point rounding, infinite and not-a-number durations: durations are real numbers, and a duration in the playlist is rounded half up.
- Master playlists, transcoding, FFmpeg, HTTP routing, archives, trackers, discovery, JNI and the user interface: I/O, foreign calls or easy members.
