# Verified model of System Settings' locality transaction and its neighbours

System Settings keeps a location in two durable files that have to agree: the temporal policy
(`presentation.conf`) and the locality metadata (`location.ini`). A change writes a journal
(`location.pending`), publishes the policy, commits the metadata and drops the journal, under
two advisory locks taken in a fixed order (locality, then policy); recovery finishes or discards
an interrupted change. This project models that protocol, proves what it keeps, and does the
same for the other stateful cores of the program.

Run `dafny verify dfyconfig.toml`.

## How the model is organised

* **The transaction.** `Temporal` and `Disk` hold the values: policies, records, the three
  files, the desktop keys that every save mirrors, six-decimal storage (coordinates are reals;
  only the policy rounds) and closeness. `Protocol` is the step system: any number of processes,
  each at a program point, one primitive per event, every primitive able to succeed, fail, fail
  after removing the name, or be interrupted by a crash that frees the dead process's locks and
  leaves the disk. `Locks`, `PolicyHistory`, `DesktopKeys`, `Knowledge`, `PairSafety`,
  `Breakage`, `CrashAtomicity`, `RecoveryRuns`, `CrashRecovery`, `Legibility` and
  `Counterexamples` prove properties of all its runs. `Unhindered` proves that each task does its
  work: when nothing fails and nobody is in the way, it ends on the disk that it is for, stated
  without its program.
* **The code that performs it.** `PolicyStore`, `DateTimeModel`, `LocationMetadata`,
  `LocationPanel`, `CommandLine` and `TimeSettingsCli` are classes and loops in the shape of the
  source. `Interference.Process` is how one process sees the running system: before each of its
  primitives the others take any steps that the locks allow, and the primitive itself is this
  process's step of the shared `System`. The file and lock calls of those classes are such
  primitives, so every execution of them is part of a run, the theorems about runs speak about
  this code, and a value read before a lock was granted is not the value that the next program
  point needs. The process also counts its failures (a primitive that fails, a lock that is
  taken), and every routine promises to succeed unless that count grew. A crash of the process
  itself ends its code there and is a matter of the step system. A store may also be private to
  its process, which gives the model's own contracts without any interference.
* **Protected operations.** `SystemTime` is the session machine of one panel (requests, replies
  in any order, searches, the service connection, disposal); `SystemTimeController` holds the
  objects whose methods perform its events; `SessionProgress` says which requests, replies,
  searches and connections go through.
* **Windows publication.** `WindowsPublication` is a step system of savers, clearers and loaders
  over names and files, one system call per event; `WindowsSafety` proves its runs and
  `WindowsProgress` what an undisturbed call achieves; `WindowsPolicyFiles` are the three
  routines with their retry loops, run under arbitrary interference of the other processes.
* **Release assets.** `RunFile` and `NativeInstaller` (footer, bounds, copy loops); `Trees`,
  `PathOrder` and `TreeCompare` (walk, sort, compare).
* **Text.** `Decimals`, `ZoneCoordinates`, `ZoneSearch` and `ManualTime`.

## What turned out false, and exactly when it holds

* *"Old pair or new pair" over whole runs* needs a recovery between a crash (or failed rollback)
  and the next location change, because staging overwrites the earlier journal and a failed save
  then drops it. `PairSafety.Guarded` states the hypothesis, which must cover the automatic
  time-zone-reference writer too, though it never stages: `Counterexamples.OverwrittenJournal`
  and `Counterexamples.ReferenceAfterCrashedClear` give the runs. Without the hypothesis,
  `Breakage.StepJudged` says for every reachable state which steps break a recoverable pair (four
  kinds, each with the guard its process could evaluate), and `Breakage.RecoverableExactly` lifts
  it: a run keeps its pair recoverable throughout exactly when it has no such step.
* *A rollback leaves the previous policy in effect.* Each save writes the desktop's clock and
  seconds keys, from which a load without a document takes its defaults; a rollback to absence
  only removes the document. For instance, without a document and with seconds off on the
  desktop, `--seconds on --location 1 2` whose commit fails reports the previous state restored,
  and seconds stay on (`Counterexamples.SecondsStayOn`; `Counterexamples.RollbackLeavesKeys` is
  the family). `DesktopKeys.RollbackRestores`: the effective policy is restored exactly when a
  document was there or the publication changed no desktop key.
  `DesktopKeys.RolledBackContributeNothing` says when a whole run is free of its rolled-back
  publications, and `DesktopKeys.PanelKeepsKeys` that the panel's own rollbacks always restore.
* *No wall time is sent while a zone or NTP transition is unresolved.* The guard looks at the
  current requests only. A superseded request stays on the bus, and once its successor has been
  answered a request of another kind is sent beside it (`SystemTime.ManualBesideTimezone`).
  `SystemTime.OneKindExactly`: all outstanding calls of a run are of one kind throughout exactly
  when no request is begun over a superseded call of another kind.
* *A failed clear restores the previous state.* If the unlink of the metadata reports failure
  after the name is gone, the command line restores the policy and the record is lost.
  `CrashAtomicity.CrashLeavesOldOrNew` proves "old or new" exactly when that did not happen; it
  never happens to a change that sets a location.
* *`payload_bounds` returns a range inside the file.* Its size check adds the footer size on
  sixty-four bits and wraps for the thirty-two largest sizes.
  `RunFile.WrappedRangeIsOutside` gives the exact condition, `RunFile.HugeSizeIsAccepted` an
  accepted file, and `NativeInstaller.CopyPayload` shows that extraction never succeeds then.

## Model

| member | source | states |
|---|---|---|
| Temporal.StoredIsStable | src/platform/linux/temporal-policy-store.c:164-177 | writing back a policy that was read from a document changes nothing |
| Temporal.StoredMatches | src/modules/date-time/linux-date-time-location.c:32-42 | the six-decimal document of a record's own coordinates is close enough for recovery to recognise the record |
| Temporal.LastMoveWins | src/tools/time-settings-cli.c:178-223 | in a batch the last location option alone decides the location |
| Disk.RecoveredIsCoherent | src/platform/linux/location-metadata.c:299-395 | recovery reaches a coherent pair exactly from the recoverable disks |
| Disk.RecoveredIsIdempotent | src/platform/linux/location-metadata.c:299-395 | recovering twice is recovering once; recovery never touches the policy; a coherent disk without journal is left alone |
| Disk.SteadyIsExact | src/platform/linux/temporal-policy-store.c:76-104 | a save leaves the desktop keys alone exactly when the policy already agrees with them, and then also when some key cannot be written |
| Locks.MutualExclusion | src/platform/linux/linux-advisory-lock.h:35-95 | in every run each lock has at most one holder, whatever fails or crashes |
| Locks.EveryExitReleases | src/modules/date-time/linux-date-time-location.c:203-369 | a process that keeps running is idle within sixteen primitives and then owns neither lock, on every exit of every task |
| PolicyHistory.NoLostUpdates | src/modules/date-time/date-time-model.c:118-175 | in every run, with the desktop keys mirrored by every save, the effective policy is the replay in policy-lock order of the publications that were not rolled back, over the policy that is effective when none stands |
| PolicyHistory.OnlyOwnCommitUndone | src/modules/date-time/date-time-model.c:391-426 | a publication leaves the history only when the process that made it undoes it |
| DesktopKeys.RollbackRestores | src/tools/time-settings-cli.c:255-281 | in every run a rollback restores the effective policy exactly when a document was there or its publication changed no desktop key |
| DesktopKeys.GroundMoves | src/platform/linux/temporal-policy-store.c:57-104 | what a load without a document yields moves in exactly the other rollbacks, and only in clock and seconds |
| DesktopKeys.PanelKeepsKeys | src/modules/date-time/date-time-model.c:391-426 | a rollback of the panel's location update always restores the effective policy |
| DesktopKeys.ReplayOver | src/modules/date-time/date-time-model.c:118-175 | replays over grounds that differ in clock and seconds agree exactly when the publications rewrite what differs |
| DesktopKeys.RolledBackContributeNothing | src/tools/time-settings-cli.c:255-281 | in every run the effective policy is the standing publications over the policy the run began with exactly when they rewrite each key that a rolled-back one left changed |
| PolicyHistory.LocationOwnership | src/platform/linux/location-metadata.c:310-337 | the effective location changes only in a step of the process that holds both locks, so recovery's read without the policy lock stays valid |
| Knowledge.ReferenceYieldsToChoice | src/modules/date-time/linux-date-time-panel.c:207-311 | in every run reconciliation moves the location only while it is unconfigured |
| PairSafety.WholeRunSafety | src/modules/date-time/linux-date-time-location.c:203-391 | under the recovery hypothesis, recovery from the disk at any moment of any run makes the pair coherent, and with the locality lock free and nothing pending it is coherent already |
| Breakage.StepJudged | src/modules/date-time/linux-date-time-location.c:203-391 | in every reachable state a recoverable pair stays recoverable exactly when the step is not a staging, discard, rollback or reference publication with its named guard |
| Breakage.RecoverableExactly | src/tools/time-settings-cli.c:226-288 | a run keeps its pair recoverable throughout exactly when none of its steps is one of those |
| Breakage.GuardedIsUnbroken | src/platform/linux/location-metadata.c:299-395 | the recovery hypothesis rules all of them out |
| CrashAtomicity.CrashLeavesOldOrNew | src/tools/time-settings-cli.c:226-288 | after a crash at any point of a change that began on a clean disk, the goal of recovery is the old pair or the new pair, unless (exactly) a failed clear had already removed the record |
| CrashRecovery.CrashThenRecovery | src/platform/linux/location-metadata.c:299-395 | after such a crash, and any interleaved, failing and crashing recoveries of which one succeeds, the disk itself holds the old pair or the new pair, with the same exception |
| RecoveryRuns.RecoveryConverges | src/platform/linux/location-metadata.c:299-395 | any number of interleaved, failing and crashing recoveries keep one goal, and one success reaches it for good |
| RecoveryRuns.RecoveryKeepsEvidence | src/platform/linux/location-metadata.c:340-395 | recovery drops a journal that matches the published location only after its record is committed |
| RecoveryRuns.UnreadableIsPreserved | src/platform/linux/location-metadata.c:316-359 | in every run a recovery that removes the journal has read both policy and journal successfully since it took the lock, so while either cannot be read no recovery deletes a journal |
| RecoveryRuns.SoloRecovery | src/platform/linux/location-metadata.c:299-395 | a lone recovery with any failures keeps the goal, and success has reached it |
| Legibility.RunIsLegible | src/platform/linux/location-metadata.c:96-218 | in every run each record on disk is one the writer accepts, so a record read back can be written again |
| Unhindered.RecoverySucceeds | src/platform/linux/location-metadata.c:299-395 | a recovery that meets no failure, from any disk, ends idle with both locks free on exactly the recovered disk, no journal left, and reports one success |
| Unhindered.SelectionSucceeds | src/modules/date-time/linux-date-time-location.c:203-391 | a selection that meets no failure commits: the policy with only its location replaced, the record as metadata, no journal, both locks free |
| Unhindered.BatchSucceeds | src/tools/time-settings-cli.c:226-288 | a command with a location option that meets no failure publishes all edits together with the record of the last location, or with no record if that clears it |
| Unhindered.FieldsSucceed | src/modules/date-time/date-time-model.c:118-175 | a change of fields that meets no failure publishes its edits and leaves metadata and journal alone |
| Unhindered.RejectionChangesNothing | src/tools/time-settings-cli.c:142-224 | a rejected command leaves the disk alone and both locks free |
| Unhindered.FollowingSucceeds | src/modules/date-time/linux-date-time-panel.c:207-311 | reconciliation that meets no failure gives a matching record the system zone, keeping its other fields, or gives a location nobody chose the zone's reference point, or changes nothing |
| Counterexamples.OverwrittenJournal | src/modules/date-time/linux-date-time-location.c:286-318 | without the recovery hypothesis a second selection destroys the journal of a crashed one, for every new place the old record does not match |
| Counterexamples.SelectAndFail | src/modules/date-time/linux-date-time-location.c:302-318 | a selection refused the policy lock, its journal discarded, leaves a recoverable pair exactly when the pair did not depend on an earlier journal |
| Counterexamples.FollowReference | src/modules/date-time/linux-date-time-panel.c:264-310 | with no journal left, a reference publication leaves a recoverable pair exactly when the metadata is absent or close to it |
| Counterexamples.ReferenceAfterCrashedClear | src/modules/date-time/linux-date-time-panel.c:264-310 | reconciliation after a crashed clear breaks the pair beyond recovery |
| Counterexamples.ClearLosesRecord | src/tools/time-settings-cli.c:251-281 | a clear whose unlink fails after removing the name ends, rolled back, on neither the old nor the new pair |
| Counterexamples.RollbackLeavesKeys | src/tools/time-settings-cli.c:255-281 | without a document, a location command that changes a desktop key and is rolled back successfully leaves another effective policy |
| Counterexamples.SecondsStayOn | src/tools/time-settings-cli.c:255-281 | the same for one command line |
| Interference.Process.Others | src/platform/linux/linux-advisory-lock.h:35-95 | whatever other processes do, the holder of the locality lock finds the pair as it left it, and the holder of the policy lock the policy and its history |
| Interference.Process.Call | src/platform/linux/linux-advisory-lock.h:35-95 | a primitive is this process's next step of the running system, in a world the others may have changed as far as its locks allow |
| PolicyStore.Store.Save | src/platform/linux/temporal-policy-store.c:76-177 | a save of the document is all or nothing, stores six decimals and mirrors the two desktop keys, each of which may fail alone; private or shared |
| PolicyStore.Store.Load | src/platform/linux/temporal-policy-store.c:57-162 | yields the document, or the defaults that the desktop keys give at that moment |
| PolicyStore.Store.Clear | src/platform/linux/temporal-policy-store.c:179-205 | success means absence; failure left the document or removed it; the desktop keys stay as they are |
| PolicyStore.Store.BeginUpdate | src/platform/linux/temporal-policy-store.c:19-51 | the lock is exclusive and not re-entrant; begin and end alternate |
| PolicyStore.Store.EndUpdate | src/platform/linux/temporal-policy-store.c:53-56 | only the holder ends an update, and the lock is free afterwards |
| DateTimeModel.Model.Reload | src/modules/date-time/date-time-model.c:220-235 | adopts the stored policy and its provenance, or changes nothing; refused while saving; it succeeds unless saving or a read fails |
| DateTimeModel.Model.NormalizeUnpersistedClockMode | src/modules/date-time/date-time-model.c:256-269 | succeeds exactly for a known mode with no document and no update open, and touches only the clock |
| DateTimeModel.Model.BeginCandidate | src/modules/date-time/date-time-model.c:118-152 | takes the lock and the copy stored at that moment, or leaves lock, policy and flag as they were |
| DateTimeModel.Model.SaveCandidate | src/modules/date-time/date-time-model.c:154-175 | persists before publishing; the lock is released either way |
| DateTimeModel.Model.ReleaseUpdateLock | src/modules/date-time/date-time-model.c:96-116 | releases exactly when held and clears the saving flag |
| DateTimeModel.Model.SetClockMode | src/modules/date-time/date-time-model.c:271-284 | publishes the freshest policy with the clock replaced, or nothing happens; the latter only for a value it refuses, an open update, or a call that failed or found the lock taken |
| DateTimeModel.Model.SetCalendar | src/modules/date-time/date-time-model.c:286-298 | publishes the freshest policy with the calendar replaced, or nothing happens; the latter only for a value it refuses, an open update, or a call that failed or found the lock taken |
| DateTimeModel.Model.SetShowSeconds | src/modules/date-time/date-time-model.c:300-311 | publishes the freshest policy with the seconds flag replaced, or nothing happens; the latter only for a value it refuses, an open update, or a call that failed or found the lock taken |
| DateTimeModel.Model.SetLocation | src/modules/date-time/date-time-model.c:313-327 | publishes the freshest policy with the location replaced, or nothing happens; the latter only for a value it refuses, an open update, or a call that failed or found the lock taken |
| DateTimeModel.Model.BeginLocationUpdate | src/modules/date-time/date-time-model.c:329-372 | success leaves one open token holding the replaced policy and provenance, with the lock kept; failure changes nothing; it fails only if refused or some call failed or found the lock taken |
| DateTimeModel.Model.OpenUpdate | src/modules/date-time/date-time-model.c:344-371 | saves under the lock and hands out the token, or gives the lock back over the stored policy |
| DateTimeModel.Model.FinishLocationUpdate | src/modules/date-time/date-time-model.c:374-389 | succeeds exactly for the open token, never writes, releases the lock |
| DateTimeModel.Model.RollbackLocationUpdate | src/modules/date-time/date-time-model.c:391-426 | restores policy and provenance as at begin; the lock is released and the token dead even when persistence fails; an open update is restored unless the write or removal fails |
| LocationMetadata.Files.LoadLeftover | src/platform/linux/location-metadata.c:111-166 | the four load statuses of the journal, and where recovery goes from each |
| LocationMetadata.Files.FinishStaged | src/platform/linux/location-metadata.c:276-297 | commits the journal's record and drops it, a failed drop being ignored, or changes nothing; it succeeds on any journal unless an access fails |
| LocationMetadata.Files.Recover | src/platform/linux/location-metadata.c:299-395 | under any interference, each primitive is the recovery program's next; the goal is that of the moment the lock was granted, failures keep it, success (exactly) has reached it; it succeeds unless a primitive fails or the lock is taken |
| LocationPanel.Panel.Open | src/modules/date-time/linux-date-time-location.c:227-285 | lock and authoritative reread, or every exit before them |
| LocationPanel.Panel.Stage | src/modules/date-time/linux-date-time-location.c:286-300 | journals the new record over the untouched pair, or releases the lock |
| LocationPanel.Panel.Reserve | src/modules/date-time/linux-date-time-location.c:302-318 | publishes the policy and keeps its lock, or drops the journal and releases everything |
| LocationPanel.Panel.Undo | src/modules/date-time/linux-date-time-location.c:325-369 | puts the policy file and its provenance back as they were when the lock was granted, or leaves them to recovery; the record stays |
| LocationPanel.Panel.Conclude | src/modules/date-time/linux-date-time-location.c:325-369 | commits the record over the published policy file, or undoes; committed unless a primitive fails |
| LocationPanel.Panel.CommitPlace | src/modules/date-time/linux-date-time-location.c:203-391 | under any interference, performs the step program and ends with both locks free; for each of four endings what the policy file, the metadata file and the in-memory state are; it commits unless a primitive fails, a lock is taken, the new record is invalid or the committed one unreadable |
| LocationPanel.Panel.RefreshAuthority | src/modules/date-time/linux-date-time-panel.c:134-161 | which of record, reference point or neither must change, and when the location follows the time zone |
| LocationPanel.Panel.Reconcile | src/modules/date-time/linux-date-time-panel.c:207-311 | under any interference, performs the step program, ends with both locks free; writes only the zone of a record that describes the location, or the reference point where none was configured; without a failure it does exactly what the zone calls for |
| LocationPanel.Panel.Align | src/modules/date-time/linux-date-time-panel.c:236-304 | what is written for a matching record and what for an unconfigured location, and that nothing else is |
| CommandLine.LockedWhenMoving | src/tools/time-settings-cli.c:47-58 | for accepted commands the scan that decides the locality lock agrees with the edits: it is taken exactly when the location moves |
| CommandLine.FoldOptions | src/tools/time-settings-cli.c:142-224 | accepts exactly the concatenations of spelled options; the draft is the base but for the word after the last option of each kind |
| CommandLine.OptionsAreExact | src/tools/time-settings-cli.c:142-224 | the reader accepts exactly the concatenations of option spellings with known names and numbers in range, and reads the edits they spell |
| CommandLine.OptionsTell | src/tools/time-settings-cli.c:142-224 | in an accepted command clock, calendar, seconds and coordinates are those after the last option word of their kind, the base's without one, and the last location word decides whether a location is set |
| CommandLine.BatchIsSetters | src/tools/time-settings-cli.c:99-110 | a batch publishes what the corresponding setters, one at a time, would have published |
| TimeSettingsCli.CommandTouchesLocation | src/tools/time-settings-cli.c:47-58 | true exactly when a word is a location option |
| TimeSettingsCli.Acquire | src/tools/time-settings-cli.c:82-110 | locality lock first, policy lock second; failing leaves neither held |
| TimeSettingsCli.SaveDraft | src/tools/time-settings-cli.c:226-248 | stages, then publishes; a failed publication drops the journal and keeps the policy |
| TimeSettingsCli.Undo | src/tools/time-settings-cli.c:255-281 | success: the policy file is the loaded document or absent; failure: it is as published or absent where there was none, with the journal kept for recovery |
| TimeSettingsCli.Settle | src/tools/time-settings-cli.c:249-284 | success: the record is committed or gone and the policy stands; failure: record kept and policy file undone, or left as published for recovery |
| TimeSettingsCli.Execute | src/tools/time-settings-cli.c:60-306 | under any interference, performs the step program and frees both locks on every exit; for each ending what policy, metadata, journal and desktop keys are when the policy lock is given back, in terms of the disk over which it was granted; an acceptable command publishes what its words say and any other is rejected, unless a primitive fails or a lock is taken |
| SystemTime.ProtectedOperations | src/modules/date-time/linux-date-time-system-time.c:340-377 | in every run at most one request is current over all three kinds, and a cancellable is set exactly when its kind's current request is outstanding |
| SystemTime.OverlapsOnlyStale | src/modules/date-time/linux-date-time-system-time.c:354-369 | a call of another kind that is outstanding when a request is accepted is a superseded one |
| SystemTime.StepOverlaps | src/modules/date-time/linux-date-time-system-time.c:354-369 | while all outstanding calls are of one kind, a step keeps that exactly when it begins no request over a call of another kind |
| SystemTime.OneKindExactly | src/modules/date-time/linux-date-time-system-time.c:340-377 | in every run all outstanding calls are of one kind throughout exactly when no request was begun over a superseded call of another kind |
| SystemTime.ManualBesideTimezone | src/modules/date-time/linux-date-time-system-time.c:354-377 | a run in which a manual time is sent while a superseded zone request is outstanding |
| SessionProgress.RequestsAreSent | src/modules/date-time/linux-date-time-system-time.c:340-475 | in every run a request sends exactly one call, newer than any of its kind ever sent, exactly when a living panel has the service and no outstanding current call is of another kind; otherwise nothing changes |
| SessionProgress.CurrentReplyActs | src/modules/date-time/linux-date-time-system-time.c:379-443 | the reply to a current request acts, and afterwards no outstanding call is current, so that any kind can be requested |
| SessionProgress.SearchBegins | src/modules/date-time/linux-date-time-location.c:489-560 | a search on a living panel gets a number that no search had before |
| SessionProgress.ConnectionIsMade | src/modules/date-time/linux-date-time-system-time.c:666-751 | a living panel without service connects unless it is already trying, and has the service exactly when the attempt succeeds |
| SystemTime.StaleReplyIsInert | src/modules/date-time/linux-date-time-system-time.c:379-443 | a superseded or orphaned reply changes only its own references |
| SystemTime.RunIsSound | src/modules/date-time/linux-date-time-system-time.c:340-443 | every run keeps the counts, tokens, exclusion and the order of the completions that acted |
| SystemTime.LifetimeSafety | src/modules/date-time/linux-date-time-panel.c:34-82 | lifetime references are the panel plus outstanding requests, service references the owner plus outstanding calls; each is freed exactly once, at zero, never used after |
| SystemTime.NothingActsAfterFree | src/modules/date-time/linux-date-time-panel.c:1232-1269 | after the panel is freed no completion reaches it, whatever still arrives |
| SystemTime.EverythingCanBeFreed | src/platform/linux/system-time-service.c:283-311 | completing the outstanding work frees lifetime and service once each |
| SystemTimeController.Controller.BeginSystemTimeOperation | src/modules/date-time/linux-date-time-system-time.c:340-377 | refused exactly while another kind is unresolved; otherwise a new generation supersedes the old one |
| SystemTimeController.Controller.RequestOperation | src/modules/date-time/linux-date-time-system-time.c:445-475 | performs the request event and keeps the invariant; the call is sent exactly when the panel has the service and no outstanding current call is of another kind, and is newer than all of its kind |
| SystemTimeController.Controller.SystemTimeOperationComplete | src/modules/date-time/linux-date-time-system-time.c:379-443 | acts exactly for the current request of a living panel; the reference goes either way |
| SystemTimeController.Controller.CallFinished | src/platform/linux/system-time-service.c:329-360 | any outstanding call may finish next; callback before service reference |
| SystemTimeController.Controller.LocationSearchComplete | src/modules/date-time/linux-date-time-location.c:403-487 | shows results exactly for the newest search of a living panel |
| SystemTimeController.Controller.Start | src/modules/date-time/linux-date-time-system-time.c:737-751 | at most one connection attempt is pending |
| SystemTimeController.Controller.SystemTimeServiceReady | src/modules/date-time/linux-date-time-system-time.c:666-727 | the panel adopts the service, or a late service is freed at once |
| SystemTimeController.Controller.PanelFree | src/modules/date-time/linux-date-time-panel.c:1232-1269 | completions become inert before anything is released; the invariant survives |
| SystemTimeController.Controller.Dispose | src/modules/date-time/linux-date-time-system-time.c:753-780 | all cancellables are cleared and the service reference returned |
| WindowsSafety.LivePathIsWhole | src/platform/windows/temporal-policy-store.c:141-233 | in every interleaving the live path is absent or holds one whole document, the first one or one some call was asked to save |
| WindowsSafety.AnswersAreHonest | src/platform/windows/temporal-policy-store.c:141-279 | a successful save changed the path once, to its document; a failed one never; a successful clear saw absence; a load returned what the path held during the call |
| WindowsSafety.RunIsSound | src/platform/windows/temporal-policy-store.c:141-279 | private files stay private and exact, live files immutable, readers out of every writer's reach |
| WindowsProgress.SaveSucceeds | src/platform/windows/temporal-policy-store.c:141-233 | an undisturbed save whose calls succeed puts its document in the live path and answers success |
| WindowsProgress.ClearSucceeds | src/platform/windows/temporal-policy-store.c:235-279 | an undisturbed clear leaves neither live path nor tombstone and answers success |
| WindowsProgress.LoadSucceeds | src/platform/windows/temporal-policy-store.c:75-139 | an undisturbed load answers with the whole live document, an absent, empty or oversized one counting as no policy, and changes nothing |
| WindowsPolicyFiles.PolicyFiles.SaveFile | src/platform/windows/temporal-policy-store.c:141-233 | the same promise for the routine with its 32 and 64 attempts, under any interference; it fails only after a failed call, 32 taken names or 64 collisions |
| WindowsPolicyFiles.PolicyFiles.CreateTemporary | src/platform/windows/temporal-policy-store.c:169-190 | owns a fresh empty private file, or has failed without touching the path |
| WindowsPolicyFiles.PolicyFiles.MoveIntoPlace | src/platform/windows/temporal-policy-store.c:203-223 | publishes once, or still owns a private file to remove |
| WindowsPolicyFiles.PolicyFiles.ClearFile | src/platform/windows/temporal-policy-store.c:235-279 | success: the path was absent at some moment of the call; it fails only after a failed call |
| WindowsPolicyFiles.PolicyFiles.LoadFile | src/platform/windows/temporal-policy-store.c:75-139 | the answer was true at some moment of the call; it fails only after a failed call |
| Decimals.ValueOfDigits | packaging/source-asset-builder.c:1060-1064 | printing and reading a fixed-width numeral is the identity |
| Decimals.DigitsOfValue | packaging/native-installer.c:315-324 | reading and printing digits is the identity |
| Decimals.LeadingDigit | packaging/native-installer.c:315-324 | numerals are positional, the most significant digit first |
| RunFile.PayloadIsFound | packaging/native-installer.c:295-337 | the bounds of every run file are exactly its payload's |
| RunFile.BoundsAreGenuine | packaging/native-installer.c:295-337 | a file is installer, payload and footer exactly when bounds are found and the size check did not wrap |
| RunFile.WrappedRangeIsOutside | packaging/native-installer.c:327-332 | the announced range lies inside the file exactly when the size check did not wrap |
| RunFile.HugeSizeIsAccepted | packaging/native-installer.c:327-334 | the largest size is accepted for any installer followed by its footer |
| NativeInstaller.PayloadBounds | packaging/native-installer.c:295-337 | computes the bounds, digit loop and conversion included |
| NativeInstaller.WriteChunk | packaging/native-installer.c:369-377 | a chunk is written whole in however many pieces |
| NativeInstaller.CopyPayload | packaging/native-installer.c:339-404 | the output is exactly the announced range for every pattern of short reads and writes; it fails only for a failed call, a file without bounds, or a wrapped size |
| NativeInstaller.AppendFile | packaging/source-asset-builder.c:211-241 | appends the whole source or reports failure |
| NativeInstaller.WriteRunFile | packaging/source-asset-builder.c:1050-1072 | installer, payload, footer, in that order |
| NativeInstaller.BuildThenExtract | packaging/native-installer.c:339-404 | what is packed is what is unpacked |
| Trees.PathsLead | packaging/source-asset-builder.c:318-417 | a relative path names a file exactly when its components, none of them `.` or `..`, lead there through directories |
| Trees.PlainIsExact | packaging/source-asset-builder.c:318-417 | the walk's condition on node kinds holds exactly when every path leads to a directory or regular file |
| Trees.FitsIsExact | packaging/source-asset-builder.c:318-417 | the walk's condition on path lengths holds exactly when every path that leads anywhere fits the buffer |
| Trees.ListingIsExact | packaging/source-asset-builder.c:318-417 | the walk lists exactly the relative paths that name regular files, markers aside |
| Trees.ListingIsDistinct | packaging/source-asset-builder.c:318-417 | no path is listed twice |
| Trees.SortedComparisonIsExact | packaging/source-asset-builder.c:427-459 | equal sorted lists with equal contents are the same map from path to bytes, and conversely |
| PathOrder.OrderedListsAgree | packaging/source-asset-builder.c:431-444 | sorted duplicate-free lists are equal exactly when they have the same elements |
| PathOrder.SortOrders | packaging/source-asset-builder.c:311-316 | sorting by byte order orders |
| TreeCompare.PathList.Add | packaging/source-asset-builder.c:274-295 | appends, whatever the array's growth |
| TreeCompare.CollectFiles | packaging/source-asset-builder.c:318-417 | succeeds exactly on plain trees whose paths fit, and then appends the listing |
| TreeCompare.FilesEqual | packaging/source-asset-builder.c:243-272 | the chunked comparison is equality |
| TreeCompare.TreesEqual | packaging/source-asset-builder.c:419-465 | true exactly when both trees fit, are plain and define the same files with the same bytes |
| ZoneCoordinates.ComponentIsExact | src/platform/linux/regional-context.c:112-166 | a component is accepted exactly when it is a written form within range, and means it |
| ZoneCoordinates.AngleIsRead | src/platform/linux/regional-context.c:112-166 | an accepted component means its degrees, minutes and seconds of arc, negative after a minus |
| ZoneCoordinates.CoordinateIsExact | src/platform/linux/regional-context.c:168-198 | the same for latitude and longitude together: print and parse are inverse and nothing else is accepted |
| ZoneCoordinates.ParseComponent | src/platform/linux/regional-context.c:112-166 | the digit loops compute that component's angle |
| ZoneCoordinates.ParseZoneCoordinate | src/platform/linux/regional-context.c:168-198 | the split loop and both components compute the coordinate |
| ZoneSearch.DistanceIsCircular | src/platform/linux/regional-context.c:272-282 | the longitude distance is the shortest way round, at most 180 |
| ZoneSearch.DistanceIsMetric | src/platform/linux/regional-context.c:272-282 | symmetric, triangle inequality, zero only for one meridian |
| ZoneSearch.PiecesRejoin | src/platform/linux/regional-context.c:248-270 | splitting loses nothing and leaves no separator |
| ZoneSearch.CountryFieldMatches | src/platform/linux/regional-context.c:248-270 | some comma-separated part equals the code, ignoring ASCII case |
| ZoneSearch.RowIsRead | src/platform/linux/regional-context.c:284-353 | countries, coordinate and identifier are the first three fields between tabs; a line that begins with a hash is none |
| ZoneSearch.ScoreIsDistance | src/platform/linux/regional-context.c:284-353 | a row is scored by the difference of latitude plus the shortest way round in longitude |
| ZoneSearch.NearestTimezoneInFile | src/platform/linux/regional-context.c:284-353 | the first row of least score among eligible rows; succeeds exactly when one exists and every record identifier on the way fits |
| ZoneSearch.NearestIsDetermined | src/platform/linux/regional-context.c:284-353 | the nearest row is unique, and exists exactly when a row is eligible |
| ZoneSearch.StandardCapacityFits | src/platform/linux/regional-context.c:14-37 | a buffer of the standard capacity never makes the search fail |
| ZoneSearch.NearestTimezone | src/platform/linux/regional-context.c:355-386 | the tables in turn; with the standard capacity the answer is from the first readable table with an eligible row, and failure means there is none |
| ZoneSearch.ListedIsExact | src/platform/linux/regional-context.c:395-507 | an identifier is listed exactly when some line of the table offers it |
| ZoneSearch.ListTimezonesFromFile | src/platform/linux/regional-context.c:395-507 | sorted, duplicate-free, exactly the valid identifiers, UTC and the current one |
| ManualTime.FieldsAreExact | src/modules/date-time/manual-time.c:56-90 | the field reader accepts exactly the grammar |
| ManualTime.Accepts24 | src/modules/date-time/manual-time.c:92-102 | the 24-hour parser's language, meaning and range |
| ManualTime.Accepts12 | src/modules/date-time/manual-time.c:104-127 | the 12-hour parser's language, meaning and range |
| ManualTime.AcceptsDecimal | src/modules/date-time/manual-time.c:129-139 | the decimal parser's language, meaning and range; its final range check never fails |
| ManualTime.RoundTrip24 | src/modules/date-time/manual-time.c:92-102 | parsing inverts printing at every second |
| ManualTime.RoundTrip12 | src/modules/date-time/manual-time.c:104-127 | parsing inverts printing at every second |
| ManualTime.ClocksAgree | src/modules/date-time/manual-time.c:92-127 | both spellings of one second mean the same |
| ManualTime.DecimalRoundTrip | src/modules/date-time/manual-time.c:129-139 | parsing inverts printing at every decimal second |
| ManualTime.EveryResultIsCanonical | src/modules/date-time/manual-time.c:92-127 | every accepted text means what its canonical spellings mean |
| ManualTime.SplitRecomposes | src/modules/date-time/linux-date-time-system-time.c:580-586 | hour, minute, second and fraction recompose the microseconds |
| ManualTime.ParseField | src/modules/date-time/manual-time.c:56-72 | the digit loop reads exactly one field |
| ManualTime.ParseConventional12 | src/modules/date-time/manual-time.c:104-127 | the imperative parser computes the 12-hour meaning |
| ManualTime.Result.Parse | src/modules/date-time/manual-time.c:141-171 | parses by the clock that the mode names, the desktop's for `standard`, and by none for an unknown mode; failure leaves the result unchanged |

## Left out

- Common's policy parser, serializer and atomic writes: taken as given. A stored document is one
  the serializer wrote (six decimals, coordinates in range); a hand-edited document with more
  decimals is not part of this model.
- Temporal.StoredMatches: real arithmetic; floating-point rounding is not modelled.
- PolicyStore.Store.Load: an unreadable file is a failed read, a property of the attempt and not
  of the file. Only the program's own saves change the desktop keys: a user who changes them in
  the desktop's own settings during a run is not part of this model.
- DateTimeModel.Model.SetLocation: finiteness of the doubles and re-entrant calls from store
  callbacks are not modelled; allocation failure is not either. Over a shared store it is called
  only by reconciliation, as in the program.
- LocationMetadata.Files.Save: directory creation, permissions and UTF-8 validation appear only
  as a write that may fail.
- LocationPanel.Panel.CommitPlace: widgets, status texts, the advisory nearest zone and the
  debounce timer; edited coordinates run the same steps with the custom-coordinates record.
- LocationPanel.Panel.Reconcile: whether the zone changed at all is decided before the call; the
  system zone, reference point and their agreement are parameters. A zone name too long for the
  record, which the program's buffers cannot hold, is refused instead of cut.
- CommandLine.OptionsTell: the catalogues and the number parser accept no word that is itself
  an option.
- TimeSettingsCli.Execute: the printed report, and the call without options, which only loads;
  the desktop compatibility check may also report a mismatch when a key cannot be read. For a
  command without a location option, which takes no locality lock, metadata and journal belong
  to others and nothing is said of them. On Windows the locality part does not exist.
- SystemTime.RunIsSound: generations are unbounded; a completion is one event, so freeing the
  panel from inside its own callback is not modelled, nor are D-Bus errors beyond "not the
  current request" and "nothing acted"; a service always has its proxy, so the immediate
  completion without one is never reached.
- WindowsSafety.LivePathIsWhole: a rename takes effect or reports failure; path construction,
  the update lock and the parser's verdict on a loaded text are left out.
- NativeInstaller.CopyPayload: the temporary file's creation, permissions and removal, and running
  `tar` on the result.
- TreeCompare.TreesEqual: system calls succeed; a directory stream that ends early with an error
  reads as its end, as in the code; `qsort` is any sorting routine.
- ZoneSearch.NearestTimezone: reading the tables; the merge of the selector's two tables.
- ZoneCoordinates.ParseComponent: the latitude written before a longitude fails is not observed.
- ManualTime.Result.Parse: calendar dates and daylight-saving gaps, decided by GLib.
- Home and preview caches, the policy file observer, city names, uptime and version checks,
  process spawning, packaging scripts and the user interface: easy or foreign next to the rest.
