# A verified model of the thinr-agent self-updater

thinr-agent replaces its own binary on devices nobody can reach by hand. What keeps
a device from being stranded on a bad binary is a protocol over six files, split
between the apply path, the decision taken at start, a runtime watchdog with two
racing threads, and a poll loop. This project models that protocol, the staged
rollout that decides who may update when, the release scripts that feed it, the
storage under it, and two small cores of the agent, and proves what they promise.

Check everything with `dafny verify dfyconfig.toml` (Dafny 4.11).

## How the model is built

**The protocol** (`UpdateProtocol`) is a machine. A thread is a program counter,
`ThreadStep` is one file operation or one critical section, and every fallible call
has an outcome `ok`; an unlink that fails is silent, as in the source. `Next` adds
power loss or exit between any two actions, process starts, state callbacks, poll
cycles and orchestrated updates. `UpdateInvariant` and `UpdateRuns` hold the
invariant (one predicate per program counter, and one per pair of threads).
`UpdateTheorems` says what holds in every reachable state, `UpdateTrials` what becomes
of a binary on trial along every run, `UpdateApply` what an apply leaves behind for
every outcome of every call, `UpdateDiscipline` the exact conditions, and
`UpdateStories` that the machine gets where the theorems speak of.

**The code itself** is `UpdateAgent` and `UpdatePoller`: classes whose fields are the
files and the members of the source's objects. Every method is proved to take its
thread through the machine's own states, one by one and in order (`Ran`), for every
outcome of every call, so the theorems about the machine are theorems about them.

**The rest** is one module per source file. What the source does in loops or by
changing an object is a method proved against a function; what it promises is
proved of the function.

Three things the code takes for granted are assumptions of the protocol theorems
(`UpdateProtocol.Disciplined`): STREAMS_READY is not emitted while an earlier dispatch
is confirming a trial or about to; no orchestrated update passes its marker check
between confirm's two unlinks; confirm's unlink of the marker takes effect. Each is
proved sufficient and necessary: the event is safe if and only if the condition holds
(`ReadySafeIff`, whose necessity is for a process with no update in progress,
`AdmissionSafeIff`, `ConfirmSafeIff`).

## What came out of it

- **Confirm has a window.** Between its two unlinks an orchestrated update that is
  admitted makes a new backup, which confirm then removes: the new binary is on
  trial with nothing to go back to. Admission is safe exactly outside that window
  (`AdmissionSafeIff`), which is reachable (`WindowIsReachable`); a silent failure of
  the first unlink has the same effect (`ConfirmSafeIff`), and so has a STREAMS_READY
  emitted while another confirms (`ReadySafeIff`).
- **The crash budget counts what reaches check_boot.** With every count written, every
  restore working and no death before check_boot is done, a binary that never gets
  ready is started at most four times and is then gone (`CrashLoopEnds`). Each of the
  three faults costs one more start (`CrashLoopBound`), and a binary that dies before
  check_boot can be started without end (`EarlyDeathsAreNotCounted`).
- **A binary that reports another version is not protected.** The preflight only logs
  the difference; the first start then drops marker and backup
  (`TrialIffVersionReported`, `UnreportedVersionLosesBackup`).
- **Freezing does nothing to a manifest without a ramp** (`FreezeExact`), and the
  script takes any `frozen_at` key for a freeze while devices take only a positive
  number for one (`FreezeTakesEffectIff`).
- **The release script accepts a schedule the devices refuse.** It asks for whole
  numbers of hours; above 8760, or with a time of 0, every device takes the staging block
  for broken and none updates by itself (`ReadsBackIff`, `ReleaseSchedule`).
- **An architecture served but not listed is not checked**, and a panic leaves it its
  old binary under the new version's name (`CheckedIff`,
  `UnlistedInstallsTheOldBinary`).
- **A reconfigure can lose an explicit opt-out.** It keeps it exactly when the setup
  also returns true and the section can be read and put back; installing the service
  comes after saving, so a failed service installation loses it
  (`ReconfigureThatEndsWithAFile`, `FailedServiceInstallLosesOptOut`). So does a
  reinstall whose read of the section fails and whose write of it works: it takes the
  section for missing and writes the defaults (`FailedReadLosesOptOut`). And a poll
  cycle that cannot open the configuration does not honour the opt-out
  (`OptOutHonouredIff`).
- **Disabling a service can take its neighbours off the list.** Both spaces around the
  name go with it, so the services on its two sides become one word
  (`RemovalJoinsNeighbours`).
- **The device-token loop is bounded exactly for an interval of a second or more**
  (or a negative timeout); the interval is taken from the server as it is
  (`BoundedIff`).
- **write_atomic can return true and still be undone by a power cut**, exactly when
  the directory could not be synced (`DurableIff`).

Where code and documentation differ the model follows the code: docs/releasing.md:116-118
says a panic manifest carries the present time, the script pins `published_at` to 1.

## Model

| member | source | states |
|---|---|---|
| `UpdateTheorems.Recoverability` | src/thinr/extensions/updater.cpp:465-514 | in every reachable state, power cuts between any two file steps included, the installed file is a whole binary, and a binary on trial has beside it the whole binary of the version its marker comes from |
| `UpdateTheorems.BackupIsWhatWasReplaced` | src/thinr/extensions/updater.cpp:465-514 | from a swap to the next, whenever the new binary is on trial the backup holds, byte for byte, what the swap replaced |
| `UpdateTheorems.PreviousNeverMissing` | src/thinr/runtime/update_watchdog.cpp:51-71 | no rollback, at start or at run time, finds the previous binary missing |
| `UpdateTheorems.VersionAgreement` | src/thinr/extensions/updater.cpp:386-393 | a live process that is not running the installed binary has a marker on disk, so a second swap is refused |
| `UpdateTheorems.AdmittedApply` | src/thinr/extensions/updater.cpp:386-393 | an apply past the marker check is alone, runs on the installed binary, and at the swap has that binary in the backup and named in the marker |
| `UpdateTheorems.RollbackOverTargetOnly` | src/thinr/runtime/update_watchdog.cpp:51-71 | the restoring rename fires only when running, installed and marker target are the same version |
| `UpdateTheorems.OneOutcome` | src/thinr/runtime/update_watchdog.cpp:184-264 | under every interleaving of callbacks, deadline and stop, at most one of confirm, report and rollback is taken in a process, by one thread |
| `UpdateTheorems.OutcomeIsFinal` | src/thinr/runtime/update_watchdog.cpp:184-264 | once taken the outcome does not change until the next start: no rollback after a confirm, no confirm after a rollback, even a failed one |
| `UpdateTheorems.AutoPollCannotOvertake` | src/thinr/runtime/update_watchdog.cpp:240-251 | no update that passed its marker check coexists with a file a confirmation or a report has still to unlink, and while a confirmation has, no automatic cycle has got past the connection |
| `UpdateTrials.TrialHasOneFate` | src/thinr/runtime/update_watchdog.cpp:93-264 | along every run from a swap to the next: confirmed if and only if a confirmation took place, and then the new binary stays; otherwise it is still on trial with the replaced file behind it, or that file is back |
| `UpdateTrials.UnreadyUpdateIsUndone` | src/thinr/runtime/update_watchdog.cpp:184-264 | along every run in which the trial never gets STREAMS_READY, the new binary is still on trial or the replaced file is back |
| `UpdateTrials.NeverReadyNeverConfirmed` | src/thinr/runtime/update_watchdog.cpp:199-227 | only a STREAMS_READY that reaches an undecided trial can confirm it |
| `UpdateTrials.ConfirmedIsAtRest` | src/thinr/runtime/update_watchdog.cpp:240-251 | whenever a confirmation's last unlink works, the running binary is installed and there is neither marker nor backup |
| `UpdateTrials.RenameRestores` | src/thinr/runtime/update_watchdog.cpp:66-70 | whenever a rollback renames, the replaced binary is back and off trial, or nothing changed and the trial goes on |
| `UpdateTrials.ReportedIsAtRest` | src/thinr/runtime/update_watchdog.cpp:212-227 | whenever the report path's unlink works, no marker is left and the running binary is the installed one |
| `UpdateTrials.CrashLoopBound` | src/thinr/update/watchdog_core.cpp:34-48 | along every run after a swap without a confirmation: at most four starts of the new binary, plus one for each lost count, failed restore or death before check_boot was done; the attempts on disk never exceed three and account for every start; and past the budget the replaced file is back |
| `UpdateTrials.CrashLoopEnds` | src/thinr/runtime/update_watchdog.cpp:113-132 | along every run after a swap without those faults in which the new binary never gets STREAMS_READY, whenever and however it dies: at most four starts, after which the replaced file is back |
| `UpdateTrials.ShortestCrashLoop` | src/thinr/runtime/update_watchdog.cpp:113-132 | an example: dying at once at every start uses the budget up, and the revert is marked and recorded as crash_loop |
| `UpdateTrials.EarlyDeathsAreNotCounted` | src/thinr/runtime/update_watchdog.cpp:93-135 | deaths before check_boot consume no budget, however many |
| `UpdateTheorems.NoFlapping` | src/thinr/update/watchdog_core.cpp:69-78 | while a revert record stands, no automatic swap brings the version back, except after a missed deadline and the full cooldown |
| `UpdateTheorems.RecordSays` | src/thinr/runtime/update_watchdog.cpp:51-89 | at every reachable state the record a rollback writes names the running version and, by who rolled back, the reason: auth_failed by a dispatch (and then of AUTH_FAILED), deadline by the deadline thread, crash_loop at start |
| `UpdateTheorems.RevertedVersionStaysAway` | src/thinr/update/watchdog_core.cpp:69-78 | along every run while the record stands, a version taken back for a rejected login or a crash loop is never swapped in by the poller, at any later clock; after a missed deadline not for 86400 seconds |
| `UpdateRuns.RunKeepsInv` | src/thinr/runtime/update_watchdog.cpp:93-264 | every disciplined run of the whole machine keeps the invariant the theorems rest on |
| `UpdateRuns.NextKeepsInv` | src/thinr/runtime/update_watchdog.cpp:93-264 | so does every single event: steps of any thread, callbacks, polls, orders, starts and deaths |
| `UpdateInvariant.StepKeepsDisk` | src/thinr/extensions/updater.cpp:465-514 | no atomic action of any thread, succeeding or failing, breaks the invariant of the files |
| `UpdateInvariant.StepKeepsPair` | src/thinr/runtime/update_watchdog.cpp:184-264 | no action of a thread makes it incompatible with another thread that is at any point of its own |
| `UpdateDiscipline.DriveIsRun` | src/thinr/extensions/updater.cpp:349-522 | one thread driven alone is a run of the machine, so the methods' runs are covered by the theorems |
| `UpdateApply.ApplyCutAnywhere` | src/thinr/extensions/updater.cpp:349-522 | an apply cut off after any action, with any failures, has left the installed file untouched, or is complete with the old binary in the backup and a pending marker |
| `UpdateApply.FailedApplyLeavesNothing` | src/thinr/extensions/updater.cpp:349-522 | for every outcome of every call, an apply that ends without an update leaves the installed file, leaves the marker as it was if and only if no unlink of a marker it made failed, and, when the unlink of its download worked, no download or no file touched at all |
| `UpdateApply.ApplyAnswers` | src/thinr/extensions/updater.cpp:362-521 | for every outcome of every call an apply makes, each of its answers is given exactly under its own gates: updated if and only if it was admitted, download, checksum, preflight, backup, marker and swap worked, and for the automatic poll neither look found an open session; deferred, checksum, preflight and the rest each exactly when theirs was the first gate to fail |
| `UpdateApply.InstalledWasVetted` | src/thinr/extensions/updater.cpp:414-516 | wherever an apply is cut off, if the installed file has changed then checksum and preflight passed, the device was idle at both looks if automatic, and backup and marker were written |
| `UpdateApply.ExitLeaves` | src/thinr/extensions/updater.cpp:475-513 | what the early exits leave from any point on, when their unlinks work |
| `UpdateDiscipline.AdmissionSafeIff` | src/thinr/extensions/updater.cpp:386-393 | after an apply passes its marker check the device can be stranded if and only if a confirmation is between its two unlinks |
| `UpdateDiscipline.ConfirmSafeIff` | src/thinr/runtime/update_watchdog.cpp:247-248 | confirm can strand the device if and only if its unlink of the marker silently failed |
| `UpdateDiscipline.ReadySafeIff` | src/thinr/runtime/client_state_dispatcher.hpp:103-118 | emitting STREAMS_READY is safe while no earlier dispatch is confirming a trial or about to, and, with no update in progress, only then |
| `UpdateDiscipline.TrialIffVersionReported` | src/thinr/extensions/updater.cpp:442-454 | a swap puts the new binary on trial if and only if it reports the version announced |
| `UpdateDiscipline.UnreportedVersionLosesBackup` | src/thinr/runtime/update_watchdog.cpp:103-107 | otherwise its first start unlinks marker and backup, each as far as the unlink works, and goes on unwatched |
| `UpdateStories.HealthyTrialIsConfirmed` | src/thinr/runtime/update_watchdog.cpp:199-251 | from any trial within budget there is a run with one STREAMS_READY that ends at rest on the new binary with neither marker nor backup |
| `UpdateStories.DeadlineRestores` | src/thinr/runtime/update_watchdog.cpp:184-197 | from any armed process there is a run in which the deadline thread alone puts back the exact binary replaced and records it |
| `UpdateStories.ReportClears` | src/thinr/runtime/update_watchdog.cpp:212-227 | from any rolled-back device there is a run that clears the marker |
| `UpdateStories.FailedTrialIsUndone` | src/thinr/runtime/update_watchdog.cpp:184-264 | from any trial within budget there is a run that ends at rest on the replaced binary, with a record naming the version |
| `UpdateStories.WindowIsReachable` | src/thinr/runtime/update_watchdog.cpp:247-248 | from a device at rest a disciplined run leads to a trial, and on to a confirmation between its unlinks beside an orchestrated update at its marker check, from where the device can be stranded |
| `UpdateAgent.DriveAppend` | src/thinr/extensions/updater.cpp:349-522 | runs of a thread compose, in their end and in every state on the way |
| `UpdateAgent.Agent.ApplyWithWatchdog` | src/thinr/extensions/updater.cpp:349-522 | `updated` if and only if admitted and every gate passes: download, checksum, preflight, backup, marker, swap, and for the automatic poll both looks at open sessions; `deferred` if and only if it is an admitted automatic apply and a look is the first gate to fail; `updated` gives the new binary, the old one as backup and a pending marker with no attempts and the deadline asked for, or 90 seconds; anything else leaves the installed file, leaves the marker if and only if no unlink of a new one failed, and no download unless its unlink failed; the in-progress flag as found; through the machine's states in order |
| `UpdateAgent.Agent.ApplyFlagged` | src/thinr/extensions/updater.cpp:386-403 | with a marker on disk nothing is touched; otherwise updated and deferred exactly as the outcomes of its gates say, the idle gate binding only automatic updates |
| `UpdateAgent.Agent.Download` | src/thinr/extensions/updater.cpp:414-420 | the download is a torn file until it is whole, and a failed one ends the apply |
| `UpdateAgent.Agent.Vet` | src/thinr/extensions/updater.cpp:422-463 | goes on if and only if the checksum holds, the binary reports a version and, for the automatic poll, no session is open; otherwise gives the reason of the first that fails, to drop the download; changes no file |
| `UpdateAgent.Agent.CopyAside` | src/thinr/extensions/updater.cpp:465-474 | a copy of the installed binary is complete under a temporary name, or the apply gives up |
| `UpdateAgent.Agent.MarkAndSwap` | src/thinr/extensions/updater.cpp:484-514 | the pending marker is on disk before the rename, in this order, and a failure says what to undo |
| `UpdateAgent.Agent.Abandon` | src/thinr/extensions/updater.cpp:475-513 | the early exits unlink what their step had made, in order; marker and download are gone when those unlinks worked |
| `UpdateAgent.Agent.DoRollback` | src/thinr/runtime/update_watchdog.cpp:51-89 | restores exactly when the backup exists and the rename succeeds, then writes both records, each as far as its write works, and otherwise changes nothing |
| `UpdateAgent.Agent.CheckBoot` | src/thinr/runtime/update_watchdog.cpp:93-135 | reverts if and only if a pending marker names the running version, has three attempts or more, and the backup is there and can be renamed; that is recorded as crash_loop; below three the start is counted; a marker for another version is unlinked with its backup; nothing else is touched |
| `UpdateAgent.Agent.Construct` | src/thinr/runtime/update_watchdog.cpp:137-164 | the watchdog is armed or owes a report exactly as the marker says |
| `UpdateAgent.Agent.Confirm` | src/thinr/runtime/update_watchdog.cpp:240-251 | deadline off, then marker, then backup, in this order |
| `UpdateAgent.Agent.Rollback` | src/thinr/runtime/update_watchdog.cpp:253-264 | a restart is asked for exactly when the previous binary was restored |
| `UpdateAgent.Agent.DeadlineLoop` | src/thinr/runtime/update_watchdog.cpp:184-197 | does nothing once stopped or resolved, and otherwise rolls back, recorded as deadline |
| `UpdateAgent.Agent.OnState` | src/thinr/runtime/update_watchdog.cpp:199-238 | only the first to resolve acts: a restart is asked for if and only if an armed trial had its login rejected, not by a transport error, and the previous binary was restored, which is recorded as auth_failed; STREAMS_READY unlinks marker and backup of a trial, or the marker of a reported rollback; any other event changes no file |
| `UpdateAgent.Agent.NoteConnection` | src/thinr/runtime/update_poller.cpp:63-66 | the poller's view of the connection |
| `UpdatePoller.Poller.RunCycle` | src/thinr/runtime/update_poller.cpp:98-168 | a cycle reaches the apply path if and only if policy, connection, manifest, version, revert record and rollout all allow it, and leaves the agent as it was otherwise |
| `UpdatePoller.Poller.PollLoop` | src/thinr/runtime/update_poller.cpp:68-96 | one cycle for every wake until told to stop or until one swapped the binary, each going down the apply path if and only if its wake allowed it, answering as that path does and starting where the one before ended; the pause is 600 seconds after a deferral and otherwise the interval configured at that wake give or take a tenth |
| `UpdatePoller.NormalDelayInBounds` | src/thinr/update/poll_schedule.hpp:15-20 | the pause is the interval give or take a tenth, so with the interval clamped between 54 minutes and 7.7 days |
| `UpdatePoller.DelaySpread` | src/thinr/update/poll_schedule.hpp:11-20 | the random number spreads the pause evenly between nine and eleven tenths of the interval, both ends reached, and the first pause from none to half an hour |
| `UpdatePoller.AttemptsIsTheGate` | src/thinr/runtime/update_poller.cpp:98-168 | that condition is what lets the machine's poll thread through |
| `UpdatePoller.OptedOutAttemptsNothing` | src/thinr/runtime/update_poller.cpp:106-110 | after an opt-out that was kept, a cycle attempts something only if it could not open the configuration, whatever the server sends or offers |
| `UpdatePoller.OptOutHonouredIff` | src/thinr/config/config_manager.cpp:133-141 | a cycle honours the opt-out under every override if and only if it can open the configuration |
| `UpdatePoller.Poller.SetRemotePolicy` | src/thinr/runtime/update_poller.cpp:49-61 | what is stored in the atomic integer is read back |
| `UpdatePoller.Poller.ReceiveConfig` | src/thinr/agent/agent.cpp:211-263 | a message clears, sets or leaves the override |
| `UpdateCommand.Run` | src/thinr/extensions/updater.cpp:82-157 | a check touches nothing; an apply goes down the apply path if and only if another version is announced, whatever the staging block says, and is never deferred |
| `UpdateCommand.ReadersAgreeIff` | src/thinr/extensions/updater.cpp:159-188 | exactly when this reader of a manifest and the poll loop's agree on version and checksum: a checksum that is not text is an error for one and no check for the other |
| `UpdateMarker.MarkerRoundTrip` | src/thinr/update/update_marker.cpp:5-62 | every marker written is read back |
| `UpdateMarker.SparseMarker` | src/thinr/update/update_marker.cpp:38-57 | a marker with nothing but a known phase reads with the defaults, 90 seconds of deadline among them, and one with another phase does not read |
| `UpdateMarker.RevertedRoundTrip` | src/thinr/update/update_marker.cpp:64-97 | a revert record is read back if and only if it names a version |
| `StateDispatcher.Dispatcher.Subscribe` | src/thinr/runtime/client_state_dispatcher.hpp:77-82 | observers keep the order they came in, under ids never used before |
| `StateDispatcher.Dispatcher.Unsubscribe` | src/thinr/runtime/client_state_dispatcher.hpp:93-101 | takes out the one entry and nothing else |
| `StateDispatcher.Dispatcher.Dispatch` | src/thinr/runtime/client_state_dispatcher.hpp:103-118 | every observer subscribed runs once, in order, whichever of them throw |
| `StateDispatcher.SubscriptionOrder` | src/thinr/runtime/client_state_dispatcher.hpp:77-118 | whatever is subscribed and removed later, two observers still there run in the order they subscribed |
| `StateDispatcher.NeverReturns` | src/thinr/runtime/client_state_dispatcher.hpp:77-101 | a removed subscription does not come back |
| `StateDispatcher.ConstructAgent` | src/thinr/agent/agent.cpp:57-68 | the agent subscribes the watchdog first and the poller second |
| `StateDispatcher.WatchdogBeforePoller` | src/thinr/agent/agent.cpp:57-68 | so in every dispatch that reaches both the watchdog is done first |
| `Rollout.Parse` | src/thinr/update/manifest.cpp:17-65 | the record filled field by field is what the document means, a partial staging block being invalid |
| `Rollout.ParsedInRange` | src/thinr/update/manifest.cpp:33-58 | parsed hours are within a year, whatever the document |
| `Rollout.StagingBlockIff` | src/thinr/update/manifest.cpp:33-58 | the staging block counts if and only if all three keys are there and in range, each number under its own key, and is broken if some are there and it does not count |
| `Rollout.InstallsIff` | src/thinr/update/manifest.cpp:93-117 | in the manifest's own numbers: a version without staging is for everyone, a staged one for a device if and only if soak_h hours have passed since publication and, with a ramp, the time since then up to a freeze is more than the device's fraction of ramp_h hours |
| `Rollout.ReasonIff` | src/thinr/update/manifest.cpp:93-117 | which answer is given before a version is for the device: invalid, clock, soak and ramp each exactly in its own case |
| `Rollout.FreezeTheorem` | src/thinr/update/manifest.cpp:93-117 | with a ramp, a device is eligible under the frozen manifest if and only if it was under the unfrozen one at the earlier of now and the freeze |
| `Rollout.FreezeExact` | src/thinr/update/manifest.cpp:93-117 | for any manifest, that equivalence fails if and only if it is valid and staged without a ramp and the freeze fell before the end, soak_h hours after publication, of a soak that is over |
| `Rollout.NestedBands` | src/thinr/update/manifest.cpp:93-117 | time only adds devices, and a smaller fraction goes first |
| `Rollout.RampCompletes` | src/thinr/update/manifest.cpp:93-117 | unfrozen, later than soak_h + ramp_h hours after publication every device is eligible, a fraction rounded up to 1 included |
| `Rollout.ReachesSomebodyIff` | src/thinr/update/manifest.cpp:93-117 | a manifest ever reaches a device if and only if it is valid, its staging block is whole or absent, and a ramp was not frozen before soak_h hours after publication |
| `Rollout.DigestOrderIsRolloutOrder` | src/thinr/update/manifest.cpp:77-117 | devices go in the order of their digests |
| `ReleaseManifest.ReadsBackIff` | scripts/release/gen-manifest.sh:64-92 | devices read a generated manifest as it was meant if and only if its time is not 0 and neither number of hours is above 8760, and otherwise take its block for broken |
| `ReleaseManifest.ReleaseSchedule` | scripts/release/gen-manifest.sh:64-92 | when a device takes a release, in the numbers the script was given; never when they are out of range, which the script accepts |
| `ReleaseManifest.DefaultSchedule` | scripts/release/gen-manifest.sh:32-43 | with the defaults, nobody for three days and everybody after seven |
| `DigestFold.Fold` | src/thinr/update/manifest.cpp:84-87 | the shift-and-or loop over a 64-bit word is the big-endian value of the first eight bytes |
| `DigestFold.ShiftOr` | src/thinr/update/manifest.cpp:84-87 | no turn of the loop loses a bit |
| `DigestFold.FoldOrder` | src/thinr/update/manifest.cpp:77-91 | numeric order of the values is lexicographic order of the bytes |
| `DigestFold.FractionInUnit` | src/thinr/update/manifest.cpp:77-91 | the exact fraction is at least 0 and below 1 |
| `DigestFold.FirstByteDecides` | src/thinr/update/manifest.cpp:77-91 | the first byte of the digest, over 256, is the fraction to within 1/256 |
| `DigestFold.FractionOrder` | src/thinr/update/manifest.cpp:77-91 | fractions are ordered as the digests' first eight bytes |
| `Publication.Store.Panic` | scripts/release/panic.sh:65-126 | answers exactly as validation demands, changes nothing unless everything checks out, and passes only through states with some binaries uploaded, the manifest last |
| `Publication.StableTagIff` | scripts/release/lib.sh:15-29 | a tag of one line is stable if and only if it is a v and three numbers with dots between |
| `Publication.SuffixIsNotStable` | scripts/release/lib.sh:15-29 | with anything after the numbers but another digit it is not |
| `Publication.Store.StageBinaries` | scripts/release/panic.sh:90-104 | succeeds if and only if every architecture has a non-empty archived binary, and has those |
| `Publication.Store.SyncBinaries` | scripts/release/lib.sh:134-146 | however soon it is cut short, the store holds some of the staged binaries over the old ones |
| `Publication.Store.ChecksumsJson` | scripts/release/lib.sh:60-75 | one checksum for every staged binary, refused for none |
| `PublicationReaders.OnlyLatestChanges` | scripts/release/panic.sh:124-126 | archived releases and unlisted binaries are never touched |
| `PublicationReaders.ManifestOf` | scripts/release/panic.sh:124-126 | the old manifest is served until the last state of all |
| `PublicationReaders.CoherentWhenRepointed` | scripts/release/panic.sh:86-126 | whenever the new manifest is served it lists the architectures the old one did, and each has the archived binary |
| `PublicationReaders.MidwayCoherentIff` | scripts/release/panic.sh:124-126 | exactly when the old manifest still describes the binaries during the upload |
| `PublicationReaders.ReadNewManifest` | src/thinr/extensions/updater.cpp:414-433 | an agent that read the new manifest installs the archived binary at any later moment |
| `PublicationReaders.ReadOldManifest` | src/thinr/extensions/updater.cpp:414-433 | one that read the old manifest installs if and only if the download hashes as what it saw announced |
| `PublicationReaders.ReaderGetsThePromisedBytes` | src/thinr/extensions/updater.cpp:414-433 | under any interleaving, with a hash that tells the binaries in question apart, the bytes installed are those the manifest read promised |
| `PublicationReaders.CheckedIff` | src/thinr/extensions/updater.cpp:422-433 | a download is checked if and only if the manifest lists a checksum for the architecture |
| `PublicationReaders.UnlistedInstallsTheOldBinary` | scripts/release/panic.sh:86-101 | an architecture served but not listed gets its old binary under the new version |
| `PublicationReaders.PanicReachesEveryClock` | scripts/release/panic.sh:109-119 | the panic manifest is eligible for a device if and only if its clock shows at least 1 |
| `PublicationReaders.SkippedUploadIff` | scripts/release/lib.sh:134-146 | were the sync to skip some staged files, the repointed store would be coherent if and only if each was already served, or hashes alike |
| `PublicationReaders.RunItAgain` | scripts/release/panic.sh:80-126 | a panic cut short is completed by running it again, to the same store, and a complete one is a no-op |
| `FreezeScript.Run` | scripts/release/freeze.sh:56-80 | only `frozen_at` of the served manifest changes, and only when it has to |
| `FreezeScript.FreezeLaws` | scripts/release/freeze.sh:61-78 | idempotent both ways; unfreezing undoes a freeze if and only if there was none before; other keys stay |
| `FreezeScript.FreezeStopsTheRamp` | scripts/release/freeze.sh:61-70 | after the script froze a manifest with a ramp, a device is eligible if and only if it was at the moment of the freeze, or is now if earlier |
| `FreezeScript.FreezeTakesEffectIff` | scripts/release/freeze.sh:58-66 | devices see the freeze if and only if the manifest had no frozen_at or a valid one |
| `AtomicFile.FileSystem.WriteAll` | src/thinr/utils/atomic_file.cpp:13-24 | under short writes and interruptions, the file holds a prefix of the data, all of it on success |
| `AtomicFile.CompletesIff` | src/thinr/utils/atomic_file.cpp:13-24 | the loop completes if and only if the calls before any failing one could take all the bytes |
| `AtomicFile.FileSystem.WriteAtomic` | src/thinr/utils/atomic_file.cpp:35-68 | true if and only if every call up to the rename succeeded; a crash at any state leaves the old or the new content, whole; false leaves the target alone |
| `AtomicFile.DurableIff` | src/thinr/utils/atomic_file.cpp:61-67 | a true result outlives a power cut if and only if the directory was synced, or nothing changed |
| `AtomicFile.TmpBesideTarget` | src/thinr/utils/atomic_file.cpp:26-36 | the temporary file is another file in the target's own directory |
| `ConfigFile.ConfigManager.Save` | src/thinr/config/config_manager.cpp:80-109 | credentials without host, device, user or token change nothing; otherwise only the credential keys change, a file that cannot be read being replaced |
| `ConfigFile.ConfigManager.WriteUpdateSection` | src/thinr/config/config_manager.cpp:143-151 | only the section changes, and never on a missing or corrupt file |
| `ConfigFile.ConfigManager.ReadUpdateSection` | src/thinr/config/config_manager.cpp:133-141 | never fails; nothing readable is the empty section |
| `ConfigFile.ConfigManager.Load` | src/thinr/config/config_manager.cpp:153-178 | the stored credentials, or an error for any missing or mistyped part |
| `ConfigFile.SavedLoads` | src/thinr/config/config_manager.cpp:80-178 | what is saved over any document is loaded, an empty version as 1.0.0 |
| `ConfigFile.MissingKeysDefault` | src/thinr/config/config_manager.cpp:153-178 | without the key, certificates are checked and the version is 1.0.0, the rest loading as before |
| `ConfigFile.RunRefines` | src/thinr/config/config_manager.cpp:80-185 | over any sequence of calls and failures, from any file, the document behaves as three independent registers |
| `ConfigFile.LastWritesWin` | src/thinr/config/config_manager.cpp:80-178 | from any file, a missing one included, with no removal and no failed open: load gives the last credentials saved, the section is the last one written since there was a document, every other key is as it was |
| `ConfigFile.SaveLosesSectionIff` | src/thinr/config/config_manager.cpp:88-95 | a save loses the update section if and only if there was one and the file could not be read |
| `TokenCodec.EncryptToken` | src/thinr/config/config_manager.cpp:229-246 | the loops over bytes and digits compute the stored form |
| `TokenCodec.DecryptToken` | src/thinr/config/config_manager.cpp:248-264 | the loop over pairs reads it, or fails as the number parser does |
| `TokenCodec.Scramble` | src/thinr/config/config_manager.cpp:235-237 | the in-place loop scrambles every byte once |
| `TokenCodec.TokenRoundTrip` | src/thinr/config/config_manager.cpp:229-264 | every token comes back, through twice as many lowercase hex digits |
| `TokenCodec.StoredAt` | src/thinr/config/config_manager.cpp:229-246 | the digits stored for each byte are those of its XOR with 0x5A |
| `TokenCodec.StoredFormIff` | src/thinr/config/config_manager.cpp:229-264 | a readable stored token is rewritten unchanged if and only if it is an even number of lowercase hex digits |
| `TokenCodec.DecryptsIff` | src/thinr/config/config_manager.cpp:248-264 | a stored token reads if and only if each pair begins with a hex digit, or with a space or sign before one, and gives a byte for each |
| `UpdatePolicy.ValidChannel` | src/thinr/update/update_settings.cpp:32-41 | accepts exactly the names that stay one path segment |
| `UpdatePolicy.FromJson` | src/thinr/update/update_settings.cpp:43-78 | every field falls back on its own |
| `UpdatePolicy.FieldsAreRead` | src/thinr/update/update_settings.cpp:43-78 | what each field reads as, present or absent, well-typed or not, in bounds or clamped, whatever the others are |
| `UpdatePolicy.ReadIsInBounds` | src/thinr/update/update_settings.cpp:43-78 | no section, however broken, gives an interval, deadline or channel out of bounds |
| `UpdatePolicy.SettingsRoundTrip` | src/thinr/update/update_settings.cpp:49-78 | settings survive being stored if and only if they are in bounds |
| `UpdatePolicy.OptOutIffOutOfReach` | src/thinr/update/update_settings.cpp:80-89 | an explicit local opt-out is exactly what no remote override can change, and the server can always hold a device |
| `RemoteOverride.LastWordStands` | src/thinr/agent/agent.cpp:211-263 | the last message that is not malformed decides alone |
| `RemoteOverride.MessageShapes` | src/thinr/agent/agent.cpp:245-262 | what each shape of message does to the policy in force: without `update` the local policy is back, `managed` holds the device, `auto` frees it unless the user opted out, anything else changes nothing |
| `CommandHandler.Handler.SaveAndInstallService` | src/thinr/cli/command_handler.cpp:288-315 | an explicit flag is written, a section that is seen is kept, and otherwise defaults are written, for every outcome of the four accesses |
| `CommandHandler.InstallIsReadBack` | src/thinr/cli/command_handler.cpp:288-315 | after an installation that saved: the credentials load; the section reads as it was seen with the flag's policy as the user's own choice, or as the defaults where none was seen, or is as it was, for every outcome of the accesses |
| `CommandHandler.PolicyCommandIsReadBack` | src/thinr/cli/command_handler.cpp:515-543 | a policy command that succeeds leaves its choice to be read back, and every other setting as it saw it |
| `CommandHandler.Handler.SetPolicy` | src/thinr/cli/command_handler.cpp:515-543 | the policy is stored as the user's own, or nothing changes and the command says so |
| `CommandHandler.Handler.Reconfigure` | src/thinr/cli/command_handler.cpp:634-661 | the section is set aside and put back only after a setup that returned true |
| `CommandHandler.ReconfigureIsReadBack` | src/thinr/cli/command_handler.cpp:634-661 | after a reconfigure that saved, the new credentials load and the old section is back if and only if there was one, it could be read and written and the setup returned true; otherwise there is no file |
| `OptOut.OptOutPersists` | src/thinr/update/update_settings.cpp:80-89 | over any events that keep it, in any order, the device stays managed at every moment, whatever the server says |
| `OptOut.KeepsIff` | src/thinr/cli/command_handler.cpp:288-661 | for every event, the condition under which it keeps the opt-out is exact |
| `OptOut.OnlyLocalAutoEndsIt` | src/thinr/cli/command_handler.cpp:288-661 | when nothing goes wrong on the way, exactly the user's own `auto` ends it |
| `OptOut.ReconfigureThatEndsWithAFile` | src/thinr/cli/command_handler.cpp:634-661 | a reconfigure that leaves a working configuration keeps the opt-out if and only if the setup returned true and the section was read and put back |
| `OptOut.FailedServiceInstallLosesOptOut` | src/thinr/installer/interactive_setup.cpp:576-613 | an input that loses it: credentials saved, service not installed |
| `OptOut.FailedReadLosesOptOut` | src/thinr/cli/command_handler.cpp:303-315 | another: a reinstall that cannot read the section and can write it puts the defaults over it |
| `RcConf.File.Modify` | src/thinr/installer/init_systems/sysv_service_installer.cpp:643-725 | the file is rewritten with every list line edited, with the old text as backup, or left alone |
| `RcConf.EditServices` | src/thinr/installer/init_systems/sysv_service_installer.cpp:658-681 | the list edited in place |
| `RcConf.EnableThenDisableIff` | src/thinr/installer/init_systems/sysv_service_installer.cpp:652-686 | adding and removing a name gives a line back if and only if it is no list or one in the written form without the name |
| `RcConf.EnableThenDisableFileIff` | src/thinr/installer/init_systems/sysv_service_installer.cpp:643-709 | and a file, if and only if it has no list line, or ends with a newline and all its list lines are such |
| `RcConf.EnableFileTwice` | src/thinr/installer/init_systems/sysv_service_installer.cpp:643-709 | enabling twice is enabling once, on every file and for every name of one line |
| `RcConf.EnableListsIff` | src/thinr/installer/init_systems/sysv_service_installer.cpp:658-663 | after enabling, the list names the service if and only if it did before or did not hold the name inside another word |
| `RcConf.AddedIsLastWord` | src/thinr/installer/init_systems/sysv_service_installer.cpp:658-663 | the services listed before stay, in order, and the new one is last |
| `RcConf.RemovalJoinsNeighbours` | src/thinr/installer/init_systems/sysv_service_installer.cpp:669-681 | disabling a service that stands between two others joins those into one word, so neither is listed any more |
| `DeviceToken.PollDeviceToken` | src/thinr/auth/auth_manager.cpp:1126-1196 | the result is that of the first turn that is late or gets a reply other than authorization_pending and slow_down: a token if and only if a successful 200 carries one, and then that token; user denied, token expired, timeout and every other error each exactly on its own reply or status; with an interval of a second or more, at most floor(timeout / min(interval, 5)) + 1 requests are made and a result is reached |
| `DeviceToken.VerdictIff` | src/thinr/auth/auth_manager.cpp:1152-1192 | those clauses determine the answer to every reply that ends the loop |
| `DeviceToken.BoundIsReached` | src/thinr/auth/auth_manager.cpp:1126-1196 | some history of replies takes exactly that many requests |
| `DeviceToken.BoundedIff` | src/thinr/auth/auth_manager.cpp:1126-1196 | the loop is bounded if and only if the interval is at least one second or the timeout is negative |
| `DeviceToken.FirstDecisiveDecides` | src/thinr/auth/auth_manager.cpp:1164-1192 | timing decides only whether time runs out first: same replies, same answer at the same turn |

## Left out

- Files take effect in program order. What a power cut does to unlinks whose directory was not synced is not modelled for the update files; AtomicFile models it for one written file.
- Nobody outside the agent touches the backup, and there is one agent process and one state directory. Updates from the command line run in a process of their own, and `run` uses the default directory (src/thinr/extensions/updater.cpp:137); neither is part of the machine.
- A state file that is there but does not parse: the start treats it as no marker, the apply path refuses because it exists (src/thinr/extensions/updater.cpp:388). In the machine a marker is there or not.
- Destroying the watchdog while a callback of it is running (src/thinr/runtime/update_watchdog.cpp:170-178). `stop` is the flag it sets; joining the deadline thread is not modelled.
- Delivery of the rollback report. It is skipped when not connected, and the marker is removed all the same (src/thinr/runtime/update_watchdog.cpp:266-271).
- In the machine the end of the deadline's wait and a poll cycle may come at any time, which covers every schedule; how long the deadline thread waits is not modelled.
- UpdatePoller.Poller.PollLoop: the loop by itself, with the clock and the connection as it finds them at every wake; pauses are computed, not slept.
- SHA-256, the transport, process execution and `--version` are outcomes given from outside. JSON is a value; its text, duplicate keys and invalid UTF-8 are not modelled, nor are integers beyond 64 bits.
- Rollout times and fractions are reals; rounding of doubles is left out, and RampCompletes admits a fraction rounded up to 1.
- UpdateAgent.Agent.CopyAside: the reason given for a failed copy is one of two that the source picks by error code.
- AtomicFile.FileSystem.WriteAtomic: the unlink of the temporary file on failure is taken to succeed; the mode of the file is not modelled.
- Publication.Store.SyncBinaries: in s3 mode the sync uploads every staged file. The tool decides by size and modification time (scripts/release/lib.sh:144), so it could skip a file of the same size that is not newer; PublicationReaders.SkippedUploadIff says exactly what would then break.
- Publication.Store.Panic: architecture names contain no white space, `checksums` is an object, a download that fails counts as a missing file, an upload of one file is atomic; the content-delivery cache and its invalidation are not modelled.
- CommandHandler.Handler.Reconfigure: removing the old file succeeds. The interactive setup is its result: what it tried to save and what it returned.
- RcConf.File.Modify: the rewrite of the file is one step. A power cut inside it leaves the backup, which the contract states, and perhaps a truncated file.
- DeviceToken.PollDeviceToken: a `slow_down` waits five seconds once, as the code does, and does not raise the interval as section 3.5 of RFC 8628 asks; messages of errors are not modelled.
- Monitoring, alarms, scripts, certificates, argument parsing, service files and the console: I/O or easy claims.
