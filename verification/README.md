# fog-agent: verified models of the hard core

fog-agent runs as a service on managed machines. It joins and renames domain members, replaces its own
binary, reboots for power schedules and deployment tasks, reports firmware identity and logs idle users off.
This project models the parts of it where a mistake cannot be taken back, as Dafny 4 programs, and proves what
they promise. `dafny verify dfyconfig.toml` checks all of it.

| file | what it models |
|---|---|
| Marker.dfy | the durable directory marker: one slot, its archive, and the five calls that may change them, each a compare-and-set that may fail before, during or after its write |
| Latch.dfy | the rejoin, rotation and reboot-coordinator protocol as a step machine: any number of processes with stale snapshots, killed between any two actions |
| Reissue.dfy | what the dispatch bound asks of the server, exactly |
| Vetting.dfy | what has been checked of plan and machine before anything is reserved, claimed, called or confirmed |
| Agent.dfy | the agent's own calls in the order the code makes them, each proved to be a path of that machine |
| Reboot.dfy | pending reboot reasons: drop, merge, decide, and the split around a withheld task |
| Guard.dfy | the mutex guard around the native call, alone and with many callers in many processes |
| Calendar.dfy, Cron.dfy, CronText.dfy, CronGrammar.dfy, Power.dfy | civil dates, the cron matcher with its skipping search, the text of an expression and its grammar, and the loop that fires schedules |
| Files.dfy, Rollback.dfy, Release.dfy, Update.dfy | the self-update over a file map whose every operation may fail and whose every intermediate state is kept |
| Binary.dfy, Smbios.dfy, Hardware.dfy, Layout.dfy | the SMBIOS structure table (DMTF DSP0134), its identity and inventory views, and the writing side they are held against |
| NetBoot.dfy | EFI load options and device paths (UEFI Specification), and the choice of the network boot entry |
| AutoLogout.dfy | the auto log out plan, over one sample and over runs of samples |
| Args.dfy | the argument splitter |
| Wrappers.dfy | optional values, 64-bit integers, and ASCII case folding |

Code that changes state is imperative: classes with `modifies` and loops with invariants, each proved equal to
a function of its inputs or its old state. What the code promises is then proved of that function. Answers of
the outside world (server, operating system, disk, clock) are arguments, so every statement holds for all of them.

## Findings

Where the code does not meet what its comments or callers expect, the model keeps the code as it is, gives an
input, and states when it does.

- **A reissued attempt is dispatched twice.** A process can stand between its server claim and its latch while its
  reservation is withdrawn. If another process then reserves the very same attempt, both go on to the native call in
  one life of the marker. Without that aliasing the dispatch bound holds in every run
  (`Reissue.DispatchBoundUnaliased`). From any reachable state with it, and a marker that readers accept, two dispatches
  follow (`Reissue.AliasDispatchesTwice`); `Reissue.ReissueDispatchesTwice` is such a run. Never handing a retired
  attempt id out again is enough to rule it out (`Reissue.NotReissuedIsEnough`), and the other results about runs
  assume that.
- **A failed mutex release must leave its owner in place.** If the system let go anyway, a second call of the same
  process would start a callback between the failure and the latch, from a state the callers do reach:
  `Guard.LettingGoAdmitsACallback`.
- **A huge cron step sets bits nobody asked for.** The step loop adds in 64 bits, so `3-5/9223372036854775807`
  also sets bit 1 (`CronGrammar.SpillFails`). The loop sets exactly the stepped range if and only if
  `lo < 2 * (2^63 - step)`: `CronText.LoopIsSteppedExactly`. For day and month this can set bit 0, which names no
  day, so what Parse guarantees is `Cron.WellFormed`.
- **`Cron.Next` gives up for some valid expressions.** It looks a year and a day ahead. It never answers false if
  and only if the expression is not confined to days that are missing in some years: `Cron.NeverFalseExactly`. `0 0 29 2 *` is
  one that fails: `CronGrammar.LeapDayFails`.
- **Arming without swapping turns a later revert into a downgrade.** `ClearProbation` keeps `.prev`, so a process
  that ends between `Arm` and `swap` leaves a record. If no poll succeeds before the deadline, or the revert is run by
  hand, it installs the binary before the current one: `Rollback.CrashAfterArm`, and `Rollback.RevertWithoutSwap` for the exact condition.
- **A revert restores the config just when there was one at `Arm`**, or neither a stale copy nor a new config can be
  taken for it: `Rollback.RevertUndoes`. A run in which a stale copy comes back instead: `Rollback.StaleConfigRestored`.
- **A sequence floor that cannot be read counts as 0**, so a replayed manifest is accepted
  (`Update.ReplayWhenUnreadable`, and `Update.Updater.Accept` for the exact floor each host applies). A floor that is
  sound before an update, and that the update's own looks at it can see, is lowered at no instant and nothing from below
  it is installed, whatever other file operations fail (`Update.Updater.Run`). The same holds over any history of
  updates, kills, rewritten configs and reverts, and accepted sequences never decrease unless one was accepted while
  the floor could not be read: `Update.Updater.Live`. `Updater.blind` records just that.
- **A refused restart can lose its reasons.** With writes that succeed they are put back, unless another process
  changed the marker after this turn claimed it: then the release fails and the turn ends before it restores them.
  `Agent.Agent.Request` has the exact condition; another process that verifies the operation is enough
  (`Agent.VerifiedMeanwhile`).
- **A very long idle limit logs everybody off at once.** Minutes times a minute wraps in 64 bits beyond 153722867
  minutes: `AutoLogout.LimitIsMinutesExactly` and `AutoLogout.OverflowLogsOff`.
- **A very long warning warns nobody.** It is meant to be cut to half the limit, but its seconds wrap in 64 bits first,
  beyond 9223372036 seconds: `AutoLogout.WarningIsClampedExactly` and `AutoLogout.OverflowNeverWarns`.

## Model

| member | source | states |
|---|---|---|
| Marker.AttemptStore.Load | internal/provider/directoryjoin/rejoin.go:130-165 | reading the slot gives nothing, an unreadable file or the marker; a marker whose version, fingerprint or plan does not check out is unreadable |
| Marker.AttemptStore.Reserve | internal/provider/directoryjoin/rejoin.go:167-194 | the exclusive in-place create: an occupied path is untouched, a write cut short leaves garbage |
| Marker.AttemptStore.ReplaceMarker | internal/provider/directoryjoin/rejoin.go:217-232 | the write through a temporary file leaves the old marker or the new one whole |
| Marker.AttemptStore.Save | internal/provider/directoryjoin/rejoin.go:195-232 | replaces the marker only for the same fingerprint and plan, along a phase edge, without touching the reboot flag; a same-phase save must be identical |
| Marker.AttemptStore.SetRequested | internal/provider/directoryjoin/rejoin.go:238-254 | flips the reboot flag of exactly the expected marker, and only while it awaits a reboot |
| Marker.AttemptStore.Archive | internal/provider/directoryjoin/attempt_archive.go:32-56 | moves exactly the expected verified marker into the archive, never over an archived one |
| Marker.AttemptStore.Remove | internal/provider/directoryjoin/attempt_archive.go:61-92 | removes exactly the expected marker, and only a reservation the plan may retry |
| Marker.LifeKeepsBinding | internal/provider/directoryjoin/rejoin.go:195-270 | over any interleaving of calls with any arguments, a marker life keeps its fingerprint and plan and only moves forward along the phase edges |
| Marker.LivingStep | internal/provider/directoryjoin/rejoin.go:195-254 | one call on a living marker moves one phase edge, on which it may also rewrite the recorded boot and native status, or flips the reboot flag while awaiting a reboot; the binding stays |
| Marker.LifeEnds | internal/provider/directoryjoin/attempt_archive.go:15-92 | a life ends only by removing a permitted reservation or by archiving exactly the verified marker |
| Marker.RemovesExactly | internal/provider/directoryjoin/attempt_archive.go:61-92 | which markers a removal takes, in every field of marker, plan and caller |
| Marker.SavesExactly | internal/provider/directoryjoin/rejoin.go:195-232 | a save changes a readable marker exactly along one of seven phase edges, with binding and flag unchanged, and leaves the saved one |
| Marker.ReadsExactly | internal/provider/directoryjoin/rejoin.go:130-165 | exactly which markers a reader accepts; the others are unreadable |
| Marker.SucceedsExactly | internal/provider/directoryjoin/rejoin.go:187-254 | a call on the marker reports success exactly if it was allowed and went through without a fault, and then the disk is as asked |
| Marker.LifeHasBirth | internal/provider/directoryjoin/rejoin.go:187-194 | every living marker goes back, within its own life, to a reservation made in an empty slot |
| Marker.GarbageStays | internal/provider/directoryjoin/rejoin.go:130-194 | once the slot is garbage no call ever reads, replaces or removes it |
| Marker.ArchiveGrows | internal/provider/directoryjoin/attempt_archive.go:32-56 | the archive only grows, and only by verified markers |
| Latch.StepKeepsInv | cmd/fog-agent/directory_rejoin.go:186-381 | any action of any process, with any answer and any fault, keeps the protocol invariant |
| Latch.RunKeepsInv | cmd/fog-agent/directory_rejoin.go:186-381 | the invariant holds in every reachable state |
| Latch.DispatchBound | cmd/fog-agent/directory_rejoin.go:268-336 | over any run native dispatches are at most one plus the verified markers archived, and a process at a native call has its own may_have_run marker on disk |
| Latch.HistoryIsFixed | internal/provider/directoryjoin/attempt_archive.go:32-56 | no action changes the count of markers that were archived before the run |
| Latch.GarbageIsFinal | internal/provider/directoryjoin/rejoin.go:187-194 | once the slot is garbage the disk never changes and nothing more is dispatched |
| Latch.RebootOnce | cmd/fog-agent/main.go:1385-1544 | at most one rejoin restart per marker life is accepted, or may have been when the process was killed at the request; two coordinators never stand at the same request, and such a restart keeps the latch set |
| Latch.LatchClearedByRefusalOnly | cmd/fog-agent/main.go:1535-1544 | nothing clears the latch of a marker that stays but the release by the process whose request was refused, in a life with no accepted restart |
| Latch.ReleaseFollowsRefusal | cmd/fog-agent/main.go:1500-1531 | that release is entered only from a known refusal |
| Latch.VerifiedProvenance | cmd/fog-agent/directory_rejoin.go:318-375 | a verified marker stands in a life whose native call returned 0, on a healthy observation whose boot is new against the reservation's |
| Latch.VerifiedByOwner | cmd/fog-agent/directory_rejoin.go:338-375 | the verifying step is taken under the marker's own key and host id, on that process's own observation |
| Latch.ConfirmingObserved | cmd/fog-agent/directory_rejoin.go:338-375 | a confirmation follows that process's own look and the server's acceptance of the verified report |
| Vetting.LookedFits | cmd/fog-agent/directory_rejoin.go:253-269 | over any run, a process that reserves, claims, latches or renames has seen a machine in a supported role, in no domain for a join and in the plan's otherwise, under the expected names, with no foreign rename pending |
| Vetting.FitsReserves | cmd/fog-agent/directory_rejoin.go:249-274 | a look leads on to the reservation if and only if it saw such a machine |
| Vetting.PlansActedOn | cmd/fog-agent/directory_rejoin.go:206-224 | over any run, what a process does for a plan is done for a ready, valid plan of its own host, a rename with a confirmed target |
| Vetting.DispatchIsNamed | cmd/fog-agent/directory_rejoin.go:284-302 | over any run, at the native call of a join or rebind the machine was last seen under the plan's name |
| Vetting.ConfirmsExactly | cmd/fog-agent/directory_rejoin.go:349-366 | a look after the native success confirms if and only if it is another boot by both records, a healthy member under the plan's name and domain, and the server was told |
| Vetting.VerifiedIsMember | cmd/fog-agent/directory_rejoin.go:349-375 | over any run, a verified marker stands on such a look |
| Vetting.CallOnEmptySlot | cmd/fog-agent/directory_rejoin.go:186-317 | on an empty slot a call starts a marker life, and makes a native call, exactly if plan, look, server and disk let it |
| Vetting.FindsExactly | cmd/fog-agent/directory_rejoin.go:187-205 | what a call makes of the slot: a verified marker of another key or host is retired, an unreadable file ends the call, anything else is judged by the plan |
| Vetting.RoutesExactly | cmd/fog-agent/directory_rejoin.go:206-246 | for every plan and marker which action follows: looking again only for the owned attempt that awaits its restart, replacing a verified marker, withdrawing an unexecuted reservation that may be retried, or nothing |
| Vetting.SettlesExactly | cmd/fog-agent/directory_rejoin.go:318-342 | after saving, the call looks again exactly for its own success whose restart is on record |
| Vetting.ReleasesExactly | cmd/fog-agent/main.go:1535-1544 | a refused request leads to the release, which clears the latch of the marker that was claimed |
| Vetting.LedgerCounts | cmd/fog-agent/directory_rejoin.go:268-336 | the ledger that the bounds speak of counts native calls, lives, zero statuses and accepted restarts exactly where they happen |
| Reissue.StepKeepsCovered | internal/provider/directoryjoin/rejoin.go:187-270 | every action that reserves no aliased attempt keeps native calls, made and still to come, covered by the archive and the slot |
| Reissue.DispatchBoundUnaliased | cmd/fog-agent/directory_rejoin.go:268-317 | without aliasing native dispatches, with those still to come, are at most one plus the markers archived since the start |
| Reissue.AliasDispatchesTwice | internal/provider/directoryjoin/rejoin.go:195-215 | from any reachable state in which a process can reserve the attempt another waits to latch, both can dispatch it in one life |
| Reissue.NotReissuedIsEnough | internal/provider/directoryjoin/rejoin.go:204-212 | an attempt id that no other snapshot carries is never aliased |
| Reissue.ReissueDispatchesTwice | internal/provider/directoryjoin/rejoin.go:204-212 | a concrete run from an empty slot in which a reissued attempt id is dispatched twice in one life |
| Agent.Agent.ProcessRejoin | cmd/fog-agent/directory_rejoin.go:186-381 | one poll is a path of the step machine from loading to its end, changes the pending reasons as that path says, and keeps the invariant; Vetting.CallOnEmptySlot says when that path reserves and calls |
| Agent.Agent.Follow | cmd/fog-agent/directory_rejoin.go:206-246 | the plan checks lead where the machine routes |
| Agent.Agent.Supersede | cmd/fog-agent/directory_rejoin.go:229-245 | a new attempt waits for the old marker to be archived or withdrawn |
| Agent.Agent.Perform | cmd/fog-agent/directory_rejoin.go:246-267 | with a ready plan the machine is looked at, and only one that suits the plan, in the terms of Vetting.FitsReserves, is reserved for |
| Agent.Agent.Reserve | cmd/fog-agent/directory_rejoin.go:268-278 | reservation and claim; a claim without a grant settles as unknown |
| Agent.Agent.Dispatch | cmd/fog-agent/directory_rejoin.go:279-300 | the uncertainty is latched before the pending name or the domain is touched |
| Agent.Agent.CallNative | cmd/fog-agent/directory_rejoin.go:301-317 | one native call, whose outcome decides the phase to be saved |
| Agent.Agent.Settle | cmd/fog-agent/directory_rejoin.go:318-336 | the outcome is saved, and a success asks for the restart |
| Agent.Agent.Verify | cmd/fog-agent/directory_rejoin.go:338-381 | a healthy look after a new boot verifies the marker and drops the restart reason |
| Agent.Agent.RotateIdentity | internal/enroll/directory_features.go:220-243 | a rotation changes the marker only by archiving a verified one |
| Agent.FinishKeeps | cmd/fog-agent/directory_rejoin.go:186-381 | a whole call keeps the protocol invariant |
| Agent.NotesOnlyRejoin | cmd/fog-agent/directory_rejoin.go:320-375 | a whole call touches no other source's reason and keeps one entry per source |
| Agent.UncertainNeverReplays | cmd/fog-agent/directory_rejoin.go:206-246 | a call that finds an operation that may have run never dispatches, frees or rebinds it |
| Agent.CallDispatchesOnce | cmd/fog-agent/directory_rejoin.go:301-317 | one call makes at most one native dispatch |
| Agent.Agent.LiveReasons | cmd/fog-agent/main.go:1385-1405 | a rejoin reason counts only while its marker grants a restart |
| Agent.Agent.ClaimReboot | cmd/fog-agent/main.go:1473-1484 | the first rejoin reason claims the restart on the marker |
| Agent.Agent.RefusedDirectoryReboot | cmd/fog-agent/main.go:1535-1544 | only a claim made by this turn is given back |
| Agent.Agent.Request | cmd/fog-agent/main.go:1473-1531 | claim, save, arm and ask, while other processes may change the marker after the claim; with writes that succeed a refusal restores the reasons if and only if the marker is still the one claimed, and otherwise loses them |
| Agent.VerifiedMeanwhile | cmd/fog-agent/main.go:1515-1519 | the marker stays the one claimed if nobody acts on it, and does not if another process saves it as verified |
| Agent.Agent.Weigh | cmd/fog-agent/main.go:1406-1531 | with the users counted the reasons are held back, wait, or are asked for, each exactly when its cause is there, on any platform, and what is asked for is the decision |
| Agent.Agent.TakeTurn | cmd/fog-agent/main.go:1385-1531 | a turn is a path of the step machine, comes to exactly the outcome its reasons, users, platform and faults call for, and leaves the pending list unchanged, withheld, or withheld plus acted |
| Agent.Agent.Coordinate | cmd/fog-agent/main.go:1385-1531 | a turn also keeps the marker invariant and one entry per source, and never shuts down for a rejoin |
| Agent.ErrorCauses | cmd/fog-agent/main.go:1385-1531 | a turn fails if and only if the users cannot be counted, or with a reboot due the claim or the save fails, or a refused claim cannot be given back |
| Agent.RestartAskedFor | cmd/fog-agent/directory_rejoin.go:331-336 | a saved native success leaves a reason with the rejoin source, mode reboot, the policy's force and a stamp, and other sources as they were |
| Agent.RestartWithdrawn | cmd/fog-agent/directory_rejoin.go:367-374 | a saved verified marker takes the rejoin's reason back and no other; no other action but a saved success touches the reasons |
| Agent.ReasonsSurvive | cmd/fog-agent/main.go:1385-1531 | in a turn that no other process interrupts, with writes that succeed, a reason disappears without an accepted reboot only if it is a stale rejoin reason |
| Agent.TurnKeepsInv | cmd/fog-agent/main.go:1385-1531 | any turn keeps the marker invariant |
| Agent.TurnKeepsOne | cmd/fog-agent/main.go:1385-1531 | what a turn may leave has one entry per source |
| Agent.PlanWithoutTask | cmd/fog-agent/main.go:1561-1574 | without a task it does not matter what a look for a boot entry finds |
| Agent.LiveAgrees | cmd/fog-agent/main.go:1389-1405 | a stale turn acts on no rejoin reason |
| Reboot.Drop | internal/reboot/reboot.go:116-124 | the loop gives exactly the list without that source |
| Reboot.Merge | internal/reboot/reboot.go:106-112 | a reason replaces those of its source and is stamped if it has no time |
| Reboot.MergeReplaces | internal/reboot/reboot.go:106-112 | after a merge the source has one entry, the new one, and the others are as before |
| Reboot.Decide | internal/reboot/reboot.go:75-102 | a reboot if and only if nobody is logged in or a reason forces it; shutdown if and only if all reasons agree on it |
| Reboot.HasTaskReason | cmd/fog-agent/main.go:1578-1585 | true exactly when some reason is a task's |
| Reboot.PlanReboot | cmd/fog-agent/main.go:1561-1574 | the split of the reasons into those acted on and those withheld |
| Reboot.WithheldExactly | cmd/fog-agent/main.go:1561-1608 | a reason is withheld if and only if it is a task's and the look found no network entry; no other failed look withholds anything |
| Reboot.SplitKeepsReasons | cmd/fog-agent/main.go:1561-1608 | the split loses and duplicates no reason, and withholds only task reasons |
| Guard.MutationGuard.With | internal/provider/directoryjoin/directory_mutation_windows.go:87-178 | the callback runs at most once and only with clean ownership and no earlier failed release; every failure is reported unless the callback panics, which loses the collected errors; a failed release blocks and retires either way |
| Guard.SoloComesTo | internal/provider/directoryjoin/directory_mutation_windows.go:113-178 | what the operations of one undisturbed call add up to, in every case |
| Guard.StepKeepsInv | internal/provider/directoryjoin/directory_mutation_windows.go:87-178 | any operation of any caller, or the death of a process, keeps the guard's invariant |
| Guard.CallbacksAreExclusive | internal/provider/directoryjoin/directory_mutation_windows.go:113-178 | over any interleaving a callback runs once at most, only after a clean wait and only while its caller owns the mutex; two never overlap |
| Guard.NoCallbackAfterFailedRelease | internal/provider/directoryjoin/directory_mutation_windows.go:87-178 | after a failed release no callback starts in that process, not even in a call already past the first look |
| Guard.FailureIsRemembered | internal/provider/directoryjoin/directory_mutation_windows.go:87-107 | a process never forgets a failed release |
| Guard.RetiredIsNoticed | internal/provider/directoryjoin/directory_mutation_windows.go:109-152 | after a thread retired as the owner, no waiter on that mutex is told that it is free, and none starts a callback |
| Guard.LettingGoAdmitsACallback | internal/provider/directoryjoin/directory_mutation_windows.go:150-178 | from a state that two callers reach, a failed release that let go of the mutex would admit a second callback |
| Calendar.DayOfDate | internal/provider/power/cron.go:118-152 | the date of a day number has that day number, leap years included |
| Calendar.DateOfDay | internal/provider/power/cron.go:134-152 | a valid date is the date of its day number |
| Calendar.DayInMonth | internal/provider/power/cron.go:134-146 | the days between the firsts of two months are the days of that month |
| Calendar.YearsAreGregorian | internal/provider/power/cron.go:134-152 | the days before a year are 365 a year and one for each fourth, less each hundredth, plus each four-hundredth year |
| Calendar.NewYearsWeekday | internal/provider/power/cron.go:118-131 | weekdays follow each other, and New Year's weekday is that of the Gregorian calendar |
| Calendar.KnownNewYears | internal/provider/power/cron.go:118-131 | New Year was a Thursday in 1970, a Saturday in 2000 and a Monday in 2024 |
| Cron.MatchesExactly | internal/provider/power/cron.go:111-131 | a minute matches if and only if its minute, hour and month are named and, where a day field says any, both day fields hold its day, where neither does, one of them |
| Cron.YearAndDayIs | internal/provider/power/cron.go:135-136 | the search ends on the day after the same date of the next year, or on 2 March from 29 February |
| Cron.ScanIsLeast | internal/provider/power/cron.go:111-152 | the minute-by-minute search finds the least match before its bound, or nothing just when there is none |
| Cron.MonthSkips | internal/provider/power/cron.go:138-140 | skipping to the next month passes over no match and moves forward |
| Cron.DaySkips | internal/provider/power/cron.go:141-142 | skipping to the next day passes over no match and moves forward |
| Cron.HourSkips | internal/provider/power/cron.go:143-144 | skipping to the next hour passes over no match and moves forward |
| Cron.Next | internal/provider/power/cron.go:134-152 | the skipping search terminates and equals the minute-by-minute search, whose matches Cron.MatchesExactly describes |
| Cron.AlwaysFires | internal/provider/power/cron.go:134-152 | an expression not confined to days missing in some years fires within the bound from every minute, also from 29 February |
| Cron.SomeYearsFail | internal/provider/power/cron.go:134-152 | any other expression fails from New Year of two common years |
| Cron.NeverFalseExactly | internal/provider/power/cron.go:134-152 | exactly which expressions never answer false |
| Cron.NextOf | internal/provider/power/cron.go:134-152 | an answer is the least matching minute after t, and its date, weekday, hour and minute are ones the expression names; there is none if and only if nothing within the bound matches |
| CronText.Parse | internal/provider/power/cron.go:35-60 | five fields in order, 7 folded onto 0, `any` for the two day fields, refused if one field is |
| CronText.ParseField | internal/provider/power/cron.go:62-108 | the loop over a field's items gives the union of their bits, or refuses if one item is refused |
| CronText.AddRange | internal/provider/power/cron.go:103-105 | the step loop in 64 bits ends and sets the bits of its path |
| CronText.LoopSets | internal/provider/power/cron.go:103-105 | exactly which bits the step loop sets, also when the step overflows |
| CronText.LoopIsSteppedExactly | internal/provider/power/cron.go:103-105 | the loop sets exactly the stepped range if and only if the step leaves room below 2^63 |
| CronText.SpillExample | internal/provider/power/cron.go:103-105 | a concrete step that sets a bit outside its range |
| CronText.FieldDenotes | internal/provider/power/cron.go:62-108 | with room for every step, a field denotes the union of its items' stepped ranges |
| CronGrammar.ItemReads | internal/provider/power/cron.go:65-102 | a written item (star, number or range, each with or without a step; any numbers) is read as what it says if and only if the field admits it; a number with a step other than 1 is not admitted |
| CronGrammar.FieldMeans | internal/provider/power/cron.go:62-108 | a written field is accepted if and only if every item is legal, and then its bits are exactly the values that some item means |
| CronGrammar.FieldIsAny | internal/provider/power/cron.go:76-80 | a field says any if and only if it has a star without a real step |
| CronGrammar.SignedReads | internal/provider/power/cron.go:66-96 | numbers are read with a sign, refused where they do not fit 64 bits, and a sign alone or nothing is refused |
| CronGrammar.FieldsInOrder | internal/provider/power/cron.go:35-60 | five numbers are minute, hour, day of month, month and day of week, and 7 is also Sunday |
| CronGrammar.BoundsExactly | internal/provider/power/cron.go:33-60 | five numbers are accepted if and only if each is within the bounds of its place |
| CronGrammar.FiveFields | internal/provider/power/cron.go:36-39 | what is accepted has five fields |
| CronGrammar.SpillFails | internal/provider/power/cron.go:62-108 | the text `3-5/9223372036854775807` is accepted as a minute field and also sets minute 1, which it does not mean |
| CronGrammar.LeapDayFails | internal/provider/power/cron.go:134-152 | the text `0 0 29 2 *` parses, and from New Year 2001 the search finds nothing |
| CronText.FieldIsSound | internal/provider/power/cron.go:62-108 | a field is not empty, stays within its range, and is full when it says any |
| CronText.ParsedIsWellFormed | internal/provider/power/cron.go:35-108 | what Parse accepts satisfies what the search relies on |
| CronText.FieldRoundTrip | internal/provider/power/cron.go:62-108 | a set printed as a comma list parses back to that set |
| CronText.FieldsJoin | internal/provider/power/cron.go:36-39 | words joined with blanks are split back into those words |
| CronText.SeparatesWords | internal/provider/power/cron.go:36-39 | between two words exactly the white space of Unicode separates |
| CronText.PrintParses | internal/provider/power/cron.go:35-108 | printing an expression canonically and parsing it gives the expression back |
| Power.Earliest | internal/provider/power/power.go:35-55 | the earliest firing over all schedules that parse, attributed to the first schedule that has it |
| Power.EarliestFires | internal/provider/power/power.go:35-55 | that minute is after t and matches the schedule it is attributed to |
| Power.Waiter.Restart | cmd/fog-agent/main.go:691-719 | a restart goes back to the saved record and keeps the invariant |
| Power.Waiter.WaitOrFire | cmd/fog-agent/main.go:691-719 | it fires if and only if some schedule names a minute within the wait and the search's year, nobody kills the process and the save succeeds; over any waits, restarts, clocks and failed saves, also a save that is durable yet reports an error, fired minutes strictly increase and match their schedule, so none fires twice |
| Files.FileSystem.WriteFileSync | internal/provider/update/probation.go:298-318 | at every instant the path holds its old content or all of the new one, whichever step fails |
| Files.FileSystem.CopyFile | internal/provider/update/probation.go:268-293 | the same for a copy; missing means that the source is missing |
| Rollback.LoadProbation | internal/provider/update/probation.go:135-151 | no record, an unreadable one, or the record |
| Rollback.LoadSequence | internal/provider/update/probation.go:103-118 | a missing floor is 0, an unreadable one is an error |
| Rollback.SaveSequence | internal/provider/update/probation.go:123-131 | the floor ends at or above n, and where it could be read it is never lowered at any instant |
| Rollback.ClearProbation | internal/provider/update/probation.go:165-167 | removes the record and nothing else |
| Rollback.Arm | internal/provider/update/probation.go:178-202 | success means that record and config copy are on disk and the record could be read back; neither binary is touched, and the record never appears before the config is kept |
| Rollback.Swap | internal/provider/update/probation.go:329-344 | the running binary's bytes are at its path or beside it at every instant; on success both are as named, otherwise it is put back or nothing is at its path |
| Rollback.RestoreConfig | internal/provider/update/probation.go:221-230 | the config becomes the kept one if one is seen |
| Rollback.SwitchBack | internal/provider/update/probation.go:231-246 | neither binary is lost at any instant while they change places |
| Rollback.CleanUp | internal/provider/update/probation.go:247-260 | drops record and config copy and writes the note, each for certain on a working disk, touching nothing else |
| Rollback.Revert | internal/provider/update/probation.go:209-261 | refuses without a readable record or without a previous binary and then changes nothing; at every instant both binaries exist and the previous one is never in place before its config |
| Rollback.RevertUndoes | internal/provider/update/probation.go:178-261 | a revert of a completed update restores the binary at Arm, and the config if and only if there was one or nothing could be mistaken for one |
| Rollback.RevertWithoutSwap | internal/provider/update/probation.go:204-261 | after Arm without a swap a revert installs the older binary, so it restores the current one only if they are the same |
| Rollback.CrashAfterArm | internal/provider/update/update.go:182-198 | a concrete run of Arm and Revert that downgrades |
| Rollback.StaleConfigRestored | internal/provider/update/probation.go:178-261 | a concrete arm, swap and revert after which a stale config stands where there was none |
| Release.Find | internal/release/release.go:256-271 | gives an entry if and only if it is the first for its platform in that version and is usable |
| Release.EqualHex | internal/release/release.go:299-316 | true exactly for equal digests up to ASCII case |
| Wrappers.FoldsCaseOnly | internal/release/release.go:299-316 | texts are equal under folding if and only if they differ in nothing but the case of ASCII letters |
| Release.CopyVerified | internal/release/release.go:279-294 | accepts exactly the declared bytes, and never writes more than the declared size and one byte |
| Update.Updater.Raise | internal/provider/update/update.go:261-271 | on a working disk a manifest is too old if and only if it is below the floor, 0 if unreadable; afterwards the floor covers it; a sound floor is lowered at no instant as long as no look at it fails |
| Update.Updater.Accept | internal/provider/update/update.go:252-279 | an accepted manifest is trusted in these bytes at this time, lists the file, and is not below a sound floor as long as no look at it fails; such a floor is lowered in no state, whatever else fails; a bad signature, an expired one and a missing entry are told apart |
| Update.Updater.FetchLimited | internal/provider/update/update.go:299-313 | what is returned is the one whole answer at that address, and nothing is returned only if there is none within a mebibyte |
| Update.Updater.FromURL | internal/provider/update/update.go:235-246 | one or two fetches, the manifest at the requested address or else the build's and its signature beside it; the accepted manifest is trusted now in these two answers, with the same guarantees for the floor |
| Update.Updater.ManifestFor | internal/provider/update/update.go:209-233 | a refused pair falls back to the URL once; without a URL nothing is fetched; the accepted manifest is trusted now in bytes this update received and is not below the sound floor that was on disk |
| Update.Updater.Stage | internal/provider/update/update.go:402-429 | a staged file is exactly what the manifest declares; a good answer on a working disk is staged |
| Update.Updater.FetchArtifact | internal/provider/update/update.go:319-368 | the server's copy first where there is one, then the manifest's address; a bad server copy costs a second download, never the update; wrong bytes are reported only if every source asked served wrong bytes |
| Update.Updater.Replace | internal/provider/update/update.go:180-199 | the running binary's bytes are never lost; success is a completed arm and swap; a failed swap leaves no record on a working disk |
| Update.Updater.Obtain | internal/provider/update/update.go:171-179 | finding and staging keeps those guarantees and leaves binary and config as they are |
| Update.Updater.Carry | internal/provider/update/update.go:171-199 | what is installed is the file that a manifest trusted in this update lists for that version and platform, and the manifest is not below the sound floor that was on disk |
| Update.Updater.Run | internal/provider/update/update.go:138-200 | each refusal before the fetch has exactly its own cause and touches nothing; success means a valid, different version, no downgrade below a set floor, a signing root and no other work, and installs a file of a manifest trusted in this update while the old binary is kept at every instant; on a working disk an offered, listed and delivered file is installed; a sound floor is lowered at no instant as long as no look at it fails, whatever else does, and accepted sequences do not decrease |
| Update.Updater.Live | internal/provider/update/update.go:138-279 | over any history of updates by any builds, kills at any state, rewritten configs and reverts, with any faults, accepted sequences never decrease and the floor covers them, unless one was accepted blind; a floor sound at the start and seen at every look is below its first value in no state, and nothing is accepted blind |
| Update.Updater.Restart | internal/provider/update/update.go:138-200 | a process killed at any state of the disk since it began: what had been accepted by then still counts, and the floor covers it |
| Update.Updater.Undo | internal/provider/update/probation.go:209-261 | a revert does not bring the floor back with the binary |
| Update.RunThenRevert | internal/provider/update/update.go:138-200 | an update, any rewrite of the config by the new binary, and a revert bring back binary and config, on a working disk in every case, and what was accepted still counts |
| Update.ReplayWhenUnreadable | internal/provider/update/update.go:261-264 | a concrete old manifest that is refused where the floor can be read and accepted where its file is spoilt |
| Smbios.ReadStrings | internal/identity/smbios/smbios.go:74-104 | the two nested loops stay in bounds, end, and read the string set or refuse it with the same reason as the recursive reading |
| Smbios.StringsRead | internal/identity/smbios/smbios.go:74-104 | an encoded string set is read back, and the offset is just past it |
| Smbios.WalkReads | internal/identity/smbios/smbios.go:38-104 | walking an encoding gives back its structures, up to and with the first end structure |
| Smbios.WalkWrites | internal/identity/smbios/smbios.go:38-104 | whatever the walk accepts is an encoding of what it gives |
| Smbios.WalkExactly | internal/identity/smbios/smbios.go:38-104 | a table is accepted as these structures if and only if it is their encoding |
| Smbios.Parse | internal/identity/smbios/smbios.go:38-69 | on arbitrary bytes the loop stays in bounds, ends, and gives the fields of the walked structures in this version's byte order, or the walk's refusal |
| Smbios.LastWins | internal/identity/smbios/smbios.go:53-65 | the identity is that of the last system, baseboard and chassis, and of the last system long enough to hold a UUID |
| Smbios.LastIsLast | internal/identity/smbios/smbios.go:53-65 | what "last" means: nothing of that kind comes after it, and none means none at all |
| Smbios.IdentityOfEncoding | internal/identity/smbios/smbios.go:38-69 | parsing the encoding of any well-formed table gives those fields |
| Smbios.UuidOrder | internal/identity/smbios/smbios.go:127-140 | whichever byte order the version stores, the printed UUID is its bytes in order |
| Layout.PrintsUuid | internal/identity/smbios/smbios.go:32-69 | parsing an encoded table of any version, which stores the UUID least byte first since 2.6, prints the UUID's bytes in order |
| Hardware.ParseHardware | internal/identity/smbios/hardware.go:69-127 | the same for the inventory view, over the same walk |
| Hardware.SameRefusals | internal/identity/smbios/hardware.go:69-127 | both views refuse the same tables for the same reason |
| Hardware.LastOfEachWins | internal/identity/smbios/hardware.go:83-107 | the last structure of each kind wins, and the chassis type is that of the last chassis that has one |
| Hardware.CpuIsFirstNamed | internal/identity/smbios/hardware.go:108-116 | the processor is the first populated one with a version text, otherwise the last populated one |
| Hardware.DeviceReads | internal/identity/smbios/hardware.go:166-186 | a structure just long enough for what it states, in kilobytes, megabytes or the extended field, is read as that many kilobytes; an empty or unknown one as none |
| Hardware.SumFits | internal/identity/smbios/hardware.go:117-118 | the 64-bit memory sum of an encoding of up to 2^28 bytes is the true sum |
| Hardware.MemoryIsTrueSum | internal/identity/smbios/hardware.go:166-196 | so it is for every accepted table of that size |
| Layout.BiosReads | internal/identity/smbios/hardware.go:84-87 | vendor, version and date of a BIOS structure come back in their own fields |
| Layout.SystemReads | internal/identity/smbios/hardware.go:88-92 | manufacturer, product, version and serial of a system structure do, and the serial in the identity view |
| Layout.BoardReads | internal/identity/smbios/hardware.go:93-98 | so do those of a baseboard |
| Layout.ChassisReads | internal/identity/smbios/hardware.go:99-107 | so do those of a chassis, with its type less the lock bit |
| Layout.CpuReads | internal/identity/smbios/hardware.go:108-164 | a processor's texts and known speeds come back if and only if it is a central one in a populated socket and none was named before |
| Layout.SpeedReads | internal/identity/smbios/hardware.go:147-160 | a speed is read from a structure that ends just behind it, and from none that ends before |
| Layout.ShortCpuReads | internal/identity/smbios/hardware.go:132-146 | a processor structure too short to have a status is trusted |
| Layout.TotalReads | internal/identity/smbios/hardware.go:188-196 | the memory total is whole megabytes, and none if and only if nothing was reported |
| NetBoot.ParseLoadOption | internal/netboot/netboot.go:93-127 | on arbitrary bytes the loop stays in bounds, ends, and gives the parsed option or the right refusal |
| NetBoot.DevicePathIsNetwork | internal/netboot/netboot.go:138-165 | the loop over the nodes ends and concludes what the recursive walk does |
| NetBoot.PathReads | internal/netboot/netboot.go:138-165 | for encoded nodes: whether a MAC, IPv4 or IPv6 node, and whether an IPv4 node, precedes the first end node |
| NetBoot.UnitsRead | internal/netboot/netboot.go:100-117 | the description's units are read back up to the terminator |
| NetBoot.OptionReads | internal/netboot/netboot.go:93-127 | an encoded load option with any attributes, description, nodes and trailing data is read back |
| NetBoot.RefusesExactly | internal/netboot/netboot.go:93-122 | which options are refused as too short, as unterminated and for a path that does not fit |
| NetBoot.Choose | internal/netboot/netboot.go:173-190 | the first active IPv4 network entry in boot order, else the first active network entry, else none |
| NetBoot.OrderReads | internal/netboot/netboot.go:207-213 | an encoded boot order is read back as its entry numbers in order |
| NetBoot.Find | internal/netboot/netboot.go:202-234 | that choice over exactly the entries that can be read and parsed; an odd boot order is refused |
| AutoLogout.Planner.Plan | internal/provider/autologout/autologout.go:88-146 | for distinct sessions the warned set becomes exactly those inside the band, and the actions, in key order, are each session's decision |
| AutoLogout.Planner.Watch | cmd/fog-agent/autologout.go:22-48 | over any run of calls the warned set is the last call's band, and each call's actions are the decisions against the band of the call before |
| AutoLogout.ActionsAre | internal/provider/autologout/autologout.go:115-146 | the warnings and logoffs of a run are exactly those among the actions of its calls |
| AutoLogout.SaysWhatIsLeft | internal/provider/autologout/autologout.go:108-146 | a session is logged off from the limit on, warned inside the band unless it was before, and the warning says what remains to the limit, more than nothing and at most the warning period |
| AutoLogout.SortByKey | internal/provider/autologout/autologout.go:144 | the actions come out in key order, none lost or added |
| AutoLogout.WarnsOnEntry | internal/provider/autologout/autologout.go:115-146 | over any run a session is warned exactly at the samples where it enters the band |
| AutoLogout.WarningsApart | internal/provider/autologout/autologout.go:75-146 | two warnings to one session are separated by a sample that saw it outside the band |
| AutoLogout.LoggedOffWarned | internal/provider/autologout/autologout.go:115-146 | a session logged off at a sample was warned for it if and only if the sample before saw it inside the band, under any policies; under one policy never unwarned if it was below the limit and grew by no more than the warning |
| AutoLogout.LimitIsMinutesExactly | internal/provider/autologout/autologout.go:99 | the limit is the policy's minutes if and only if the product fits 64 bits |
| AutoLogout.OverflowLogsOff | internal/provider/autologout/autologout.go:99-120 | a concrete policy that logs off a session that is not idle |
| AutoLogout.WarningIsClampedExactly | internal/provider/autologout/autologout.go:100-107 | for a limit that fits, the warning is its seconds cut to half the limit if and only if the seconds fit 64 bits or wrap to something long enough |
| AutoLogout.OverflowNeverWarns | internal/provider/autologout/autologout.go:100-125 | a concrete policy that never warns any session |
| Args.SplitArgs | internal/procs/procs.go:52-92 | the loop equals the fold of its one-character step |
| Args.SplitReads | internal/procs/procs.go:52-92 | however each argument is spelled, with bare, escaped, single-quoted and double-quoted pieces, and whatever white space surrounds them, splitting gives what the spellings mean |
| Args.SplitUndoesQuoting | internal/procs/procs.go:52-92 | quoting any list of strings and joining it is undone by splitting |
| Args.SeparatesExactly | internal/procs/procs.go:77-90 | between plain texts a blank, a tab and a newline separate and no other plain character does |
| Args.CutShortReads | internal/procs/procs.go:52-92 | a quote left open or a final backslash ends the last argument with what was read of it, also if that is nothing |

## Left out

- HTTP, TLS, JSON and base64: a server answer, a fetched body or a decoded pair is an argument. Records that the agent writes itself are taken to read back as written; anything else in their place is unreadable.
- Signatures, certificates and digests: `World.verify` and `World.digest` are arbitrary functions, and so is the order of versions.
- The plan rows that Validate settles from the plan's own text alone are one flag (`Plan.rows`), and target objects another (`Plan.pinned`).
- Case-insensitive comparison of names and domains, and of digests, folds ASCII letters only.
- Description texts of load options stay 16-bit units; surrogate pairs are not combined. SMBIOS strings stay bytes, and the numbers of the inventory view stay numbers instead of decimal text.
- Invalid UTF-8 in an argument string, which a Go range loop would replace, has no counterpart: a string is a sequence of characters.
- Daylight saving and time zones: schedules run in civil time at a fixed offset, with whole minutes.
- Log lines, detail texts and the reason texts of a decision.
- Windows thread pinning, and CreateMutex returning an error together with a handle.
- Arming BootNext is an answer of the coordinator's turn (`Turn.armed`); the variable itself is not modelled.
- Host identity and configuration fields that RotateIdentity overwrites after the marker has been dealt with.
- Cron.AlwaysFires: is about minutes from the first of January of year 1 on, since the calendar counts from there.
- Files.FileSystem.CopyFile: takes the state directory to exist, so only a missing source counts as missing; a copy writes its file in one operation that may stop part-way.
- Agent.Agent.TakeTurn: describes a turn without another process between its own marker calls; what such a process does to the marker is in Latch.dfy, and to the reasons in Agent.Agent.Request.
- Latch.RebootOnce: and the other results about runs but the dispatch bound are shown for servers that do not reissue an attempt id to a process while another still holds it.
- AutoLogout.Planner.Watch: a sample without any session to look at makes no call of Plan under an enabled policy, so it is no element of the run.
- Update.Updater.Restart: a kill leaves the disk as one of its states; that the operating system may lose a rename that was not flushed is left out.
- Update.Updater.Run: shows that an update goes through for a manifest pair the server sent and the first source asked, not for the fallbacks; that the running binary is at its path after a crash between the two renames is not claimed, because it is not.
- AutoLogout.Planner.Plan: says what happens to the warned set and the actions for distinct session keys only, which is what session enumeration gives.
- Marker.AttemptStore.Load: the calls under the file lock read without faults, because a read that fails there is a call that fails before it writes.
