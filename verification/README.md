# ktest, modelled and verified

ktest is a kernel-test farm: a daemon keeps a window of jobs submitted, executors run batches of subtests in
virtual machines, a supervisor cuts each console into per-test results, and the results decide what runs next.
This project models the parts of ktest that hold state machines and algorithms and proves what they are for.

| file | what it models |
|---|---|
| `Daemon.dfy`, `DaemonSafety.dfy`, `DaemonRuns.dfy` | the daemon as a step system: refill, claim, mark, VM run, merge, clean retry, sweep, report, in any interleaving |
| `BatchRuns.dfy` | each executor of that system is `run_ktest_job` |
| `Leaders.dfy`, `Overwrite.dfy`, `Crashes.dfy` | which jobs can ever run, runs that lose a verdict, crashes and restarts |
| `Refill.dfy` | `refill` as the loops it is, over an abstract `jobkit::Choir`, with executors moving between its steps |
| `Batch.dfy` | `run_ktest_job`: mark, resume loop, git-clean retry, failure sweep, over the results store |
| `Store.dfy`, `SharedStore.dfy` | `TestResultsStore`, as a class, and as threads at lock / temp-file / rename granularity |
| `Jobs.dfy`, `DesiredJobs.dfy`, `SubtestCache.dfy` | the job matrix and its two caches |
| `Groups.dfy` | `extends` resolution of test groups |
| `Supervisor.dfy`, `Watchdog.dfy`, `Terminal.dfy`, `Monitor.dfy` | the console supervisor: line loop, alarm handler, line renderer, monitor log |
| `Reached.dfy` | supervisor and daemon together: what is retried |
| `Durations.dfy` | `gen-avg-duration` and the binary search of `test_stats` |
| `DiskNames.dfy`, `FieldList.dfy`, `Disks.dfy`, `Hotplug.dfy` | disk names, disk attachment, hot-plug |
| `Env.dfy`, `Shell.dfy` | job environments, and how a shell reads them |
| `Status.dfy`, `ResultKeys.dfy`, `Text.dfy`, `Utf8.dfy` | statuses, result keys, strings, which bytes are text |

Code that changes state is a class or a method with the source's loops, proved against a specification function;
what the source promises is proved about that function. Concurrent code is a step system whose theorems hold for
every sequence of steps. Files and directories are maps, strings are sequences of characters, and what ssh, the
virtual machines, qemu and the clock return are inputs that may be anything.

Several promises turned out to hold under a condition only. Each is stated as an if-and-only-if, with a lemma at a run
or an input that breaks it:

- A recorded verdict is final in every run of a daemon exactly when no result place has two leaders. A place is a commit
  and a result key; `user` and `repo` are in the job key but not in the result key, and `/` is flattened to `.`, so
  several jobs can share one. The leaders of a place are the first `window` jobs the matrices list for it
  (`Overwrite.VerdictsFinalIff`, `Overwrite.OneMatrixIff`; broken by `Overwrite.VerdictOverwritten`).
- A recorded verdict survives a crash exactly when some rewrite of its commit's file has been completed since (or none
  has been at all and the file held it from the start), the commit has a directory and the verdict is not of the kind
  being cleared (`Crashes.CrashKeepsIff`, `SharedStore.CrashKeepsIff`; broken by `Overwrite.VerdictLost`).
- Hits in the subtest cache are right in every run of n callers exactly when n is at most one: of two calls that
  overlap, the slower can file a listing under a time it does not belong to (`SubtestCache.HitsRightIff`; broken by
  `SubtestCache.RaceMisleads`). In runs whose calls do not overlap they are right for any number of callers.
- Runs that differ in their kernel only are filed apart exactly when the kernels differ in more than slashes for
  underscores (`ResultKeys.KernelSeparatesIff`; broken by `ResultKeys.KernelsShareKey`).
- A job's environment reaches the supervisor as it was given exactly when every key is a name the shell lets be set
  (bash does not let UID be) and no value holds a character the shell takes for itself; encode_env lets tabs, newlines,
  quotes, operators and expansions through
  (`Env.PrefixSetsEnvIff`; broken by `Env.EncodedNotSet`).
- The written average duration is right exactly when the sum of seconds does not wrap 64 bits (`Durations.AverageIff`;
  broken by `Durations.AverageWraps`).
- A stream may be split anywhere but inside an escape sequence, and nowhere else, without changing what is rendered
  (`Terminal.SplitHarmlessIff`; broken by `Terminal.NewlineSwallowed`).
- The state file of a scratch device is truthful exactly as long as nobody plugs a device that is present, after which
  it never is again, and qemu took the last plug (`Hotplug.TruthfulIff`; broken by `Hotplug.PlugPresentMisleads`).
- The disk lists line up in the guest exactly when no drive argument holds a newline (`Disks.FieldIsDisk`; broken by
  `Disks.NewlineShifts`).
- A verdict is read back as written exactly when its line is UTF-8 and names no verdict that is looked for earlier
  (`Reached.VerdictReadIff`; broken by `Reached.FailureReadAsPassed`).
- A subtest is run again exactly when its test never started or its ending line is no UTF-8 or says in progress
  (`Reached.RetriedIffNeverReached`; a started test that is run again is `Reached.UnreadableIsRetried`).
- The watchdog has no alarm armed exactly when none ever was or the last statement to set it ended a set_timeout of
  zero (`Watchdog.UnarmedIff`; `Watchdog.CancelLosesEscalation` is a run in which that cancels the SIGKILL due after a
  SIGTERM).

`run_ktest_job` itself succeeds exactly when there is a repository URL, every setup step works, and some VM run leaves
nothing owed with none up to it breaking off or being idle once the git clean has been spent: what the worker answers
alone decides it (`Batch.RunKtestJob`, `Batch.EndedIff`).

Two comments in the sources are out of date and the code is followed: `desired_jobs` does remove duplicate keys
(src/jobs.rs:356-357, against src/jobs.rs:281-283), and a status file saying `FAILED TO RUN` is read as Failed because
that word is looked for first (src/lib.rs:218-223). A third promises more than the code: encoded values need no quoting
on the command line (src/bin/ci-daemon.rs:122-124) only if they are plain. And `job_nice`
is said to nice down tests that consistently pass or fail (src/jobs.rs:142-144) but does so with any long enough
record that is not half and half (`Jobs.NiceIsIff`).

## Model

| member | source | states |
|---|---|---|
| Daemon.ClaimIsBatch | src/bin/ci-daemon.rs:690-695 | jobs claimed under one batch key, of NUL-free fields, differ in their subtest only |
| Leaders.DesiredIs | src/jobs.rs:299-360 | the matrix for what is recorded is the whole list less the places with nothing wanted, in the same order, cut at the limit |
| Leaders.DesiredAreLeaders | src/jobs.rs:344-360 | whatever is recorded, every job returned is among the first `limit` the matrix lists for its result place |
| Leaders.DesiredOfOnePlace | src/jobs.rs:344-360 | with every other place decided and one open, exactly the leaders of that place are returned |
| Leaders.DesiredIsChosen | src/bin/ci-daemon.rs:729-735 | the Decide step of the daemon is desired_jobs on the commits it read: enabled, and submitting what desired_jobs returned |
| DaemonSafety.StepKeepsTracked | src/bin/ci-daemon.rs:717-738 | every step keeps the job map and the choir in agreement, one job per key |
| DaemonSafety.StepKeepsHeld | src/bin/ci-daemon.rs:655-660 | every step keeps each unreported job of a batch in the choir, held by that executor, once |
| DaemonSafety.OwnWriteKeeps | src/bin/ci-daemon.rs:378-378 | with one leader per place, an executor's write to its batch disturbs no other executor, no waiting job and nothing the main thread read |
| DaemonSafety.StepKeepsInv | src/bin/ci-daemon.rs:647-660 | with one leader per place, every step of every thread keeps the daemon's invariant |
| DaemonRuns.OneJobPerKey | src/bin/ci-daemon.rs:717-738 | in every run there is at most one existing job per key, and the job map names exactly it |
| DaemonRuns.BacklogBounded | src/bin/ci-daemon.rs:961-968 | in every run at most window + window/4 jobs are pending |
| DaemonRuns.NothingStuck | src/bin/ci-daemon.rs:309-328 | in every run, whatever is in progress some executor will still write; with no executor at work nothing is in progress |
| DaemonRuns.ClaimsAreWanted | src/jobs.rs:124-140 | with one leader per place, in every run whatever an executor can claim has nothing recorded or an unknown status |
| DaemonRuns.OthersLeaveBatchAlone | src/bin/ci-daemon.rs:599-614 | with one leader per place, in every run nobody else writes where a batch files its results |
| BatchRuns.ExecutorIsBatch | src/bin/ci-daemon.rs:448-638 | in every run, whatever other threads do, an executor's remaining places are those Batch.Owed names, its batch is recorded as Batch.Recorded says until it reports and as Batch.RunKtestJob leaves it when it does, after at most one VM run more than there are subtests |
| BatchRuns.TurnDecides | src/bin/ci-daemon.rs:615-638 | after a VM run an executor reports exactly when nothing is owed, gives up exactly when the run was idle and one before it was, and else runs again |
| BatchRuns.UnmarkedUntouched | src/bin/ci-daemon.rs:309-328 | in every run a batch that could not be marked has no verdict made up for it by anyone |
| DaemonRuns.VerdictsFinal | src/bin/ci-daemon.rs:655-660 | with one leader per place a recorded Passed, Failed, Notrun or FailedToRun is never changed in any run |
| DaemonRuns.SweptStands | src/bin/ci-daemon.rs:309-328 | what the sweep files as failed to run stays so in every continuation |
| Overwrite.VerdictOverwritten | src/bin/ci-daemon.rs:690-695 | with two leaders of one place and an executor there is a run, on what desired_jobs returns, in which a verdict is overwritten |
| Overwrite.VerdictsFinalIff | src/bin/ci-daemon.rs:717-738 | verdicts are final in every run exactly when no result place has two leaders (or there is no executor) |
| Overwrite.OneMatrixIff | src/bin/ci-daemon.rs:939-943 | for one unchanging matrix: exactly when no two of its jobs share a place, or the window is at most one |
| Overwrite.NamesCollide | src/lib.rs:854-860 | jobs that differ in user, repository or slash spelling share a result place |
| Crashes.ReloadIsLoad | src/lib.rs:293-342 | what the next daemon of the step system holds is what the store's loader makes of the files |
| Crashes.SavedIff | src/lib.rs:365-378 | in every run a verdict in memory is on disk exactly when it was or a rewrite of its commit's file has worked since |
| Crashes.CrashKeepsIff | src/lib.rs:293-342 | after a crash at any point the next daemon knows a verdict exactly when it is on disk, its commit is found and its kind not cleared |
| Crashes.VerdictsOutliveCrashes | src/lib.rs:293-342 | a verdict on disk outlives any number of crashes and restarts that find its commit, in memory and on disk |
| Overwrite.VerdictLost | src/lib.rs:365-378 | a run that records a verdict while no rewrite works: no restart knows it |
| Refill.RetainExisting | src/bin/ci-daemon.rs:726-727 | keeps exactly the entries whose job exists |
| Refill.SubmitMissing | src/bin/ci-daemon.rs:730-738 | every desired job ends up tracked once, each submission is of an untracked desired key under a new id, old entries stay, while executors run |
| Refill.RefillWindow | src/bin/ci-daemon.rs:710-745 | afterwards the map is exactly the existing jobs, finished ones are gone and no others, a desired key with an unfinished job keeps it and any other gets a new one, nothing else is new, at most a window is |
| Batch.OwedShrinks | src/bin/ci-daemon.rs:599-637 | each remaining list is a subsequence of the one before |
| Batch.Collect | src/bin/ci-daemon.rs:599-613 | reads back every remaining subtest and returns those not reached, in order |
| Batch.NotReachedIsOwed | src/bin/ci-daemon.rs:599-637 | what a run did not reach is what still has no verdict after it |
| Batch.TakeTurn | src/bin/ci-daemon.rs:599-614 | one merge keeps every verdict read earlier and records the new ones |
| Batch.ResumeLoop | src/bin/ci-daemon.rs:448-638 | whatever the runs return: it ends after the first turn that leaves nothing owed or the first that gives up (could not run or pull, or idle and the clean failed or was spent), every turn that did not break is read back, at most one VM run more than there are subtests |
| Batch.EndedIff | src/bin/ci-daemon.rs:448-638 | the answers of the worker alone decide whether the loop succeeds: some turn leaves nothing owed and none up to it gives up |
| Batch.EndedOnce | src/bin/ci-daemon.rs:448-638 | and how many VM runs it makes and how many it reads back |
| Batch.ProgressSucceeds | src/bin/ci-daemon.rs:615-638 | if every VM run works, is pulled and decides something, the batch succeeds |
| Batch.Sweep | src/bin/ci-daemon.rs:309-328 | turns what is in progress into failed to run and touches nothing else of the batch |
| Batch.RunKtestJob | src/bin/ci-daemon.rs:231-331 | on every path nothing is left in progress, each subtest holds its first verdict or failed to run; it succeeds exactly when there is a URL, the setup works and the loop succeeds, and then all have verdicts; fatal exactly without a URL |
| Batch.AllDecidedIff | src/bin/ci-daemon.rs:599-640 | nothing is owed exactly when every result key has a verdict |
| Store.LoadAll | src/lib.rs:293-342 | loads commits with both a directory and a file, less stale entries, whose result directories it removes; rewrites only files that had some |
| Store.MergeInto | src/lib.rs:365-378 | updates win over what was there |
| Store.TestResultsStore.Load | src/lib.rs:293-342 | the store after start-up, result by result: memory holds exactly those of commits with a directory and a 40-digit hexadecimal name that are not in progress nor, if those are cleared, failed to run; files and result directories accordingly |
| Store.TestResultsStore.Update | src/lib.rs:365-378 | memory is merged; the file is a render of memory when the write works, else untouched |
| Store.TestResultsStore.Delete | src/lib.rs:389-410 | the keys are gone; the file is rewritten only if one was there |
| SharedStore.LookupFindsLast | src/lib.rs:349-410 | after any operations in lock order a lookup finds what the last one on its key left, or what was loaded |
| SharedStore.LoadStarts | src/lib.rs:293-342 | whatever load could not rewrite, the files it leaves and the memory it has are such a start |
| SharedStore.CallCompletes | src/lib.rs:365-410 | a call with something to do that nobody disturbs leaves memory changed by its operation and the file a rendering of it |
| SharedStore.FailureFrees | src/lib.rs:447-493 | a failed create, write or rename ends the call with the lock free and every file as it was |
| SharedStore.Linearizable | src/lib.rs:365-410 | in every interleaving memory is the fold of the operations in lock order, and every file is complete: what its last completed rewrite took in, or what it held at the start |
| SharedStore.DiskMatchesMemory | src/lib.rs:447-493 | with the lock free and no failed write a touched commit's file equals memory |
| SharedStore.CrashLoads | src/lib.rs:447-493 | a crash in any state, mid-write too: of a commit with a directory the next daemon knows exactly what the last completed rewrite of its file took in, less what is stale, or what it makes of the file of the start |
| SharedStore.CrashKeepsIff | src/lib.rs:447-493 | a verdict is still known exactly when a rewrite of its commit's file was completed after the operation that recorded it or, none having been completed, the file held it at the start |
| SharedStore.RestartRecovers | src/lib.rs:293-342 | with the lock free and no failed rewrite of the commit every entry that is not stale comes back |
| Jobs.CandidatesExact | src/jobs.rs:299-342 | the enumeration holds exactly the combinations of spec, commit, subtest and kernel with nothing or an unknown status recorded, with the age, the niceness and the duration they are to have |
| Jobs.NiceIsIff | src/jobs.rs:142-160 | a group's niceness, more for a record of verdicts that are not half and half, and one more per so many seconds |
| DesiredJobs.SortKeeps | src/jobs.rs:344-352 | sorting by weight and tie-breakers is a sorted permutation |
| DesiredJobs.SortStable | src/jobs.rs:344-352 | jobs that tie keep their order |
| DesiredJobs.FirstsKeep | src/jobs.rs:353-357 | deduplication keeps one job per key, the earliest in the order |
| DesiredJobs.DesiredSound | src/jobs.rs:284-360 | the result is duplicate-free, within the limit, of candidates, ordered by age plus niceness, then commit, test, kernel, environment and duration, each the first of its key in that order |
| DesiredJobs.DesiredComplete | src/jobs.rs:284-360 | a candidate is missing only if the limit is full of jobs that come no later in that order |
| DesiredJobs.DesiredUndecided | src/jobs.rs:124-140 | no job is returned whose place holds a verdict or a run in progress |
| Text.LessIff | src/jobs.rs:344-352 | strings compare by prefix or by the first character that differs |
| DesiredJobs.ComputeDesired | src/jobs.rs:284-360 | even while the store changes, the answer is that of one snapshot of all the matrix's commits, each read once |
| SubtestCache.ListingCache.GetSubtests | src/jobs.rs:63-105 | serves the listing filed under the same time, never an empty one, else lists anew and files it if not empty |
| SubtestCache.FreshHitsRight | src/jobs.rs:63-105 | for any number of callers a hit is never empty, and one whose entry was already there at the caller's stat is the file at that stat |
| SubtestCache.SerialHitsRight | src/jobs.rs:63-105 | in runs whose calls do not overlap every hit is the file at that stat |
| SubtestCache.RaceMisleads | src/jobs.rs:63-105 | a run of two overlapping callers after which a hit is wrong |
| SubtestCache.HitsRightIff | src/jobs.rs:63-105 | for n callers hits are right in every run exactly when n is at most one |
| Groups.AllGroundedIff | src/users.rs:70-133 | every group has a chain to a root exactly when every target is defined and there is no cycle |
| Groups.CycleNotGrounded | src/users.rs:79-90 | no group on a cycle resolves |
| Groups.FlattenInherits | src/users.rs:95-132 | flattening gives each field its nearest definition along the chain and merges env from the root down |
| Groups.ResolutionUnique | src/users.rs:70-133 | a group has one resolution, whatever the order of keys |
| Groups.Resolver.ResolveGroup | src/users.rs:70-133 | terminates on any graph, succeeds exactly when the group has a chain, memo and stack as promised |
| Groups.Resolver.ResolveAll | src/users.rs:138-142 | succeeds exactly when all groups resolve, and then each to its resolution |
| Groups.Resolver.UserrcRead | src/users.rs:135-175 | accepts exactly the files whose groups resolve and whose branches name defined groups |
| Groups.FirstUndefined | src/users.rs:144-154 | reports an undefined group of a branch exactly when there is one |
| Supervisor.StepAgrees | lib/supervisor.c:618-647 | every line keeps files and specification in agreement: statuses, logs, durations, one log open at a time |
| Supervisor.Supervisor.ProcessLine | lib/supervisor.c:618-642 | the body of the line loop |
| Supervisor.Supervisor.Run | lib/supervisor.c:610-675 | the loop stops at the first line that says TEST FAILED or FAILED TIMEOUT under -F or TEST SUCCESS under -S and at no earlier one; it returns 0 exactly for a TEST SUCCESS that is no failure; every file holds what the lines processed say |
| Supervisor.LineTextIs | lib/supervisor.c:188-196 | what is looked at of a line is what comes before its first NUL, less line ends |
| Supervisor.EndedFiles | lib/supervisor.c:505-525 | by the text of the lines: a test started last by one line and ended by another has that line as status, the time between as duration, and their stretch as log |
| Supervisor.CutOffFiles | lib/supervisor.c:505-525 | a test cut off by the next start or the end of the stream has TEST FAILED |
| Supervisor.LinesLogged | lib/supervisor.c:68-88 | every line is logged at its place, and behind a monitor command the replies |
| Supervisor.LogIsSegmentOfFullLog | lib/supervisor.c:68-88 | a test's log is a contiguous stretch of the full log |
| Watchdog.Timer.AlarmHandler | lib/supervisor.c:116-143 | one expiry: marker, SIGTERM or SIGKILL by stage, and the next alarm |
| Watchdog.Timer.SetTimeout | lib/supervisor.c:145-150 | undisturbed, the stage is cleared and the alarm due that many seconds on; its three stores are the steps the handler can come between |
| Watchdog.KillNeedsTerm | lib/supervisor.c:116-150 | with the handler interleaved anywhere, SIGKILL follows a SIGTERM sent since the last stage reset |
| Watchdog.SilentGuestIsKilled | lib/supervisor.c:116-143 | in every run with no further lines and a prompt handler, from any armed alarm SIGTERM comes when it fires or 30 s later, and SIGKILL 10 s after that |
| Watchdog.KillsRepeat | lib/supervisor.c:136-140 | from then on SIGKILL every 10 s |
| Watchdog.UnarmedIff | lib/supervisor.c:145-150 | in every run nothing is armed exactly when nothing ever was or the last statement to set the alarm ended a set_timeout of zero |
| Watchdog.DueAt | lib/supervisor.c:145-150 | in every run the alarm is due the timeout asked for after the set_timeout that armed it (32 bits), 5 s after a kernel BUG line, 30 s after a marker and 10 s after a signal |
| Watchdog.AlwaysArmed | lib/supervisor.c:145-150 | with non-zero timeouts an alarm once armed is always armed |
| Watchdog.CancelLosesEscalation | lib/supervisor.c:281-286 | a run from the start in which SIGTERM has been sent, stands, and the alarm for SIGKILL is cancelled |
| Terminal.Renderer.Putc | lib/supervisor.c:355-379 | one character into the fixed buffer, cursor <= len <= 4095 |
| Terminal.Renderer.RenderChunk | lib/supervisor.c:381-405 | the loop renders as the specification, escapes included |
| Terminal.BoundedRefines | lib/supervisor.c:350-379 | on lines that fit the buffer is an unbounded terminal line |
| Terminal.RenderAppend | lib/supervisor.c:381-405 | a split outside an escape sequence is harmless |
| Terminal.SplitHarmlessIff | lib/supervisor.c:381-405 | a split is harmless for every continuation exactly when it is outside an escape sequence |
| Terminal.ChunkingIrrelevant | lib/supervisor.c:447-453 | any chunking at harmless places renders the same |
| Monitor.MonitorDrain | lib/supervisor.c:441-460 | logs, in order and as often, exactly the rendered lines, an unfinished one included, that are not empty, no prompt, no banner and no beginning of the command |
| Monitor.RedrawOnce | lib/supervisor.c:338-349 | backing up, reprinting and erasing leaves exactly the new text |
| Monitor.RedrawsRenderFinal | lib/supervisor.c:338-349 | any redraw stream renders to the final command |
| Monitor.EchoDropped | lib/supervisor.c:424-439 | prompt and echo never reach the log, and replies that are no prompt, banner, blank or beginning of the command all do, as they are |
| Reached.VerdictReadIff | src/lib.rs:213-226 | exactly when an ending line is read back as the verdict it names: it is UTF-8 and holds no word looked for earlier |
| Reached.FailureReadAsPassed | src/lib.rs:216-219 | a failed test with PASSED in its name is read as passed |
| Reached.StatusDecides | lib/supervisor.c:505-525 | whatever the supervisor leaves for a started test is a verdict, unless its line is no UTF-8 or says in progress |
| Reached.VerdictIffReached | src/bin/ci-daemon.rs:599-613 | over any number of VM runs a subtest has no verdict exactly when each run saw no start of it or left a status that cannot be read or says in progress |
| Reached.FirstReachDecides | src/bin/ci-daemon.rs:607-637 | the verdict is the one of the first run that reached it |
| Reached.RetriedIffNeverReached | src/bin/ci-daemon.rs:592-613 | a subtest is retried exactly when every run saw no start of it or left a status that cannot be read or says in progress; with ending lines that do neither, exactly when the supervisor never saw it start |
| Reached.UnreadableIsRetried | src/lib.rs:412-419 | a passed test with a byte that is no UTF-8 in its ending line is run again, though the line does not say in progress |
| Reached.AnyConsoles | src/bin/ci-daemon.rs:592-613 | the worker these results are about exists whatever its consoles say |
| Durations.ReadDurationSums | src/bin/gen-avg-duration.rs:16-53 | the sums of the results of all commits, in 64-bit arithmetic |
| Durations.OrderIndependent | src/bin/gen-avg-duration.rs:31-50 | whatever the order the commits are visited in |
| Durations.SeenIffRuns | src/bin/gen-avg-duration.rs:36-48 | a test has an entry exactly when some commit has it |
| Durations.AverageIff | src/bin/gen-avg-duration.rs:71-71 | the written average is right exactly when the sum does not wrap |
| Durations.AverageWraps | src/bin/gen-avg-duration.rs:46-46 | two durations for which zero is written |
| Durations.AverageBetween | src/bin/gen-avg-duration.rs:71-71 | while the sum fits, the duration written lies between the least and the greatest |
| Durations.WriteDurations | src/bin/gen-avg-duration.rs:55-72 | one entry per test, in order |
| Durations.TestStats | src/lib.rs:1015-1047 | binary search finds the entry, and only if there is one |
| Durations.LookupAfterGeneration | src/lib.rs:988-1055 | looking up in the generated file gives the numbers of results, of passed and of failed ones, and the average |
| DiskNames.DiskNameSuffix | tests/prelude.sh:208-220 | the loop ends, and its name has the given rank |
| DiskNames.RankInjective | tests/prelude.sh:208-220 | two names are never of one number |
| DiskNames.RankSurjective | tests/prelude.sh:208-220 | every number has a name |
| DiskNames.RankMonotone | tests/prelude.sh:208-220 | numbers follow length, then the alphabet |
| DiskNames.ScratchConfig.ConfigScratchDev | tests/prelude.sh:222-235 | device i gets the name of disk i, or i+1 beside a virtio root disk, and no two devices share a path |
| FieldList.FieldsAlignIff | lib/libktest.sh:691-692 | field N of the list is the N-th appended exactly when no field holds a newline and the first is not an empty one followed by others |
| Disks.StartVm.AttachDisk | lib/libktest.sh:620-695 | one disk: a port and bridge every 31 disks, drive and device spelled out bus by bus, list entries, number |
| Disks.StartVm.AttachPmem | lib/libktest.sh:697-709 | one pmem: memory and device spelled out, no drive, an empty field |
| Disks.StartVm.AttachAll | lib/libktest.sh:711-758 | the whole order, and the number of the first scratch disk |
| Disks.EachBridgeOnce | lib/libktest.sh:663-668 | in any order of disks and pmems no bridge or port is asked for twice |
| Disks.PortsApart | lib/libktest.sh:666-666 | no two root ports on the command line share a slot number or a chassis |
| Disks.BridgesReadyIff | lib/libktest.sh:663-668 | each bridge is there before its disks exactly when its first number went to a disk |
| Disks.StartVmBridges | lib/libktest.sh:711-758 | the order start_vm uses has every bridge ready, once, for any counts |
| Disks.PlacesDistinct | lib/libktest.sh:663-681 | slots are 1 to 31 and no two disks share a bridge slot or an IDE port |
| Disks.FieldIsDisk | lib/libktest.sh:691-706 | split in the guest, field N is disk N, empty pmem fields included, exactly when no argument holds a newline |
| Disks.NewlineShifts | lib/libktest.sh:691-691 | an image path with a newline shifts the disks after it |
| Hotplug.IdsInjective | tests/prelude.sh:530-532 | an id names its disk and its generation |
| Hotplug.DriveRenamed | tests/prelude.sh:530-530 | the substitution rewrites the drive's own id and nothing else of its arguments |
| Hotplug.DeviceRenamed | tests/prelude.sh:531-532 | the device goes back to the same place under fresh ids |
| Hotplug.ReplugsSameDisk | tests/prelude.sh:495-535 | plugging disk N asks for the drive and device it booted with, under the generation's ids |
| Hotplug.TruthfulIff | tests/prelude.sh:399-408 | the state file is truthful exactly as long as the disk is not plugged while present and qemu took the last plug; plugged while present it never is again |
| Hotplug.UnplugNamesAttachedIff | tests/prelude.sh:473-481 | for a disk that is there, device_del names the device qemu has, and the unplug works, exactly if it was never plugged while present |
| Hotplug.PlugPresentMisleads | tests/prelude.sh:526-540 | plugging a disk that is there is not noticed, and no unplug works afterwards |
| Hotplug.IdsNeverReused | tests/prelude.sh:524-535 | over any calls each spec sent is the disk's own, and no two drives, or devices, sent or booted with, have the same id field in their text |
| Hotplug.Guest.ScratchDevUnplug | tests/prelude.sh:445-483 | one unplug: which refusal is reported, and the state and commands after it |
| Hotplug.Guest.ScratchDevPlug | tests/prelude.sh:485-538 | one plug, qemu accepting or not: which refusal is reported, and the state and commands after it |
| Hotplug.Guest.ScratchDevReplugAll | tests/prelude.sh:413-428 | what was left gone comes back unless a plug fails, the rest is left alone, truthful files stay truthful |
| Env.EncodeEnv | src/lib.rs:868-883 | succeeds exactly when no key is empty and no key or value holds a space, =, comma or slash, else reports the first offending key |
| Env.EncodedInjective | src/lib.rs:862-867 | different environments have different encodings |
| Shell.PieceIsWord | src/bin/ci-daemon.rs:122-132 | a space-free piece of a command line, with no substitution in it, is read by the shell as one word as it stands exactly when nothing in it is special and it does not start a comment |
| Shell.PiecesReadIff | src/bin/ci-daemon.rs:122-132 | such pieces in front of a command are read as those words exactly when nothing in any of them is special and none starts a comment |
| Env.PrefixSetsEnvIff | src/bin/ci-daemon.rs:122-132 | the environment reaches the supervisor as given exactly when every key is a name the shell lets be set and no value holds a character the shell takes for itself |
| Env.EncodedNotSet | src/lib.rs:868-883 | three environments that are encoded and do not reach the supervisor: an operator, a tab, a readonly name |
| Env.EnvSeparatesResults | src/lib.rs:834-860 | runs of one subtest that differ in environment only are filed apart |
| ResultKeys.StatusRoundTrip | src/lib.rs:200-240 | from_str undoes to_str |
| ResultKeys.KeyIsFullName | src/lib.rs:805-860 | with neither kernel nor environment the key is subtest_full_name |
| ResultKeys.KeyForm | src/lib.rs:818-860 | the key is test, kernel, environment and subtest in their places, the test less its extension, slashes flattened |
| ResultKeys.KeyIsOneComponent | src/lib.rs:849-860 | the key is a single path component |
| ResultKeys.KernelsShareKey | src/lib.rs:818-820 | two kernels whose runs share a key |
| ResultKeys.KernelSeparatesIff | src/lib.rs:834-846 | runs that differ in kernel only share a key exactly when the kernels differ in slashes for underscores only |

## Left out

- Batch.RunKtestJob: takes for granted that nobody else writes the batch's results while it runs; `DaemonRuns.OthersLeaveBatchAlone` proves it of the daemon with one leader per place.
- Crashes.CrashKeepsIff: a rewrite of a commit's file is one step that works or not, one cut short by the crash being one that did not; that a reader finds the old file or the new one whatever the cut is `SharedStore.CrashLoads`.
- BatchRuns.ExecutorIsBatch: statuses only; the step system keeps no start times and durations. It is for one leader per place and names without NULs.
- Shell.PieceIsWord: a piece that holds a command or parameter substitution is not read; `Env.PrefixSetsEnvIff` covers values that hold one, which never arrive as given.
- Env.PrefixSetsEnvIff: without a kernel the whole command is once more inside double quotes for nix-shell, and that outer reading is not modelled; it leaves plain values alone.
- DesiredJobs.ComputeDesired: the specs, commits and statistics are inputs; building them from git, the configuration and the statistics file is not modelled, and the conversions to i64 in the weight are unbounded.
- Durations.LookupAfterGeneration: the counters of runs and verdicts are unbounded, only the sum of seconds wraps.
- Hotplug.UnplugNamesAttachedIff: qemu removes a device it is told to remove before the wait ends; a removal that completes after the wait timed out is not modelled. A drive qemu took with the device it then refused counts as refused.
- Supervisor.Supervisor.Run: files that cannot be opened (the process dies there), the kill of the child in mid-line and the conversion of the watchdog argument are not modelled; log timestamps are inputs.
- Watchdog.SilentGuestIsKilled: the 5-second alarm after a kernel oops counts as any alarm; signal delivery is prompt.
- Other processes that write a commit's file without the daemon's lock (`commit_update_results`).
- The jobkit scheduler: fair share, cost packing, which pending jobs a claim returns; a claim here returns any pending jobs with one batch key.
- ssh, tar, git and brotli, the composition of full logs, symbolic links between them.
- `--once`, the maintenance programs and the status page.
- Cap'n Proto and JSON encodings, the revision walk, HTTP.
- Messages and start times in the saved results.
- Glob characters in the substitution patterns of the shell (the patterns hold none).
- The cgi, the command-line status, syzbot, lcov and kernel-fetch programs, gc-results and rm-results, the .ktest scripts.
