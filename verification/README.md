# HInit: a verified model

HInit is a small init system: PID 1 with three machine modes, a registry of service
supervisors, one supervisor process (HSV) per service, a set of services to start at boot, and a
log with a terminal viewer. This project models its engine in Dafny and proves what the parts
promise each other, over every run and every timing of signals, deaths and reused process ids.

`dafny verify dfyconfig.toml` checks the whole project. Nothing of the original program was run.

## How the model is built

**Kernel** (`kernel.dfy`). A process sees its unreaped children, its pending signals and a log of
everything that happened. `Enabled` says which events the kernel allows, `Replay` what they do,
`Legal` which logs exist. The class `Host` offers the system calls; each first lets the
environment act: children die, orphans are adopted, signals arrive, SIGCHLD from strangers
included, in any order and number. Pending signals coalesce, blocked ones wait, and a pid is free
again once its child was collected (IEEE Std 1003.1-2008, XSH section 2.4 and XBD section 4.13).
The signal mask passes through fork and exec to a child, whose log begins with it. Birth
numbers tell two children with one pid apart. Assumptions about the kernel: an unreaped child can be
signalled and waited for without ESRCH or ECHILD; `waitpid` fails with EINTR or ECHILD only; a
blocking wait returns; PID 1 starts without children and with nothing blocked. The `budget` of a host
(and the `patience` of a supervisor) bound what the environment still does; they are arbitrary, so
that each run is finite and all finite runs are covered. `Supervise` bounds in turn what a supervisor
uses of its patience by what it does, so that it cannot idle through it.

**Reference protocols** (`protocol.dfy`, `supervision.dfy`). What PID 1 and HSV may do is stated on the
log alone, by finite automata and by a replay of the HSV table, without the programs'
variables. Theorems about runs are lemmas about all legal accepted logs.

**Programs** (`process.dfy`, `mode.dfy`, `registry.dfy`, `feed.dfy`, `engine.dfy`, `supervisor.dfy`).
The static variables of each C file are the fields of a class, its functions are methods with the
same branches. Each method is proved to move the log along the reference protocol and to keep the
fields equal to what the log says; so the theorems hold for every run of `HInit.Run` and
`Hsv.Supervise`. In HSV the handler may run before every call, also between the test of a flag and
the sleep after it, and before every test of a flag.

**Table, boot set, log** (`table.dfy`, `onboot.dfy`, `logformat.dfy`, `viewer.dfy`). The registry array
refines a finite map; the boot directory is a map of links; the viewer's array of lines is a
window on the `fgets` chunks of the file (ISO/IEC 9899:2011, section 7.21.7.2).

## Where the code and its comments differ

- `signal.c:117` says SIGTERM requests a shutdown. It does so only in MD2; one that arrives with no
  mode active leads to MD0 in no continuation, unless MD1 is first started again.
  `SignalProcess` states the exact condition, `SigtermCanBeIgnored` a run and all its continuations.
- `hsv.c:620-628` says an explicit restart skips the crash delay. The request is cleared when it is
  taken. So a restart with no further request delivered before the next run waits the
  full second after its stop hook, and one with a further request delivered before the hook is over does
  not wait at all (`RestartDelay`); `LoneRestartWaits` is a run of the first kind.
- `mode.c:616-654`, `load.c:492-578` and `hsv.c:31-46` rely on a SIGTERM that ends MD2 and the HSVs. But
  PID 1 blocks SIGTERM except in `sigsuspend` (`hinit.c:53-57`), every child inherits that
  (`ChildrenInheritTheShield`), and neither MD1, MD2 nor HSV unblocks it. So a SIGTERM sent to
  MD2 or to any HSV stays pending (`ShieldedChildIsDeaf`): MD0 is reached only after MD2 has ended for
  another reason, and an HSV never shuts down (`DeafSupervisor`, `Supervise`). Its scripts inherit
  the same mask (`ScriptsInheritTheMask`). A restart by SIGUSR1 works.
- `load.c:1172` speaks of every HSV owned by HInit. The only caller is the MD0 program, which has a
  process and an empty table of its own, and a shutdown stops exactly the HSVs of its own table
  (`StopsIffListed`), so this one stops none (`Md0Main`). HSVs started by MD1 become orphans of PID 1,
  which collects them but does not know them (`UnforkedIsUnlisted`): for a service that runs since boot,
  stop succeeds and does nothing, restart fails, and start runs a second HSV (`BootServiceIsUnknown`).
- `logger.c:655` says a viewer at the bottom follows appended lines. It follows exactly while each
  reload brings at most one line more (`FollowsIffGradual`); `FastLogIsNotFollowed` is a session in
  which it does not. One step up from the bottom is undone by the reload of the same round, unless that
  brings a new line (`UpIsUndoneIff`).
- `logger.c` shows the newest 4096 records that `log.c` wrote if and only if none of these is longer
  than the line buffer (`WindowAgrees`); one longer record spoils the view until 4096 others have
  followed it (`OneLongRecord`). No writer in the repository makes one: every formatted message has at
  most 255 characters, and up to 479 of component and message always fit (`ShortWritesAreViewed`).

## Model

| member | source | states |
|---|---|---|
| Kernel.NoLostChild | hinit/[ENG]/signal.c:144-181 | an uncollected zombie always has a SIGCHLD pending or delivered and not yet answered by a full reap, despite coalescing and direct waits |
| Kernel.BlockedStaysPending | hinit/[ENG]/hinit.c:46-57 | a blocked signal is delivered to no process that does not unblock it; once sent it stays pending |
| Kernel.ConsumedExactlyOnce | hinit/[ENG]/process.c:106-306 | every child ever forked or adopted is unreaped and never collected, or was collected once, directly or by the reaper |
| Protocol.Ownership | hinit/[ENG]/signal.c:155-180 | in every accepted run the MD pid and the table's pids are exactly the unreaped children forked for them, pairwise distinct; all others are orphans |
| Protocol.KillsHitOwnChildren | hinit/[ENG]/load.c:492-669 | no signal ever reaches a recycled pid: it hits MD2 or the HSV that the table lists at that moment |
| Protocol.OneSubsystemPerChild | hinit/[ENG]/signal.c:166-179 | a reaped child ends MD2's phase, or removes its one table entry, or changes nothing |
| Protocol.Md2OnlyAfterCleanBoot | hinit/[ENG]/mode.c:425-457 | MD2 is started only right after an MD1 run that exited with 0 |
| Protocol.Md0OnlyAfterMd2Left | hinit/[ENG]/mode.c:592-654 | MD0 is started only after MD2 was sent SIGTERM and then collected, with nothing else done in between |
| Protocol.Md0IsAbsorbing | hinit/[ENG]/mode.c:403-412 | MD0 is started at most once and no mode program is started after it |
| Protocol.HowModesAreLost | hinit/[ENG]/mode.c:432-442 | no mode is re-entered only by a failed MD1 run, a failed MD2 spawn or MD2's death |
| Protocol.SpuriousWakeIsNeutral | hinit/[ENG]/signal.c:150-181 | any number of wake-ups that reap nothing change neither mode nor table, whoever sent the signals |
| Protocol.SleepsOnlyWhenReaped | hinit/[ENG]/hinit.c:74-79 | in every accepted run, whenever PID 1 goes to sleep, each uncollected zombie has a SIGCHLD pending in the kernel |
| Protocol.ChildrenInheritTheShield | hinit/[ENG]/hinit.c:46-57 | every child that PID 1 forks inherits a mask that blocks SIGCHLD, SIGTERM and SIGINT |
| Protocol.ShieldedChildIsDeaf | hinit/[ENG]/process.c:32-103 | a child with that mask that unblocks nothing is never told of a SIGTERM, which stays pending from its sending on |
| Protocol.UnforkedIsUnlisted | hinit/[ENG]/load.c:118-164 | a service whose HSV this process never forked is not in its table, whatever it adopted |
| Protocol.DownStays | hinit/[ENG]/mode.c:490-611 | with no mode active and no new start of MD1, neither MD2 nor MD0 is ever started |
| Protocol.SigtermCanBeIgnored | hinit/[ENG]/signal.c:117-128 | a legal run in which SIGTERM is delivered; however it goes on without a start of MD1, MD0 is never started |
| Process.Spawn | hinit/[ENG]/process.c:32-103 | a child with a fresh pid, or -1 |
| Process.Wait | hinit/[ENG]/process.c:106-162 | a wait for an unreaped child collects exactly it and never fails |
| Process.Signal | hinit/[ENG]/process.c:165-233 | a signal to an unreaped child reaches it and never fails |
| Process.Reap | hinit/[ENG]/process.c:236-306 | one zombie is collected, or 0 is returned after a poll that found none |
| Mode.ModeController.constructor | hinit/[ENG]/mode.c:25-48 | the initial state is coherent |
| Mode.ModeController.Exec | hinit/[ENG]/mode.c:62-114 | exactly one attempt, and the collection of the child if it was forked; the result is its decoded end, and 0 only for a clean exit |
| Mode.ModeController.StopMd2 | hinit/[ENG]/mode.c:207-346 | exactly one SIGTERM to MD2 and then its collection, whatever its end; 0 exactly for exit 0 or death by SIGTERM |
| Mode.ModeController.Start | hinit/[ENG]/mode.c:368-704 | everything that it does: NONE to MD1 is one MD1 run, and one attempt of MD2 exactly if that very run exited with 0; MD2 to MD0 is SIGTERM, the collection of MD2, and one MD0 run; every other change does nothing |
| Mode.ModeController.EnterMd1 | hinit/[ENG]/mode.c:415-457 | one run of MD1 and no other; MD2 is attempted once exactly if that run was collected with exit 0, and the end is MD2 if that attempt was a fork and NONE otherwise |
| Mode.ModeController.EnterMd2 | hinit/[ENG]/mode.c:516-570 | one attempt of MD2 and nothing else; it is current exactly when it runs |
| Mode.ModeController.EnterMd0 | hinit/[ENG]/mode.c:616-674 | MD2 is stopped, then MD0 is run once, whatever comes of either; nothing else is done |
| Mode.ModeController.ChildExit | hinit/[ENG]/mode.c:716-782 | only MD2's exit changes anything, and unrequested it ends the mode |
| HsvTable.TableRefinesMap | hinit/[ENG]/load.c:118-222 | over any registrations and exits the table is a finite map from paths to pids, each item once, at most 128 |
| HsvTable.WithoutPidRemovesFirst | hinit/[ENG]/load.c:200-222 | removing a pid is removing its first entry in place |
| HsvTable.WithoutPidKeepsOthers | hinit/[ENG]/load.c:170-192 | every other entry stays |
| Registry.ServicePathInjective | hinit/[ENG]/load.c:39-83 | accepted names have different paths |
| Registry.HsvRegistry.constructor | hinit/[ENG]/load.c:32-33 | a new process image has an empty table |
| Registry.HsvRegistry.Find | hinit/[ENG]/load.c:89-115 | the index of the service's entry, -1 exactly if there is none |
| Registry.HsvRegistry.Register | hinit/[ENG]/load.c:121-164 | appends one entry exactly when pid, capacity, length and uniqueness allow it |
| Registry.HsvRegistry.Unregister | hinit/[ENG]/load.c:170-192 | shifting deletion keeps all other entries in their order |
| Registry.HsvRegistry.ChildExit | hinit/[ENG]/load.c:200-222 | the table without the reaped pid |
| Registry.HsvRegistry.StartService | hinit/[ENG]/load.c:228-484 | every branch's result; at most one attempt, and a successful fork yields exactly one new entry, so the registration after it cannot fail |
| Registry.HsvRegistry.StopService | hinit/[ENG]/load.c:492-578 | SIGTERM reaches the HSV registered for that very service |
| Registry.HsvRegistry.RestartService | hinit/[ENG]/load.c:587-669 | SIGUSR1 reaches the HSV registered for that very service |
| Registry.HsvRegistry.StopLast | hinit/[ENG]/load.c:1197-1250 | the newest HSV is signalled, collected and removed; the failing wait is unreachable |
| Registry.HsvRegistry.ShutdownAll | hinit/[ENG]/load.c:1174-1258 | ends with an empty table after exactly the shutdown's kills and waits; what it signals is what its table listed |
| Registry.ShutdownIsReverse | hinit/[ENG]/load.c:1197-1250 | each entry is signalled and collected once, newest first |
| Registry.StopsIffListed | hinit/[ENG]/load.c:1174-1258 | a process is sent SIGTERM, and collected, by the shutdown if and only if the image's own table lists it |
| Registry.Md0Main | hinit/[MD]/md0.c:35 | the MD0 process stops no HSV |
| Engine.HInit.constructor | hinit/[ENG]/signal.c:11-13 | the invariant holds at the start, and the flags are the signals delivered before the mask was set |
| Engine.HInit.SignalHandler | hinit/[ENG]/signal.c:29-51 | each signal sets its own flag and no other |
| Engine.HInit.Sleep | hinit/[ENG]/hinit.c:78 | unblocks all, takes some of the pending signals, blocks again; mode and table stay |
| Engine.HInit.Suspend | hinit/[ENG]/hinit.c:78 | is entered with no flag set; each delivered signal sets its flag, nothing else changes |
| Engine.HInit.Dispatch | hinit/[ENG]/signal.c:166-179 | after both subsystems heard of a child, mode and table have lost exactly that child and are again what the log says |
| Engine.HInit.ReapAll | hinit/[ENG]/signal.c:155-180 | the loop does nothing but collect children, and ends with the one poll that found no zombie; the table loses exactly the collected pids, and the mode ends exactly if MD2 was among them |
| Engine.HInit.ReapOne | hinit/[ENG]/signal.c:155-180 | one child is collected and heard of, or the poll finds none and the loop ends |
| Engine.HInit.SignalProcess | hinit/[ENG]/signal.c:110-182 | exactly a change to MD0 if SIGTERM was flagged, then exactly a reap loop if SIGCHLD was, and nothing else; all flags consumed; SIGTERM leads to MD0 if and only if a mode was active, also when MD2 died in the same wake-up |
| Feed.ValidService | hinit/[FEED]/feed.c:47-70 | accepts exactly the names that are not empty and have no slash, white space or backslash |
| Feed.RequestIff | hinit/[FEED]/feed.c:86-216 | a message is a given request if and only if its first two words are the command and an argument that denotes the mode or the valid name, whatever follows |
| Feed.RefusedForItsLength | hinit/[FEED]/feed.c:91-139 | a message with no word is refused as empty, and one with a single word for its missing mode or service |
| Feed.RefusedForItsWords | hinit/[FEED]/feed.c:117-215 | of a message with two words: the mode, the service or the command is refused exactly for being none |
| Feed.NumberIff | hinit/[FEED]/feed.c:115-119 | a mode is written as white space, at most one sign and digits only, and its value is theirs |
| Feed.UnderstoodIffAskable | hinit/[FEED]/feed.c:86-216 | a message printed for a request is understood as that request if and only if its mode is 0, 1 or 2, or its name is valid and fits the receive buffer |
| Feed.FailuresAreNamed | hinit/[FEED]/feed.c:127-211 | the reply to a failed request names its command; a change of mode is answered alike in every case |
| Engine.HInit.Serve | hinit/[FEED]/feed.c:125-212 | each of the six requests does exactly what it asks, with all that it does to children, succeeds exactly when it can, keeps the invariant, and changes only its own one of mode, table and boot directory |
| Engine.HInit.Command | hinit/[FEED]/feed.c:86-216 | a refused message changes nothing; any other is served, and the reply tells whether that succeeded |
| Engine.BootServiceIsUnknown | hinit/[ENG]/load.c:492-669 | for a service whose HSV this process did not fork, stop succeeds and does nothing, restart fails, and start forks an HSV |
| Engine.SetModeZero | hinit/[FEED]/feed.c:105-129 | in mode 2 the text "setmode 0" sends MD2 SIGTERM, collects it and runs MD0 |
| Engine.SetModeOne | hinit/[FEED]/feed.c:105-129 | with no mode the text "setmode 1" runs MD1 once, and MD2 exactly after its clean exit |
| Engine.SetModeElse | hinit/[FEED]/feed.c:105-129 | "setmode 2" does nothing in any mode, nor do the two others anywhere else |
| Engine.SigtermShutsDown | hinit/[ENG]/signal.c:117-128 | in any run a SIGTERM that ends a sleep in MD2 leads to MD0 before anything else is done in the next turn |
| Engine.IdleTurnSleeps | hinit/[ENG]/hinit.c:74-79 | a turn with neither flag nor message only sleeps |
| Engine.HInit.Reply | hinit/[FEED]/feed.c:299-373 | every message is answered in its turn, and the replies tell what happened between one and the next |
| Engine.HInit.Turn | hinit/[ENG]/hinit.c:74-79 | the flags first, then every message in its turn, then one sleep with no flag set, and nothing else; the flags it leaves are the signals that ended the sleep; a SIGTERM flagged in MD2 has led to MD0 before the first message |
| Engine.HInit.Run | hinit/[ENG]/hinit.c:71-79 | every run is one attempt to boot and then one turn for each element of the script, each from where the one before ended, with the flags that its sleep has set, and nothing else |
| Engine.HInit.BootUp | hinit/[ENG]/hinit.c:71-73 | start-up is exactly a change to MD1 |
| Engine.HInit.Loop | hinit/[ENG]/hinit.c:74-79 | the turns of the loop, each complete, follow on each other up to the last |
| Engine.HInit.InvMeans | hinit/[ENG]/mode.c:25-48 | MD2 is current iff tracked; no pending shutdown request or MD1 at rest; pids distinct, owned and complete; no zombie without a wake-up; no stray kill ever |
| Supervision.MutualExclusion | hinit/[ENG]/hsv.c:481-644 | at most one unreaped child of HSV: the one its stage names |
| Supervision.AtMostOneChild | hinit/[ENG]/hsv.c:108-153 | two own unreaped children are the same |
| Supervision.EveryRunEnded | hinit/[ENG]/hsv.c:481-644 | every run ever forked was collected before anything else was forked or collected |
| Supervision.TermIsRemembered | hinit/[ENG]/hsv.c:31-46 | the shutdown flag is set exactly since the first delivered SIGTERM |
| Supervision.OneLateRun | hinit/[ENG]/hsv.c:487-511 | after SIGTERM at most one further run is attempted |
| Supervision.Ending | hinit/[ENG]/hsv.c:647-676 | a terminated run ends, after SIGTERM, with the stop hook and then the finish hook, each attempted at most once and collected if it ran, and with nothing else; no finish attempt comes earlier |
| Supervision.TermOnlyOnRequest | hinit/[ENG]/hsv.c:566-607 | a run is sent SIGTERM only for a shutdown or right after a restart was taken |
| Supervision.KillOnlyAfterFiftyPolls | hinit/[ENG]/hsv.c:221-295 | SIGKILL follows SIGTERM and exactly 50 unsuccessful polls, once |
| Supervision.RestartsNeverExceedRequests | hinit/[ENG]/hsv.c:566-568 | each restart taken has a delivered request of its own |
| Supervision.NoLostRestart | hinit/[ENG]/hsv.c:566-596 | every delivered SIGUSR1 still waits, or its restart is in progress, or SIGTERM and the stop hook followed |
| Supervision.HookBeforeNextRun | hinit/[ENG]/hsv.c:566-596 | after a restart was taken, SIGTERM and then the stop hook come before the next run |
| Supervision.ScriptsInheritTheMask | hinit/[ENG]/hsv.c:402-452 | every script is forked with the mask that the supervisor itself was given |
| Supervision.DeafSupervisor | hinit/[ENG]/hsv.c:481-511 | a supervisor that was given a mask with SIGTERM never hears of one and never begins to shut down |
| Supervision.PromptReaction | hinit/[ENG]/hsv.c:522-610 | when a poll finds the run alive after a flag was set, taking the restart or sending SIGTERM comes before any sleep; a restart that waited at the poll goes before a shutdown |
| Supervision.PolledEveryTenth | hinit/[ENG]/hsv.c:517-611 | unless a flag is set by then, a poll that finds the run alive is followed by exactly 100 ms of sleep and the next poll, and by no more than that in any case |
| Supervision.LeavesAtOnce | hinit/[ENG]/hsv.c:602-617 | when a run or a hook is over after SIGTERM was delivered, the next thing done is to look for the stop or the finish hook, without any sleep or run |
| Supervision.FirstDeed | hinit/[ENG]/hsv.c:481-511 | the first thing a supervisor does at all is to attempt the run script, unless SIGTERM was delivered before |
| Supervision.RestartDelay | hinit/[ENG]/hsv.c:566-643 | between the end of a restart's stop hook and the next run exactly a second is slept if no further request was delivered, nothing at all if one was delivered before the hook was over, and never more than a second |
| Supervision.LoneRestartWaits | hinit/[ENG]/hsv.c:614-643 | a legal run in which one request restarts the service and the full second is slept all the same |
| Supervision.RunFollowsWithinASecond | hinit/[ENG]/hsv.c:481-644 | from the end of a run, or from a failed attempt to start one, to the next attempt at most a second is slept |
| Supervision.OnlyARunFollows | hinit/[ENG]/hsv.c:481-644 | before SIGTERM an idle supervisor does nothing but sleep and start the next run |
| Supervisor.Hsv.Handle | hinit/[ENG]/hsv.c:31-46 | each signal sets its own flag and no other |
| Supervisor.Hsv.SleepMs | hinit/[ENG]/hsv.c:163-197 | over all interruptions no more than the requested time is slept, and all of it unless an interruption finds a flag set |
| Supervisor.Hsv.ExecScript | hinit/[ENG]/hsv.c:108-153 | the hook is tried and, if it ran, collected |
| Supervisor.Hsv.StopService | hinit/[ENG]/hsv.c:209-318 | on return the child is collected, after at most 5000 ms of sleep and one SIGKILL; uninterrupted, a killed service had all 5000 ms |
| Supervisor.Hsv.AwaitStop | hinit/[ENG]/hsv.c:233-272 | collected within at most 50 polls and 5000 ms, or exactly 50 polls have failed |
| Supervisor.Hsv.SuperviseRun | hinit/[ENG]/hsv.c:517-611 | a run ends by itself, stopped with the stop hook tried, or stopped for the shutdown, unless it is observed no longer; the delay then starts, or is skipped if a request waits, or does not come if SIGTERM has arrived |
| Supervisor.Hsv.Round | hinit/[ENG]/hsv.c:493-643 | one run is attempted; unless a flag is set by the end of the round, a full second was slept since the run and its hook were over |
| Supervisor.Hsv.Supervise | hinit/[ENG]/hsv.c:321-687 | it starts with the run script, unless refused or told to stop before; what it uses of its patience is bounded by six times its deeds and twice the interruptions, so it never idles; with SIGTERM unblocked, and given that it comes, it terminates, with a log of the reference protocol that ends with stop and finish; with SIGTERM blocked it goes on until its patience is used up |
| OnBoot.OnBootDirectory.Unlink | hinit/[ENG]/load.c:765-784 | removes an entry; the dot entries stay |
| OnBoot.OnBootDirectory.Enable | hinit/[ENG]/load.c:679-827 | succeeds exactly for an existing service directory whose paths fit; replaces the link |
| OnBoot.OnBootDirectory.Disable | hinit/[ENG]/load.c:833-916 | succeeds exactly for acceptable names, existing or not |
| OnBoot.OnBootDirectory.Edit | hinit/[ENG]/load.c:672-916 | any sequence of both leaves the directory the edits determine |
| OnBoot.DirectoryIsStillEnabled | hinit/[ENG]/load.c:672-916 | an entry exists if and only if the service was enabled and not disabled since |
| OnBoot.LoadEntry | hinit/[ENG]/load.c:986-1149 | an entry starts its service exactly if it is loadable, new and has room, with one attempt and nothing else; it counts as started if and only if its service is then registered |
| OnBoot.LoadDirectory | hinit/[ENG]/load.c:923-1157 | entry by entry, one attempt for each that starts its service, and nothing else; success if and only if every entry ends up registered; the table the listing determines |
| OnBoot.LoadOnBoot | hinit/[ENG]/load.c:1163-1168 | the same for start-up |
| OnBoot.OnBootAgreement | hinit/[ENG]/load.c:967-1150 | exactly the still-enabled services are registered, once each, the first 128 in directory order |
| OnBoot.LoadSucceedsIffAllFit | hinit/[ENG]/load.c:306-315 | with that table every entry is started if and only if they are at most 128 |
| LogFormat.LogWriter.Init | hinit/[LOG]/log.c:36-68 | open afterwards if it was or could be opened |
| LogFormat.LogWriter.Write | hinit/[LOG]/log.c:71-146 | success appends exactly one record; a refused write appends nothing, and a failed print a part of the line |
| LogFormat.RecordIsPlain | hinit/[LOG]/log.c:125-136 | a record of clean fields is one line whose end trimming leaves alone |
| LogFormat.RecordReads | hinit/[LOG]/log.c:12-33 | a dated record is read back by position: month, day and year, hour and minute, then component, message and the name of the level |
| LogFormat.RecordFitsIff | hinit/[LOG]/log.c:125-136 | a dated record fits the line buffer if and only if its three words have at most 487 characters together |
| LogFormat.ChunksOfLine | hinit/[LOG]/logger.c:167-171 | into how many chunks fgets cuts a line, and which for a short one |
| LogFormat.ChunksAre | hinit/[LOG]/logger.c:167-171 | the chunks together are the file; each has at most 511 characters and a newline only at its end, and all but the last are full or end with one |
| LogFormat.TrimIs | hinit/[LOG]/logger.c:124-145 | nothing but newlines and carriage returns at the end goes, and all of these |
| LogFormat.ViewAgrees | hinit/[LOG]/logger.c:148-218 | for every n, the newest n lines of the file are the newest n records written if and only if each of these fits the line buffer |
| LogFormat.ChunksGrow | hinit/[LOG]/logger.c:167-171 | appending to the file never lowers the number of chunks |
| Viewer.LogViewer.TrimNewline | hinit/[LOG]/logger.c:124-145 | all trailing newlines and carriage returns go |
| Viewer.LogViewer.Store | hinit/[LOG]/logger.c:176-206 | the window slides by one when it is full |
| Viewer.LogViewer.LoadFile | hinit/[LOG]/logger.c:148-218 | the window holds the newest 4096 trimmed chunks, in order, of any file |
| Viewer.LogViewer.ScrollUp | hinit/[LOG]/logger.c:325-335 | saturating at the first line |
| Viewer.LogViewer.ScrollDown | hinit/[LOG]/logger.c:338-365 | saturating at the bottom |
| Viewer.LogViewer.End | hinit/[LOG]/logger.c:374-390 | the bottom |
| Viewer.LogViewer.Draw | hinit/[LOG]/logger.c:253-322 | exactly the visible rows: the lines from the viewport on, in their order, and blank rows below the last; a viewport in view does not move |
| Viewer.LogViewer.ProcessKey | hinit/[LOG]/logger.c:393-554 | where each key moves the viewport |
| Viewer.LogViewer.Reload | hinit/[LOG]/logger.c:641-672 | the new window, and the viewport it leads to, which stays when the file position is unknown |
| Viewer.LogViewer.Round | hinit/[LOG]/logger.c:615-690 | one round of the loop is a round of the reference session |
| Viewer.LogViewer.Session | hinit/[LOG]/logger.c:604-690 | for any keys and any appending writer the screens, the viewport and the window are those of the reference session up to the first quit |
| Viewer.PlayedInView | hinit/[LOG]/logger.c:253-390 | in every session the viewport stays in view and every screen has exactly its rows |
| Viewer.ScreensAreDrawn | hinit/[LOG]/logger.c:604-690 | a session draws once at the start, once in every round and once for every key; its last screen shows the window from the viewport on, line by line |
| Viewer.NewestAreShown | hinit/[LOG]/logger.c:253-322 | in any session a viewer at the bottom shows the newest records written, as many as there are rows, oldest first, if and only if each of these fits the line buffer |
| Viewer.HomeShowsTheOldest | hinit/[LOG]/logger.c:368-371 | Home shows the oldest lines of the window, from its first one on |
| Viewer.EndShowsTheNewest | hinit/[LOG]/logger.c:374-390 | End shows the newest lines of the window, up to the last |
| Viewer.UpShowsTheLineAbove | hinit/[LOG]/logger.c:325-335 | a step up moves the rows down by one and shows the line above, or changes nothing at the oldest line |
| Viewer.DownShowsTheLineBelow | hinit/[LOG]/logger.c:338-365 | a step down moves the rows up by one and shows the next line below, or changes nothing at the bottom |
| Viewer.PageDownOverlaps | hinit/[LOG]/logger.c:393-554 | page down shows the old last row in the first row, or else the newest lines |
| Viewer.PageUpOverlaps | hinit/[LOG]/logger.c:393-554 | page up shows the old first row in the last row, or else the oldest lines |
| Viewer.FollowsIffGradual | hinit/[LOG]/logger.c:654-671 | in any session, a viewer at the bottom at which from then on nobody presses a key but up is at the bottom in the end if and only if no round brought a line too many |
| Viewer.FastLogIsNotFollowed | hinit/[LOG]/logger.c:654-671 | a session at the bottom, with no key pressed, that does not follow |
| Viewer.UpIsUndoneIff | hinit/[LOG]/logger.c:325-335 | in any session a step up from the bottom is undone in the same round if and only if that round brings no line more |
| Viewer.FullWindowFollows | hinit/[LOG]/logger.c:654-671 | once the window is full, a viewer at the bottom stays there, whatever steps up are tried |
| Viewer.ReloadMovesIff | hinit/[LOG]/logger.c:666-670 | in any session a round without key and without new lines moves the viewport exactly from one line above the bottom |
| Viewer.WindowAgrees | hinit/[LOG]/logger.c:148-218 | the window shows the newest 4096 records written if and only if each of them fits the line buffer |
| Viewer.WrittenIsViewed | hinit/[LOG]/log.c:118-136 | the same for any number of successful log writes with clean fields |
| Viewer.ShortWritesAreViewed | hinit/[LOG]/log.c:118-136 | every log of dated, clean writes with at most 479 characters of component and message is viewed as written |
| Viewer.OneLongRecord | hinit/[LOG]/logger.c:167-206 | after one record that does not fit, the view is right again exactly from the 4096th fitting record on |

## Left out

- `sysload.c`, `sysdown.c`, and the bodies of `md1.c` and `md2.c`: straight-line phases; MD1, MD2 and
  MD0 are children that end with any status at any time.
- Log messages of the engine and `mode_failure`: wording only; a failed log write changes nothing else.
- The sockets of `feed.c`: PID 1 is given any sequence of received messages between two wake-ups, and
  `strtok`, `strtol` and `isspace` are functions. The Makefile does not link `feed.c`.
- What the C library still buffers after a failed print: a part of the line is in the file, and the rest
  never follows.
- `sigprocmask` and `sigaction` failures: the calls are valid, so they do not fail.
- `fork`'s child side, `execl`, file permissions, and default actions of signals before a handler is
  installed.
- The block of SIGCHLD around the fork in `load.c:321-464`: SIGCHLD is blocked there anyway, so it changes
  nothing.
- Branches for error numbers that the kernel assumptions exclude (`kill` or `waitpid` on an unreaped child
  failing other than by interruption), where a method does not keep them as unreachable code.
- Absent strings and absent directories passed as null pointers: callers in the repository never do so,
  except in `log_write`, where they are modelled.
- `readdir` during concurrent changes, and symbolic links inside the service tree: the tree is stable and
  maps paths to what `stat` reports.
- Terminal control, escape sequences, the header and footer around the lines, and wall-clock time: the window size and the time stamps are inputs;
  years before 0 are not modelled, and characters stand for bytes.
- A log file that shrinks while it is viewed: `Viewer.LogViewer.Session` takes an appending writer.
- Liveness of other processes beyond "a blocking wait returns": nothing here says that a service or MD2
  ends, and a wait for MD2 after SIGTERM returns only when MD2 ends for another reason.
