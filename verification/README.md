# A model of the ico-recomp runtime's kernel core

The runtime runs translated EE code on the host and stands in for the console's kernel. This project
models the parts of it whose correctness is an argument rather than a reading: the EE kernel (threads,
semaphores, virtual clock, timers, alarms, interrupt delivery), and four cores independent of it (the
VU1 lane helpers with the unaligned accesses, SHA-1, the log queue, page-chunked guest memory).

`dafny verify dfyconfig.toml` checks everything.

## How it is laid out

Each part is a set of functions on values that say what the code computes, lemmas about them, and a class
that keeps the same state in place with the source's own loops, every method of which is proved to do what
the function of the same call does.

| part | functions and their laws | runs | in place |
|---|---|---|---|
| video mode, timers, alarms | `VideoMode`, `Timers`, `Alarms` | | `Timers.TimerBank`, `Alarms.AlarmTable` |
| SIF replies and the pad tick | `Sif` | | `Sif.SifLink` |
| virtual clock | `Clock` | `ClockRuns`, `ClockLines`, `ClockAlarms` | `ClockDevice.VirtualClock` |
| threads and semaphores | `Sched`, `SchedPlacement`, `SchedCalls`, `SchedAccounts`, `SchedEffects` | `Machine`, `MachineRuns` | `SchedKernel.Scheduler` |
| interrupt controller | `IntcLines`, `Intc` | `IntcDelivery` | `IntcDevice.Controller` |
| VU1 lane helpers | `VuLanes`, `VuMac` | | `VuRegs.Vu1` |
| unaligned accesses | `Unaligned`, `UnalignedWords` | | methods of `Unaligned` |
| SHA-1 | `Sha1Spec` (FIPS 180-4) | | `Sha1.Sha1State` |
| log queue | `LogRing` | `LogRing` | `LogDevice.LogQueue` |
| guest memory | `GuestPages` | | `GuestPages.Memory` |

**Timeline.** `Clock.RunTo` is the tick loop over the merged timeline: field edge, vblank end, timers, SIF
deadlines, alarms. A history of what it raised is kept beside the state, so that statements about runs
(`ClockRuns.Run`) are statements about that history. SIF replies go out as the source sends them: in due
order, one packet a pass and only into a free receive buffer, a packet that finds it busy being put off by 512
cycles, so a cycle may take several passes; the pad ticks once a field. Virtual time stays below `HORIZON`,
far from the 2^64 - 1 the source uses for "never".

**Threads.** A guest thread is an opaque caller. Giving up the CPU is the step that sets the current thread
to 0 with the thread's own state already recorded; no coroutine stack is modelled. `Machine` is the whole
EE side as steps: thread code making calls and toggling interrupts, a delivery starting, handler code, the
delivery ending with its preemption check, the scheduler loop, idle time. What the clock, devices and
register writes do to the interrupt lines between those steps is an arbitrary change. A run
(`Machine.IsRun`) is any sequence of states and steps.

The calling discipline (`Sched.Disciplined`, and the condition on `EndDelivery` in `Machine.CanStep`): a
handler makes no call that would give up the interrupted thread's CPU and leaves interrupts as it found
them, on; thread code does not use the i-variants of the calls. A handler that gave up the CPU would make the
source abort or yield in the middle of an interrupt; one that left interrupts off, and thread code using
i-variants, are not part of this model.

**Interrupt controller.** A register word is the set of its set bits. Handlers are any function from the
number of a dispatch to the list of things that dispatch's handlers do, delivery points included.

**VU1.** A float is its 32-bit pattern; host addition, subtraction and multiplication are arbitrary
functions on patterns, so nothing rests on rounding. SSE2 intrinsics other than movemask work lane by lane
and each form is written once for a lane. Destination masks and mac nibbles are four-bit fields; `VuMac` proves
that the word the source packs by shifting is the word of those nibbles.

**Unaligned.** In `Unaligned` a word is its bytes, least significant first, and memory is bytes: every mask the
source builds is whole bytes and every shift a whole number of bytes. `UnalignedWords` proves the pairs once
more on 32- and 64-bit words, with the source's masks and shifts.

## Where the code and its comments differ

The code decides; each of these is a lemma.

- `src/runtime/ee/timers.cpp:124-128` says that an H-blank timer's count at the instant of a mode change
  becomes its base. The hooks run after the new mode is installed (`src/runtime/video_mode.cpp:60`), so the
  count is derived with the new line length: `Timers.CountAcrossModeChange`, `Timers.HblankCountLost`.
- A MODE write evaluates COUNT under the new mode bits (`src/runtime/ee/timers.cpp:278-283`):
  `Timers.CountAcrossModeWrite`, `Timers.StartingAStoppedTimerJumps`.
- A COMP write does not evaluate the timer first, so a value already passed can be reported as a compare:
  `Timers.CompWriteCaughtUpIff`, `Timers.CompWriteRaisesLate`, `ClockRuns.ApplyTimersOk`.
- The pending causes are read once per delivery pass, so a cause that an earlier handler of the pass has
  acknowledged is dispatched all the same: `IntcDelivery.StaleIff`, `IntcDelivery.ChannelStaleIff`,
  `IntcDelivery.AcknowledgedYetDispatched`.
- The lazy evaluation of timers is transparent to a read or a tick, not to a register write right after it:
  `Timers.ReadBeforeRebase`, `Timers.ReadBeforeCompWrite`.
- `src/runtime/log.cpp:324-325` places the drop note where the gap is. It is written before the batch, and
  the dropped lines were offered after every line of that batch: `LogRing.NotePrecedesItsBatch`.
- CreateSema does not compare the initial count with the ceiling, so the bound on a count is the larger of
  the two: `SchedAccounts.CallKeepsAccounts`.

## Model

| member | source | states |
|---|---|---|
| VideoMode.LineLengths | src/runtime/video_mode.h:72-91 | an H-blank is the share of a line in a frame of two fields, rounded down: 9371 (NTSC) or 9437 (PAL) bus cycles |
| VideoMode.PeriodsNest | src/runtime/video_mode.h:65-109 | a vblank is shorter than a field of either mode, so an end pending across a mode change precedes the new edge |
| Timers.TimerNextExact | src/runtime/ee/timers.cpp:152-171 | the predicted cycle of one timer is the least future cycle at which its 16-bit count meets an armed COMP or wraps under an armed OVFE |
| Timers.NextEventExact | src/runtime/ee/timers.cpp:152-171 | the prediction over all four timers is exactly the least such cycle of any of them, and 2^64-1 only when there is none |
| Timers.NextEventStable | src/runtime/ee/timers.cpp:105-118 | the prediction does not change as time passes until the predicted cycle: why the cached answer may be kept |
| Timers.AdvanceMeaning | src/runtime/ee/timers.cpp:206-231 | what a late evaluation sets: EQUF iff COMP was met and OVFF iff the count wrapped since the last evaluation, and the line iff the matching enable is set |
| Timers.LazyTransparent | src/runtime/ee/timers.cpp:206-231 | without ZRET, evaluating at t1 and then at t2 leaves the same timer and raises the same causes as evaluating once at t2 |
| Timers.RaisedIff | src/runtime/ee/timers.cpp:215-230 | an evaluation raises the line iff an armed event lies between the last evaluation and now |
| Timers.CaughtUpUntilNext | src/runtime/ee/timers.cpp:206-231 | a timer with nothing overdue stays so until the predicted cycle |
| Timers.ServicedExactly | src/runtime/ee/timers.cpp:235-241 | evaluated on its predicted cycle, a timer raises its line there iff it fires there, and has nothing overdue afterwards |
| Timers.ResetOnCycle | src/runtime/ee/timers.cpp:220-224 | a ZRET reset serviced on its cycle moves the base to exactly that cycle: no sub-tick error |
| Timers.RebasedIff | src/runtime/ee/timers.cpp:215-225 | an evaluation moves the count base exactly when ZRET is set and COMP was met since the last one |
| Timers.Unraised | src/runtime/ee/timers.cpp:215-230 | a counting timer has nothing overdue exactly when evaluating it now would raise nothing |
| Timers.BeforeTheBeat | src/runtime/ee/timers.cpp:206-231 | before its next event, evaluating a ZRET+CMPE timer raises nothing and leaves its schedule alone |
| Timers.OnTheBeat | src/runtime/ee/timers.cpp:206-231 | on its next event, from whatever count it started and whether that is the compare or a wrap on the way, its line is raised and the one after is exactly one period on |
| Timers.PeriodicNext | src/runtime/ee/timers.cpp:152-171 | a counting timer with ZRET and CMPE next fires one period after its base, COMP times the prescale (65536 ticks when COMP is 0) |
| Timers.PeriodicAdvance | src/runtime/ee/timers.cpp:206-231 | servicing it there restarts it from that very cycle |
| Timers.CountAcrossModeChange | src/runtime/ee/timers.cpp:129-142 | an H-blank timer keeps its COUNT across a mode change if and only if the elapsed cycles over the old line and over the new line agree modulo 2^16; the other timers always keep it |
| Timers.HblankCountLost | src/runtime/ee/timers.cpp:129-134 | a concrete elapsed time for which they disagree, so COUNT jumps: the hook divides by the new line length |
| Timers.CountAcrossModeWrite | src/runtime/ee/timers.cpp:278-283 | a MODE write keeps COUNT if and only if the ticks under the old and the new CLKS and CUE agree modulo 2^16 |
| Timers.StartingAStoppedTimerJumps | src/runtime/ee/timers.cpp:281 | setting CUE on a stopped timer counts the whole time since its base at once: a concrete jump |
| Timers.WriteKeepsCaughtUp | src/runtime/ee/timers.cpp:263-283 | no COUNT or MODE write leaves an event overdue |
| Timers.CompWriteCaughtUpIff | src/runtime/ee/timers.cpp:263-268 | a COMP write leaves nothing overdue if and only if the new COMP was not passed since the last evaluation |
| Timers.CompWriteRaisesLate | src/runtime/ee/timers.cpp:206-231 | a concrete COMP write after which the next evaluation raises a compare that never happened |
| Timers.WriteThenRead | src/runtime/ee/timers.cpp:243-283 | a register reads back what was just written: COUNT and COMP as 16 bits, MODE as its ten control bits with a flag kept unless a 1 was written to it; reading COUNT or MODE back raises nothing |
| Timers.ReadBeforeRebase | src/runtime/ee/timers.cpp:243-283 | where laziness shows: for a timer without ZRET an extra read just before a COUNT or MODE write, or a mode change under an H-blank timer, makes no difference to anything later if and only if it would have set no flag that the write does not clear |
| Timers.BasedNow | src/runtime/ee/timers.cpp:206-212 | once the base is the current cycle, when the timer was last evaluated no longer matters |
| Timers.ReadBeforeCompWrite | src/runtime/ee/timers.cpp:243-283 | an extra read just before a COMP write is seen if and only if EQUF then differs: with it EQUF says whether the old COMP was passed, without it whether the new one was |
| Timers.ModeHookCaughtUp | src/runtime/ee/timers.cpp:129-142 | the mode hook leaves nothing overdue |
| Timers.HookKeepsCapturedCount | src/runtime/ee/timers.cpp:134-136 | the count the hook captures is the count a read gives right after it |
| Timers.TimerBank.NextEventSlow | src/runtime/ee/timers.cpp:152-172 | the loop over the timers returns the prediction |
| Timers.TimerBank.Next | src/runtime/ee/timers.cpp:176-182 | whenever the cached value is consulted it equals a fresh computation |
| Timers.TimerBank.MemoSurvives | src/runtime/ee/timers.cpp:105-117 | letting time pass up to the predicted cycle keeps the cache right |
| Timers.TimerBank.AdvanceTimer | src/runtime/ee/timers.cpp:206-231 | in place: the timer, its line, and the cache dropped exactly when the prediction could have moved |
| Timers.TimerBank.RunDue | src/runtime/ee/timers.cpp:235-241 | evaluates all four timers, reports the lines raised, drops the cache |
| Timers.TimerBank.Read | src/runtime/ee/timers.cpp:243-257 | a COUNT or MODE read evaluates the timer first and answers from the result |
| Timers.TimerBank.Write | src/runtime/ee/timers.cpp:263-283 | register writes, and the cache dropped |
| Timers.TimerBank.ModeChanged | src/runtime/ee/timers.cpp:129-142 | the mode hook over the four timers |
| Alarms.FirstFree | src/runtime/ee/alarms.cpp:184-186 | the slot a new alarm takes is the first that is neither armed nor pending |
| Alarms.NextDue | src/runtime/ee/alarms.cpp:257-263 | the next alarm deadline is the least due time of an armed alarm |
| Alarms.MarkDue | src/runtime/ee/alarms.cpp:265-272 | exactly the armed alarms whose time has come become pending, and stop being armed |
| Alarms.ArmAccounted | src/runtime/ee/alarms.cpp:180-219 | SetAlarm keeps arms = fires + releases + live slots, and takes a slot only when it answers an id |
| Alarms.CancelAccounted | src/runtime/ee/alarms.cpp:221-255 | ReleaseAlarm keeps it too, armed or already due |
| Alarms.MarkDueAccounted | src/runtime/ee/alarms.cpp:265-272 | coming due keeps it: no alarm is gained or lost |
| Alarms.FireAccounted | src/runtime/ee/alarms.cpp:285-289 | dispatch keeps it, and the slot is free |
| Alarms.RearmOwnSlot | src/runtime/ee/alarms.cpp:285-288 | a handler that sets an alarm can get the slot it was dispatched from |
| Alarms.AlarmTable.Set | src/runtime/ee/alarms.cpp:180-219 | the slot loop, in place |
| Alarms.AlarmTable.Release | src/runtime/ee/alarms.cpp:221-255 | in place, with both refusals |
| Alarms.AlarmTable.NextEvent | src/runtime/ee/alarms.cpp:257-263 | the loop returns the least due time |
| Alarms.AlarmTable.RunDue | src/runtime/ee/alarms.cpp:265-272 | the loop marks exactly the due alarms |
| Alarms.AlarmTable.AnyPending | src/runtime/ee/alarms.cpp:274-279 | the loop answers whether a slot is pending |
| Alarms.AlarmTable.TakePending | src/runtime/ee/alarms.cpp:283-289 | one step of the dispatch loop |
| Sif.Earliest | src/runtime/sif/rpc.cpp:150-156 | the delivery that goes next is the earliest due, first among equals |
| Sif.RunQueueOk | src/runtime/sif/rpc.cpp:687-746 | a run of the due deliveries leaves none overdue, and if something was due then fewer are: why the tick loop gets on |
| Sif.RunQueueConserves | src/runtime/sif/rpc.cpp:687-746 | every delivery either goes out or stays queued, once |
| Sif.RunQueueRespects | src/runtime/sif/rpc.cpp:687-746 | none goes out before it is due, and a packet goes out only into a free receive buffer, alone, and leaves it busy |
| Sif.PadAfter | src/runtime/sif/pad.cpp:401-410 | the pad loop ends with its next tick in the future |
| Sif.SifLink.NextDelivery | src/runtime/sif/rpc.cpp:150-156 | the scan loop finds that delivery |
| Sif.SifLink.NextEvent | src/runtime/sif/rpc.cpp:682-685 | the SIF deadline: the next delivery or the pad tick |
| Sif.SifLink.RunRpc | src/runtime/sif/rpc.cpp:687-746 | in place: the delivery loop, with its retry and its one packet a pass |
| Sif.SifLink.Run | src/runtime/sif/pad.cpp:401-410 | in place: the deliveries, then the pad loop |
| Sif.SifLink.Send | src/runtime/sif/rpc.cpp:228-247 | in place: a reply is queued one SIF latency and its hold ahead |
| Clock.NextIsLeast | src/runtime/ee/sched.cpp:314-324 | the next timeline event is no later than any source's deadline |
| Clock.NextIsOne | src/runtime/ee/sched.cpp:314-324 | and is some source's own deadline |
| Clock.ProcessOk | src/runtime/ee/sched.cpp:347-383 | servicing one event keeps every timeline invariant, leaves no timer overdue, and either every deadline is then later or fewer SIF deliveries are left for the same cycle |
| Clock.RunTo | src/runtime/ee/sched.cpp:341-386 | the tick loop terminates, lands exactly on its target, and leaves every source's next deadline later than now |
| Clock.WaitOk | src/runtime/ee/sched.cpp:343-346 | stopping the clock between two events changes no later event |
| Clock.BillingIndependent | src/runtime/ee/sched.cpp:341-386 | rt_clock_tick(a) then rt_clock_tick(b) reaches the same clock, vblank, timer, alarm, SIF and raised-interrupt state as rt_clock_tick(a + b), history included |
| ClockRuns.ApplyOk | src/runtime/ee/sched.cpp:341-386 | every entry point (ticks, register traffic, mode changes, alarm calls, SIF replies) keeps the timeline invariants and never moves the clock back |
| ClockRuns.BootOk | src/runtime/ee/sched.cpp:167-175 | they hold of the static initial state |
| ClockRuns.ChangeModeOk | src/runtime/ee/sched.cpp:489-495 | a mode change re-derives the field edge past the pending vblank end |
| ClockRuns.VblanksAlternate | src/runtime/ee/sched.cpp:348-380 | over every run: VB_ON and VB_OFF strictly alternate, each VB_OFF exactly one vblank of the mode at its VB_ON after it, the pending end lies before the next edge, and the field is the parity of the fields started |
| ClockRuns.VblanksFromBoot | src/runtime/ee/sched.cpp:348-380 | so over every run from boot |
| ClockRuns.ApplyTimersOk | src/runtime/ee/timers.cpp:206-283 | of all entry points only a COMP write to a running CMPE timer that puts COMP among the counts already passed unevaluated leaves an event overdue, and it always does |
| ClockRuns.RunTimersOk | src/runtime/ee/timers.cpp:206-283 | so over every run without such a write no timer is ever overdue |
| ClockLines.PassIsExact | src/runtime/ee/sched.cpp:345-381 | servicing an event raises timer i's line if and only if timer i fires on that very cycle |
| ClockLines.LinesExact | src/runtime/ee/sched.cpp:341-386 | a non-ZRET timer raises its line during a tick at exactly its firing cycles, each once |
| ClockLines.LinesExactFromBoot | src/runtime/ee/sched.cpp:341-386 | in particular after any run from boot without such a COMP write |
| ClockLines.NoDrift | src/runtime/ee/sched.cpp:341-386 | over every run that leaves it alone, a counting ZRET+CMPE timer with nothing overdue, from whatever count, raises its line on its next event f and then at f + P, f + 2P and so on, P being COMP times the prescale (65536 ticks when COMP is 0), at every one of these cycles within the run and at no other |
| ClockLines.NoDriftFromReset | src/runtime/ee/sched.cpp:341-386 | from a reset at b these are b + P, b + 2P and so on |
| ClockLines.NoDriftFromBoot | src/runtime/ee/sched.cpp:341-386 | so for a timer set up by any run from boot without such a COMP write |
| ClockAlarms.AlarmsOnTime | src/runtime/ee/alarms.cpp:183-289 | over every run: each alarm's life is arm, then due exactly at arm time + ticks times the H-blank in force at arming whatever the mode does later, then one dispatch, never before it came due; a release may end it while armed or due; none is ever late |
| ClockAlarms.AlarmsFromBoot | src/runtime/ee/alarms.cpp:183-289 | so over every run from boot |
| ClockAlarms.OneRunPerDue | src/runtime/ee/alarms.cpp:281-289 | in such a history a slot's handler never runs more often than its alarms came due, and strictly less often while one is pending |
| ClockDevice.VirtualClock.NextEvent | src/runtime/ee/sched.cpp:314-324 | the minimum over the five sources, with the cached timer answer |
| ClockDevice.VirtualClock.Edges | src/runtime/ee/sched.cpp:348-380 | the vblank part of the loop body, in place |
| ClockDevice.VirtualClock.Service | src/runtime/ee/sched.cpp:347-383 | one loop iteration, in place |
| ClockDevice.VirtualClock.Tick | src/runtime/ee/sched.cpp:341-386 | the loop is the tick of the model, and the cache is right when it returns |
| ClockDevice.VirtualClock.SetMode | src/runtime/video_mode.cpp:56-75 | installs the mode first, then runs the scheduler's and the timers' hooks |
| ClockDevice.VirtualClock.ReadTimer | src/runtime/ee/timers.cpp:243-257 | a register read, in place |
| ClockDevice.VirtualClock.WriteTimer | src/runtime/ee/timers.cpp:263-283 | a register write, in place |
| ClockDevice.VirtualClock.SetAlarm | src/runtime/ee/alarms.cpp:180-219 | SetAlarm at the current clock and line length, in place |
| ClockDevice.VirtualClock.ReleaseAlarm | src/runtime/ee/alarms.cpp:221-255 | ReleaseAlarm, in place |
| ClockDevice.VirtualClock.DispatchAlarm | src/runtime/ee/alarms.cpp:283-289 | the dispatch of a pending alarm, in place |
| ClockDevice.VirtualClock.SendReply | src/runtime/sif/rpc.cpp:228-247 | a reply queued, in place |
| ClockDevice.VirtualClock.TakePacket | src/runtime/sif/rpc.cpp:718 | the EE handler has emptied the receive buffer |
| Sched.BestReady | src/runtime/ee/sched.cpp:209-214 | the best ready priority: its queue is non-empty and every better one is empty |
| Sched.FreeThread | src/runtime/ee/sched.cpp:810-811 | CreateThread takes the first free id from 2 up |
| Sched.DeadSema | src/runtime/ee/sched.cpp:1070-1071 | CreateSema takes the first dead id from 1 up |
| SchedPlacement.WithoutMeans | src/runtime/ee/sched.cpp:202-207 | the erase loop removes the one occurrence of an id and nothing else |
| SchedPlacement.WithoutKeepsOrder | src/runtime/ee/sched.cpp:202-207 | and keeps the order of everyone else |
| SchedPlacement.DetachReady | src/runtime/ee/sched.cpp:202-207 | a ready thread that leaves its queue leaves no trace, and nobody else moves |
| SchedPlacement.DetachWaiter | src/runtime/ee/sched.cpp:1038-1045 | the same for a thread that leaves a semaphore's waiters |
| SchedPlacement.AttachBack | src/runtime/ee/sched.cpp:192-195 | queueing at the tail completes a thread's move |
| SchedPlacement.AttachFront | src/runtime/ee/sched.cpp:197-200 | queueing at the head does too |
| SchedPlacement.AttachWaiter | src/runtime/ee/sched.cpp:1167 | so does joining a semaphore's waiters |
| SchedCalls.PreemptInv | src/runtime/ee/sched.cpp:537-549 | the preemption check keeps placement |
| SchedCalls.UnblockMoved | src/runtime/ee/sched.cpp:260-271 | unblocking a thread that has left what it waited on puts it in exactly one place |
| SchedCalls.DrainInv | src/runtime/ee/sched.cpp:1104-1109 | DeleteSema wakes every waiter, oldest first, and nobody is left behind |
| SchedCalls.CreateThreadInv | src/runtime/ee/sched.cpp:794-837 | CreateThread keeps every thread id in exactly the place its state says |
| SchedCalls.DeleteThreadInv | src/runtime/ee/sched.cpp:839-845 | DeleteThread keeps every thread id in exactly the place its state says |
| SchedCalls.StartThreadInv | src/runtime/ee/sched.cpp:847-854 | StartThread keeps every thread id in exactly the place its state says |
| SchedCalls.ExitInv | src/runtime/ee/sched.cpp:856-863 | ExitThread, ExitDeleteThread and the return of the root function keeps every thread id in exactly the place its state says |
| SchedCalls.TerminateThreadInv | src/runtime/ee/sched.cpp:865-881 | TerminateThread, from whichever queue the thread is in, keeps every thread id in exactly the place its state says |
| SchedCalls.ChangePriorityInv | src/runtime/ee/sched.cpp:883-914 | ChangeThreadPriority, of oneself, of a ready thread or of any other, keeps every thread id in exactly the place its state says |
| SchedCalls.RotateInv | src/runtime/ee/sched.cpp:916-929 | RotateThreadReadyQueue keeps every thread id in exactly the place its state says |
| SchedCalls.SleepInv | src/runtime/ee/sched.cpp:963-971 | SleepThread keeps every thread id in exactly the place its state says |
| SchedCalls.WakeupInv | src/runtime/ee/sched.cpp:973-983 | WakeupThread keeps every thread id in exactly the place its state says |
| SchedCalls.SuspendInv | src/runtime/ee/sched.cpp:993-1011 | SuspendThread keeps every thread id in exactly the place its state says |
| SchedCalls.ResumeInv | src/runtime/ee/sched.cpp:1013-1026 | ResumeThread keeps every thread id in exactly the place its state says |
| SchedCalls.ReleaseWaitInv | src/runtime/ee/sched.cpp:1035-1049 | ReleaseWaitThread keeps every thread id in exactly the place its state says |
| SchedCalls.DeleteSemaInv | src/runtime/ee/sched.cpp:1101-1113 | DeleteSema keeps every thread id in exactly the place its state says |
| SchedCalls.SignalInv | src/runtime/ee/sched.cpp:1115-1157 | SignalSema keeps every thread id in exactly the place its state says |
| SchedCalls.WaitSemaInv | src/runtime/ee/sched.cpp:1159-1169 | WaitSema keeps every thread id in exactly the place its state says |
| SchedCalls.CallKeepsPlacement | src/runtime/ee/sched.cpp:192-271 | every disciplined call keeps placement: an id is in ready[p] exactly once iff it is Ready at priority p, in a live semaphore's waiters exactly once iff it waits on it, on the CPU iff it is Run, and never in two places |
| SchedAccounts.DrainBalanced | src/runtime/ee/sched.cpp:1104-1109 | deleting a semaphore keeps both accounts |
| SchedAccounts.CallKeepsAccounts | src/runtime/ee/sched.cpp:1069-1179 | every call keeps initial count + accepted signals = count + tokens taken, no waiters while there are tokens, count at most max(init, max), and sent wakeups = banked + consumed + cancelled; none enters or leaves interrupt context or puts another thread on the CPU |
| SchedAccounts.CallKeepsEie | src/runtime/ee/sched.cpp:91-100 | no call touches the interrupt enable saved for an existing thread |
| SchedAccounts.HandlerKeepsCurrent | src/runtime/ee/sched.cpp:240-255 | a handler that keeps the discipline leaves the interrupted thread on the CPU |
| SchedAccounts.TokenAnswers | src/runtime/ee/sched.cpp:1115-1179 | what WaitSema, PollSema and SignalSema answer says exactly whether a token moved |
| SchedAccounts.PreemptMakesSafe | src/runtime/ee/sched.cpp:537-549 | after the preemption check no ready thread is better than the running one |
| SchedAccounts.CallKeepsPriority | src/runtime/ee/sched.cpp:847-1157 | every disciplined call leaves no ready thread better than the running one |
| SchedAccounts.DispatchOk | src/runtime/ee/sched.cpp:561-568 | dispatch takes the head of the best non-empty queue, keeps placement, and no ready thread is better |
| SchedAccounts.ReapOk | src/runtime/ee/sched.cpp:602-609 | reaping a dormant thread keeps placement and both accounts |
| SchedAccounts.PreemptedGoesFirst | src/runtime/ee/sched.cpp:537-549 | a preempted thread is at the head of its queue and the next of its priority to run |
| SchedAccounts.RotatedGoesLast | src/runtime/ee/sched.cpp:883-929 | a thread that rotates or re-prioritizes itself goes behind its peers |
| SchedAccounts.HandOffIsFifo | src/runtime/ee/sched.cpp:1147-1152 | a token signalled while threads wait goes to the one that has waited longest, whose wait answers the semaphore id; the others keep their order and the count does not move |
| SchedAccounts.WaitQueuesLast | src/runtime/ee/sched.cpp:1167-1168 | a thread that must wait waits behind those already waiting |
| SchedAccounts.LeavingKeepsOrder | src/runtime/ee/sched.cpp:865-881 | terminating or releasing a thread leaves everyone else's place in line alone |
| SchedKernel.Scheduler.TGet | src/runtime/ee/sched.cpp:178-184 | in place on the source's tables: thread lookup by id, with its refusals; the whole new state is that of the call proved about above |
| SchedKernel.Scheduler.ReadyPushBack | src/runtime/ee/sched.cpp:192-195 | in place on the source's tables: tail of the ready queue; the whole new state is that of the call proved about above |
| SchedKernel.Scheduler.ReadyPushFront | src/runtime/ee/sched.cpp:197-200 | in place on the source's tables: head of the ready queue; the whole new state is that of the call proved about above |
| SchedKernel.Scheduler.Erase | src/runtime/ee/sched.cpp:202-207 | in place on the source's tables: the erase loop removes the first occurrence; the whole new state is that of the call proved about above |
| SchedKernel.Scheduler.BestReadyPrio | src/runtime/ee/sched.cpp:209-214 | in place on the source's tables: the scan of the 128 queues finds the best ready priority; the whole new state is that of the call proved about above |
| SchedKernel.Scheduler.Wake | src/runtime/ee/sched.cpp:260-271 | in place on the source's tables: unblock; the whole new state is that of the call proved about above |
| SchedKernel.Scheduler.Preempt | src/runtime/ee/sched.cpp:537-549 | in place on the source's tables: the preemption check; the whole new state is that of the call proved about above |
| SchedKernel.Scheduler.Create | src/runtime/ee/sched.cpp:794-837 | in place on the source's tables: the free-slot loop and the fresh thread; the whole new state is that of the call proved about above |
| SchedKernel.Scheduler.Delete | src/runtime/ee/sched.cpp:839-845 | in place on the source's tables: DeleteThread; the whole new state is that of the call proved about above |
| SchedKernel.Scheduler.Start | src/runtime/ee/sched.cpp:847-854 | in place on the source's tables: StartThread; the whole new state is that of the call proved about above |
| SchedKernel.Scheduler.ExitCurrent | src/runtime/ee/sched.cpp:856-863 | in place on the source's tables: ExitThread; the whole new state is that of the call proved about above |
| SchedKernel.Scheduler.Terminate | src/runtime/ee/sched.cpp:865-881 | in place on the source's tables: TerminateThread; the whole new state is that of the call proved about above |
| SchedKernel.Scheduler.SetPriority | src/runtime/ee/sched.cpp:883-914 | in place on the source's tables: ChangeThreadPriority; the whole new state is that of the call proved about above |
| SchedKernel.Scheduler.Rotate | src/runtime/ee/sched.cpp:916-929 | in place on the source's tables: RotateThreadReadyQueue; the whole new state is that of the call proved about above |
| SchedKernel.Scheduler.Sleep | src/runtime/ee/sched.cpp:963-971 | in place on the source's tables: SleepThread; the whole new state is that of the call proved about above |
| SchedKernel.Scheduler.Wakeup | src/runtime/ee/sched.cpp:973-983 | in place on the source's tables: WakeupThread; the whole new state is that of the call proved about above |
| SchedKernel.Scheduler.Cancel | src/runtime/ee/sched.cpp:985-991 | in place on the source's tables: CancelWakeupThread; the whole new state is that of the call proved about above |
| SchedKernel.Scheduler.SuspendById | src/runtime/ee/sched.cpp:993-1011 | in place on the source's tables: SuspendThread; the whole new state is that of the call proved about above |
| SchedKernel.Scheduler.ResumeById | src/runtime/ee/sched.cpp:1013-1026 | in place on the source's tables: ResumeThread; the whole new state is that of the call proved about above |
| SchedKernel.Scheduler.Release | src/runtime/ee/sched.cpp:1035-1049 | in place on the source's tables: ReleaseWaitThread; the whole new state is that of the call proved about above |
| SchedKernel.Scheduler.SemaCreate | src/runtime/ee/sched.cpp:1069-1099 | in place on the source's tables: the dead-slot loop; init is not compared with max; the whole new state is that of the call proved about above |
| SchedKernel.Scheduler.SemaDelete | src/runtime/ee/sched.cpp:1101-1113 | in place on the source's tables: the drain loop; the whole new state is that of the call proved about above |
| SchedKernel.Scheduler.SemaSignal | src/runtime/ee/sched.cpp:1115-1157 | in place on the source's tables: SignalSema, with the refusal at the ceiling; the whole new state is that of the call proved about above |
| SchedKernel.Scheduler.SemaWait | src/runtime/ee/sched.cpp:1159-1169 | in place on the source's tables: WaitSema up to giving up the CPU; the whole new state is that of the call proved about above |
| SchedKernel.Scheduler.SemaPoll | src/runtime/ee/sched.cpp:1171-1179 | in place on the source's tables: PollSema; the whole new state is that of the call proved about above |
| SchedKernel.Scheduler.SwitchIn | src/runtime/ee/sched.cpp:561-568 | in place on the source's tables: the head of the best queue goes on the CPU; the whole new state is that of the call proved about above |
| SchedKernel.Scheduler.ReapDormant | src/runtime/ee/sched.cpp:602-609 | in place on the source's tables: the reap; the whole new state is that of the call proved about above |
| SchedEffects.PreemptsIff | src/runtime/ee/sched.cpp:537-549 | the check preempts if and only if thread code runs outside a handler and a better thread is ready |
| SchedEffects.CreateEffect | src/runtime/ee/sched.cpp:794-837 | -1 exactly when the priority is out of range or no slot from 2 up is free, and then nothing changes; else the first free slot becomes a dormant thread of that priority with interrupts on |
| SchedEffects.DeleteEffect | src/runtime/ee/sched.cpp:839-845 | succeeds exactly on a dormant thread other than the caller, and frees only its slot |
| SchedEffects.CreateThenDelete | src/runtime/ee/sched.cpp:794-845 | deleting a created thread leaves its id to the next one created and nothing else behind |
| SchedEffects.StartEffect | src/runtime/ee/sched.cpp:847-854 | a dormant thread joins the tail of its queue before the preemption check; any other is refused and nothing changes |
| SchedEffects.ExitEffect | src/runtime/ee/sched.cpp:856-863 | the caller is off the CPU, dormant and in no queue; the scheduler frees its slot exactly if it asked for it |
| SchedEffects.TerminateEffect | src/runtime/ee/sched.cpp:865-881 | the target is dormant and in no queue, no other thread changes; itself, dormant and unknown threads are refused and nothing changes |
| SchedEffects.ChangePriorityEffect | src/runtime/ee/sched.cpp:883-914 | answers the old priority; a ready thread leaves its queue and goes to the tail of the new one, a thread changing its own does so and gives up the CPU, any other stays where it is; every other queue position stands; bad ids and priorities change nothing |
| SchedEffects.RotateEffect | src/runtime/ee/sched.cpp:916-929 | the caller rotating its own queue goes to its tail and gives up the CPU; otherwise the head goes to the tail and nothing else moves; a bad priority changes nothing |
| SchedEffects.RotateRound | src/runtime/ee/sched.cpp:916-929 | a queue of n threads rotated n times is as it was |
| SchedEffects.SleepEffect | src/runtime/ee/sched.cpp:963-971 | a banked wakeup is consumed and the caller goes on running; otherwise it is off the CPU, asleep and in no queue |
| SchedEffects.WakeupEffect | src/runtime/ee/sched.cpp:973-983 | a sleeping thread becomes ready (suspended, if it was) and nothing is banked; any other banks exactly one wakeup and stays where it is |
| SchedEffects.CancelEffect | src/runtime/ee/sched.cpp:985-991 | answers the banked wakeups and empties the bank, moving nobody |
| SchedEffects.CancelAnswersAll | src/runtime/ee/sched.cpp:973-991 | cancelling answers every wakeup sent to a thread that was not asleep: none is lost |
| SchedEffects.SuspendResumeEffect | src/runtime/ee/sched.cpp:993-1026 | resuming undoes suspending for a waiting thread; a ready one is in no queue meanwhile and comes back at the tail of its queue; both refusals change nothing |
| SchedEffects.SuspendSelfEffect | src/runtime/ee/sched.cpp:993-1000 | a thread that suspends itself is off the CPU and in no queue |
| SchedEffects.ReleaseEffect | src/runtime/ee/sched.cpp:1035-1049 | a waiting thread's wait answers -1 and it leaves every line; a thread that waits for nothing is refused and nothing changes |
| SchedEffects.CreateSemaEffect | src/runtime/ee/sched.cpp:1069-1099 | the dead slot taken holds the two given counts, unchecked, and no waiters; -1 exactly when all are alive |
| SchedEffects.PollsUntilEmpty | src/runtime/ee/sched.cpp:1171-1179 | polling gives out exactly the tokens there are, one by one, then answers that there are none |
| SchedEffects.DrainOneEffect | src/runtime/ee/sched.cpp:1104-1109 | one turn of the drain loop fails the oldest waiter's wait, queues it if it is not suspended, and touches nobody else |
| SchedEffects.DrainEvicts | src/runtime/ee/sched.cpp:1104-1109 | the whole loop fails every waiter's wait with -1 and changes no other thread or semaphore |
| SchedEffects.DrainQueues | src/runtime/ee/sched.cpp:1104-1109 | and each ready queue gains the waiters of its priority that were not suspended, oldest first |
| SchedEffects.DeleteSemaEffect | src/runtime/ee/sched.cpp:1101-1113 | so a deleted semaphore is dead with no waiters, and all of that holds before the preemption check; a dead id is refused |
| MachineRuns.BootGood | src/runtime/ee/sched.cpp:634-653 | the boot state satisfies every invariant and has nothing pending |
| MachineRuns.LeaveGood | src/runtime/ee/sched.cpp:585-609 | saving the interrupt enable, turning interrupts on (which may deliver) and reaping keep every invariant |
| MachineRuns.FinishGood | src/runtime/ee/intc.cpp:312-313 | leaving interrupt context with the preemption check keeps every invariant, whomever the delivery interrupted |
| MachineRuns.ReschedGood | src/runtime/ee/sched.cpp:561-576 | a dispatch, with the delivery its interrupt enable may start, keeps every invariant |
| MachineRuns.StepGood | src/runtime/ee/sched.cpp:551-632 | every step of thread code, delivery, handler code or scheduler keeps every invariant |
| MachineRuns.RunGood | src/runtime/ee/sched.cpp:551-632 | so every state of every run has them: placement, tokens, wakeups, priority order, interrupt context exactly in handlers, scheduler code with interrupts on |
| MachineRuns.FromBoot | src/runtime/ee/sched.cpp:551-632 | from boot, in every state: no ready thread is better than running thread code, both accounts balance, nobody sleeps with a wakeup banked |
| MachineRuns.EieIsPerThread | src/runtime/ee/sched.cpp:576-585 | in every run a thread gets the CPU back with the interrupt enable it had when it left, however it left and whatever ran meanwhile |
| MachineRuns.StepKeepsEie | src/runtime/ee/sched.cpp:585 | no step by others touches the saved interrupt enable |
| MachineRuns.NoStrayYield | src/runtime/ee/sched.cpp:229-235 | if every delivery started with nothing on the CPU ends quiescent, none ever starts at switch-in and a yield outside a coroutine is never reached |
| MachineRuns.StrayYieldIff | src/runtime/ee/sched.cpp:537-549 | if one does start there, the run dies if and only if its handlers leave a better thread ready |
| Intc.Do | src/runtime/ee/intc.cpp:165-168 | an action and the delivery it may be a point for; the interrupt flag comes back as it was |
| Intc.Passes | src/runtime/ee/intc.cpp:276-297 | the interrupt flag stays up throughout the passes |
| IntcDelivery.HandlersDoNotNest | src/runtime/ee/intc.cpp:267 | inside a handler a delivery point does nothing |
| IntcDelivery.PlainAccounted | src/runtime/ee/intc.cpp:327-337 | raises, register writes, masks and alarm calls account for every line event and dispatch nothing |
| IntcDelivery.RegisterBits | src/runtime/ee/intc.cpp:327-337 | bit by bit: I_STAT and the low half of D_STAT clear where a 1 is written, I_MASK toggles its 15 bits, bits 16 to 25 of D_STAT toggle the ten channel masks |
| IntcDelivery.AckCount | src/runtime/ee/intc.cpp:329-334 | a write of ones takes down exactly the lines that were up |
| IntcDelivery.DispatchAccounted | src/runtime/ee/intc.cpp:281-284 | a dispatch runs one line's handlers, counts once, and nothing else is dispatched meanwhile |
| IntcDelivery.PassAccounted | src/runtime/ee/intc.cpp:277-297 | one pass dispatches every cause and channel that was pending when it began exactly once, no other, an alarm at most once, and something if anything was pending |
| IntcDelivery.PassesAre | src/runtime/ee/intc.cpp:276-297 | the pass loop is so many passes, at most 64, each begun with something pending, and it stops short of 64 only with nothing pending |
| IntcDelivery.DeliveryEnds | src/runtime/ee/intc.cpp:266-313 | a delivery does nothing in a handler, with interrupts off or nothing pending; otherwise it ends quiescent or after 64 passes that each served something |
| IntcDelivery.NothingLostOrRepeated | src/runtime/ee/intc.cpp:258-313 | over every run and any handlers: the times a line went up = the dispatches that took it down + the acknowledgements that did + whether it is up |
| IntcDelivery.ReraiseStaysPending | src/runtime/ee/intc.cpp:282-284 | a line raised again during its own service and not acknowledged is pending after the pass |
| IntcDelivery.StaleIff | src/runtime/ee/intc.cpp:277-286 | the dispatch of a cause pending at the start of a pass finds it already down if and only if, of what the handlers dispatched before it in the pass do, the last thing that touches the line is an acknowledgement |
| IntcDelivery.ChannelStaleIff | src/runtime/ee/intc.cpp:287-292 | the same for a DMAC channel, after all the causes |
| IntcDelivery.StaleByCounts | src/runtime/ee/intc.cpp:277-286 | counted: exactly when it was acknowledged more often than raised before its turn |
| IntcDelivery.AcknowledgedYetDispatched | src/runtime/ee/intc.cpp:277-286 | and that happens: VB_OFF cleared by the VB_ON handler of the same pass is dispatched all the same |
| IntcDevice.Controller.RaiseCause | src/runtime/ee/intc.cpp:258-260 | in place: I_STAT raise, out of range ignored |
| IntcDevice.Controller.RaiseChannel | src/runtime/ee/intc.cpp:262-264 | in place: D_STAT raise |
| IntcDevice.Controller.MmioWrite | src/runtime/ee/intc.cpp:327-337 | in place: I_STAT and D_STAT write-1-clear, I_MASK and D_STAT mask toggles with their bit ranges |
| IntcDevice.Controller.Mask | src/runtime/ee/intc.cpp:206-256 | in place: the four enable and disable calls and what they answer |
| IntcDevice.Controller.Perform | src/runtime/ee/intc.cpp:165-168 | in place: any action, delivering where the source does |
| IntcDevice.Controller.DispatchLine | src/runtime/ee/intc.cpp:282-284 | in place: status bit down, then the handlers |
| IntcDevice.Controller.DispatchAlarms | src/runtime/ee/alarms.cpp:281-305 | in place: the alarm dispatch loop |
| IntcDevice.Controller.OnePass | src/runtime/ee/intc.cpp:277-297 | in place: the snapshot and the three loops |
| IntcDevice.Controller.DeliverPending | src/runtime/ee/intc.cpp:266-312 | in place: the guard, the 64-pass loop, and the flag |
| VuLanes.InLane | include/recomp_ops.h:989-1004 | the branch-free input sanitizer equals rc_vu_in on every bit pattern |
| VuLanes.FlagLane | include/recomp_ops.h:1012-1028 | one lane of the branch-free clamp and flag code equals rc_vu_flagres |
| VuLanes.KeyInvolution | include/recomp_ops.h:1113-1122 | the sign-magnitude key is a bijection |
| VuLanes.KeyOrders | include/recomp_ops.h:509-521 | one signed comparison of keys orders words exactly as rc_vu_maxbits and rc_vu_minbits do |
| VuLanes.Gather | include/recomp_ops.h:968-970 | reversing and masking a movemask adds each selected lane's flag at that lane's bit |
| VuLanes.FlagsGather | include/recomp_ops.h:1029-1035 | the four mac nibbles are the ones the scalar loop accumulates |
| VuLanes.BlendIsMerge | include/recomp_ops.h:1058-1070 | the vector masked write keeps the lanes the mask does not select |
| VuLanes.FmacVectorIsScalar | include/recomp_ops.h:1072-1096 | the SSE2 FMAC gives the scalar loop's lanes and mac nibbles for every kind, operands, accumulator, mask, prior mac word and host arithmetic |
| VuLanes.MaxMinVectorIsScalar | include/recomp_ops.h:1124-1136 | the SSE2 max and min give the scalar lanes on every bit pattern |
| VuMac.ScalarPacks | include/recomp_ops.h:384-398 | the scalar body's shifted constants set exactly the lane's bits of the packed mac word |
| VuMac.VectorPacks | include/recomp_ops.h:1029-1035 | reversing, masking and shifting the movemasks packs exactly the word of those nibbles |
| VuMac.PackedIsMac | include/recomp_ops.h:312-316 | the packed word has each nibble in its place: nothing is lost by packing |
| VuRegs.Vu1.FmacScalar | include/recomp_ops.h:835-861 | the scalar lane loop computes the FMAC lanes and mac word |
| VuRegs.Vu1.Fmac | include/recomp_ops.h:1072-1096 | the SSE2 form computes the same |
| VuRegs.Vu1.WriteScalar | include/recomp_ops.h:825-830 | the masked write loop; vf00 is never written |
| VuRegs.Vu1.Write | include/recomp_ops.h:1058-1070 | the SSE2 masked write has the same effect |
| VuRegs.Vu1.CommitAccScalar | include/recomp_ops.h:869-875 | the masked ACC loop |
| VuRegs.Vu1.CommitAcc | include/recomp_ops.h:1104-1111 | the SSE2 ACC commit has the same effect |
| VuRegs.Vu1.MaxMinScalar | include/recomp_ops.h:878-888 | the max/min lane loop |
| VuRegs.Vu1.MaxMin | include/recomp_ops.h:1124-1136 | the SSE2 form computes the same |
| VuRegs.Vu1.AbsScalar | include/recomp_ops.h:890-896 | the absolute-value lane loop |
| VuRegs.Vu1.Abs | include/recomp_ops.h:1138-1143 | the SSE2 form computes the same |
| Unaligned.LoadLeftBytes | include/recomp_ops.h:165-170 | lwl and ldl put the bytes from the aligned base up to the address at the top of the register and keep the rest |
| Unaligned.LoadRightBytes | include/recomp_ops.h:171-178 | lwr and ldr put the bytes from the address to the end of the aligned word at the bottom and keep the rest |
| Unaligned.StoreLeftBytes | include/recomp_ops.h:192-197 | swl and sdl store the register's top bytes up to the address |
| Unaligned.StoreRightBytes | include/recomp_ops.h:198-203 | swr and sdr store its bottom bytes from the address up |
| Unaligned.LoadPair | include/recomp_ops.h:165-191 | the two halves of an unaligned load, in either order, merge to the bytes at the address, for four and eight bytes |
| Unaligned.LwIsUnaligned | include/recomp_ops.h:165-178 | lwl(a+3) with lwr(a), in either order and from any prior register, gives the sign-extended little-endian word at a |
| Unaligned.LdIsUnaligned | include/recomp_ops.h:179-191 | ldl(a+7) with ldr(a), in either order, gives the eight bytes at a |
| Unaligned.StorePair | include/recomp_ops.h:192-215 | the store pairs, in either order, write exactly the register's bytes at a and nothing else |
| Unaligned.LoadAfterStore | include/recomp_ops.h:165-215 | an unaligned load after an unaligned store returns what was stored |
| UnalignedWords.LoadPair32 | include/recomp_ops.h:165-178 | with the source's own masks and shifts, on all words and registers: the load pair gives, in either order, the word that lies across the two aligned ones |
| UnalignedWords.LoadPairReg | include/recomp_ops.h:165-178 | and the 64-bit register ends up with its sign extension |
| UnalignedWords.StorePair32 | include/recomp_ops.h:192-203 | the store pair puts the word there and leaves the rest of both aligned words |
| UnalignedWords.LoadPair64 | include/recomp_ops.h:179-191 | the same for ldl and ldr |
| UnalignedWords.StorePair64 | include/recomp_ops.h:204-215 | and for sdl and sdr |
| UnalignedWords.AcrossBytes | include/recomp_ops.h:158-164 | what lies across two little-endian words is the word memory holds there, at every offset |
| Unaligned.StoreWordLeft | include/recomp_ops.h:192-197 | swl and sdl in place |
| Unaligned.StoreWordRight | include/recomp_ops.h:198-203 | swr and sdr in place |
| Sha1Spec.ZeroBytesIsLeast | src/runtime/sha1.cpp:63-66 | the padding of FIPS 180-4 section 5.1.1: as few zero bytes as bring the length to 56 modulo 64 |
| Sha1Spec.PadWhole | src/runtime/sha1.cpp:63-70 | padding makes whole blocks |
| Sha1Spec.OneMoreBlock | src/runtime/sha1.cpp:54-57 | blocks are absorbed in order (section 6.1.2) |
| Sha1.RolIsRotl | src/runtime/sha1.cpp:19 | rol32 by 1, 5 and 30 is ROTL |
| Sha1.MixIsF | src/runtime/sha1.cpp:34-37 | the round functions written with inclusive or are Ch, Parity and Maj |
| Sha1.Grow | src/runtime/sha1.cpp:48-51 | buffering a piece that does not fill the block keeps the stream state |
| Sha1.Fill | src/runtime/sha1.cpp:54-57 | hashing a filled buffer is absorbing one more block |
| Sha1.Sha1State.Schedule | src/runtime/sha1.cpp:22-29 | the two loops compute the message schedule |
| Sha1.Sha1State.RunRounds | src/runtime/sha1.cpp:31-41 | the 80-round loop computes the specification's rounds |
| Sha1.Sha1State.Block | src/runtime/sha1.cpp:21-43 | sha1_block is the compression function |
| Sha1.Sha1State.Update | src/runtime/sha1.cpp:45-59 | after any updates the state is that of their concatenation |
| Sha1.Sha1State.PadToLength | src/runtime/sha1.cpp:63-66 | the padding loop ends from every buffer fill with the least padding |
| Sha1.Sha1State.Final | src/runtime/sha1.cpp:61-82 | for messages under 2^61 bytes the digest is the FIPS 180-4 one |
| Sha1.HashBuffer | src/runtime/sha1.cpp:106-110 | hashing a buffer gives the digest of its bytes |
| Sha1.HashFile | src/runtime/sha1.cpp:86-104 | hashing a file gives the digest of its bytes however the reads cut it, so the same as hashing it as a buffer |
| LogRing.PushQueues | src/runtime/log.cpp:404-414 | a line that finds room joins the queue at its end, in whatever ring position |
| LogRing.HeadSlot | src/runtime/log.cpp:404-405 | the slot filled next is the one after the last used, and no used slot |
| LogRing.StepKept | src/runtime/log.cpp:299-418 | every step of producers, writer, exit and sweep keeps the accounts |
| LogRing.RunKept | src/runtime/log.cpp:299-418 | so every state of every interleaving has them |
| LogRing.Accounting | src/runtime/log.cpp:299-418 | written lines, then the writer's batch, then the queue are the accepted lines in order, with no loss or duplicate; offered = accepted + noted, about to be noted and newly dropped |
| LogRing.AccountingFromBoot | src/runtime/log.cpp:299-418 | so in every state of every interleaving from start-up; and when the queue is empty and the writer idle, every accepted line is written |
| LogRing.IdleMeansWritten | src/runtime/log.cpp:295-296 | the predicate the drain waits for means every accepted line is in the file |
| LogRing.SweepEmpties | src/runtime/log.cpp:371-380 | the exit sweep empties the ring and leaves every accepted line written |
| LogRing.NotePrecedesItsBatch | src/runtime/log.cpp:310-338 | a batch carrying drops is exactly a full ring of 511 lines, and every dropped line was offered after all of them: the note precedes the batch though the gap follows it |
| LogRing.SweepNotesNothing | src/runtime/log.cpp:371-380 | lines dropped after the last drain are written about nowhere |
| LogDevice.LogQueue.WriteNow | src/runtime/log.cpp:272-275 | in place: one entry to the file and, if meant for it, the console |
| LogDevice.LogQueue.Enqueue | src/runtime/log.cpp:387-418 | in place: the producer's critical section, with truncation and drop |
| LogDevice.LogQueue.TakeAll | src/runtime/log.cpp:308-315 | in place: the drain loop takes every queued line in order and the console's subset |
| LogDevice.LogQueue.DrainQueue | src/runtime/log.cpp:305-320 | in place: the writer's critical section |
| LogDevice.LogQueue.WriteOut | src/runtime/log.cpp:321-346 | in place: the note, the batch, the echo |
| LogDevice.LogQueue.ReleaseBatch | src/runtime/log.cpp:347-352 | in place: the writer is idle again, or ends |
| LogDevice.LogQueue.SweepQueue | src/runtime/log.cpp:373-380 | in place: the exit sweep loop |
| LogDevice.LogQueue.Idle | src/runtime/log.cpp:295-296 | in place: a true answer means every accepted line is in the file |
| GuestPages.FiveAliases | src/runtime/mem.cpp:87-91 | every RAM byte is at the same offset of all five prefixes |
| GuestPages.AliasesShareBytes | src/runtime/mem.cpp:87-91 | bytes written through one prefix are read back through every other |
| GuestPages.RamIsSimple | src/runtime/mem.cpp:70-75 | a range inside one prefix is mapped and meets no byte twice |
| GuestPages.WriteMeans | src/runtime/loader.cpp:96-107 | writing a mapped range puts every byte in place and changes no other guest byte |
| GuestPages.WriteFailsIff | src/runtime/loader.cpp:99-101 | the write fails if and only if some byte of the range is unmapped |
| GuestPages.SegmentInPlace | src/runtime/loader.cpp:582-594 | after a PT_LOAD, whatever its two sizes and, with no file bytes, whatever its offset, its file bytes and its zeroed tail are in place and no other byte changed |
| GuestPages.AllInPlace | src/runtime/loader.cpp:573-596 | segments that share no byte all end up in place |
| GuestPages.CopyIsWrite | src/runtime/ee/syscalls.cpp:214-232 | on physically disjoint ranges a copy writes what the source held |
| GuestPages.CopyMeans | src/runtime/ee/syscalls.cpp:214-232 | the destination ends up with the source's bytes and nothing else changes |
| GuestPages.InPage | src/runtime/loader.cpp:102-104 | inside one page consecutive guest bytes are consecutive host bytes |
| GuestPages.Memory.constructor | src/runtime/mem.cpp:79-94 | builds exactly that page table |
| GuestPages.Memory.MapRamPrefix | src/runtime/mem.cpp:70-75 | the mapping loop changes exactly its 512 entries |
| GuestPages.Memory.WriteGuest | src/runtime/loader.cpp:96-107 | the page-chunked write is the flat byte-by-byte write, and stops at the same unmapped address |
| GuestPages.Memory.ZeroGuest | src/runtime/loader.cpp:109-120 | the page-chunked clear is the flat write of zeros |
| GuestPages.Memory.LoadElf | src/runtime/loader.cpp:573-596 | the segment loop, with both ways it fails |
| GuestPages.Memory.Copy | src/runtime/ee/syscalls.cpp:214-232 | the two-offset chunk loop terminates and is the flat byte copy |

## Left out

- DMAC, VIF, GIF and IPU internals: only raised lines. Of SIF, what the packets say, the services that build
  them, and the fatal error of a reply due before the EE registered its receive buffer; only when replies go
  out and whether the buffer is free is modelled. The pad's input polling.
- Host coroutines, thread stacks and entry points, the wake-history ring, the inventory and the Refer calls:
  none bears on the properties.
- Fatal errors other than a yield outside a coroutine (deadlock, unmapped addresses, missing translations,
  blocking from a handler) and the process-exit paths: the discipline or a result value stands for them.
- Handlers that leave interrupts off, and thread code that uses the i-variants: outside the calling discipline.
- The SetVSyncFlag write at a field edge, the GS CSR and IMR shadow, and the backend's vsync hook: they do
  not feed back into the timeline.
- Handler tables (AddIntcHandler, RemoveIntcHandler and the DMAC pair): a line's handlers are arbitrary code.
- Alarm handler entry resolution, and the H-blank tick count an alarm handler is passed.
- The decoding of MMIO addresses to timer numbers.
- 64-bit wrap-around of virtual time and 32-bit overflow of wakeup, signal and semaphore counts: unbounded
  integers below the horizon.
- A semaphore id left in a thread that no longer waits: nothing reads it.
- IEEE rounding, ftoi, itof, clip, the divide unit, and the status word a FMAC commit derives from mac.
- The thread that fills the log queue being interrupted while it holds the queue's lock, the 500 ms bound on
  waiting for the writer, and rotation and file naming: `LogDevice.LogQueue.Idle` is the predicate waited for.
- ELF header reading, the file's own checks, and the error for a file with no PT_LOAD segment.
- GuestPages.Memory.Copy: asks for physically disjoint ranges, because the source calls memcpy, whose result
  on overlapping ones is undefined.
- Unaligned.LoadPair: MMIO pages are not modelled, both words of a pair are memory.
- DECI2, the OSD word, named registers, log levels and the GS backends.
