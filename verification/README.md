# ulmk kernel verification

A Dafny model of the parts of the ulmk microkernel whose correctness is hardest to see
from the code, with proofs. `dafny verify dfyconfig.toml` checks the whole project.

| files | what they model |
|---|---|
| `Sequences.dfy` | options and the lists without repetitions that stand for intrusive lists |
| `XCall.dfy` | cross-CPU calls: one request slot per CPU, requests on the caller's stack, serving while waiting |
| `Settle.dfy` | shootdown of protection windows and deferred freeing of revoked memory, over any interleaving on any number of CPUs |
| `Shootdown.dfy` | the two together: shootdowns made by cross-CPU calls |
| `AreaForest.dfy`, `AreaOps.dfy` | the derivation forest of memory areas: insert, revoke, release, inherit and the memory calls |
| `Backing.dfy` | backing blocks from the records that hold them to the heap: the forest joined with drops and settles |
| `Powers.dfy`, `TlsfClasses.dfy`, `TlsfLayout.dfy`, `TlsfHeap.dfy` | the TLSF heap: size classes, physical layout, bitmaps, free lists, aligned carve |
| `Sv32Table.dfy`, `Sv32Static.dfy`, `Sv32.dfy`, `Sv32Runs.dfy` | the Sv32 page tables of a hart with the hardware walk and the TLB, over any sequence of switches, loads and flushes |
| `TimerMath.dfy`, `TimerWheel.dfy` | the non-cascading timing wheel, with callbacks that arm and cancel timers |
| `IpcState.dfy`, `IpcJobs.dfy`, `IpcBoxes.dfy`, `IpcLedger.dfy`, `IpcWorld.dfy`, `Ipc.dfy`, `IpcRuns.dfy` | endpoint rendezvous, timeouts, destruction, kills and notifications, over any interleaving of their steps |
| `Bitmap32.dfy`, `RunQueue.dfy`, `Sched.dfy` | the bitmap run queue, the sorted list it stands for, and the trap-exit dispatch |
| `Windows.dfy`, `Regions.dfy` | the windows of an area, NAPOT entries and the slots they are faulted into, and ARMv7-M regions with subregions |

## How the code is represented

- Every section the source runs under one lock is one step or one method. Where several
  CPUs interleave (`XCall`, `Settle`, `Shootdown`) the steps form a transition system and
  the results are about every run of it; elsewhere an object's methods keep an invariant
  `Valid()`.
- Not every IPC operation runs under the IPC lock. Destroying an endpoint drops it between
  popping a thread and waking it (kernel/ipc/ep.c:688-706). Polling and destroying a
  notification take no lock (kernel/notif/notif.c:347-389), and neither does a kill
  (kernel/thread/thread.c:362-423). `ep_reply_recv` and `ep_recv_or_notif` look their objects
  up before they take it (kernel/ipc/ep.c:543-545, 596-602). `Ipc` cuts these operations
  into steps; what an unfinished one remembers is a job, and `Ipc.Kernel.Drive` interleaves
  the steps of any number of them. The operation in one piece (`EpDestroy`, `NotifPoll`,
  `NotifDestroy`, `Kill`, `ReplyRecv`, `RecvOrNotif`) is the run of its steps with nothing
  in between.
- An intrusive list is the sequence of its elements, and what an element's own links say
  is a separate field (`at`, `link`, `on`, `holder`); the invariants make the two agree.
- A bitmap word is a set of bit numbers, except in `Bitmap32`, where it is a 32-bit word.
- A page-table entry is a record of its fields and a page-aligned address its page number.
- Widths that matter are written out: the 16-bit count of an area set, the 32-bit
  rounding of requests, regions, windows and pins, the 32-bit comparison of `log2_cover`.
  The 64-bit tick counter of the timing wheel is unbounded, which `TimerMath.ClockWraps`
  shows to make no difference.
- Memory allocation that can fail, the moments timers expire and what callbacks do are
  parameters, so the results hold for all of them.

## Where the code does not meet the property one would expect

Each of these has an exact condition, and a concrete input or run that shows the failure.

- **Freeing under overlapping drops** (`Settle`). A block can be handed back to the heap
  while another CPU still has a live window over it. Thread 0 maps a block and grants it
  to thread 1, which grants it on to thread 2, each on its own CPU; thread 2 touches it.
  Thread 1 revokes thread 2's area, and before its flush of CPU 2 runs, thread 0 unmaps:
  this second drop finds no area of thread 2 left, does not mark CPU 2, and frees the
  block without a flush there (`OverlappingDropsAreUnsafe`). Freeing is safe in every
  continuation exactly when, before the drop, every CPU that shows the block is on the
  dropping CPU's own list or runs a thread that loses an area in this drop
  (`SafeIffClean`). Any run whose drops all pass that test is safe, whatever else is
  pending (`CleanRunsAreSafe`). In terms of the area records the test is that every such CPU
  is on the list or runs a thread the revoke or release reports (`Backing.SafeIffReported`,
  `Backing.FreedIsDead`). A drop passes it if no window over the block is left from
  an earlier drop (`FreshIsClean`) or if no other shootdown is pending (`QuietIsClean`).
- **Timers that run early** (`TimerMath`). The comment at kernel/time/timer_wheel.c:60-63
  promises that a timer never runs before its time. A timer armed at tick 2 for 511 ticks
  runs at tick 8 (`EarlyExample`). It is never early exactly when its rounded expiry is
  within one turn of its level (`NeverEarlyIff`); that holds for every clock value exactly
  for the deltas of the first and the last level and for those up to 63 granules and one
  tick in the others (`SafeDeltas`). The model follows the code.
- **Replies to a call that was not received** (`Ipc`). A reply does not look at the
  caller's queue link; the invariants survive it exactly when the call was received
  (`Ipc.Kernel.Reply`). A call at an endpoint without receiver, replied to at once, leaves
  a running thread on the send queue (`ReplyTooEarly`).
- **Callers woken twice** (`Ipc`). Between popping a caller and waking it, a destroy holds
  no lock, and neither does a kill between choosing the caller and waking it. A timeout in
  between wakes the caller first, and then it is woken again (`WokenTwice`); a call it has
  made since is ended (`DestroyEndsOtherCall`). Over every run a call that is over woke its
  caller exactly once if and only if nothing else ended the call between a destroy or a
  kill choosing it and waking it (`IpcState.OnceIff`, `Ipc.Kernel.Drive`).
- **Threads killed before they are woken** (`Ipc`). A destroy or a kill that has popped or
  chosen a thread writes to its control block later without looking whether it was killed
  since, and freed (`WokenAfterKill`). The step does so if and only if the thread is gone by
  then (`Ipc.Kernel.DestroyWake`, `Ipc.Kernel.NotifWake`, `Ipc.Kernel.KillWake`); a kill
  leaves such a wake-up behind exactly when one was due for that thread
  (`Ipc.Kernel.KillBegin`), and in every run nothing else does (`Ipc.Kernel.Drive`).
- **Endpoints freed with a thread on a queue** (`Ipc`). Whoever looked an endpoint up before
  its destroy may join a queue after the last pop (`FreedUnderReceiver`). The invariants
  survive freeing exactly when both queues are empty (`Ipc.Kernel.DestroyFree`).
- **Polls beside other polls and signals** (`Ipc`). Two polls on two CPUs both take a bit
  that was raised once (`PollTwice`); a signal between the load and the store of a poll loses
  its bit (`PollDropsSignal`); a store can bring back a bit whose waiter then sleeps on it
  (`PollHidesBit`). A poll counts every bit once if and only if at its store the pending bits
  are those it has read, and the invariants survive exactly when the store brings back no
  bit the waiter sleeps on (`Ipc.Kernel.PollStore`).
- **Notifications destroyed without a lock** (`Ipc`). The waiter may have gone on to another
  queue when it is made ready (`ReadiedOnQueue`), and another thread may have begun to wait
  when the object is freed (`FreedUnderWaiter`). The exact conditions are those of
  `Ipc.Kernel.NotifWake` and `Ipc.Kernel.NotifFree`.
- **Two waiters at one notification** (`Ipc`). A wait does not look for an earlier waiter;
  blocking keeps the invariants exactly when there is none (`Ipc.Kernel.NotifWait`,
  `Ipc.Kernel.RecvOrNotif`), and otherwise forgets the first (`WaitTwice`).
- **Notification ids that outlive their wait** (`Ipc`). A signal leaves the id of a plain
  waiter set (kernel/notif/notif.c:140-159). The test at kernel/ipc/ep.c:132 and 202 keeps
  such an id from unregistering anybody (`IpcState.StaleIsHarmless`), but the lookup at
  kernel/ipc/ep.c:130 may be of a notification that was freed (`StaleId`). A destroy
  leaves a thread with the freed id if and only if some thread other than the waiter carried
  it (`Ipc.Kernel.NotifDestroy`). A call looks up a freed notification exactly when the
  first receiver carries such an id (`Ipc.LooksUpDead`); in every run that receiver was
  signalled in its last plain wait, or is in `ep_recv_or_notif` and about to be woken by the
  destroy (`Ipc.DeadLookup`).
- **Kills of a server** (`Ipc`). A kill wakes the thread the server last received from if
  that is in any call, received by this server or not; other clients it has received from
  and not answered stay blocked (`KillOutcome` says exactly which calls end). A client
  served long ago loses a call it made to another endpoint (`KillEndsOtherCall`). If the
  client meanwhile waits on a notification it stays registered there while it runs
  (`ReadiedWaiter`), and the invariants survive exactly otherwise (`Ipc.Kernel.KillWake`).
- **Dequeueing after a priority change** (`RunQueue`). The code clears the bit of the
  thread's present level; the bitmap stays right exactly when that is the level it was
  queued on or another thread stays there (`RunQueue.BitmapRq.Dequeue`, `TakeOther`).
  `ulmk_kern_thread_set_prio` dequeues a ready thread before it changes the priority
  (`Sched.Cpu.SetPrio`), but it reads the state without a lock (kernel/thread/thread.c:484):
  a blocked thread that another CPU makes ready between this test and the store at
  kernel/thread/thread.c:489 is queued on its old level with its new priority, and the next
  dequeue leaves that level's bit set (`DequeueMissesLevel`).
- **Rescheduling away from a running thread** (`Sched`). `ulmk_sched_resched` forgets a
  current thread that still runs, exactly when another is ready (`Sched.Cpu.Resched`).
  kernel/irq/irq.c:359 reschedules after killing the owner of an interrupt, while the current
  thread may be another one (`ReschedForgets`).
- **Heap requests beyond 0xE0000000 and pools that end before they begin** (`TlsfClasses`,
  `TlsfHeap`). A search is defined and looks for no less than was asked exactly up to that
  size (`SearchDefined`, `RequestDefined`); for 0xE0000001 bytes it looks for zero
  (`RequestExample`). What `ulmk_heap_init` sets up stays inside the pool exactly if the pool
  does not end before its aligned start (`PoolInside`); a pool of two bytes at address 1 gets
  a block of almost 4 GB (`PoolExample`).
- **Pins over static pages** (`Sv32`). Pinning overwrites a static page that has a table,
  and unpinning then removes it: the static map loses exactly the pages pinned
  (`Sv32.Hart.PinMap`, `Sv32.Hart.UserLayout`), after which an access to one faults
  (`PinOverStatic`).
- **Root entries in the TLB** (`Sv32`). A load that needs a new table writes a root entry
  and fences only the address. A TLB that keeps root entries on their own may hold a stale
  one exactly if an entry was set since the last fence of everything
  (`Sv32.Hart.StaleRoots`); through it an access faults and never sees anything else
  (`Sv32.Hart.SeesThroughCache`), but the load for that fault is refused (`FaultsAgain`).
- **The window [0, 8)** (`Windows`). A load takes it for one that is live while a slot is
  off, because both read as zero (`Windows.PmpSlots.Load`, `ZeroWindow`).
- **Regions across the middle, at the top and under 256 bytes** (`Regions`).
  `region_exact` accepts [0x70000000, 0x90000000) but grants only its lower half: what it
  programs is exact if and only if the range does not cross 0x80000000
  (`Regions.RegionExact`, `CrossingExample`). A smallest cover that ends at 2^32 is missed,
  because the sum there is 0 in 32 bits: [0xFFFFFF00, 0xFFFFFFE0) is refused although one
  256-byte region encodes it (`TopIff`, `TopExample`). With a smallest cover under 256 bytes
  only whole blocks are accepted, although any range of multiples of 32 is encodable:
  [0x20, 0x60) is refused (`SmallExample`).

## Assumptions

- Heap: the pool is smaller than 2^29 bytes (kernel/mem/tlsf.c:26); requests and pools are
  those for which the arithmetic is defined, as above.
- IPC: a thread that calls is running, and `ep_reply_recv` replies only to a received call.
  Threads are not suspended or resumed while blocked. An object is not freed between its
  lookup and the lock section that uses it, each wake-up is one step, and a killed thread
  makes no calls once its kill has begun.
- Shootdowns: all CPUs are online and the system calls run with interrupts off.
- The reference run queue is given threads that are not queued, as its callers do: inserting
  a linked node would corrupt the list.

## Model

| member | source | states |
|---|---|---|
| `XCall.NextKeepsInv` | kernel/sched/xcall.c:28-89 | each step of any CPU keeps the protocol invariant: a posted request is live and not done, every serving frame serves a waiting caller, older calls wait deeper |
| `XCall.NextKeepsTraces` | kernel/sched/xcall.c:28-89 | each step extends the history of the call it moves and of no other |
| `XCall.RunKeepsInv` | kernel/sched/xcall.c:28-89 | the invariant and the histories hold after every run |
| `XCall.ExactlyOnce` | kernel/sched/xcall.c:28-89 | over every run a call runs at most once, on its target (or in place), returns at most once, after that run and with its result; no finished or vanished request is ever touched |
| `XCall.RunsOnTarget` | kernel/sched/xcall.c:56-58 | in every run a call is run by the CPU it names if that is another one and online when the call is made, whoever else is, and by the caller otherwise |
| `XCall.ReturnsToCaller` | kernel/sched/xcall.c:49-89 | in every run a call is recorded with its caller and its target and returns to that caller |
| `XCall.ResultComesBack` | kernel/sched/xcall.c:40-46 | in every run the value a call returns is the one the function returned, wherever it ran |
| `XCall.PointersLive` | kernel/sched/xcall.c:28-47 | whatever a slot or a serving CPU points at is still on its caller's stack and not done |
| `XCall.YoungestTop` | kernel/sched/xcall.c:49-89 | among CPUs inside a call there is one whose innermost activation is the youngest |
| `XCall.NeverStuck` | kernel/sched/xcall.c:49-89 | any state that satisfies the invariant and has an unfinished call has an enabled step that advances one |
| `XCall.DeadlockFree` | kernel/sched/xcall.c:49-89 | no reachable state with an unfinished call is stuck, for any number of CPUs and any nesting |
| `XCall.StepWork` | kernel/sched/xcall.c:28-89 | each advancing step lowers the remaining work by one and a new call adds at most four |
| `XCall.BoundedWork` | kernel/sched/xcall.c:28-89 | k calls cost at most 4k advancing steps in all |
| `XCall.CallsComplete` | kernel/sched/xcall.c:49-89 | from every reachable state all calls made so far can complete without any new one |
| `XCall.CallCanComplete` | kernel/sched/xcall.c:49-89 | in every reachable state a CPU that is online and not waiting can call any CPU, and that call can be completed: run once, by the right CPU, and returned with the result |
| `Settle.NextKeepsInv` | kernel/mem/mem.c:40-123 | every step of mapping, granting, faulting, switching, dropping and settling keeps the invariant that a stale window is on somebody's pending shootdown |
| `Settle.RunKeepsInv` | kernel/mem/mem.c:40-123 | the same over every run |
| `Settle.NoNewWindow` | kernel/mem/mem.c:105-123 | nobody gains a window over a block that no area covers any more |
| `Settle.WindowsMove` | kernel/mem/mem.c:40-123 | exactly when a CPU gains a window, by the fault of a holder, and when it loses one, by an eviction, a switch to another user thread, a drop of its current thread or a flush |
| `Settle.ListsMove` | kernel/mem/mem.c:40-103 | exactly what is on a CPU's shootdown and retired lists: the other CPUs that run a thread which lost an area in a drop made here, and the blocks nobody holds after it, until a settle takes both over |
| `Settle.CanTouch` | kernel/mem/mem.c:105-123 | a running user thread can always come to reach a block it holds |
| `Settle.CanSwitch` | kernel/sched/sched.c:70-99 | a CPU can always switch to any of its threads, with the layout written before or after the current thread |
| `Settle.NextCovered` | kernel/mem/mem.c:78-103 | if the list a dead block waits on names every CPU that shows it, the next step keeps that so |
| `Settle.RunCovered` | kernel/mem/mem.c:78-103 | and then the block is only freed when no user thread reaches it, however settles nest |
| `Settle.CleanBeforehand` | kernel/mem/mem.c:40-53 | the test made before a drop and the shootdown list after it agree on which CPUs will be flushed |
| `Settle.CleanIsSafe` | kernel/mem/mem.c:40-103 | a drop that has every showing CPU on its own list frees safely in every continuation |
| `Settle.UncleanIsUnsafe` | kernel/mem/mem.c:78-103 | otherwise some continuation frees the block while a CPU shows it |
| `Settle.SafeIffClean` | kernel/mem/mem.c:40-103 | after any run, freeing is safe in every continuation if and only if, before the retiring drop, every CPU that shows the block is marked already or runs a thread that loses an area |
| `Settle.CleanDropsAreSafe` | kernel/mem/mem.c:40-123 | over every interleaving whose drops pass that test, kills served inside a waiting settle and drops on several CPUs at once included, no user thread ever reaches a freed block |
| `Settle.CleanRunsAreSafe` | kernel/mem/mem.c:40-123 | the same from the initial state |
| `Settle.FreshIsClean` | kernel/mem/mem.c:40-61 | a drop of a block that only its holders show passes the test, whatever is pending for other blocks |
| `Settle.QuietIsClean` | kernel/mem/mem.c:40-61 | a drop with no other shootdown pending passes it too |
| `Settle.QuietRunIsClean` | kernel/mem/mem.c:40-123 | so a run with one shootdown at a time passes every test |
| `Settle.QuietDropsAreSafe` | kernel/mem/mem.c:40-123 | and never lets a user thread reach a freed block |
| `Settle.QuietRunsAreSafe` | kernel/mem/mem.c:40-123 | the same from the initial state |
| `Settle.OverlappingDropsAreUnsafe` | kernel/mem/mem.c:40-103 | a run of two overlapping drops that frees a block another CPU still shows |
| `Shootdown.FlushAsked` | kernel/mem/mem.c:93-96 | a shootdown on the list of a settle becomes a call that is posted to its target, and a step of `Settle` |
| `Shootdown.FlushRuns` | kernel/mem/mem.c:63-70 | when the target finishes serving the call, the frame that waits for it waits for that CPU and was not flushed: the flush is a step of `Settle` |
| `Shootdown.FlushReturns` | kernel/mem/mem.c:93-96 | when the call returns, the innermost settle of that CPU is the one that waits for it, and the flush has run |
| `Shootdown.ReturnsToWaiter` | kernel/sched/xcall.c:49-89 | a returning call belongs to the innermost settle of its CPU if any settle waits for it |
| `Shootdown.MemKeeps` | kernel/mem/mem.c:40-61 | mapping, granting, faults, switches and drops do the same to the whole as to `Settle` |
| `Shootdown.RunRefines` | kernel/mem/mem.c:78-103 | every run of settles on top of the call protocol is a run of `XCall`, and a run of `Settle` over the same windows, lists and heap, with the same drops |
| `Shootdown.CleanRunsAreSafe` | kernel/mem/mem.c:40-123 | with flushes made by cross-CPU calls, nested and interleaved in any way: if each drop passes the test of `Settle.SafeIffClean`, no user thread reaches a freed block |
| `Shootdown.NeverStuck` | kernel/mem/mem.c:78-103 | while a settle or a call is unfinished on any CPU, some step gets one further |
| `Shootdown.SettlesDeadlockFree` | kernel/mem/mem.c:78-103 | the same after every run, for any number of CPUs and any nesting |
| `AreaForest.CutLinked` | kernel/mem/area.c:134-168 | freeing a downward-closed set of records leaves parent and child links in agreement |
| `AreaForest.CutHeld` | kernel/mem/area.c:115-132 | taking records out of their sets leaves each set sorted, disjoint and listing exactly its holders |
| `AreaForest.GoneIsUnneeded` | kernel/mem/area.c:149-168 | a release that leaves no idle orphan freed exactly the records nothing held derives from |
| `AreaForest.EveryRecordServes` | kernel/mem/area.c:149-168 | every record, an orphaned origin included, has a held record derived from it |
| `AreaForest.RevokeFrees` | kernel/mem/area.c:170-195 | a revoke frees a record if and only if it is derived from the revoked one, or is an ancestor that nothing else held derives from |
| `AreaForest.RevokeKeeps` | kernel/mem/area.c:170-195 | a record neither above nor below the revoked one keeps every field |
| `AreaForest.HeldSurvive` | kernel/mem/area.c:197-211 | dropping some records leaves every other held record in its set with its range and rights |
| `AreaOps.Areas.constructor` | kernel/mem/area.c:19-23 | the empty forest satisfies the invariant |
| `AreaOps.Areas.SetUnlink` | kernel/mem/area.c:115-132 | the record leaves its set and only that, the count wraps at 16 bits, and the drop is reported |
| `AreaOps.Areas.FreeLeaf` | kernel/mem/area.c:134-168 | the record leaves the forest and its parent's chain; a backing record is retired |
| `AreaOps.Areas.ReleaseUp` | kernel/mem/area.c:149-168 | frees the record and the ancestors only kept for it, until no idle orphan is left |
| `AreaOps.Areas.DropBelow` | kernel/mem/area.c:170-195 | the post-order walk drops exactly the proper descendants and terminates |
| `AreaOps.Areas.Revoke` | kernel/mem/area.c:170-195 | the forest and the sets lose exactly the subtree and what nothing held needs; the backing records among them are retired, each once, and exactly the sets that lost a record are reported |
| `AreaOps.Areas.SetRelease` | kernel/mem/area.c:197-211 | the set empties; what was derived from its records stays with the records it needs; nothing else changes, and exactly the sets that lost a record are reported |
| `AreaOps.Areas.FindSlot` | kernel/mem/area.c:30-77 | the scan finds an overlap if there is one, and otherwise the place that keeps the set sorted |
| `AreaOps.Areas.Insert` | kernel/mem/area.c:30-77 | fails exactly for an empty or wrapping range or one that shares a byte with a record of the set, before a failed allocation; on success one new record with the given fields, first in its parent's chain, and every other record and set unchanged |
| `AreaOps.Areas.FindBase` | kernel/mem/area.c:90-100 | finds the record of the set that starts at an address if and only if there is one, and there is at most one |
| `AreaOps.Areas.Find` | kernel/mem/area.c:79-88 | finds the record of the set that covers an address if and only if there is one, and there is at most one |
| `AreaOps.SharedByte` | kernel/mem/area.c:25-28 | a range overlaps a record of the list exactly if the two share a byte |
| `AreaOps.Areas.CopyNext` | kernel/mem/area.c:219-224 | one more derived copy, or nothing changes; the error says which: a range that is taken, or no memory |
| `AreaOps.Areas.Inherit` | kernel/mem/area.c:213-226 | the exact forest after the copies made, all of them on success and the first ones otherwise; only the destination set changes, by exactly those copies; succeeds when memory suffices and no range is taken |
| `AreaOps.CopiesAre` | kernel/mem/area.c:213-226 | after any number of copies the older records gained children at most, and each copy is a leaf under its original with its range, rights and kind |
| `AreaOps.Areas.MemMap` | kernel/mem/mem.c:125-175 | exact error cases of flags, hint, heap and range; the new origin has the caller's rights, the kind its flags name, the hint and the size given, or the heap block and the least multiple of the alignment that holds the size; a heap block ends up owned by the record or given back |
| `AreaOps.Areas.MemUnmap` | kernel/mem/mem.c:177-199 | succeeds exactly when the caller holds a record at the address; then forest, sets, retired blocks and reports are those of its revoke |
| `AreaOps.Areas.MemGrant` | kernel/mem/mem.c:201-238 | exact error cases, an unknown target included; the alias has the range of the caller's record, exactly the rights both asked for and held, its kind unless that is the heap, and never the block; or nothing changes |
| `AreaOps.Areas.MemRevoke` | kernel/mem/mem.c:240-276 | exact error cases; the target's record is revoked, with its retired blocks and reports, if and only if it is a proper descendant of the caller's, and otherwise nothing changes |
| `AreaOps.Areas.IsBelow` | kernel/mem/mem.c:240-276 | the walk up the parents decides proper descent |
| `AreaOps.BlockLife` | kernel/mem/area.c:153-168 | in every valid state a backing block is retired, once, if and only if no record in any set derives from its origin |
| `Backing.OneRecord` | kernel/mem/area.c:30-77 | a set holds at most one record of a block, because all records of a block cover the same range |
| `Backing.HoldsLeft` | kernel/mem/area.c:170-211 | the blocks a thread is left with after a revoke or release are those `Settle` leaves it |
| `Backing.RetiresOrigins` | kernel/mem/area.c:149-168 | the blocks `Settle` retires are exactly the origins that are freed |
| `Backing.LosersReported` | kernel/mem/mem.c:40-53 | the threads that lose a block are exactly those reported by `ulmk_kern_area_dropped` |
| `Backing.DropsAgree` | kernel/mem/area.c:170-211 | taking records out of their sets is a drop of `Settle`: it marks the CPUs the reports mark, flushes this CPU exactly if its thread is reported, and retires exactly the freed origins |
| `Backing.MapAgrees` | kernel/mem/mem.c:125-175 | a new origin is a mapping of `Settle` |
| `Backing.GrantAgrees` | kernel/mem/mem.c:201-238 | a record derived from one the running thread holds is a grant of its block |
| `Backing.MovesAgree` | kernel/mem/mem.c:40-123 | every insert, revoke, release, fault, switch or part of a settle is a step `Settle` allows, and records and blocks stay in agreement |
| `Backing.RunAgrees` | kernel/mem/mem.c:40-123 | so every run of them is a run of `Settle` |
| `Backing.GivenIffUnneeded` | kernel/mem/area.c:153-168 | a backing block is on a retired list, in a settle or in the heap if and only if no record in any set derives from its origin |
| `Backing.SafeIffReported` | kernel/mem/mem.c:40-103 | after any run, a revoke or release that frees a backed origin lets its block back into the heap safely, in every continuation, if and only if every CPU that shows it is marked already or runs a thread that is reported |
| `Backing.FreedIsDead` | kernel/mem/mem.c:40-123 | over every run whose revokes and releases pass that test, a backing block the heap got back has no record derived from it in any set and no user thread reaches it |
| `Backing.Revoke` | kernel/mem/area.c:170-195 | `ulmk_area_revoke` is such a step |
| `Backing.Release` | kernel/mem/area.c:197-211 | so is `ulmk_area_set_release` |
| `Backing.Add` | kernel/mem/area.c:30-77 | and an insert for the running thread or for one it grants to |
| `Powers.DownUnique` | kernel/mem/area.c:245-257 | an address lies in exactly one naturally aligned block of each power of two |
| `Powers.DownInside` | kernel/mem/area.c:245-257 | the aligned blocks around an address are nested |
| `Powers.DownOrder` | kernel/mem/area.c:259-262 | an aligned block starts at or after every multiple up to an address in it and ends by every later one |
| `TlsfClasses.InsertClass` | kernel/mem/tlsf.c:98-107 | the class a size is filed under contains it |
| `TlsfClasses.ClassOrder` | kernel/mem/tlsf.c:98-107 | classes in rank order cover increasing ranges that do not overlap |
| `TlsfClasses.SearchRounded` | kernel/mem/tlsf.c:110-127 | the rounded request is a class boundary less than a quarter above the request |
| `TlsfClasses.SearchClass` | kernel/mem/tlsf.c:110-127 | the class searched from starts at or above the request and less than a quarter above it |
| `TlsfClasses.SearchDefined` | kernel/mem/tlsf.c:110-127 | in 32 bits a search is defined and looks for no less than the sum it was given if and only if that is at most 0xE0000000 |
| `TlsfClasses.RequestDefined` | kernel/mem/tlsf.c:241-247 | and so for the rounded size of a plain request |
| `TlsfClasses.RequestExample` | kernel/mem/tlsf.c:110-127 | for 0xE0000001 bytes the search looks for zero |
| `TlsfLayout.TakeTiled` | kernel/mem/tlsf.c:232-276 | taking a block, plainly or at an offset, keeps the pool tiled |
| `TlsfLayout.TakeCoalesced` | kernel/mem/tlsf.c:325-386 | and keeps free blocks apart |
| `TlsfLayout.ReleaseOk` | kernel/mem/tlsf.c:278-314 | releasing a block keeps the pool tiled and coalesced |
| `TlsfLayout.ReleaseUndoesTake` | kernel/mem/tlsf.c:259-314 | taking and releasing a block is the identity on the layout, aligned carves included |
| `TlsfLayout.TakeUsed` | kernel/mem/tlsf.c:259-271 | taking adds exactly one used block, where asked, which holds the rounded size but not two headers more |
| `TlsfLayout.ReleaseUsed` | kernel/mem/tlsf.c:278-314 | releasing removes exactly that used block and leaves every other as it was |
| `TlsfLayout.TakeFreeSum` | kernel/mem/tlsf.c:259-271 | taking costs the bytes of the new block and one header for each block split off, at most two |
| `TlsfLayout.ReleaseFreeSum` | kernel/mem/tlsf.c:278-314 | releasing gives back the bytes of the block and one header for each block joined away |
| `TlsfLayout.Apart` | kernel/mem/tlsf.c:92-95 | blocks do not overlap and stay inside the pool |
| `TlsfLayout.Conservation` | kernel/mem/tlsf.c:195-230 | free bytes, used bytes and headers add up to the pool |
| `TlsfLayout.AllFreeIsOne` | kernel/mem/tlsf.c:195-230 | a fully free pool is the one block it started as |
| `TlsfLayout.ReleaseAllAnyOrder` | kernel/mem/tlsf.c:278-314 | releasing all used blocks in any order is possible and restores the initial block |
| `TlsfHeap.FindClass` | kernel/mem/tlsf.c:167-191 | the two bitmap levels lead to the lowest non-empty class at or above the wanted one, if there is any |
| `TlsfHeap.PoolInside` | kernel/mem/tlsf.c:198-215 | what is initialised stays inside the pool if and only if the pool reaches its own aligned start |
| `TlsfHeap.PoolExample` | kernel/mem/tlsf.c:198-215 | a pool of two bytes at address 1 gets a block that ends beyond it |
| `TlsfHeap.Heap.constructor` | kernel/mem/tlsf.c:195-230 | one free block over the aligned pool, or an empty heap, also for an empty pool and one that wraps |
| `TlsfHeap.Heap.InsertFree` | kernel/mem/tlsf.c:129-143 | files the block at the head of its class and keeps headers, lists, both bitmaps and the byte count exact |
| `TlsfHeap.Heap.RemoveFree` | kernel/mem/tlsf.c:145-165 | the reverse, with the other blocks of the class in their order, clearing the bits of an emptied class |
| `TlsfHeap.Heap.Cut` | kernel/mem/tlsf.c:259-271 | writes the header of the rest and relinks its successor |
| `TlsfHeap.Heap.Absorb` | kernel/mem/tlsf.c:278-314 | extends a block over its successor and relinks the block after |
| `TlsfHeap.Heap.FindFreeBlock` | kernel/mem/tlsf.c:167-191 | sound: what it returns is free and large enough; tight: NULL only if every free block is smaller than 5/4 of the request; a good fit: no other free block of 5/4 of the request is in a lower class, and of its class it is the one freed last |
| `TlsfHeap.Heap.TrimTail` | kernel/mem/tlsf.c:259-271 | leaves the block with the rounded size and less than two headers more, what is split off being free |
| `TlsfHeap.Heap.Alloc` | kernel/mem/tlsf.c:232-276 | exactly one new used block, at the address returned, of the size asked for and less than three headers more, cut from a good fit; the free bytes fall by at most that block and two headers; or NULL, and nothing changes |
| `TlsfHeap.Heap.JoinForward` | kernel/mem/tlsf.c:278-314 | joins the next block if it is free |
| `TlsfHeap.Heap.JoinBackward` | kernel/mem/tlsf.c:278-314 | joins the previous block if it is free, else files the block |
| `TlsfHeap.Heap.Free` | kernel/mem/tlsf.c:278-314 | exactly the block at the pointer is no longer used, it has joined its free neighbours, and the free bytes rise by at least its size; NULL is a no-op |
| `TlsfHeap.Heap.AlignedAlloc` | kernel/mem/tlsf.c:325-386 | as Alloc, with the payload at the first multiple of the alignment in a good fit that leaves no lead or one that can be a free block |
| `TlsfHeap.Heap.CarveAligned` | kernel/mem/tlsf.c:340-382 | the carve of a lead, a payload and a tail out of one free block |
| `TlsfHeap.LeadFor` | kernel/mem/tlsf.c:353-356 | no aligned place before the one chosen is the payload itself or leaves room for a block in front |
| `Sv32Table.WalkIs` | arch/riscv/mmu_sv32.c:180-233 | the hardware walk of tables that agree with a simple map gives what the map says, for every page |
| `Sv32Table.WalkIsUnion` | arch/riscv/mmu_sv32.c:136-151 | the walk sees static, pinned and recently loaded pages and nothing else, each at its own address, writable only if readable |
| `Sv32Table.OneTable` | arch/riscv/mmu_sv32.c:193-224 | no two level-2 tables serve the same root entry |
| `Sv32Table.SetSlot` | arch/riscv/mmu_sv32.c:235-256 | writing one entry changes the map at that page only |
| `Sv32Table.Alloc` | arch/riscv/mmu_sv32.c:204-224 | linking an empty table changes nothing in the map |
| `Sv32Table.ReleaseTable` | arch/riscv/mmu_sv32.c:226-233 | unlinking a table without mapped pages changes nothing in the map |
| `Sv32Table.MapMega` | arch/riscv/mmu_sv32.c:268-274 | a megapage entry adds exactly its 1024 pages |
| `Sv32Table.StaleOnly` | arch/riscv/mmu_sv32.c:88-96 | a table update makes stale in the TLB only the pages whose mapping it changes |
| `Sv32Table.ThroughCache` | arch/riscv/mmu_sv32.c:88-96 | a walk through a root entry the TLB has kept gives what the tables say, or faults and that entry was set since |
| `Sv32Table.StaleIff` | arch/riscv/mmu_sv32.c:204-224 | a root entry may be stale exactly if one was set since the last fence of everything |
| `Sv32Table.Unused` | arch/riscv/mmu_sv32.c:307-320 | once the ring is empty, a dynamic table without pinned pages holds no page |
| `Sv32Table.RingTurn` | arch/riscv/mmu_sv32.c:322-334 | the slot reused is the oldest load's |
| `Sv32Static.TrackStuck` | arch/riscv/mmu_sv32.c:258-285 | if the loop stops at a page, the range had a page under an older megapage or needed more tables than were left |
| `Sv32Static.TrackEnd` | arch/riscv/mmu_sv32.c:258-285 | if it gets through, neither was so |
| `Sv32.Hart.constructor` | arch/riscv/mmu_sv32.c:392-412 | an empty map, whatever the TLB held |
| `Sv32.Hart.L2Find` | arch/riscv/mmu_sv32.c:193-202 | finds the table of a root entry if and only if there is one |
| `Sv32.Hart.L2Alloc` | arch/riscv/mmu_sv32.c:204-224 | gives the first free dynamic table exactly when the root entry is empty and one is free |
| `Sv32.Hart.L2Release` | arch/riscv/mmu_sv32.c:226-233 | takes back a table that holds nothing |
| `Sv32.Hart.UnmapPage` | arch/riscv/mmu_sv32.c:250-256 | removes exactly that page from the map |
| `Sv32.Hart.StaticPage` | arch/riscv/mmu_sv32.c:275-284 | one page more, with a new table exactly when its root entry had none; false exactly when that cannot be had |
| `Sv32.Hart.StaticRange` | arch/riscv/mmu_sv32.c:268-285 | the loop: exactly the pages of the range, and the exact condition of the panic |
| `Sv32.Hart.StaticMap` | arch/riscv/mmu_sv32.c:258-285 | adds exactly the whole pages of the range, over any mix of megapages and tables, and a walk of each finds exactly the rights asked for, a writable page being readable; panics if and only if, before the call, a page of the range lay under a megapage or the root entries not covered by whole megapages needed more new tables than were left |
| `Sv32.Hart.StaticUser` | arch/riscv/mmu_sv32.c:287-299 | the static map is user text, user RAM and peripherals, with a clean TLB |
| `Sv32.Hart.DynDrop` | arch/riscv/mmu_sv32.c:307-320 | every loaded page goes, every unpinned dynamic table is given back, static and pinned pages stay |
| `Sv32.Hart.DynPush` | arch/riscv/mmu_sv32.c:322-334 | the ring keeps the last loads and fences the page it evicts |
| `Sv32.Hart.PinDrop` | arch/riscv/mmu_sv32.c:336-349 | no page is pinned, and static and loaded pages stay |
| `Sv32.Hart.PinPage` | arch/riscv/mmu_sv32.c:364-371 | pins the page, which is static no more if it was, unless it has no table and none is free or a megapage is in the way |
| `Sv32.Hart.PinMap` | arch/riscv/mmu_sv32.c:351-373 | pins the pages of the region from the first on, to the end unless a page can have no table, and a walk of each finds exactly the rights of the region; the static map loses exactly the pages pinned |
| `Sv32.WholePages` | arch/riscv/mmu_sv32.c:265-266 | the static pages of a range are those inside it, and no others unless the rounding wraps |
| `Sv32.TouchedPages` | arch/riscv/mmu_sv32.c:360-362 | the pages of a pinned region are exactly those that share a byte with it, unless its end wraps |
| `Sv32.PinnableIff` | arch/riscv/mmu_sv32.c:301-305 | a region is pinned exactly if some byte of it is not static user RAM, unless its end wraps |
| `Sv32.FirstTwo` | arch/riscv/mmu_sv32.c:384-388 | the regions pinned are the first two that need it, in order |
| `Sv32.Hart.UserLayout` | arch/riscv/mmu_sv32.c:375-390 | the pins are those of the first two regions that need one, the static map loses exactly those pages, nothing is loaded, the TLB is clean |
| `Sv32.Hart.Switch` | arch/riscv/mmu_sv32.c:445-461 | the same thread keeps its pages, any other user thread gets a fresh layout, the TLB stays clean |
| `Sv32.Hart.Flush` | arch/riscv/mmu_sv32.c:463-467 | nothing is loaded and the TLB is clean, root entries included |
| `Sv32.Hart.Load` | arch/riscv/mmu_sv32.c:469-498 | the exact condition of success; then a walk of the page finds exactly the rights of the window; static and pinned pages never go; the ring is dropped exactly when a table is needed and none is free; the TLB is clean, but for the root entry of a new table |
| `Sv32.Hart.Sees` | arch/riscv/mmu_sv32.c:1-16 | between operations a U-mode access sees static, pinned and the last DYN_MAX loaded pages |
| `Sv32.Hart.SeesThroughCache` | arch/riscv/mmu_sv32.c:469-498 | through a root entry the TLB has kept, an access sees what the tables say, or faults and a table was linked there since |
| `Sv32.Hart.StaleRoots` | arch/riscv/mmu_sv32.c:204-224 | a kept root entry may be stale exactly if one was set since the last fence of everything |
| `Sv32.Hart.NothingStale` | arch/riscv/mmu_sv32.c:445-498 | and every translation the TLB may hold is what the tables say |
| `Sv32.FaultsAgain` | arch/riscv/mmu_sv32.c:469-498 | of two loads of the same window in a row at most one succeeds, so a fault through a stale root entry is not cured by the next load |
| `Sv32.PinOverStatic` | arch/riscv/mmu_sv32.c:336-373 | a static page that was pinned and unpinned faults |
| `Sv32Runs.Renewed` | arch/riscv/mmu_sv32.c:375-461 | after a switch to another user thread the pins are those of its regions and nothing is loaded; static pages are gone only under a pin |
| `Sv32Runs.Continued` | arch/riscv/mmu_sv32.c:445-498 | any other call keeps the pins, and adds no load but the one asked for |
| `Sv32Runs.Do` | arch/riscv/mmu_sv32.c:445-498 | one switch, load or flush keeps all invariants and the account of what was granted |
| `Sv32Runs.MapGranted` | arch/riscv/mmu_sv32.c:1-16 | every page of the map is static, of a region of the last new layout or asked for since, with those rights |
| `Sv32Runs.OneMap` | arch/riscv/mmu_sv32.c:445-498 | a walk and every cached result give what the map says; through a kept root entry an access may only fault besides |
| `Sv32Runs.Drive` | arch/riscv/mmu_sv32.c:445-498 | after any sequence of switches, loads and flushes: the invariants, a clean TLB, one map for all accesses, and each page of it granted by a static page, a region of the last new layout or a load since the last flush or new layout; static pages are lost only to pins |
| `TimerMath.FindLevel` | kernel/time/timer_wheel.c:82-99 | the loop finds the first level whose turn is longer than the delta |
| `TimerMath.CollectedAt` | kernel/time/timer_wheel.c:56-100 | the bucket a timer is put in is first collected exactly at CollectTick, never in between |
| `TimerMath.NeverEarlyIff` | kernel/time/timer_wheel.c:60-65 | the first sweep of the bucket a timer is put in is never early if and only if the rounded expiry is within one turn, and then less than an eighth late; otherwise exactly one turn before the rounded expiry |
| `TimerMath.ClockWraps` | kernel/time/timer_wheel.c:56-70 | a 64-bit clock that wraps gives the same buckets and sweeps as an unbounded one |
| `TimerMath.SafeDeltas` | kernel/time/timer_wheel.c:82-99 | exactly which deltas are safe whatever the clock |
| `TimerMath.EarlyExample` | kernel/time/timer_wheel.c:56-95 | a timer armed at tick 2 for 511 ticks is collected at tick 8 |
| `TimerWheel.Wheel.constructor` | kernel/time/timer_wheel.c:102-118 | an empty wheel |
| `TimerWheel.Wheel.Unlink` | kernel/time/timer_wheel.c:141-142 | a linked timer leaves its list, bucket or expired, and its live arming ends |
| `TimerWheel.Wheel.Add` | kernel/time/timer_wheel.c:120-153 | exact error cases; on success one new live arming and the previous one of that timer replaced, all others untouched |
| `TimerWheel.Wheel.Cancel` | kernel/time/timer_wheel.c:155-181 | ends exactly the live arming of that timer, wherever it is linked |
| `TimerWheel.Wheel.CollectBucket` | kernel/time/timer_wheel.c:188-200 | the bucket empties onto the expired list and its pending bit is cleared |
| `TimerWheel.Wheel.AdvanceCollect` | kernel/time/timer_wheel.c:261-280 | the expired list has exactly the timers armed for this tick, once each |
| `TimerWheel.Wheel.PopDue` | kernel/time/timer_wheel.c:210-219 | the head of the expired list is unlinked and its callback called at its own tick |
| `TimerWheel.Wheel.RunCallback` | kernel/time/timer_wheel.c:202-220 | every arming and cancelling of a callback takes effect, in order, and a collected timer it arms or cancels leaves the expired list |
| `TimerWheel.Wheel.ExpireList` | kernel/time/timer_wheel.c:202-220 | draining ends, whatever the callbacks arm and cancel; the timers called, their order and all armings are those that the list and the callbacks' actions determine |
| `TimerWheel.Wheel.Tick` | kernel/time/timer_wheel.c:282-300 | the timers armed for this tick are called, each unless an earlier callback of the tick armed or cancelled it, and the armings are those that their callbacks' actions determine |
| `TimerWheel.Wheel.Fates` | kernel/time/timer_wheel.c:141-220 | between calls an arming waits for a tick still to come, or its callback was called once at that tick, or it was cancelled or replaced and never called |
| `IpcState.Wake` | kernel/ipc/ep.c:190-212 | waking a thread takes it out of its queue, its notification and its call and keeps the invariants |
| `IpcState.BlockSend` | kernel/ipc/ep.c:277-297 | queueing a caller behind the others keeps the invariants, first in first out |
| `IpcState.BlockTaken` | kernel/ipc/ep.c:284-297 | a caller handed over at once waits in no queue |
| `IpcState.BlockWait` | kernel/ipc/ep.c:639-653 | blocking on an endpoint, a notification or both keeps the invariants |
| `IpcState.TakeHead` | kernel/ipc/ep.c:433-446 | the caller taken is the oldest one waiting there, and its request goes to one receiver |
| `IpcState.QueuedOnce` | kernel/ipc/ep.c:94-113 | a queued thread is blocked on that endpoint, in one queue only, and the other queue there is empty |
| `IpcState.NoLostWakeup` | kernel/notif/notif.c:98-389 | a thread waiting on a notification is its waiter and none of its bits is pending, or a destroy has taken it off and is to wake it |
| `IpcState.OpenCall` | kernel/ipc/ep.c:246-314 | a call that is not over has its caller blocked in it with its request staged, queued exactly if the call is, and is the caller's only open one |
| `IpcState.StaleIsHarmless` | kernel/ipc/ep.c:129-135 | an id left over from an earlier wait unregisters nobody |
| `IpcState.AfterEnd` | kernel/ipc/ep.c:190-240 | after the event that ends a call its history holds late wake-ups only |
| `IpcState.LateAfter` | kernel/ipc/ep.c:688-706 | each late wake-up is by a destroy or kill that chose the call before something else ended it |
| `IpcState.OnceIff` | kernel/ipc/ep.c:688-706 | a call that is over woke its caller exactly once if and only if nothing else ended the call between a destroy or a kill choosing it and waking it |
| `IpcState.InTime` | kernel/ipc/ep.c:688-706 | if the wake-up by a destroy or kill ended the call, nothing had ended it since it was chosen |
| `IpcState.CountedOnce` | kernel/ipc/ep.c:94-188 | counted in its history, a request reached one receiver if it was taken and none otherwise, its caller was not woken before the call was over, and no call got a reply without a delivery |
| `IpcState.Remove` | kernel/thread/thread.c:362-387 | a killed thread leaves its queue, its notification and its call, and the invariants are kept |
| `IpcJobs.PopSendInv` | kernel/ipc/ep.c:688-690 | a popped caller is in no queue and still blocked in its call; the other callers keep their order |
| `IpcJobs.PopRecvInv` | kernel/ipc/ep.c:698-700 | a popped receiver is in no queue and still blocked |
| `IpcJobs.AddPick` | kernel/thread/thread.c:393-396 | a call chosen for waking is open, and its history says by whom it was chosen |
| `IpcJobs.MarkLate` | kernel/ipc/ep.c:190-212 | a wake-up that finds its call over is recorded as late in the history of that call |
| `IpcJobs.ForgetInv` | kernel/notif/notif.c:369-370 | a waiter taken off its notification by a destroy is remembered as one that a job is to wake |
| `IpcJobs.CarriesDead` | kernel/ipc/ep.c:129-135 | whoever carries the id of a freed notification was signalled there in its last plain wait, or is about to be woken by the destroy |
| `IpcBoxes.InboxIs` | kernel/ipc/ep.c:153-188 | a request that was delivered to a thread which got nothing since is what the thread has in its inbox, and the sender the thread names is its caller |
| `IpcBoxes.DeliverBoxes` | kernel/ipc/ep.c:153-188 | a delivery keeps that so, and keeps the list of deliveries exactly the requests that were taken, with their receivers |
| `IpcBoxes.KeepBoxes` | kernel/ipc/ep.c:190-240 | whatever leaves inboxes and receivers alone keeps it too |
| `Ipc.Kernel.constructor` | kernel/ipc/ep.c:48-55 | no endpoints, no notifications, every thread running and new |
| `Ipc.Kernel.Release` | kernel/ipc/ep.c:190-212 | a thread leaves whatever it is blocked on, a notification only if it is the waiter there; everything else unchanged, and the wake-up of a caller is in the history of its call |
| `Ipc.Kernel.Call` | kernel/ipc/ep.c:246-314 | the first waiting server gets the request, the caller as sender, and leaves endpoint and notification; else the caller queues last; the request is in the caller's buffer; exact new state |
| `Ipc.Kernel.CallServer` | kernel/ipc/ep.c:284-293 | the fast path: one delivery, to the server at the head, listed as such |
| `Ipc.Kernel.HandOver` | kernel/ipc/ep.c:94-188 | the server at the head of the receive queue has the request and its sender, is ready, and leaves endpoint and notification |
| `Ipc.Kernel.WaitToSend` | kernel/ipc/ep.c:294-297 | the caller joins the end of the send queue |
| `Ipc.Kernel.TakeCaller` | kernel/ipc/ep.c:433-446 | one delivery from the receiver's side: it has the request of the oldest caller and its sender, and the caller stays blocked off the queue |
| `Ipc.Kernel.TakeNext` | kernel/ipc/ep.c:551-568 | the locked section of a reply-and-receive, on an endpoint that may have gone inactive since its lookup |
| `Ipc.Kernel.Recv` | kernel/ipc/ep.c:403-465 | takes the oldest caller with its request, else queues last |
| `Ipc.Kernel.Reply` | kernel/ipc/ep.c:467-519 | the reply is in the caller's buffer, the caller is ready and its call over; the invariants survive if and only if the call had been received |
| `Ipc.Kernel.ReplyRecv` | kernel/ipc/ep.c:521-571 | exactly a reply, if the thread is in a call, which then has it in its buffer, followed by a receive |
| `Ipc.Kernel.CallTimeout` | kernel/ipc/ep.c:214-240 | ends the call, queued or taken, and wakes its caller once with a timeout; any other thread is left alone |
| `Ipc.Kernel.DestroyBegin` | kernel/ipc/ep.c:667-690 | the endpoint goes inactive and its first thread is popped; it is to be woken later |
| `Ipc.Kernel.DestroyNext` | kernel/ipc/ep.c:688-706 | the next thread is popped, callers before receivers |
| `Ipc.Kernel.DestroyWake` | kernel/ipc/ep.c:190-212 | the popped thread is made ready out of whatever it is blocked on by now, and its present call ends; if that is not the call it was popped from, the wake-up is late; it hits a freed control block if and only if the thread was killed since |
| `Ipc.Kernel.DestroyFree` | kernel/ipc/ep.c:708-713 | the invariants survive freeing the endpoint if and only if both queues are empty |
| `Ipc.Kernel.EpDestroy` | kernel/ipc/ep.c:667-714 | with nothing in between, every thread queued there is woken with an error and no other is touched |
| `Ipc.Kernel.TakeBits` | kernel/notif/notif.c:196-203 | takes exactly the pending bits in the mask under the lock |
| `Ipc.Kernel.PollRead` | kernel/notif/notif.c:349-355 | the bits a poll will return are those pending at its first read |
| `Ipc.Kernel.PollLoad` | kernel/notif/notif.c:356 | the poll reads the bits a second time |
| `Ipc.Kernel.PollStore` | kernel/notif/notif.c:356-358 | the poll is exact if and only if the pending bits are those it has read, with the bits taken twice and dropped otherwise; the invariants survive if and only if it brings back no bit the waiter sleeps on |
| `Ipc.Kernel.NotifPoll` | kernel/notif/notif.c:347-359 | with nothing in between, takes exactly the pending bits in the mask |
| `Ipc.Kernel.NotifWait` | kernel/notif/notif.c:179-246 | takes pending bits in the mask, else registers and blocks; the invariants survive if and only if it did not block or nobody else waited |
| `Ipc.Kernel.RecvOrNotif` | kernel/ipc/ep.c:582-665 | pending bits first, then the oldest caller, else waits for both; the invariants survive if and only if it did not block or nobody else waited |
| `Ipc.Kernel.RecvOrNotifLocked` | kernel/ipc/ep.c:608-665 | its lock section, on objects found before: the same outcome and the same condition |
| `Ipc.Kernel.WaitForBoth` | kernel/ipc/ep.c:639-653 | the thread is on the receive queue and the waiter for its mask; the invariants survive if and only if nobody else waited |
| `Ipc.Kernel.Signal` | kernel/notif/notif.c:98-177 | wakes the waiter if and only if one of its bits is now pending, hands it all of them, and takes it off the endpoint too; a plain waiter keeps its ids; otherwise the bits stay pending |
| `Ipc.Kernel.NotifTimeout` | kernel/notif/notif.c:34-65 | a waiter is woken with a timeout and unregistered; any other thread is left alone |
| `Ipc.Kernel.NotifUnhook` | kernel/notif/notif.c:361-370 | the waiter is taken off and is to be woken later |
| `Ipc.Kernel.NotifWake` | kernel/notif/notif.c:371-382 | the waiter is made ready whatever it is doing by now; the invariants survive if and only if it is on no queue but in `ep_recv_or_notif` and waits on no notification again; it hits a freed control block if and only if the waiter was killed since |
| `Ipc.Kernel.NotifFree` | kernel/notif/notif.c:384-389 | pending bits are accounted as lost; the invariants survive if and only if nobody waits there |
| `Ipc.Kernel.NotifDestroy` | kernel/notif/notif.c:361-389 | with nothing in between, the waiter is woken with an error and leaves the endpoint too, pending bits are accounted as lost; afterwards a thread carries the freed id if and only if one other than the waiter did |
| `Ipc.Kernel.Create` | kernel/notif/notif.c:67-75 | a new object, empty and without waiter |
| `Ipc.Kernel.KillBegin` | kernel/thread/thread.c:362-396 | the dying thread is gone from queue, notification and call, and the thread it last received from is chosen if it is in a call; a wake-up that is due finds its thread gone if and only if it did before or the thread is this one |
| `Ipc.Kernel.KillWake` | kernel/thread/thread.c:397-407 | the chosen thread is made ready whatever it is doing by now; the invariants survive if and only if it does not wait on a notification; it hits a freed control block if and only if that thread was killed since |
| `Ipc.Kernel.Kill` | kernel/thread/thread.c:362-411 | with nothing in between, the exact state after a kill: the thread is out, and the thread it last received from is woken with an error if it is in a call |
| `Ipc.KillOutcome` | kernel/thread/thread.c:388-408 | of all open calls exactly the thread's own and the one its last client is in end |
| `Ipc.DeadLookup` | kernel/ipc/ep.c:129-135 | in every state of every run, a receiver whose next delivery looks up a freed notification was signalled in its last plain wait, or is to be woken by the destroy |
| `Ipc.Kernel.Do` | kernel/ipc/ep.c:246-714 | any one step of any operation that its exact condition admits keeps the invariants, the calls only move on, and a thread still to be woken goes away only by its own kill |
| `Ipc.Kernel.DoUnlocked` | kernel/ipc/ep.c:667-714 | the same for waits, signals, timeouts and the steps of destructions and kills |
| `Ipc.Kernel.DoNotif` | kernel/notif/notif.c:347-389 | and for those of polling and destroying a notification |
| `Ipc.Kernel.Drive` | kernel/ipc/ep.c:246-714 | after any interleaving of the steps of calls, timeouts, signals, polls, destructions and kills on any number of CPUs, every request was delivered to at most one receiver, no caller was woken before its call was over, and a call that is over woke its caller once if and only if nothing else ended it between being chosen and being woken; what a thread has in its inbox is the request delivered to it last; every bit raised is pending, taken, lost or dropped, and counted twice only where a poll says so; a wake-up still due finds its thread gone only if a kill of that thread was among the steps or before |
| `IpcRuns.ReplyTooEarly` | kernel/ipc/ep.c:467-519 | a reply to a queued call leaves a running thread on the send queue |
| `IpcRuns.WokenTwice` | kernel/ipc/ep.c:688-696 | a timeout between the pop and the wake of a destroy: the caller is woken twice |
| `IpcRuns.WokenAfterKill` | kernel/ipc/ep.c:688-696 | a kill between the pop and the wake of a destroy: the control block written is that of the killed thread |
| `IpcRuns.DestroyEndsOtherCall` | kernel/ipc/ep.c:688-696 | and if it has called another endpoint since, that call is ended |
| `IpcRuns.FreedUnderReceiver` | kernel/ipc/ep.c:708-713 | a receiver that had looked the endpoint up is queued on a freed one |
| `IpcRuns.PollTwice` | kernel/notif/notif.c:347-359 | two polls take one raised bit twice |
| `IpcRuns.PollDropsSignal` | kernel/notif/notif.c:347-359 | a signal between the load and the store of a poll is lost |
| `IpcRuns.PollHidesBit` | kernel/notif/notif.c:347-359 | the store of a poll brings back a bit whose waiter sleeps on |
| `IpcRuns.ReadiedOnQueue` | kernel/notif/notif.c:361-382 | a destroy makes a thread ready that is on a send queue by then |
| `IpcRuns.FreedUnderWaiter` | kernel/notif/notif.c:361-389 | a thread begins to wait just before the notification is freed |
| `IpcRuns.WaitTwice` | kernel/notif/notif.c:213-226 | a second waiter displaces the first, which stays blocked |
| `IpcRuns.StaleId` | kernel/ipc/ep.c:129-135 | a server whose next delivery looks up a destroyed notification |
| `IpcRuns.KillEndsOtherCall` | kernel/thread/thread.c:388-408 | a kill that ends a call the killed thread never received |
| `IpcRuns.ReadiedWaiter` | kernel/thread/thread.c:388-408 | a kill makes a thread ready that is the waiter of a notification by then |
| `IpcLedger.BalanceMoves` | kernel/notif/notif.c:116-136 | under the lock, raising and taking bits keeps the balance: each raising is pending, taken or lost once |
| `IpcLedger.StoreBalance` | kernel/notif/notif.c:355-356 | after the store of a poll the balance holds with the bits taken twice and the bits dropped by it on the books |
| `IpcLedger.StoreExact` | kernel/notif/notif.c:355-356 | the store takes no bit twice and drops none if and only if the pending bits are those the poll has read |
| `IpcLedger.DeadStore` | kernel/notif/notif.c:355-356 | a store into a freed notification takes what it matched a second time |
| `Bitmap32.LowestIs` | kernel/sched/bitmap_rt.c:38-43 | 31 - clz(w & -w) is the lowest bit set in w |
| `Bitmap32.SetBit` | kernel/sched/bitmap_rt.c:48-51 | sets that bit and no other |
| `Bitmap32.ClearBit` | kernel/sched/bitmap_rt.c:53-56 | clears that bit and no other |
| `RunQueue.FifoRq.Enqueue` | kernel/sched/fifo_rt.c:34-38 | inserts before the first thread of a larger number; the list stays sorted |
| `RunQueue.FifoRq.Dequeue` | kernel/sched/fifo_rt.c:40-47 | takes the thread out and nothing else |
| `RunQueue.FifoRq.Peek` | kernel/sched/fifo_rt.c:49-57 | the head, and nobody queued is more urgent |
| `RunQueue.InsertBetween` | kernel/sched/fifo_rt.c:34-38 | a thread goes behind all that are at least as urgent and before all others |
| `RunQueue.EnqueueIs` | kernel/sched/bitmap_rt.c:78-90 | appending to a level is inserting into the sorted list |
| `RunQueue.DequeueIs` | kernel/sched/bitmap_rt.c:92-106 | taking a thread out of its level is taking it out of the sorted list |
| `RunQueue.BitmapRq.constructor` | kernel/sched/bitmap_rt.c:65-76 | an empty queue |
| `RunQueue.BitmapRq.FirstSet` | kernel/sched/bitmap_rt.c:33-46 | the lowest occupied level, or 255 when the queue is empty |
| `RunQueue.BitmapRq.Enqueue` | kernel/sched/bitmap_rt.c:78-90 | the list becomes what the reference policy makes of it; a queued thread stays where it is |
| `RunQueue.BitmapRq.Dequeue` | kernel/sched/bitmap_rt.c:92-106 | the list loses that thread; the bitmap stays right if and only if the thread's priority is the one it was queued with or others stay on its level |
| `RunQueue.TakeOther` | kernel/sched/bitmap_rt.c:92-106 | which levels the wrong priority leaves right |
| `RunQueue.DequeueMissesLevel` | kernel/sched/bitmap_rt.c:92-106 | a thread queued at level 5 and dequeued with priority 6 leaves an empty level marked |
| `RunQueue.BitmapRq.PeekNext` | kernel/sched/bitmap_rt.c:132-143 | what the reference policy peeks |
| `RunQueue.ListHead` | kernel/sched/bitmap_rt.c:132-143 | the list starts with a thread that no queued one is more urgent than, and is empty exactly if nothing is queued |
| `RunQueue.BitmapRq.PickNext` | kernel/sched/bitmap_rt.c:108-130 | peek and dequeue in one, with no queued thread more urgent |
| `RunQueue.SideBySide` | kernel/sched/bitmap_rt.c:145-152 | driven by any sequence of calls, the two policies hold the same list and peek and hand out the same threads, those of a queue kept as a plain sorted list |
| `Sched.Cpu.constructor` | kernel/kernel_main.c:330-345 | a CPU before its start, with its idle thread queued and no current one |
| `Sched.Cpu.NextExists` | kernel/sched/sched.c:70-77 | the idle thread is running or queued, so a next thread always exists |
| `Sched.Cpu.Enqueue` | kernel/sched/sched.c:194-198 | the thread is ready and queued, and a reschedule is wanted if it is more urgent or nothing runs yet |
| `Sched.Cpu.Block` | kernel/sched/sched.c:200-203 | the thread, running or queued, is off the queue until made ready, and no other is |
| `Sched.Cpu.SetPrio` | kernel/thread/thread.c:477-492 | a ready thread moves behind the others of its new priority, with the queue consistent and a reschedule wanted if it is now more urgent than the current one; any other thread only gets the number |
| `Sched.Cpu.Yield` | kernel/thread/thread.c:235-247 | the current thread, if there is one, goes behind the others of its priority and a reschedule is wanted |
| `Sched.Cpu.Start` | kernel/sched/sched.c:124-156 | the most urgent ready thread runs; the uniprocessor build forgets a wanted reschedule |
| `Sched.Cpu.Resched` | kernel/sched/sched.c:182-192 | the most urgent ready thread runs; that is consistent if and only if the current one had ended or nothing is ready |
| `Sched.ReschedForgets` | kernel/irq/irq.c:346-360 | a reschedule while thread 0 still runs leaves it marked as running beside the thread that was switched to |
| `Sched.Cpu.PickAndSwitch` | kernel/sched/sched.c:70-99 | the head of the list runs and the rest stays; consistent unless another was still running |
| `Sched.Cpu.TrapDispatch` | kernel/sched/sched.c:225-289 | nothing before the start; afterwards the current thread runs, is not queued and no ready thread is more urgent; a running thread is requeued behind its equals if a switch was asked for or a more urgent one is ready, and the head of the list then runs: asked to, it gives way exactly if a thread at least as urgent is ready |
| `Windows.AreaWindow` | kernel/mem/area.c:233-257 | the block around the address that fits and no larger one does; fails exactly outside the area or when the smallest does not fit |
| `Windows.GranuleInside` | kernel/mem/area.c:259-263 | in 32 bits, the granule of an address lies inside the area exactly between the two rounded ends |
| `Windows.AreaStretch` | kernel/mem/area.c:258-276 | fails in exactly the same cases; the stretch holds the address, stays inside the area on whole granules, holds every granule of the area unless the limit cut it, and never exceeds the limit |
| `Windows.Largest` | kernel/mem/area.c:228-232 | every aligned power-of-two block inside the area that holds the address lies inside the window |
| `Windows.SameOrApart` | kernel/mem/area.c:245-257 | the windows of two addresses of one area are the same or do not meet |
| `Windows.ThreadWindows` | kernel/mem/mem.c:105-123 | windows from areas of one set, which do not overlap, are the same or apart, so they may be loaded together |
| `Windows.NapotEncode` | arch/riscv/mpu_pmp.c:510-517 | succeeds exactly for aligned powers of two from 8 bytes, and the entry matches exactly the block's addresses |
| `Windows.EntryMatches` | arch/riscv/mpu_pmp.c:510-517 | an entry matches an address if and only if the block holds it |
| `Windows.PmpSlots.constructor` | arch/riscv/mpu_pmp.c:421-443 | all dynamic slots off |
| `Windows.PmpSlots.Flush` | arch/riscv/mpu_pmp.c:497-508 | no dynamic window is live, every dynamic entry reads as zero |
| `Windows.PmpSlots.Enter` | kernel/mem/area.c:30-77 | an area joins the set of the running thread; the slots are as they were |
| `Windows.PmpSlots.Leave` | kernel/mem/mem.c:35-53 | an area leaves the set, with all windows at once on the CPU that runs the thread, or with the flush to come |
| `Windows.PmpSlots.Load` | arch/riscv/mpu_pmp.c:545-578 | any region: succeeds exactly when it can be encoded, is not live and is not [0, 8) beside an empty slot; then it is in the slot whose turn it is, with its rights, that entry matches exactly its addresses, the others stay and the turn passes on |
| `Windows.PmpSlots.FindArea` | kernel/mem/area.c:79-88 | the area around an address if and only if there is one |
| `Windows.PmpSlots.Fault` | kernel/mem/mem.c:105-123 | succeeds exactly when the thread's area around the address allows the access and has a window there that may be loaded; then a live entry matches the address with the area's rights; every live window stays the window of an area of the thread |
| `Windows.GrantsWithinAnArea` | kernel/mem/mem.c:105-123 | whatever a live entry matches lies in one area of the thread, with that area's rights |
| `Windows.LiveApart` | kernel/mem/mem.c:105-123 | two live windows are disjoint, or come from overlapping areas one of which another CPU took away and whose flush is still to come; with no such area they are disjoint |
| `Windows.ZeroWindow` | arch/riscv/mpu_pmp.c:545-578 | the window [0, 8) of an area that allows the access is not loaded |
| `Windows.LiveIffMatched` | arch/riscv/mpu_pmp.c:560-565 | with no flush to come, a window is refused as live if and only if some entry already matches the faulting address |
| `Regions.Log2Cover` | arch/arm/mpu_v7m.c:57-73 | the first level at which the 32-bit test stops |
| `Regions.CoverIs` | arch/arm/mpu_v7m.c:57-73 | below the top of the address space that is the smallest cover |
| `Regions.EncodeExact` | arch/arm/mpu_v7m.c:112-138 | an encoding over a real cover is legal and grants exactly the range |
| `Regions.EncodableOnlyIf` | arch/arm/mpu_v7m.c:127-132 | if any region grants exactly the range, the encoding over its smallest cover exists |
| `Regions.EncodableIff` | arch/arm/mpu_v7m.c:112-138 | with a smallest cover of 256 bytes or more, some region grants exactly the range if and only if the encoding exists |
| `Regions.EncodableAligned` | arch/arm/mpu_v7m.c:127-132 | for every smallest cover, some region grants exactly the range if and only if both ends are multiples of 32 bytes or of an eighth of the cover, whichever is larger |
| `Regions.RegionExact` | arch/arm/mpu_v7m.c:112-138 | a success is exact if and only if the range does not cross the middle; below the top it succeeds if and only if some region grants exactly the range, or with a cover under 256 bytes if and only if the range is the whole cover |
| `Regions.CrossingRefusal` | arch/arm/mpu_v7m.c:112-138 | a refusal of a range across the middle is right |
| `Regions.TopIff` | arch/arm/mpu_v7m.c:64-70 | when the smallest cover ends at the top, exactly when the answer is right |
| `Regions.TopExample` | arch/arm/mpu_v7m.c:64-70 | a refused range that one region encodes |
| `Regions.SmallExample` | arch/arm/mpu_v7m.c:126-128 | a refused range of less than 256 bytes that one region encodes |
| `Regions.CrossingExample` | arch/arm/mpu_v7m.c:64-70 | an accepted range of which only half is granted |

## Left out

- Priority inheritance in IPC: the boost is undone only by a successful reply, so nested receives and timeouts are outside any simple law.
- Thread suspend and resume while blocked: they overwrite the blocked state the IPC invariants are about.
- Ipc.Kernel.ReplyRecv: a reply to a call that is still queued is excluded; `Ipc.Kernel.Reply` says what it does and that the invariants end there.
- Ipc.Kernel.KillBegin: the dying thread leaves queue, notification and call in one step and makes no calls from then on; the scheduler and memory parts of a kill are not modelled.
- Ipc.Kernel.NotifWake: the writes that make a thread ready are one step, and what they do to the freed control block of a killed thread is not followed.
- Ipc.Kernel.DestroyWake: the same; that the block is freed is in the result.
- Ipc.Kernel.KillWake: the same.
- Ipc.Kernel.Drive: a step outside its exact condition, after which the invariants do not hold, is not followed.
- Ipc.Kernel.TakeNext: an endpoint freed between its lookup and the lock section that uses it is excluded; only going inactive in between is modelled.
- Ipc.Kernel.RecvOrNotifLocked: the same for an endpoint or notification.
- IpcState.StaleIsHarmless: a freed notification reads as absent, where the source reads freed memory; `Ipc.DeadLookup` says in which states that can be.
- Ipc.Kernel.NotifWait: the second test for pending bits under the same lock can find nothing and is not repeated; the branch for a failing timer arm is not modelled.
- AreaOps.Areas.MemMap: which block the heap gives is a parameter; the heap itself is `TlsfHeap`.
- AreaOps.Areas.MemUnmap: the settle that follows is not in the contract; `Backing` makes the drop a step of `Settle`, where it follows.
- AreaOps.Areas.MemRevoke: the settle that follows is not in the contract, as for `AreaOps.Areas.MemUnmap`.
- TimerWheel.Wheel.Tick: one wheel is modelled instead of one per CPU, and `ulmk_timer_run`, which no caller uses, is left out.
- TlsfHeap.Heap.constructor: a pool that ends before its own aligned start is not admitted; `TlsfHeap.PoolInside` says that it would not stay inside.
- TlsfHeap.Heap.Alloc: requests above 0xE0000000 are not admitted; `TlsfClasses.RequestDefined` says that the search for them is not defined.
- TlsfHeap.Heap.AlignedAlloc: sums above 0xE0000000 are not admitted; `TlsfClasses.SearchDefined` says what the search for them is.
- Sv32.Hart.StaticUser: reading back `satp` and the PMP entry that opens the address space are not modelled.
- RunQueue.FifoRq.Enqueue: a thread that is queued already is not admitted; the source would link its node twice.
- Sched.Cpu.TrapDispatch: one CPU; interprocessor kicks, reaping of dead threads and the context switch itself are not modelled.
- Windows.PmpSlots.Load: static and pinned entries and the bit layout of the configuration registers are not modelled.
- Attribute bits of regions and entries, register writes, assembly, interrupt controllers, the system-call router, capabilities and the device manager: they add only easy members.
- TriCore and ARMv8-M protection units: the same lazy windows with simpler arithmetic.
