# Verified models of the OS/161 kernel, its runtime library, and the lab exercises

This project models the parts of the repository whose correctness is hardest to see, and
proves in Dafny what their documentation and comments promise. `dafny verify dfyconfig.toml`
checks all of it. Code that changes things in place is a class or a method over arrays;
concurrent code is a step machine in which any thread or CPU may move next.

| files | what they model |
|---|---|
| `Words`, `Digits` | machine words and digit strings in a symbolic base |
| `LongDivision`, `Shifts`, `QDivRem`, `SignedDivision` | 64-bit division from half-int digits: Knuth's Algorithm D (TAOCP vol. 2, section 4.3.1) |
| `Multiplication` | 64-bit multiplication with three products (section 4.3.3) |
| `ThreadSystem`, `ThreadSteps` | the kernel thread system: state, invariant, steps |
| `ThreadSafety`, `ThreadLocalSteps`, `ThreadLists`, `ThreadListSteps`, `ThreadTurns`, `ThreadLives`, `ThreadRuns` | the invariant through every step and every run |
| `ThreadEffects`, `ThreadWakeups` | what each step changes; who is woken, queued and back over whole runs |
| `ThreadProgress` | no deadlock on run queue and channel locks |
| `ThreadShare` | a migration that nobody disturbs |
| `ThreadLinks` | the doubly linked thread list |
| `Semaphore` | P and V |
| `SfsVolume`, `SfsBytes`, `SfsFile`, `SfsRuns` | SFS blocks, freemap, block mapping, file I/O, truncation |
| `SfsSlots`, `SfsDirectory`, `SfsNamespace` | SFS names, link counts, resident vnodes |
| `Bitmap`, `Uio` | the bit array behind the freemap; scatter and gather |
| `HeapBlocks`, `Heap` | the lab1 heap with compaction |
| `SubpagePages`, `SubpageHeap`, `SubpageSafety` | the kernel subpage allocator: pages, steps of any number of threads, invariant |
| `SubpageCode` | its code, in place, each critical section refining one step |
| `BlockingQueue` | the bounded monitor queue |
| `Numerals`, `Printf` | printf number output and atoi |

## Main results

- `QDivRem.QDivRem`, `SignedDivision.DivDi3`, `SignedDivision.ModDi3`, `Multiplication.LMulQ`,
  `Multiplication.MulDi3`: the arithmetic is exact for every operand and every digit size.
- `ThreadRuns`: over every run, with any number of CPUs and threads and any interleaving, no
  kernel assertion fails; every thread is on at most one list and none is lost; run queues
  hold their own threads; no thread is current twice; switched-out threads have an
  interrupt-disable count of exactly two; no runnable thread is stranded on an idle CPU.
- `ThreadWakeups.EveryoneWokenIsQueued`, `ThreadWakeups.SleepersAreWoken`, `ThreadWakeups.SwitchRestoresSpl`: wakeups
  take exactly the threads they should, which get to the run queues of their CPUs; a sleeper comes
  back only after a wakeup on its channel; thread_switch gives the interrupt level back.
- `ThreadProgress.NobodyDeadlocks`: the locks of the thread system cannot deadlock.
- `ThreadShare.Kernel.ConsiderMigration`: the exact outcome of an undisturbed migration.
- `Semaphore.ThroughP`: nobody gets through P without a decrement of its own; `Semaphore.NoLostWakeup`, and
  `Semaphore.WokenInTurn`: first come, first served on the channel.
- `BlockingQueue.BoundedFifo`, `BlockingQueue.PutsAreCalls`, `BlockingQueue.NobodyWaitsInVain`.
- `SfsRuns.Run`: file operations refine flat byte sequences, and blocks in use stay distinct
  and marked, transfers failing or not, from any volume mksfs made; every error has its cause.
- `SfsNamespace`: link counts equal the number of names after every operation, errors included; reference
  counts balance, and a removed file is gone, unless a transfer failed.
- `Heap`: the two lists tile the heap; compaction keeps all bytes and pointers translate.
- `SubpageSafety.RunIsSafe` and what follows from it: live blocks are disjoint, aligned and
  big enough, and keep their contents, although kmalloc drops its lock in the middle.
- `SubpageCode.Allocator`: the allocator's code, in place, takes exactly the steps of that machine.
- `Printf.PrintField`: what a number field prints, told from the text alone; `Printf.RoundTrip`: exactly when atoi reads back what %d printed.

## How to read the models

- A predicate of the form `forall k: int {:trigger Spelled(k)} :: k == 0 ==> P` is `P`, folded:
  the solver looks inside only where a proof writes `Spelled(0)`.
- The digit base B is two to the power of `h`, half the bits of an int, for every positive `h`; sums that wrap
  are written with `Wrap`.
- A thread of the step machine remembers how far its own code, an interrupt handler,
  thread_switch, and a handler taken while idling have got. Threads taken off a list and
  not yet put on another are in its hands. A lock that is taken and released again with
  nothing in between that others can see is one step.
- `roles` in `SfsVolume.Vol`, `chains` and `live` in `SubpageHeap.Heap`, and `put` and `taken` in
  `BlockingQueue.Monitor` record things the code does not store; no step looks at them to
  decide anything.
- Disk blocks have types (bytes, block numbers, inode, cleared) instead of encodings; a
  cleared block reads as either.
- Device transfers, user copies and page allocations take their outcome from a parameter or
  field, so the theorems hold for every pattern of failures.

## Assumptions

- Heap: the size is positive and below SIZE_MAX, a request plus 7 does not wrap (`HeapBlocks.AlignIsExact`
  says what happens otherwise), and the mallocs of list nodes succeed. heapNewPointer is
  called with no fewer used blocks than there were at the compaction.
- SFS: fewer than 2^23 blocks, offset plus length below 2^32; a device transfer is done, or
  fails with nothing moved, also where the device copies to or from the user itself.
- uiomove: n is at most uio_resid, which is at most the total length of the iovecs; the code
  does not clip to uio_resid.
- kmalloc: kfree is called on live pointers only, and alloc_kpages gives a page not in use.
- Printf: a field width is below 2^31.
- Threads: no spinlock other than those of the thread system is held at a sleep, yield, exit,
  migration or return from an interrupt. That every switched-out thread counts two rests on it.
- cpu_idle enables interrupts atomically with waiting; test-and-set is atomic.

## Where the code differs from what one may expect

- sfs_write of zero bytes beyond the end of a file extends the file
  (Cabodi/os161/src/kern/fs/sfs/sfs_vnode.c:525-531), even past the largest file that can be read.
- A write whose last transfer or user copy fails still extends the file by what the uio moved; the bytes
  not stored keep their old values (`SfsFile.Sfs.Write`). Seen on the directory, this leaves an
  empty slot.
- A truncation that cannot read the indirect block keeps the file size: the bytes of the direct
  blocks become zeros, those behind them keep their values (`SfsFile.Sfs.Truncate`).
- sfs_link accepts the root directory as the file; renaming that name then fails an assertion
  (`SfsNamespace.Namespace.Rename`).
- With both - and 0 printf pads on the right with zeros, so atoi reads another number;
  `Printf.RoundTrip` gives the exact condition.
- heapDefrag with nothing in use leaves the list of an earlier compaction in place.
- MIN / -1 gives MIN (`SignedDivision.DivDi3`).
- A migrating CPU whose current thread sits among the last in its queue ends with one thread
  more than its share (`ThreadShare.Balanced`).
- t_state is not where a thread is: a woken thread stays S_SLEEP on the run queue until it
  runs. The invariant speaks of lists and t_cpu instead.

## Model

| member | source | states |
|---|---|---|
| `QDivRem.QDivRem` | Cabodi/os161/src/common/gcc-millicode/qdivrem.c:67-263 | for every digit size, dividend and divisor: divide-by-zero exactly when v is 0, otherwise u = q*v + r and r < v |
| `LongDivision.TrialDigit` | Cabodi/os161/src/common/gcc-millicode/qdivrem.c:185-210 | the digit guessed from the leading digits of dividend and divisor is the true digit or exactly one more |
| `LongDivision.FirstGuess` | Cabodi/os161/src/common/gcc-millicode/qdivrem.c:196-204 | the first guess and its remainder; equal leading digits take the jump into the correcting loop |
| `LongDivision.TrialQuotient` | Cabodi/os161/src/common/gcc-millicode/qdivrem.c:193-210 | after step D3 qhat is the largest digit that does not overshoot on the top three digits |
| `LongDivision.CorrectGuess` | Cabodi/os161/src/common/gcc-millicode/qdivrem.c:205-210 | the loop that lowers qhat, entered at its test or in its middle |
| `LongDivision.BorrowIsExact` | Cabodi/os161/src/common/gcc-millicode/qdivrem.c:218-220 | the borrow (B - HHALF(t)) & (B - 1) taken from the wrapped word is the true borrow |
| `LongDivision.MultiplySubtract` | Cabodi/os161/src/common/gcc-millicode/qdivrem.c:217-223 | step D4 subtracts qhat*v from the window in place, short by exactly one digit position if HHALF(t) is set |
| `LongDivision.AddBack` | Cabodi/os161/src/common/gcc-millicode/qdivrem.c:230-238 | step D6 adds v to the window in place, modulo its size |
| `LongDivision.DigitWasRight` | Cabodi/os161/src/common/gcc-millicode/qdivrem.c:224-229 | without a borrow the trial digit was right and the window holds the remainder |
| `LongDivision.DigitWasOneTooLarge` | Cabodi/os161/src/common/gcc-millicode/qdivrem.c:224-238 | with a borrow the trial digit was exactly one too large and adding back gives the remainder |
| `LongDivision.DivideDigit` | Cabodi/os161/src/common/gcc-millicode/qdivrem.c:182-240 | one turn of the digit loop: qhat is the quotient of the window by v and the window becomes the remainder; the rest of u is untouched |
| `QDivRem.ShortDivide` | Cabodi/os161/src/common/gcc-millicode/qdivrem.c:124-149 | the unrolled division by a one-digit divisor gives quotient and remainder |
| `QDivRem.ShortDigit` | Cabodi/os161/src/common/gcc-millicode/qdivrem.c:137-139 | one digit of the short division extends quotient and remainder by the next dividend digit |
| `QDivRem.DivisorSize` | Cabodi/os161/src/common/gcc-millicode/qdivrem.c:123-124 | how the loop finds the leading nonzero digit of v, and when it changes to the short division |
| `QDivRem.DividendSize` | Cabodi/os161/src/common/gcc-millicode/qdivrem.c:157-158 | skipping leading zeros of u stops with m >= 0, since u is not below v |
| `QDivRem.NormalShift` | Cabodi/os161/src/common/gcc-millicode/qdivrem.c:169-171 | d is the shift that brings the top bit of v[1] into place |
| `QDivRem.Normalize` | Cabodi/os161/src/common/gcc-millicode/qdivrem.c:169-175 | step D1 multiplies both numbers by the same power of two without losing a digit |
| `QDivRem.DigitLoop` | Cabodi/os161/src/common/gcc-millicode/qdivrem.c:179-240 | steps D2 to D7 leave all quotient digits in q and the remainder in the low digits of u |
| `QDivRem.DivideNormalized` | Cabodi/os161/src/common/gcc-millicode/qdivrem.c:159-262 | the four digits at qspace[1] spell the quotient |
| `QDivRem.TakeRemainder` | Cabodi/os161/src/common/gcc-millicode/qdivrem.c:247-258 | shifting u[m..m+n] back down gives the remainder |
| `QDivRem.LongDivide` | Cabodi/os161/src/common/gcc-millicode/qdivrem.c:153-262 | program D as a whole, with the sizes of both numbers known |
| `Shifts.ShiftLeft` | Cabodi/os161/src/common/gcc-millicode/qdivrem.c:270-279 | shl multiplies p[0..len] by the power of two in place, writing exactly len+1 digits |
| `Shifts.ShiftRight` | Cabodi/os161/src/common/gcc-millicode/qdivrem.c:249-253 | the in-place right shift divides the digits from m on by the power of two |
| `SignedDivision.TruncLaw` | Cabodi/os161/src/common/gcc-millicode/divdi3.c:41-62 | (a/b)*b + a%b = a, with a remainder smaller than b and of the sign of a: section 6.5.5 of ISO/IEC 9899:1999 |
| `SignedDivision.TruncUnique` | Cabodi/os161/src/common/gcc-millicode/moddi3.c:41-62 | that law determines quotient and remainder |
| `SignedDivision.DivDi3` | Cabodi/os161/src/common/gcc-millicode/divdi3.c:44-62 | the truncated quotient for all a and b != 0, except MIN / -1, which gives MIN |
| `SignedDivision.ModDi3` | Cabodi/os161/src/common/gcc-millicode/moddi3.c:45-62 | the truncated remainder for all a and b != 0 |
| `Multiplication.ThreeProducts` | Cabodi/os161/src/common/gcc-millicode/muldi3.c:48-96 | Knuth's identity behind both multiplications |
| `Multiplication.LMulQ` | Cabodi/os161/src/common/gcc-millicode/muldi3.c:183-241 | the exact double-width product of any two ints, although every intermediate sum wraps |
| `Multiplication.OuterProducts` | Cabodi/os161/src/common/gcc-millicode/muldi3.c:196-212 | high and middle product of the halves; the sign of the middle one is kept aside |
| `Multiplication.CombineProducts` | Cabodi/os161/src/common/gcc-millicode/muldi3.c:214-240 | the three products combined with hand-made carries and borrows spell the product |
| `Multiplication.AddShifted` | Cabodi/os161/src/common/gcc-millicode/muldi3.c:218-227 | the wrapped comparison with `was` is the carry, or the borrow, of a double-word addition |
| `Multiplication.MulMagnitudes` | Cabodi/os161/src/common/gcc-millicode/muldi3.c:124-158 | the product of the magnitudes modulo the size of a long long |
| `Multiplication.MiddleAndLow` | Cabodi/os161/src/common/gcc-millicode/muldi3.c:140-157 | dropping the upper words of high and mid changes nothing modulo that size |
| `Multiplication.MulDi3` | Cabodi/os161/src/common/gcc-millicode/muldi3.c:99-164 | a*b modulo the size of a long long, as a signed number: in range, and different from a*b by whole words, for every a and b including the minimum |
| `ThreadRuns.StepIsSafe` | Cabodi/os161/src/kern/thread/thread.c:274-971 | whatever any CPU does next, the assertions of the kernel hold and the invariant holds afterwards |
| `ThreadRuns.BootedIsSafe` | Cabodi/os161/src/kern/thread/thread.c:350-427 | the booted system, any number of CPUs each on its own boot thread, satisfies the invariant |
| `ThreadRuns.RunIsSafe` | Cabodi/os161/src/kern/thread/thread.c:274-971 | the invariant holds at every point of every run |
| `ThreadRuns.AssertionsHold` | Cabodi/os161/src/kern/thread/thread.c:274-971 | no assertion fails on any run: nodes are unlinked when linked, lists are not empty when an element is taken, locks released are held |
| `ThreadRuns.OneListEach` | Cabodi/os161/src/kern/thread/thread.c:434-1104 | in every reachable state a thread is linked on at most one list, at one position |
| `ThreadRuns.NobodyIsLost` | Cabodi/os161/src/kern/thread/thread.c:434-465 | a thread is on the list its node names, or it is running; none is dropped |
| `ThreadRuns.QueuesHoldOwnThreads` | Cabodi/os161/src/kern/thread/thread.c:442-453 | every thread on the run queue of CPU c has t_cpu = c |
| `ThreadRuns.CurrentOnOneCpu` | Cabodi/os161/src/kern/thread/thread.c:557-558 | no thread is current on two CPUs, and a current thread has its CPU in t_cpu |
| `ThreadRuns.SwitchedOutCountsTwo` | Cabodi/os161/src/kern/thread/thread.c:515-520 | every switched-out thread, new ones included, has t_iplhigh_count exactly 2 |
| `ThreadRuns.MaskFollowsCount` | Cabodi/os161/src/kern/thread/spl.c:86-124 | interrupts are off on a CPU exactly while the count of its current thread is positive |
| `ThreadRuns.OneHolderEach` | Cabodi/os161/src/kern/thread/spinlock.c:72-127 | two CPUs never hold the same run queue lock |
| `ThreadRuns.NobodyIsStranded` | Cabodi/os161/src/kern/thread/thread.c:620-645 | a CPU parked in cpu_idle with a non-empty run queue has IPI_UNIDLE pending, unless the CPU holding its run queue lock sends it next |
| `ThreadRuns.Population` | Cabodi/os161/src/kern/thread/thread.c:274-539 | threads come from thread_fork and go in exorcise only; migration conserves them |
| `ThreadProgress.NoSelfDeadlock` | Cabodi/os161/src/kern/thread/spinlock.c:79-88 | no CPU waits for a run queue lock it holds, so that panic cannot happen there |
| `ThreadProgress.NoSelfDeadlockOnChannel` | Cabodi/os161/src/kern/thread/spinlock.c:79-88 | nor for a wait channel lock it holds |
| `ThreadProgress.NobodyDeadlocks` | Cabodi/os161/src/kern/thread/thread.c:434-971 | a CPU inside the thread system can go on, or waits for a run queue lock whose holder, another CPU, can |
| `ThreadProgress.ChannelsDoNotDeadlock` | Cabodi/os161/src/kern/thread/thread.c:1017-1104 | whoever holds a wait channel lock can go on, or waits for its run queue lock, whose holder can |
| `ThreadWakeups.WakesAll` | Cabodi/os161/src/kern/thread/thread.c:1047-1104 | wchan_wakeall takes every thread off the channel and wchan_wakeone exactly the first; they are then in the hand of the caller, in the order they slept, and no other channel changes |
| `ThreadWakeups.InHandOrQueued` | Cabodi/os161/src/kern/thread/thread.c:434-465 | whatever any CPU does, a thread in the hand of one that wakes stays there or is put by it at the end of the run queue of its t_cpu |
| `ThreadWakeups.WokenAreQueued` | Cabodi/os161/src/kern/thread/thread.c:434-465 | on every run: a thread leaves such a hand only for the run queue of its t_cpu |
| `ThreadWakeups.EveryoneWokenIsQueued` | Cabodi/os161/src/kern/thread/thread.c:1047-1104 | on every run: wchan_wakeall empties the channel, wchan_wakeone takes its first thread, and when the caller is back each of them has been put on the run queue of its t_cpu by the caller |
| `ThreadWakeups.SleepIsAsleep` | Cabodi/os161/src/kern/thread/thread.c:1035-1042 | wchan_sleep puts its caller to sleep on the channel it has locked |
| `ThreadWakeups.StaysAsleep` | Cabodi/os161/src/kern/thread/thread.c:592-612 | a sleeper, or a thread on its way with the channel locked, stays so until a wakeup on that very channel takes it |
| `ThreadWakeups.SleepersAreWoken` | Cabodi/os161/src/kern/thread/thread.c:1035-1104 | on every run: who sleeps on a channel comes back from thread_switch only after a wakeup on that channel has taken it off |
| `ThreadWakeups.SavedIsKept` | Cabodi/os161/src/kern/thread/thread.c:560-724 | every step keeps the interrupt level thread_switch remembers, and the level is that one when it ends |
| `ThreadWakeups.SwitchRestoresSpl` | Cabodi/os161/src/kern/thread/thread.c:560-724 | on every run: when a thread comes back from thread_switch, on whatever CPU, its interrupt level is the one it had |
| `ThreadWakeups.SwitchIsEntered` | Cabodi/os161/src/kern/thread/thread.c:828-831 | what wchan_sleep and thread_yield have thread_switch remember is the level they run at |
| `ThreadEffects.ListsChange` | Cabodi/os161/src/kern/thread/thread.c:274-1104 | for every step, how run queues, channels, zombie lists, current threads, t_cpu and pending interrupts change: who joins which end, who leaves from where, and nothing else |
| `ThreadEffects.CodeGoes` | Cabodi/os161/src/kern/thread/thread.c:274-1104 | for every step, where the code of the running thread goes on, with which locals, interrupt level and threads in hand; the frames under it stay |
| `ThreadEffects.OthersAre` | Cabodi/os161/src/kern/thread/thread.c:552-724 | a step changes the context of no other thread |
| `ThreadSafety.SplKeepsMask` | Cabodi/os161/src/kern/thread/spl.c:86-155 | splraise, spllower and splx keep interrupt mask and count in step |
| `ThreadLocalSteps.SplStep` | Cabodi/os161/src/kern/thread/spl.c:131-155 | keeps the whole invariant: splhigh and spl0 in the code of a thread |
| `ThreadLocalSteps.SpinAcquireStep` | Cabodi/os161/src/kern/thread/spinlock.c:72-111 | keeps the whole invariant: taking some other spinlock, which raises the count |
| `ThreadLocalSteps.SpinReleaseStep` | Cabodi/os161/src/kern/thread/spinlock.c:116-127 | its count is positive before a release; keeps the whole invariant: releasing it |
| `ThreadLives.ForkStep` | Cabodi/os161/src/kern/thread/thread.c:478-539 | keeps the whole invariant: a new thread, with the count its first release and spl0 will use up |
| `ThreadLives.SwitchPickStep` | Cabodi/os161/src/kern/thread/thread.c:636-659 | the lock is held, and the thread drawn is either the current one or waits inside switchframe_switch; keeps the whole invariant: switching to it, or going idle with the lock free |
| `ThreadLocalSteps.SwitchResumeStep` | Cabodi/os161/src/kern/thread/thread.c:707-724 | the lock handed over is held and the count is 2; keeps the whole invariant: coming out of switchframe_switch or starting in thread_startup |
| `ThreadLocalSteps.SwitchDoneStep` | Cabodi/os161/src/kern/thread/thread.c:723-724 | keeps the whole invariant: splx at the end of thread_switch and thread_startup |
| `ThreadLives.ExorciseStep` | Cabodi/os161/src/kern/thread/thread.c:274-285 | the zombie has exited and is current on no CPU; keeps the whole invariant: destroying it |
| `ThreadLocalSteps.SwitchLockStep` | Cabodi/os161/src/kern/thread/thread.c:560-585 | keeps the whole invariant: taking the run queue lock, with the early return when there is nothing else to run |
| `ThreadTurns.SwitchPlaceStep` | Cabodi/os161/src/kern/thread/thread.c:587-617 | the node is unlinked, run queue and channel are locked; keeps the whole invariant: the current thread queues itself while its CPU still runs on its stack |
| `ThreadLocalSteps.IdleReturnStep` | Cabodi/os161/src/kern/thread/thread.c:636-645 | keeps the whole invariant: coming out of cpu_idle, so no wakeup is lost there |
| `ThreadLocalSteps.IdleRelockStep` | Cabodi/os161/src/kern/thread/thread.c:643 | keeps the whole invariant: taking the lock again before looking at the queue |
| `ThreadLocalSteps.SleepStep` | Cabodi/os161/src/kern/thread/thread.c:1035-1042 | keeps the whole invariant: wchan_sleep enters thread_switch with the channel still locked |
| `ThreadListSteps.TakeWaitersStep` | Cabodi/os161/src/kern/thread/thread.c:1047-1104 | keeps the whole invariant: taking threads off a channel into a private list; whom wchan_wakeone and wchan_wakeall take is stated by ThreadWakeups.WakesAll |
| `ThreadLocalSteps.WakeLockStep` | Cabodi/os161/src/kern/thread/thread.c:442-450 | keeps the whole invariant: locking the run queue of the CPU a thread belongs to |
| `ThreadListSteps.WakeAddStep` | Cabodi/os161/src/kern/thread/thread.c:452-453 | the lock is held and the node is free to be linked; keeps the whole invariant: queueing, with the interrupt to an idle CPU still to be sent |
| `ThreadLocalSteps.WakeIpiStep` | Cabodi/os161/src/kern/thread/thread.c:454-460 | keeps the whole invariant: the interrupt is pending before the lock is released |
| `ThreadLocalSteps.MigrateStep` | Cabodi/os161/src/kern/thread/thread.c:868-885 | keeps the whole invariant: starting a migration inside an interrupt handler |
| `ThreadLocalSteps.CountDoneStep` | Cabodi/os161/src/kern/thread/thread.c:887-892 | keeps the whole invariant: the number to send does not exceed the own queue |
| `ThreadListSteps.TakeVictimsStep` | Cabodi/os161/src/kern/thread/thread.c:893-899 | there are as many threads queued as will be taken, whatever other CPUs did meanwhile; keeps the whole invariant: taking them |
| `ThreadTurns.MoveOneStep` | Cabodi/os161/src/kern/thread/thread.c:907-944 | there is a victim to draw and the lock is held; keeps the whole invariant: moving it, or passing over the current thread |
| `ThreadLocalSteps.MoveIpiStep` | Cabodi/os161/src/kern/thread/thread.c:945-951 | keeps the whole invariant: interrupting an idle CPU that got a thread |
| `ThreadListSteps.ReturnVictimsStep` | Cabodi/os161/src/kern/thread/thread.c:961-967 | keeps the whole invariant: putting leftovers back on the own queue |
| `ThreadShare.ShareIsLeast` | Cabodi/os161/src/kern/thread/thread.c:889 | DIVROUNDUP gives the least share with which all CPUs together hold all threads |
| `ThreadShare.RoomForExcess` | Cabodi/os161/src/kern/thread/thread.c:889-895 | what one CPU has above its share, the others are short of |
| `ThreadShare.Kernel.CountThreads` | Cabodi/os161/src/kern/thread/thread.c:877-887 | the first loop counts the own and all queued threads |
| `ThreadShare.Kernel.TakeVictims` | Cabodi/os161/src/kern/thread/thread.c:894-900 | threads taken from the tail keep their order |
| `ThreadShare.Kernel.MoveVictim` | Cabodi/os161/src/kern/thread/thread.c:908-951 | one victim handed over, or the current thread passed over |
| `ThreadShare.Kernel.FillCpu` | Cabodi/os161/src/kern/thread/thread.c:902-953 | a CPU gets threads until it has its share or none is left to send |
| `ThreadShare.Kernel.SendVictims` | Cabodi/os161/src/kern/thread/thread.c:902-954 | with nobody interfering the other CPUs take all there is to send |
| `ThreadShare.Kernel.ReturnVictims` | Cabodi/os161/src/kern/thread/thread.c:956-967 | leftovers go to the tail of the own queue, in order |
| `ThreadShare.Kernel.ConsiderMigration` | Cabodi/os161/src/kern/thread/thread.c:868-971 | undisturbed, a CPU below its share does nothing; any other keeps exactly its first one_share threads, and the current thread if it was queued behind those; the others get the rest in order, nobody above one_share; t_cpu and IPIs follow |
| `ThreadShare.NoThreadLost` | Cabodi/os161/src/kern/thread/thread.c:868-971 | such an outcome conserves the threads, and leaves exactly one_share when the current thread is not queued |
| `ThreadLinks.InsertAfterNode` | Cabodi/os161/src/kern/thread/threadlist.c:105-120 | the node is put behind another, all links repaired |
| `ThreadLinks.InsertBeforeNode` | Cabodi/os161/src/kern/thread/threadlist.c:125-140 | the same in front of another |
| `ThreadLinks.RemoveNode` | Cabodi/os161/src/kern/thread/threadlist.c:145-156 | the node is taken out and is unlinked afterwards |
| `ThreadLinks.List.constructor` | Cabodi/os161/src/kern/thread/threadlist.c:60-71 | an empty list between its sentinels |
| `ThreadLinks.List.IsEmpty` | Cabodi/os161/src/kern/thread/threadlist.c:91-97 | whether the list is empty |
| `ThreadLinks.List.AddHead` | Cabodi/os161/src/kern/thread/threadlist.c:162-170 | prepends |
| `ThreadLinks.List.AddTail` | Cabodi/os161/src/kern/thread/threadlist.c:172-180 | appends |
| `ThreadLinks.List.RemHead` | Cabodi/os161/src/kern/thread/threadlist.c:182-198 | takes the first thread, or answers that there is none |
| `ThreadLinks.List.RemTail` | Cabodi/os161/src/kern/thread/threadlist.c:200-216 | takes the last one |
| `ThreadLinks.List.InsertAfter` | Cabodi/os161/src/kern/thread/threadlist.c:218-224 | inserts behind a member |
| `ThreadLinks.List.InsertBefore` | Cabodi/os161/src/kern/thread/threadlist.c:226-232 | inserts in front of a member |
| `ThreadLinks.List.Remove` | Cabodi/os161/src/kern/thread/threadlist.c:234-240 | removes a member |
| `ThreadLinks.List.Walk` | Cabodi/os161/src/kern/include/threadlist.h:89-93 | THREADLIST_FORALL meets every thread, in order |
| `ThreadLinks.MoveHead` | Cabodi/os161/src/kern/thread/thread.c:908-942 | a thread moved between lists leaves both well formed and disjoint |
| `Semaphore.MoveIsSafe` | Cabodi/os161/src/kern/thread/synch.c:90-144 | every move of any thread keeps locks, queue and count right |
| `Semaphore.RunIsSafe` | Cabodi/os161/src/kern/thread/synch.c:90-144 | so the invariant holds throughout every run |
| `Semaphore.CountIsExact` | Cabodi/os161/src/kern/thread/synch.c:127-141 | sem_count is always initial + Vs - decrements, and never negative; which turns of P and V these are is stated by ThroughP |
| `Semaphore.OwnTurns` | Cabodi/os161/src/kern/thread/synch.c:90-144 | in the turns of one thread each return from P follows its own decrement and each decrement its own entry |
| `Semaphore.AllTurns` | Cabodi/os161/src/kern/thread/synch.c:90-144 | over all threads, decrements and returns from P differ by the threads between the two |
| `Semaphore.ThroughP` | Cabodi/os161/src/kern/thread/synch.c:98-144 | on every run: no more returns from P than initial + increments by V, and sem_count is initial + increments - returns, less one while somebody is between its decrement and its return |
| `Semaphore.WokenInTurn` | Cabodi/os161/src/kern/thread/thread.c:1047-1067 | on every run the wait channel holds those that went to sleep, in that order, without the first ones, which were woken: V wakes first come first served |
| `Semaphore.NoLostWakeup` | Cabodi/os161/src/kern/thread/synch.c:104-126 | with sem_lock free and somebody waiting, sem_count is at most the number of woken threads still to retry |
| `Semaphore.SleepersMeanZero` | Cabodi/os161/src/kern/thread/synch.c:104-126 | once all others are outside, a sleeper means the count is zero |
| `Semaphore.HoldersMove` | Cabodi/os161/src/kern/thread/synch.c:121-125 | the bridge from sem_lock to the channel lock cannot deadlock |
| `SfsVolume.UsesAreDistinct` | Cabodi/os161/src/kern/fs/sfs/sfs_vnode.c:89-132 | inodes, indirect blocks and data blocks in use are pairwise distinct, marked, and none is the superblock or the freemap |
| `SfsVolume.ExactMarks` | Cabodi/os161/src/kern/fs/sfs/sfs_vnode.c:89-132 | if nothing leaked, the freemap marks nothing else below sp_nblocks |
| `SfsVolume.GrowsOk` | Cabodi/os161/src/kern/fs/sfs/sfs_vnode.c:178-187 | putting a free block to use keeps that |
| `SfsVolume.ShrinksOk` | Cabodi/os161/src/kern/fs/sfs/sfs_vnode.c:1156-1211 | so does giving back blocks together with every reference to them |
| `SfsVolume.ShrinksBytes` | Cabodi/os161/src/kern/fs/sfs/sfs_vnode.c:1156-1211 | only the bytes of the freed blocks are lost |
| `SfsBytes.OverlaidContents` | Cabodi/os161/src/kern/fs/sfs/sfs_vnode.c:525-531 | once the size covers the data, the file is what a flat write makes of it |
| `SfsBytes.StoreOverlays` | Cabodi/os161/src/kern/fs/sfs/sfs_vnode.c:360-373 | patching a block and storing it writes exactly those bytes of that file |
| `SfsFile.Sfs.constructor` | Cabodi/os161/src/kern/fs/sfs/sfs_vnode.c:89-132 | a sound volume to start from, no inode dirty |
| `SfsFile.Sfs.Transfer` | Cabodi/os161/src/kern/fs/sfs/sfs_io.c:46-87 | a transfer fails exactly when it is due to; failures are counted |
| `SfsFile.Sfs.UserCopy` | Cabodi/os161/src/kern/lib/uio.c:82-103 | a user copy gets through, or faults after the bytes it got to; faults are counted |
| `SfsFile.Sfs.LowestClear` | Cabodi/os161/src/kern/lib/bitmap.c:99-122 | the lowest clear bit, or none |
| `SfsFile.Sfs.BAlloc` | Cabodi/os161/src/kern/fs/sfs/sfs_vnode.c:89-107 | a free block is marked and cleared; ENOSPC exactly on a full volume; a failed clearing leaves it marked and unused |
| `SfsFile.Sfs.BFree` | Cabodi/os161/src/kern/fs/sfs/sfs_vnode.c:112-118 | one mark less; bitmap_unmark finds the block marked |
| `SfsFile.Sfs.Bmap` | Cabodi/os161/src/kern/fs/sfs/sfs_vnode.c:144-290 | the disk block of a file block, always a marked one, so the panic cannot happen; with doalloc a missing one is made, and no byte of any file changes; EFBIG exactly from block 143 on |
| `SfsFile.Sfs.BmapDirect` | Cabodi/os161/src/kern/fs/sfs/sfs_vnode.c:169-198 | the direct blocks |
| `SfsFile.Sfs.BmapIndirect` | Cabodi/os161/src/kern/fs/sfs/sfs_vnode.c:206-261 | the indirect block, made or read |
| `SfsFile.Sfs.NewIndirect` | Cabodi/os161/src/kern/fs/sfs/sfs_vnode.c:231-250 | a fresh, cleared indirect block for a file without one |
| `SfsFile.Sfs.BmapEntry` | Cabodi/os161/src/kern/fs/sfs/sfs_vnode.c:263-289 | the entry in the indirect block, made or found |
| `SfsFile.Sfs.Buffered` | Cabodi/os161/src/kern/fs/sfs/sfs_vnode.c:316-350 | the block in the buffer, zeros for a missing one |
| `SfsFile.Sfs.PartialRead` | Cabodi/os161/src/kern/fs/sfs/sfs_vnode.c:306-376 | part of a block read; EIO comes of a transfer that failed and EFAULT of a user copy that faulted, after the bytes it got to, and of nothing else |
| `SfsFile.Sfs.BlockRead` | Cabodi/os161/src/kern/fs/sfs/sfs_vnode.c:381-441 | a whole block read; a missing one reads as zeros; an error leaves a prefix |
| `SfsFile.Sfs.ReadBlocks` | Cabodi/os161/src/kern/fs/sfs/sfs_vnode.c:492-503 | whole blocks read in a row |
| `SfsFile.Sfs.ReadAligned` | Cabodi/os161/src/kern/fs/sfs/sfs_vnode.c:489-521 | whole blocks and trailing part joined |
| `SfsFile.Sfs.ReadInside` | Cabodi/os161/src/kern/fs/sfs/sfs_vnode.c:475-521 | leading part, whole blocks and trailing part joined |
| `SfsFile.Sfs.Read` | Cabodi/os161/src/kern/fs/sfs/sfs_vnode.c:446-541 | sfs_read returns the bytes of the file at that offset, up to its end; on an error a prefix; each EIO is a transfer that was due to fail and each EFAULT a user copy that was due to fault |
| `SfsFile.Sfs.PartialWrite` | Cabodi/os161/src/kern/fs/sfs/sfs_vnode.c:306-376 | part of a block written; after a failed transfer or a faulting user copy no file has changed |
| `SfsFile.Sfs.BlockWrite` | Cabodi/os161/src/kern/fs/sfs/sfs_vnode.c:381-441 | a whole block written, or nothing |
| `SfsFile.Sfs.WriteBlocks` | Cabodi/os161/src/kern/fs/sfs/sfs_vnode.c:492-503 | whole blocks written in a row; a failure leaves a prefix |
| `SfsFile.Sfs.WriteAligned` | Cabodi/os161/src/kern/fs/sfs/sfs_vnode.c:489-521 | whole blocks and trailing part |
| `SfsFile.Sfs.WriteInside` | Cabodi/os161/src/kern/fs/sfs/sfs_vnode.c:472-523 | leading part, whole blocks and trailing part |
| `SfsFile.Sfs.Write` | Cabodi/os161/src/kern/fs/sfs/sfs_vnode.c:446-541 | sfs_write makes of the file what a flat write of the stored prefix does, then extends it to what the uio moved; other files keep every byte and their inodes stay as clean as they were; ENOSPC only on a full volume, EIO and EFAULT only of a transfer or copy that was due to fail |
| `SfsFile.Sfs.FreeDirects` | Cabodi/os161/src/kern/fs/sfs/sfs_vnode.c:1152-1163 | no direct block remains |
| `SfsFile.Sfs.FreeListed` | Cabodi/os161/src/kern/fs/sfs/sfs_vnode.c:1183-1200 | every block the indirect block lists is freed |
| `SfsFile.ListedAreMarked` | Cabodi/os161/src/kern/fs/sfs/sfs_vnode.c:1183-1206 | truncating frees no block that is unmarked, and none twice, so the assertion of bitmap_unmark holds |
| `SfsFile.Sfs.FreeIndirects` | Cabodi/os161/src/kern/fs/sfs/sfs_vnode.c:1165-1219 | listed blocks and indirect block are freed; if the indirect block cannot be read nothing happens |
| `SfsFile.Sfs.Truncate` | Cabodi/os161/src/kern/fs/sfs/sfs_vnode.c:1126-1225 | truncating to 0 empties the file and frees its blocks; if the indirect block cannot be read the size stays, the bytes of the direct blocks become zeros and those behind them keep their values; other files keep every byte |
| `SfsFile.Sfs.MakeObj` | Cabodi/os161/src/kern/fs/sfs/sfs_vnode.c:792-814 | a new empty file on an inode that was in no use; ENOSPC exactly on a full volume, EIO only of a failed transfer |
| `SfsFile.Sfs.Discard` | Cabodi/os161/src/kern/fs/sfs/sfs_vnode.c:911-931 | the blocks of a file without names and its inode are given back; other files keep every byte |
| `SfsFile.Sfs.Sync` | Cabodi/os161/src/kern/fs/sfs/sfs_vnode.c:67-80 | a dirty inode goes to its block and is clean; a clean one is left alone |
| `SfsFile.Sfs.Reload` | Cabodi/os161/src/kern/fs/sfs/sfs_vnode.c:1649-1757 | a file reclaimed and loaded again from its inode block is the file there was |
| `SfsRuns.Perform` | Cabodi/os161/src/kern/fs/sfs/sfs_vnode.c:965-1225 | unless it ends in EIO, an operation does what the same one on flat files does, faulting user copies included; ENOSPC only on a full volume; each EIO and EFAULT is one transfer or copy that was due to fail |
| `SfsRuns.Run` | Cabodi/os161/src/kern/fs/sfs/sfs_vnode.c:965-1225 | any sequence of reads, writes, truncations, creations, removals, syncs and reloads behaves as on flat byte sequences while no operation ends in EIO; there are as many EIO as transfers that failed, at most as many EFAULT as copies due to fault, so none of either without faults; failures or not, blocks in use stay distinct and marked, and inodes not dirty are on disk as they are in memory |
| `SfsRuns.UndisturbedStep` | Cabodi/os161/src/kern/fs/sfs/sfs_vnode.c:965-1225 | an operation without EIO and EFAULT: a read inside the largest size gives all there is, a write stores everything unless the volume is full, creating fails only on a full volume, and the others succeed |
| `SfsRuns.RunUndisturbed` | Cabodi/os161/src/kern/fs/sfs/sfs_vnode.c:446-541 | in a run without EIO and EFAULT every read of a file within the largest size is complete and exact |
| `SfsRuns.FormattedIsOk` | Cabodi/os161/src/user/sbin/mksfs/mksfs.c:88-144 | a volume as mksfs leaves it satisfies everything a run starts from |
| `SfsSlots.LookupIs` | Cabodi/os161/src/kern/fs/sfs/sfs_vnode.c:655-685 | with unique names, a name leads to the slot that has it |
| `SfsSlots.FillSlot` | Cabodi/os161/src/kern/fs/sfs/sfs_vnode.c:695-734 | a new name in an empty slot leads to its inode, all other names where they did |
| `SfsSlots.ClearSlot` | Cabodi/os161/src/kern/fs/sfs/sfs_vnode.c:739-751 | clearing a slot forgets its name and no other |
| `SfsDirectory.LinksAreSmall` | Cabodi/os161/src/kern/include/kern/sfs.h:40-44 | no link count exceeds (15+128)*8, or one more for the root directory, so 16 bits hold it |
| `SfsDirectory.NobodyNeedsIt` | Cabodi/os161/src/kern/fs/sfs/sfs_vnode.c:911-931 | an inode without names and without a vnode is not on disk |
| `SfsDirectory.SlotFilled` | Cabodi/os161/src/kern/fs/sfs/sfs_vnode.c:714-732 | with the new slot the inode has one link less than names until it is counted |
| `SfsDirectory.SlotCleared` | Cabodi/os161/src/kern/fs/sfs/sfs_vnode.c:739-751 | with the slot cleared it has one link more |
| `SfsDirectory.SlotAdded` | Cabodi/os161/src/kern/fs/sfs/sfs_vnode.c:525-531 | the empty slot a failed append may leave changes no name and no count |
| `SfsDirectory.VnodeLoaded` | Cabodi/os161/src/kern/fs/sfs/sfs_vnode.c:1696-1756 | at most one vnode per inode: loading adds one only where none was |
| `SfsDirectory.VnodeGone` | Cabodi/os161/src/kern/fs/sfs/sfs_vnode.c:911-948 | reclaiming forgets the vnode only when the disk has its link count, or frees an inode without names |
| `SfsNamespace.FormattedIsOk` | Cabodi/os161/src/user/sbin/mksfs/mksfs.c:88-101 | an empty directory and no inode but the root, with one link, satisfy the invariant |
| `SfsNamespace.Namespace.Transfer` | Cabodi/os161/src/kern/fs/sfs/sfs_io.c:46-87 | a transfer goes as it is due to; those that do not work are counted |
| `SfsNamespace.Namespace.FindName` | Cabodi/os161/src/kern/fs/sfs/sfs_vnode.c:644-688 | finds the one slot of a name, or knows there is none; and an empty slot if there is one |
| `SfsNamespace.Namespace.WriteDir` | Cabodi/os161/src/kern/fs/sfs/sfs_vnode.c:586-615 | a slot is written or not; a failed append may leave an empty one; EFBIG exactly behind the last possible slot |
| `SfsNamespace.Namespace.DirLink` | Cabodi/os161/src/kern/fs/sfs/sfs_vnode.c:694-734 | a new name, at most once; without a failed transfer the answer is EEXIST, ENAMETOOLONG, EFBIG or success, by the name and the directory alone; EIO and ENOSPC are one failed transfer |
| `SfsNamespace.Namespace.DirUnlink` | Cabodi/os161/src/kern/fs/sfs/sfs_vnode.c:739-751 | a name less |
| `SfsNamespace.Namespace.LoadVnode` | Cabodi/os161/src/kern/fs/sfs/sfs_vnode.c:1649-1757 | one more reference to the resident vnode, or a vnode with the count on disk and one reference; no other inode changes its references |
| `SfsNamespace.Namespace.Unreference` | Cabodi/os161/src/kern/vfs/vnode.c:106-108 | one reference less |
| `SfsNamespace.Namespace.MakeObj` | Cabodi/os161/src/kern/fs/sfs/sfs_vnode.c:792-814 | a vnode without names and with one reference on the block the freemap gives; ENOSPC exactly without a block, EIO only of a failed transfer |
| `SfsNamespace.Namespace.Decref` | Cabodi/os161/src/kern/vfs/vnode.c:98-121 | one reference less, and no other inode comes or goes; the last one reclaims, and only a failed transfer keeps the vnode |
| `SfsNamespace.Namespace.SyncInode` | Cabodi/os161/src/kern/fs/sfs/sfs_vnode.c:67-80 | a dirty inode is written and clean, or nothing happened |
| `SfsNamespace.Namespace.Reclaim` | Cabodi/os161/src/kern/fs/sfs/sfs_vnode.c:887-960 | a vnode picked up again only loses a reference; else it is forgotten, its inode freed exactly if it has no names and written back otherwise; only after a failed transfer does it stay, with no more than its dirty mark changed |
| `SfsNamespace.Namespace.AddLinks` | Cabodi/os161/src/kern/fs/sfs/sfs_vnode.c:1344-1346 | counting a link restores the balance of names and links |
| `SfsNamespace.Namespace.LookOnce` | Cabodi/os161/src/kern/fs/sfs/sfs_vnode.c:757-782 | a vnode with a positive link count, so its panic cannot happen, and with exactly one reference more; nothing changes on an error |
| `SfsNamespace.Namespace.Creat` | Cabodi/os161/src/kern/fs/sfs/sfs_vnode.c:1251-1316 | the name leads to its old inode or to a new one; exactly one reference more on success and none on an error, and the new inode is gone then, unless a transfer failed; without a failed transfer the answer is determined; other names lead where they did |
| `SfsNamespace.Namespace.Enter` | Cabodi/os161/src/kern/fs/sfs/sfs_vnode.c:1300-1316 | the new inode gets its name, or is given up: its reference is dropped and it leaves the disk |
| `SfsNamespace.Namespace.Link` | Cabodi/os161/src/kern/fs/sfs/sfs_vnode.c:1324-1349 | a second name for an open file, or for the root directory; every reference count stays; errors have their cause |
| `SfsNamespace.Namespace.Remove` | Cabodi/os161/src/kern/fs/sfs/sfs_vnode.c:1354-1386 | the name is gone and no other; every reference count is as before, and a victim without another name or an open vnode is no longer on disk, unless a transfer failed; without a failed transfer the answer is ENOENT or success |
| `SfsNamespace.Namespace.Rename` | Cabodi/os161/src/kern/fs/sfs/sfs_vnode.c:1394-1475 | the file has the new name instead of the old one; errors change no name; both names remain exactly when undoing fails as well; every reference count is as before unless a transfer failed; without a failed transfer the answer is determined; a name of the root directory fails the assertion |
| `SfsNamespace.Namespace.MoveName` | Cabodi/os161/src/kern/fs/sfs/sfs_vnode.c:1421-1473 | sfs_rename from the new link on; it drops the reference its caller took |
| `SfsNamespace.Namespace.Undo` | Cabodi/os161/src/kern/fs/sfs/sfs_vnode.c:1453-1468 | the recovery takes the new name back, drops the reference and reports the first error, or panics after a second failure |
| `Bitmap.BitMap.constructor` | Cabodi/os161/src/kern/lib/bitmap.c:56-90 | no bit is set but those left over in the last byte |
| `Bitmap.BitMap.Alloc` | Cabodi/os161/src/kern/lib/bitmap.c:98-122 | the lowest unmarked bit is marked; none is found exactly when all are marked |
| `Bitmap.BitMap.AllocInWord` | Cabodi/os161/src/kern/lib/bitmap.c:105-118 | the inner loop finds a clear bit below nbits, so neither assertion fails |
| `Bitmap.BitMap.Mark` | Cabodi/os161/src/kern/lib/bitmap.c:134-144 | one mark more |
| `Bitmap.BitMap.Unmark` | Cabodi/os161/src/kern/lib/bitmap.c:147-157 | one mark less |
| `Bitmap.BitMap.IsSet` | Cabodi/os161/src/kern/lib/bitmap.c:161-169 | membership; bits past the end count as set |
| `Bitmap.BitChanged` | Cabodi/os161/src/kern/lib/bitmap.c:124-132 | setting or clearing the bit behind a mask changes that bit number only |
| `Uio.ScatterGather` | Cabodi/os161/src/kern/lib/uio.c:60-108 | what was scattered over distinct addresses reads back, and nothing else changed |
| `Uio.UioState.UioMove` | Cabodi/os161/src/kern/lib/uio.c:41-120 | n bytes move between the buffer and the next n addresses of the iovecs, which are used up; resid and offset follow; a copy that faults stops it with everything accounted for, and nothing else does |
| `Uio.FaultHasCause` | Cabodi/os161/src/kern/lib/uio.c:80-104 | EFAULT means that one of the coming copies was due to fault |
| `Uio.UsedMore` | Cabodi/os161/src/kern/lib/uio.c:53-117 | copies take their turns: all but the last went through, and the last did unless the answer is EFAULT |
| `Uio.UioState.MovePiece` | Cabodi/os161/src/kern/lib/uio.c:80-117 | one piece of one iovec |
| `Uio.UioState.CopyOut` | Cabodi/os161/src/kern/lib/uio.c:82-96 | bytes from the buffer to memory, or none; EFAULT exactly when this copy is due to fault |
| `Uio.UioState.CopyIn` | Cabodi/os161/src/kern/lib/uio.c:82-99 | bytes from memory to the buffer, or none; EFAULT exactly when this copy is due to fault |
| `Uio.UioState.UioMoveZeros` | Cabodi/os161/src/kern/lib/uio.c:122-146 | sixteen at a time, as from one long buffer of zeros |
| `HeapBlocks.AlignIsExact` | Cabodi/lab1/heap.c:103 | the rounding is up to the next multiple of 8 exactly if the request leaves room for it, and gives 0 otherwise |
| `HeapBlocks.EveryByteOnce` | Cabodi/lab1/heap.c:94-225 | with the lists tiling the heap, every byte lies in exactly one block |
| `HeapBlocks.NothingUsed` | Cabodi/lab1/heap.c:179-225 | with nothing allocated there is one free block, the whole heap |
| `HeapBlocks.AllocTiles` | Cabodi/lab1/heap.c:143-171 | cutting a block off and inserting it in address order keeps the tiling |
| `HeapBlocks.FreeTiles` | Cabodi/lab1/heap.c:191-224 | giving a block back, joined to both neighbours, keeps it, and no two free blocks touch |
| `HeapBlocks.DefragTiles` | Cabodi/lab1/heap.c:239-252 | packing keeps it |
| `Heap.FirstFitSearch` | Cabodi/lab1/heap.c:106-116 | the lowest-address fit |
| `Heap.BestFitSearch` | Cabodi/lab1/heap.c:117-128 | a smallest fit |
| `Heap.WorstFitSearch` | Cabodi/lab1/heap.c:129-140 | a largest fit |
| `Heap.Select` | Cabodi/lab1/heap.c:105-142 | under each policy a block is found exactly when one fits |
| `Heap.Position` | Cabodi/lab1/heap.c:157-163 | the place in an address-ordered list |
| `Heap.LabHeap.constructor` | Cabodi/lab1/heap.c:34-64 | one free block, the whole heap |
| `Heap.LabHeap.HeapSetPolicy` | Cabodi/lab1/heap.c:227-229 | only the policy changes |
| `Heap.LabHeap.HeapAlloc` | Cabodi/lab1/heap.c:94-173 | succeeds exactly when some free block fits the aligned nonzero request, takes it from the block the policy picks, 8-aligned, and free_size follows |
| `Heap.LabHeap.HeapFree` | Cabodi/lab1/heap.c:179-225 | the block at p is joined to the free blocks it touches; any other p does nothing |
| `Heap.PackOne` | Cabodi/lab1/heap.c:240-242 | moving a block down with memmove keeps the bytes of every block, overlap or not |
| `Heap.LabHeap.PackBlocks` | Cabodi/lab1/heap.c:236-245 | all used blocks end up packed from the start, with their bytes |
| `Heap.LabHeap.HeapDefrag` | Cabodi/lab1/heap.c:231-253 | used blocks packed in order with their bytes, one free block behind |
| `Heap.LabHeap.HeapNewPointer` | Cabodi/lab1/heap.c:274-283 | the new start of the block that began at p, and NULL exactly for an address that began none |
| `Heap.LabHeap.HeapDefragClose` | Cabodi/lab1/heap.c:285-288 | the old list is forgotten |
| `Heap.PointersTranslate` | Cabodi/lab1/heap.c:231-283 | old starts map one-to-one to new ones holding the same bytes |
| `Heap.DefraggedFits` | Cabodi/lab1/heap.c:104-142 | with at most one free block a request fits exactly when it is at most free_size |
| `Heap.FreeAll` | Cabodi/lab1/heap.c:179-225 | freeing everything gives one block that covers the heap |
| `Heap.DefragThenAlloc` | Cabodi/lab1/heap.c:94-253 | right after compaction heapAlloc succeeds exactly when the nonzero aligned request is at most free_size |
| `Heap.DefragThenTranslate` | Cabodi/lab1/heap.c:231-283 | right after compaction a translated pointer leads to a used block of the same size and bytes |
| `SubpagePages.BlockType` | Cabodi/os161/src/kern/vm/kmalloc.c:377-393 | the smallest class that is big enough |
| `SubpagePages.FreshPageOk` | Cabodi/os161/src/kern/vm/kmalloc.c:480-499 | a fresh page has all its blocks free, once each |
| `SubpagePages.FullChainHasAll` | Cabodi/os161/src/kern/vm/kmalloc.c:489-499 | its freelist has every block of the page |
| `SubpagePages.PopKeeps` | Cabodi/os161/src/kern/vm/kmalloc.c:426-444 | taking the first free block: its assertions hold, the block was free, the rest stays threaded |
| `SubpagePages.PushKeeps` | Cabodi/os161/src/kern/vm/kmalloc.c:559-574 | giving a block back keeps the freelist acyclic |
| `SubpagePages.PushWritesInside` | Cabodi/os161/src/kern/vm/kmalloc.c:559-572 | freeing writes inside the block only |
| `SubpagePages.FreePlusLive` | Cabodi/os161/src/kern/vm/kmalloc.c:481 | nfree + live = PAGE_SIZE / class size |
| `SubpagePages.FullyFree` | Cabodi/os161/src/kern/vm/kmalloc.c:576-587 | a page given back has no live block |
| `SubpagePages.SlotsApart` | Cabodi/os161/src/kern/vm/kmalloc.c:550-553 | distinct blocks of a page do not overlap |
| `SubpageHeap.WithoutDistinct` | Cabodi/os161/src/kern/vm/kmalloc.c:352-375 | remove_lists takes a page off a list whole |
| `SubpageSafety.KmallocStep` | Cabodi/os161/src/kern/vm/kmalloc.c:409-463 | kmalloc up to the point where it drops its lock |
| `SubpageSafety.InstallStep` | Cabodi/os161/src/kern/vm/kmalloc.c:469-508 | kmalloc from where it has its lock back, whatever happened meanwhile |
| `SubpageSafety.KfreeStep` | Cabodi/os161/src/kern/vm/kmalloc.c:523-587 | kfree of a live block, with its assertions |
| `SubpageSafety.StepIsSafe` | Cabodi/os161/src/kern/vm/kmalloc.c:352-596 | no assertion fails and the invariant is kept, whichever thread moves |
| `SubpageSafety.RunIsSafe` | Cabodi/os161/src/kern/vm/kmalloc.c:352-596 | so it holds throughout every run |
| `SubpageSafety.BlocksAreSound` | Cabodi/os161/src/kern/vm/kmalloc.c:352-596 | on every run each listed page has an acyclic freelist of exactly nfree distinct blocks, nfree + live is the number of blocks, it is not fully free, and its live blocks are aligned and inside |
| `SubpageSafety.BlocksAreDisjoint` | Cabodi/os161/src/kern/vm/kmalloc.c:352-596 | two live blocks never overlap |
| `SubpageSafety.ContentsAreKept` | Cabodi/os161/src/kern/vm/kmalloc.c:352-596 | whatever threads allocate, free or write elsewhere, a live block stays live and keeps every word |
| `SubpageSafety.FreedIsFilled` | Cabodi/os161/src/kern/vm/kmalloc.c:555-576 | a freed block is live no more and all its words but the first are 0xdeadbeef |
| `SubpageSafety.KmallocGives` | Cabodi/os161/src/kern/vm/kmalloc.c:409-450 | what kmalloc returns was not live and is big enough, of the smallest such class |
| `SubpageSafety.ClassIsKept` | Cabodi/os161/src/kern/vm/kmalloc.c:409-480 | while kmalloc gets a page, whatever other threads do, it keeps the smallest class that is big enough |
| `SubpageSafety.InstallGives` | Cabodi/os161/src/kern/vm/kmalloc.c:469-508 | the block taken from that page was not live, is the last of the page and belongs to that class |
| `SubpageSafety.LiveIsFound` | Cabodi/os161/src/kern/vm/kmalloc.c:529-553 | kfree finds the page of every live block |
| `SubpageCode.Allocator.constructor` | Cabodi/os161/src/kern/vm/kmalloc.c:138-198 | no pages yet, which satisfies the invariant |
| `SubpageCode.Allocator.AllocPageref` | Cabodi/os161/src/kern/vm/kmalloc.c:144-167 | the lowest clear bit is set, or all are set |
| `SubpageCode.Allocator.FreePageref` | Cabodi/os161/src/kern/vm/kmalloc.c:169-182 | the bit, which was set, is clear |
| `SubpageCode.Allocator.RemoveLists` | Cabodi/os161/src/kern/vm/kmalloc.c:352-375 | the page is off both lists, in place |
| `SubpageCode.Allocator.FillDeadbeef` | Cabodi/os161/src/kern/vm/kmalloc.c:40-50 | exactly the words of the block are overwritten |
| `SubpageCode.Allocator.BuildFreelist` | Cabodi/os161/src/kern/vm/kmalloc.c:489-499 | the freelist of a fresh page, threaded through the page in memory |
| `SubpageCode.Allocator.FindFree` | Cabodi/os161/src/kern/vm/kmalloc.c:416-422 | the first page of the class with a free block |
| `SubpageCode.Allocator.DoAlloc` | Cabodi/os161/src/kern/vm/kmalloc.c:424-449 | the block at the head of the freelist is taken, with the assertions on the way |
| `SubpageCode.Allocator.KmallocStart` | Cabodi/os161/src/kern/vm/kmalloc.c:395-463 | the code up to the dropped lock takes the kmalloc step of the machine; a block it returns was not live |
| `SubpageCode.Allocator.MakePage` | Cabodi/os161/src/kern/vm/kmalloc.c:480-505 | a page reference, a freelist and both list heads for the new page |
| `SubpageCode.Allocator.KmallocInstall` | Cabodi/os161/src/kern/vm/kmalloc.c:469-508 | the code from where it has its lock back takes the install step; without a page reference the page is to be given back |
| `SubpageCode.Allocator.FindPage` | Cabodi/os161/src/kern/vm/kmalloc.c:529-540 | the page an address is on, or none |
| `SubpageCode.Allocator.PutBack` | Cabodi/os161/src/kern/vm/kmalloc.c:548-576 | the block is overwritten and heads its freelist, with the assertions on the way |
| `SubpageCode.Allocator.Kfree` | Cabodi/os161/src/kern/vm/kmalloc.c:511-596 | subpage_kfree takes the kfree step of the machine: the block is no longer live, and a page that became free is off the lists and to be given back |
| `SubpageCode.Unlink` | Cabodi/os161/src/kern/vm/kmalloc.c:360-373 | a list without its first element that is the page |
| `BlockingQueue.Buffer.constructor` | Malnati/lab4/BlockingQueue.hpp:5-12 | an empty ring of that capacity |
| `BlockingQueue.Buffer.Put` | Malnati/lab4/BlockingQueue.hpp:42-44 | appends to the contents |
| `BlockingQueue.Buffer.Take` | Malnati/lab4/BlockingQueue.hpp:29-31 | removes the oldest item |
| `BlockingQueue.SlotIsModulo` | Malnati/lab4/BlockingQueue.hpp:30-43 | in = (out + size) mod capacity |
| `BlockingQueue.FifoKept` | Malnati/lab4/BlockingQueue.hpp:22-58 | every critical section keeps the ring a FIFO |
| `BlockingQueue.CoveredKept` | Malnati/lab4/BlockingQueue.hpp:25-45 | while open, waiting consumers imply size <= notified consumers, and waiting producers imply free slots <= notified producers |
| `BlockingQueue.RunIsSafe` | Malnati/lab4/BlockingQueue.hpp:22-58 | both hold throughout every run, spurious wakeups included |
| `BlockingQueue.BoundedFifo` | Malnati/lab4/BlockingQueue.hpp:22-46 | items leave in insertion order, at most once, at most capacity are inside |
| `BlockingQueue.NobodyWaitsInVain` | Malnati/lab4/BlockingQueue.hpp:25-45 | with nobody notified, consumers wait only on an empty and producers only on a full queue |
| `BlockingQueue.ClosedForGood` | Malnati/lab4/BlockingQueue.hpp:53-58 | after chiudi nobody stays waiting |
| `BlockingQueue.PutsAreCalls` | Malnati/lab4/BlockingQueue.hpp:36-46 | on every run each item put is the value of a call of put made before, and different items are of different calls |
| `BlockingQueue.CallsEnd` | Malnati/lab4/BlockingQueue.hpp:22-51 | a call of put ends by having put its value and a call of take by having taken the oldest item, or because the queue was closed |
| `BlockingQueue.GoesThrough` | Malnati/lab4/BlockingQueue.hpp:22-58 | a thread in its critical section goes through unless the open queue is empty or full, and then it waits; only chiudi closes |
| `Numerals.NumeralDenotes` | Cabodi/os161/src/common/libc/printf/__printf.c:426-446 | the printed digits denote the number |
| `Numerals.NumeralShape` | Cabodi/os161/src/common/libc/printf/__printf.c:422-446 | digits of the base, without needless zeros |
| `Numerals.FitsTheBuffer` | Cabodi/os161/src/common/libc/printf/__printf.c:76-84 | every 64-bit number has at most 22 digits in base 8, 10 or 16, and 22 are needed |
| `Numerals.Atoi` | Cabodi/os161/src/common/libc/stdlib/atoi.c:49-101 | the value of blanks, sign and digits, modulo the word, read as an int |
| `Numerals.FindDigit` | Cabodi/os161/src/common/libc/stdlib/atoi.c:75-83 | the digit strchr finds |
| `Numerals.SkipSpace` | Cabodi/os161/src/common/libc/stdlib/atoi.c:56-59 | past the leading blanks and tabs |
| `Numerals.AtoiDigits` | Cabodi/os161/src/common/libc/stdlib/atoi.c:70-92 | the digits accumulated modulo the word |
| `Printf.Printer.EndField` | Cabodi/os161/src/common/libc/printf/__printf.c:154-168 | everything is reset between fields |
| `Printf.Printer.Print` | Cabodi/os161/src/common/libc/printf/__printf.c:143-149 | text is appended to the output |
| `Printf.Printer.Fill` | Cabodi/os161/src/common/libc/printf/__printf.c:335-344 | that many fill characters |
| `Printf.Printer.PrintStuff` | Cabodi/os161/src/common/libc/printf/__printf.c:352-391 | blanks in front of the prefixes, zeros behind them, or padding on the right |
| `Printf.Printer.NumberText` | Cabodi/os161/src/common/libc/printf/__printf.c:407-454 | the conversion loop, right to left in a buffer of 23 characters it never leaves, spells the number |
| `Printf.Printer.GetNum` | Cabodi/os161/src/common/libc/printf/__printf.c:235-298 | sign and magnitude of the argument, the minimum included |
| `Printf.Printer.SetBase` | Cabodi/os161/src/common/libc/printf/__printf.c:310-330 | base 10 for d and u, 16 for x and p, 8 for o; a prefix with # and for p |
| `Printf.Printer.PrintNum` | Cabodi/os161/src/common/libc/printf/__printf.c:400-478 | prefixes and digits, padded |
| `Printf.Printer.Modifier` | Cabodi/os161/src/common/libc/printf/__printf.c:178-228 | one modifier character |
| `Printf.Printer.SendNumber` | Cabodi/os161/src/common/libc/printf/__printf.c:511-521 | a whole number conversion: sign, prefix and digits of the right base that denote the argument, without needless zeros, filled up to the width in the right place |
| `Printf.Printer.SendText` | Cabodi/os161/src/common/libc/printf/__printf.c:522-548 | %s, %c and other characters: the string, (null) for a null pointer, or the character, filled up to the width |
| `Printf.Printer.Send` | Cabodi/os161/src/common/libc/printf/__printf.c:483-550 | one character of the format, in or out of a field; what a conversion appends is told from the text alone: base, digits, value, prefix, sign, length and place of the fill characters |
| `Printf.ConversionIsPrinted` | Cabodi/os161/src/common/libc/printf/__printf.c:310-478 | the text of a number conversion has digits of base 16 for x and p, 8 for o and 10 for d and u, which denote the number, behind 0x, 0 or a minus where they belong |
| `Printf.PrintedOnce` | Cabodi/os161/src/common/libc/printf/__printf.c:310-478 | that description fits one text only |
| `Printf.WidthIsRead` | Cabodi/os161/src/common/libc/printf/__printf.c:199-226 | the digits of a width are read as that width |
| `Printf.SendWidth` | Cabodi/os161/src/common/libc/printf/__printf.c:178-228 | sending a width one digit at a time sets it and nothing else |
| `Printf.PrintField` | Cabodi/os161/src/common/libc/printf/__printf.c:483-575 | a whole number field: any of the flags # - 0, any width, up to two l, and d, u, o, x or p, for every argument of that size |
| `Printf.MeaningIs` | Cabodi/os161/src/common/libc/stdlib/atoi.c:56-98 | what atoi makes of any blanks and tabs, a sign or none, digits or none and what follows: the number, taken into 32 bits |
| `Printf.ScaledIsDifferent` | Cabodi/os161/src/common/libc/stdlib/atoi.c:87-88 | digits followed by zeros never mean the same nonzero int, even modulo the word |
| `Printf.RoundTrip` | Cabodi/os161/src/common/libc/printf/__printf.c:370-390 | atoi of what %d prints is the int, for every int, width and flags, if and only if not both - and 0 are given with a width that leaves room and the int is not 0 |

## Left out

- sfs_truncate to a nonzero length: the test at sfs_vnode.c:1190 keeps one file block too many and the tail of the last block is not zeroed; no caller shown passes one.
- sfs_rwblock retries and lhd_io: a device transfer is atomic here.
- SFS file I/O and the SFS directory are two models: the directory is a sequence of slots whose reads and writes may fail, not bytes of an inode, and a reclaim there is one decision about the inode whose blocks `SfsFile.Sfs.Discard` gives back.
- SfsNamespace.Namespace.MakeObj: takes the block sfs_balloc finds as a parameter, because the freemap is in the other model.
- SfsNamespace.Namespace.Reclaim: truncation is one transfer that may fail, because a file has at most one indirect block to read.
- SfsFile works on whole buffers instead of a struct uio; `Uio` has the uio by itself, and the kernel buffer never overlaps the memory of the iovecs.
- The encodings of inodes, directory entries and block numbers on disk; names end where their NUL is.
- The freemap on disk and sfs_sync of the file system.
- struct lock and struct cv: unwritten stubs. The VFS big lock: SFS is sequential.
- ipi_tlbshootdown, IPI_OFFLINE and panics: machine-dependent.
- Trap entry and exit, switchframe_switch, cpu_idle internals and the test-and-set loop: atomic steps.
- Address spaces, stacks, working directories and out-of-memory returns of thread_fork.
- The step machine keeps thread lists as sequences; `ThreadLinks` shows that the linked list is one.
- Fairness and liveness of the scheduler: only safety is proved.
- kmalloc of more than 2048 bytes and kheap_printstats; the consistency checks under SLOW.
- kmalloc memory is a map from addresses to words; the two page lists are sequences, and a list head behind a pointer is a position.
- Heap lists are sequences of blocks; heapDestroy and failing mallocs.
- BlockingQueue items are ints; the constructor's exception and the destructor.
- __vprintf itself and the character count; %s and %c are in `Printf.Printer.Send`.
- The shift, and, or, xor and compare millicode, bswap64, string functions and array.c: easy members.
- Device drivers, LAMEbus, emufs, the console, the menu, ELF loading, system calls, copyin and copyout: I/O plumbing or machine-dependent.
- The lab1 clients, Elenco, Libro and the Windows thread pool: file I/O, simple lists or foreign APIs.
