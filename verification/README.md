# Starry: pipes, descriptors, futexes, transfers and the C library, in Dafny

Starry is a small Unix kernel written in Rust on top of ArceOS, with a small C library for its user
programs. This project models the parts of it that keep state of their own and proves what they
promise. `dafny verify dfyconfig.toml` checks everything.

## What is modelled

**Pipes** (`Ring`, `FileTable`, `Descriptors`, `PipeSystem`, `PipeTheorems`, `PipeAlone`, `PipeCalls`,
`PipeRollback`). `Ring` is
the 256-byte ring as a class whose contents are a bounded queue. `FileTable` gives the two levels of
strong counts: an `Arc<dyn FileLike>` is held by descriptor slots and by calls in progress, and each
live end of a pipe holds the ring. `Descriptors` runs `dup`, `dup2`, `close`, `pipe2`, fork and exit
sequentially. `PipeSystem` is the transition system of all their interleavings with reads and
writes, one step per lock section or dropped Arc. `PipeTheorems` states what holds in every reachable
state, `PipeAlone` that a call whose steps are not interrupted does what the sequential call does,
`PipeCalls` that results belong to the arguments of the system call that began them, and `PipeRollback`
what the rollback of `pipe2` does when it is interrupted.

**Futexes** (`Futex`, `FutexSystem`, `FutexHistory`, `FutexTheorems`, `FutexCalls`, `FutexMissedWake`). The wake and
requeue loops on one wait queue, and a transition system of all interleavings of untimed waits, wakes
and requeues with the table, its guards and their strong counts. The state carries histories of sleeps,
wakes and moves; `FutexHistory` ties the sleepers, their addresses and every call's count to them, and
`FutexCalls` ties them to the arguments of the calls.

**Directories** (`Dirents`). The `getdents64` record encoder on a byte array, a reader that walks a
buffer by record length, and sessions of calls with any buffer sizes.

**User strings** (`UserString`). The scan for a terminator that checks access once per page, against
a scan that checks before every element, with a log of every check and every read.

**Hard links** (`Hardlinks`). The link map and the count map of `HardlinkManager`.

**Transfers** (`Transfer`). `readv`, `writev` and `sendfile` over files that may transfer less than
asked, or fail, at any call.

**C library** (`Numerals`, `CString`, `Stdio`, `Format`, `FormatMeaning`). `atoi`, `memchr`, `strnlen`, `memset`, the
line buffer, `printint`, `printptr` and `fprintf`. Signed overflow in `atoi` is an explicit outcome.

`Common` holds the byte type, `Option` and a store of a sequence into an array.

## What the code turns out to do

- A pipe write that exactly fills the ring does not return: it goes round again and waits until a
  reader makes room or the read end is gone. `Ring.WriteRound` gives the exact condition.
- `dup2` panics exactly when the source is open and the target lies outside `0..1024`
  (`Descriptors.Tables.SysDup2`).
- The clean-up in the drop of a futex guard is never reached, because the table's own Arc keeps the
  strong count at two or more while a guard lives (`FutexTheorems.GuardsAgreeWithTable`). Entries stay.
- A requeue locks its two queues one after the other. Between the two sections the moved tasks are in
  neither queue, and a wake on either address does not reach them. `FutexMissedWake.WakeIsMissed` gives
  a run in which a wake returns 0 while a task waits.
- `pipe2` rolls back by closing a descriptor that other threads of the process can already see. The
  rollback panics exactly when another thread emptied the slot, and closes another thread's file exactly
  when the slot was refilled (`PipeRollback.RollBackIsExact`). Runs reach both.
- `create_link` refuses every target whose path does not end in a slash, where its comment says it
  refuses one that is not a file. The model follows the code.
- The target's own name is not counted as a link, so linking to a file and unlinking the link again
  removes the file exactly when no other link points to it (`Hardlinks.LinkThenUnlink`).
- `readv` and `writev` report an error even when earlier vectors were transferred. The bytes of the
  vectors before the failing one go unreported, which is no loss exactly when these are all empty
  (`Transfer.ErrorHidesBytes`; `Transfer.OneByteHidden` is an instance).
- `sendfile` ignores its length argument, and a short write ends it without being counted
  (`Transfer.LastChunkUncounted`).
- `%u` prints a negative `int` as a 64-bit number and `%x` prints it with a minus sign, which differs
  from section 7.21.6.1 of ISO/IEC 9899:2011. A lone `%` at the end of a format prints nothing.

## Model

| member | source | states |
|---|---|---|
| `Ring.PipeRingBuffer.constructor` | api/src/file/pipe.rs:28-35 | a new ring is the empty queue |
| `Ring.PipeRingBuffer.WriteByte` | api/src/file/pipe.rs:37-44 | with room, the byte joins the end of the queue and status, head and tail stay in step |
| `Ring.PipeRingBuffer.ReadByte` | api/src/file/pipe.rs:46-54 | the oldest byte leaves the queue and is returned |
| `Ring.PipeRingBuffer.AvailableRead` | api/src/file/pipe.rs:57-65 | status, head and tail determine the length of the queue |
| `Ring.PipeRingBuffer.AvailableWrite` | api/src/file/pipe.rs:68-74 | the space left and the queue's length sum to 256 |
| `Ring.ReadRound` | api/src/file/pipe.rs:118-134 | a round that finds bytes and room takes as many as both allow; otherwise it takes none, and waits exactly while the peer is there |
| `Ring.WriteRound` | api/src/file/pipe.rs:150-169 | a round that finds space stores something or returns, and one that goes on has filled the ring; it ends the call exactly when the bytes left are strictly fewer than the space, or the ring is full and the reader gone |
| `Ring.PipeRingBuffer.TakeInto` | api/src/file/pipe.rs:130-132 | the oldest bytes go, in order, to the start of the user's buffer and nowhere else |
| `Ring.PipeRingBuffer.ReadLocked` | api/src/file/pipe.rs:118-134 | one locked round on the real ring refines the round on the queue, buffer contents included |
| `Ring.PipeRingBuffer.WriteLocked` | api/src/file/pipe.rs:150-169 | one locked round stores the next bytes of the user's buffer, in order, as the round on the queue says |
| `FileTable.NewPipe` | api/src/file/pipe.rs:83-94 | two ends sharing one buffer keep both levels of counts exact |
| `FileTable.Clone` | api/src/file/mod.rs:138-144 | a cloned Arc adds a holder and keeps every count exact |
| `FileTable.Move` | api/src/file/mod.rs:147-149 | moving an Arc changes its holder and no count |
| `FileTable.Drop` | api/src/file/mod.rs:152-159 | dropping an Arc removes one holder; the last one destroys the object and, for an end, its hold on the ring |
| `FileTable.ClosedMeansPeerUnheld` | api/src/file/pipe.rs:104-106 | a buffer count of one means exactly that no slot and no call holds the other end |
| `FileTable.CopyTable` | api/src/file/mod.rs:119-126 | every slot of one table, and nothing else, is copied to the other, with exact counts |
| `FileTable.ForkTable` | api/src/imp/task/clone.rs:178-186 | a fork that copies adds a table with the same descriptors |
| `FileTable.Dup2` | api/src/imp/fs/fd_ops.rs:131-142 | the target slot gets the source's object, what it held is dropped, the local Arc is gone |
| `FileTable.RefsDetermineCounts` | api/src/file/pipe.rs:104-106 | who holds what fixes every count, so no count is ever left behind |
| `Descriptors.Tables.PipeNew` | api/src/file/pipe.rs:83-94 | the counts written by `Pipe::new` are the exact ones |
| `Descriptors.Tables.GetFileLike` | api/src/file/mod.rs:138-144 | found exactly when the descriptor is open, and then one more holder |
| `Descriptors.Tables.AddFileLike` | api/src/file/mod.rs:147-149 | the lowest free descriptor, or EMFILE exactly on a full table, with the object dropped |
| `Descriptors.Tables.CloseFileLike` | api/src/file/mod.rs:152-159 | the descriptor and one reference go, or EBADF and no change |
| `Descriptors.Tables.CopyInner` | api/src/file/mod.rs:119-126 | the copying loop gives the new table the old one's descriptors |
| `Descriptors.Tables.Fork` | api/src/imp/task/clone.rs:178-186 | a new table with the descriptors of the parent's |
| `Descriptors.Tables.Clear` | api/src/file/mod.rs:128-134 | the clearing loop leaves no descriptor of the table and touches no other holder |
| `Descriptors.Tables.SysDup` | api/src/imp/fs/fd_ops.rs:118-127 | lowest free descriptor with the same object; EBADF and EMFILE exactly when; an error changes no holder and no count |
| `Descriptors.Tables.SysDup2` | api/src/imp/fs/fd_ops.rs:129-145 | the target gets the source's object; EBADF exactly when the source is not open; panic exactly when the target is out of range |
| `Descriptors.Tables.AddSecondEnd` | api/src/imp/fs/pipe.rs:19-21 | a full table at the second insertion takes the first one back |
| `Descriptors.Tables.AddBothEnds` | api/src/imp/fs/pipe.rs:17-21 | both insertions or neither; EMFILE exactly when fewer than two descriptors are free |
| `Descriptors.Tables.SysPipe2` | api/src/imp/fs/pipe.rs:10-28 | the two lowest free descriptors get the two ends, and every failure leaves all holders and counts as they were |
| `PipeSystem.DoRead` | api/src/file/pipe.rs:110-134 | one round of a read keeps ownership and both byte histories exact |
| `PipeSystem.DoWriteCheck` | api/src/file/pipe.rs:137-146 | the start of a write keeps ownership and both byte histories exact |
| `PipeSystem.DoWrite` | api/src/file/pipe.rs:148-169 | one round of a write keeps ownership and both byte histories exact |
| `PipeSystem.Apply` | api/src/file/pipe.rs:104-170 | every step of every call, with a table cleared slot by slot, keeps all counts exact, brings no destroyed end back, and moves bytes only in reads and writes |
| `PipeTheorems.RunsKeepAll` | api/src/file/pipe.rs:104-170 | over any run: counts exact, destroyed ends stay destroyed, results stay true |
| `PipeTheorems.ClosedIsExact` | api/src/file/pipe.rs:104-106 | in every reachable state `closed` is true exactly when no descriptor in any table and no call in progress holds the other end |
| `PipeTheorems.StreamIsPreserved` | api/src/file/pipe.rs:109-170 | in every reachable state bytes delivered, then the ring, are the bytes accepted, and each call's bytes are in its own order |
| `PipeTheorems.WrittenPrefix` | api/src/file/pipe.rs:137-170 | a write that returned n contributed exactly the first n bytes of the buffer it works on, all of it unless no one holds the read end |
| `PipeTheorems.StepKeepsEnds` | api/src/file/pipe.rs:118-155 | an end of file, a short write and EPIPE, once reported, stay true |
| `PipeTheorems.ReadRoundIsExact` | api/src/file/pipe.rs:118-134 | a round returns 0 exactly when the ring is empty and no one holds the write end, and waits exactly when someone does |
| `PipeTheorems.ReadTakesOldest` | api/src/file/pipe.rs:120-133 | a round that finds bytes takes the oldest, and fills the buffer or empties the ring |
| `PipeTheorems.EmptyReadReturns` | api/src/file/pipe.rs:114-116 | a read into an empty buffer returns 0 at once and moves nothing |
| `PipeTheorems.WriteCheckIsExact` | api/src/file/pipe.rs:137-146 | EPIPE exactly when no one holds the read end; otherwise an immediate 0 exactly for an empty buffer |
| `PipeTheorems.WriteRoundIsExact` | api/src/file/pipe.rs:150-169 | a round stores the next bytes until the buffer is done or the ring is full; it ends the call short, or changes nothing, exactly when the ring is full and the read end is gone, or held |
| `PipeTheorems.DrainedPipeStaysFrozen` | api/src/file/pipe.rs:118-134 | once the ring is empty and the write end gone, no run moves a byte through the pipe |
| `PipeTheorems.EndOfFileIsFinal` | api/src/file/pipe.rs:120-124 | a read returns 0 only when every accepted byte was delivered, and no later run accepts or delivers another |
| `PipeAlone.CloseAlone` | api/src/imp/fs/fd_ops.rs:112-116 | the steps of `close` without interference remove one descriptor and one reference |
| `PipeAlone.DupAlone` | api/src/imp/fs/fd_ops.rs:118-122 | the steps of `dup` give the lowest free descriptor the same object, or change nothing |
| `PipeAlone.Dup2Alone` | api/src/imp/fs/fd_ops.rs:129-145 | the locked step of `dup2` gives the target the source's object |
| `PipeAlone.ClearAlone` | api/src/imp/task/exit.rs:46-49 | clearing a table one slot per step leaves what the sequential `clear` leaves |
| `PipeAlone.Pipe2Alone` | api/src/imp/fs/pipe.rs:17-24 | the steps of `pipe2` install both ends at the two lowest free descriptors |
| `PipeAlone.Pipe2RollsBack` | api/src/imp/fs/pipe.rs:19-21 | with one free descriptor the steps of `pipe2` restore every holder and do not panic |
| `PipeAlone.Pipe2FindsNoRoom` | api/src/imp/fs/pipe.rs:18-18 | on a full table the steps of `pipe2` restore every holder |
| `PipeCalls.WriteStarts` | api/src/imp/fs/io.rs:63-72 | a write works on the whole buffer it was given and on the pipe whose write end the descriptor has |
| `PipeCalls.ReadStarts` | api/src/imp/fs/io.rs:13-25 | a read works with the length it was given and on the pipe whose read end the descriptor has |
| `PipeCalls.ReleaseDrops` | api/src/file/mod.rs:138-144 | a returned call gives up its one reference |
| `PipeCalls.OpenAlone` | api/src/file/mod.rs:105-110 | another file gets the lowest free descriptor |
| `PipeCalls.ForkAlone` | api/src/imp/task/clone.rs:178-186 | the step of a copying fork gives the child the parent's descriptors and changes nothing else |
| `PipeCalls.ChildKeepsFiles` | api/src/imp/task/clone.rs:183-186 | what was open in the parent is open in the child after the parent has cleared its table |
| `PipeCalls.WriteResultIsExact` | api/src/file/pipe.rs:137-170 | a write that returned n was begun by a system call of the run on that pipe's write end and contributed exactly the first n bytes of that call's buffer, all of it unless no one holds the read end |
| `PipeCalls.ReadResultIsExact` | api/src/file/pipe.rs:110-135 | a read that returned was begun by a system call of the run on that pipe's read end, and got what was delivered to it, at most that call's length |
| `PipeCalls.CallGoesOn` | api/src/file/pipe.rs:109-170 | a call that is not over always has a step to take |
| `PipeRollback.RollBackIsExact` | api/src/imp/fs/pipe.rs:19-21 | the rollback panics exactly when the slot was emptied, and otherwise takes out whatever is in it |
| `PipeRollback.RollBackPanics` | api/src/imp/fs/pipe.rs:19-21 | a run from the start in which another thread closes the descriptor and the rollback panics |
| `PipeRollback.RollBackClosesOther` | api/src/imp/fs/pipe.rs:19-21 | a run from the start in which the rollback closes a file that another thread opened |
| `Futex.WaitQueue.NotifyOne` | api/src/imp/futex.rs:46-50 | the oldest waiter leaves, or the queue is empty |
| `Futex.WaitQueue.Requeue` | api/src/imp/futex.rs:73-75 | the oldest waiters move in order to the end of the target, which may be the same queue |
| `Futex.Wake` | api/src/imp/futex.rs:42-55 | the woken tasks are the oldest, in order, the result is their number, the rest stay |
| `Futex.WakeAndRequeue` | api/src/imp/futex.rs:65-77 | with the full quota woken as many waiters move as allowed, or all that are left, in order; otherwise none; none lost or duplicated, and the result is woken plus moved |
| `FutexSystem.Acquire` | core/src/futex.rs:28-37 | get or insert: the guard's queue is the one mapped to its address, all other entries and queues stay, counts exact |
| `FutexSystem.Insert` | core/src/futex.rs:28-37 | an address gets its own new queue if it had none, and no entry changes |
| `FutexSystem.Hold` | core/src/futex.rs:18-24 | a new guard raises exactly its queue's strong count |
| `FutexSystem.Release` | core/src/futex.rs:52-60 | dropping a guard leaves the table's entries and queues as they are |
| `FutexSystem.DoSleep` | api/src/imp/futex.rs:37-37 | the waiter joins the end of its address's queue and the sleepers grow by it |
| `FutexSystem.Pop` | api/src/imp/futex.rs:46-50 | the first task of the queue, and no other, stops sleeping |
| `FutexSystem.DoWakeOne` | api/src/imp/futex.rs:46-51 | one round of a wake wakes the first of the address's queue and counts it, or finds the queue empty and ends the loop |
| `FutexSystem.DoRequeueWake` | api/src/imp/futex.rs:67-72 | the same round in a requeue: the woken task is counted, an empty queue ends the loop |
| `FutexSystem.DoDrainAll` | api/src/imp/futex.rs:73-75 | the first section of a requeue takes the oldest waiters in order, as many as allowed, and the sleepers stay the same |
| `FutexSystem.DoExtend` | api/src/imp/futex.rs:73-75 | the second section appends them to the other address's queue, files them under it, records the moves and returns the count with them added |
| `FutexSystem.Apply` | api/src/imp/futex.rs:27-78 | every step keeps table, guards, queues, counts and filed addresses in agreement |
| `FutexHistory.StepKeepsHistory` | api/src/imp/futex.rs:27-78 | every step keeps sleepers, filed addresses and every call's count equal to what the histories say |
| `FutexHistory.WokenCalls` | api/src/imp/futex.rs:46-51 | one more wake in the history is one more in the count of the call that made it, and of no other |
| `FutexHistory.CallsAfterExtend` | api/src/imp/futex.rs:73-75 | the moves of a requeue are added to its wakes and to no other call's count |
| `FutexTheorems.GuardsAgreeWithTable` | core/src/futex.rs:40-60 | in every reachable state a guard's queue is the one mapped to its address, with a strong count of at least two |
| `FutexTheorems.QueuesAreDistinct` | core/src/futex.rs:28-37 | different addresses never share a queue and an address keeps its queue over any run |
| `FutexTheorems.SleeperIsInOneQueue` | api/src/imp/futex.rs:28-77 | a sleeper occurs exactly once over all queues, in that of the address it was last moved to or else waited on, or in none while one requeue moves it |
| `FutexTheorems.WaitersAreConserved` | api/src/imp/futex.rs:42-77 | in every reachable state the sleepers are exactly the tasks that went to sleep less those woken, no task is woken twice, and the wakes are those of the calls taken together |
| `FutexTheorems.ResultIsExact` | api/src/imp/futex.rs:44-77 | a returned call reports the number of its wakes plus its moves in the histories, woke no more than asked, and moved only after its full quota |
| `FutexTheorems.ShortCallFoundNothing` | api/src/imp/futex.rs:46-51 | a call that woke fewer than asked found its queue empty in a round of the run, having woken as many as it reports, or found no queue for its address |
| `FutexCalls.WaitStarts` | api/src/imp/futex.rs:28-32 | a wait begins with a guard on the queue of its address |
| `FutexCalls.WakeStarts` | api/src/imp/futex.rs:42-46 | a wake asks for the value given, at the address given, or returns 0 without a queue there |
| `FutexCalls.RequeueStarts` | api/src/imp/futex.rs:60-62 | a requeue begins with its four arguments and a guard exactly if its address has a queue |
| `FutexCalls.RequeuePairs` | api/src/imp/futex.rs:63-66 | it then has a guard on the second address, and goes on exactly if it has the first |
| `FutexCalls.CallIsOnCourse` | api/src/imp/futex.rs:27-78 | in every reachable state a call, its wakes and its moves follow the arguments of its first step |
| `FutexCalls.WakeResultIsExact` | api/src/imp/futex.rs:42-55 | a wake of value tasks at an address reports the waiters of that address it woke, at most value, fewer only if it found that queue empty or none |
| `FutexCalls.RequeueResultIsExact` | api/src/imp/futex.rs:56-78 | a requeue reports the waiters it woke, at most value, plus those it moved, at most limit and all to the second address, none before the full quota; fewer than value only if it found the queue empty or none |
| `FutexCalls.WaitResultIsExact` | api/src/imp/futex.rs:28-41 | a wait returns 0, and only after it slept and some call woke it |
| `FutexCalls.CallGoesOn` | api/src/imp/futex.rs:27-78 | a call that neither sleeps nor has returned has exactly one step to take |
| `FutexTheorems.StepWakesFirstOnly` | api/src/imp/futex.rs:46-51 | a step ends a sleep exactly when it is a wake round of a call that finds the sleeper first in its queue |
| `FutexTheorems.MovingTaskIsMissed` | api/src/imp/futex.rs:73-75 | a wake round leaves a task that a requeue is moving asleep, whatever address it looks at |
| `FutexMissedWake.TaskInNoQueue` | api/src/imp/futex.rs:73-75 | a run after which a waiting task is in no queue |
| `FutexMissedWake.WakeIsMissed` | api/src/imp/futex.rs:42-55 | that run continued: a wake on the old or the new address returns 0 while the waiter sleeps on |
| `FutexTheorems.WakeReachesSleeper` | api/src/imp/futex.rs:42-55 | a wake on the address a sleeper is filed under wakes the n-th waiter in its n-th uninterrupted round |
| `Dirents.RecLen` | api/src/imp/fs/ctl.rs:98-102 | a record length is the least multiple of eight that holds header, name and terminator |
| `Dirents.Header` | api/src/imp/fs/ctl.rs:109-116 | the stored structure has the type and, low byte first, the record length cut to 16 bits |
| `Dirents.StoredRecord` | api/src/imp/fs/ctl.rs:107-121 | the three overlapping stores leave one whole record and change nothing else |
| `Dirents.DirBuffer.WriteEntry` | api/src/imp/fs/ctl.rs:97-125 | a record is written exactly when it fits, inside its own space |
| `Dirents.WalkAppend` | api/src/imp/fs/ctl.rs:97-125 | a buffer with one more record walks to one more entry |
| `Dirents.WalkOne` | api/src/imp/fs/ctl.rs:97-125 | a record walks to its own type and name |
| `Dirents.DirBuffer.Append` | api/src/imp/fs/ctl.rs:97-125 | a buffer that walks to some entries then walks to these and the new one |
| `Dirents.Directory.HandLast` | api/src/imp/fs/ctl.rs:141-147 | the kept entry is handed out first, or kept again with nothing written |
| `Dirents.Fill` | api/src/imp/fs/ctl.rs:149-162 | the loop ends at the end of the directory, or at the first entry that does not fit, which is kept |
| `Dirents.Directory.GetDents` | api/src/imp/fs/ctl.rs:128-168 | walking the returned bytes gives exactly the entries now counted as handed out; EINVAL writes nothing |
| `Dirents.CallIsDetermined` | api/src/imp/fs/ctl.rs:128-168 | the entries handed out before and the buffer size fix the outcome |
| `Dirents.CallOutcome` | api/src/imp/fs/ctl.rs:164-167 | Ok(0) exactly when everything was handed out before, EINVAL exactly when the next entry does not fit |
| `Dirents.DeliveredExactlyOnce` | api/src/imp/fs/ctl.rs:128-168 | over any calls the records delivered are the directory's entries in order, each once, and with the kept one they are the prefix consumed |
| `Dirents.LargeBuffersFinish` | api/src/imp/fs/ctl.rs:149-162 | with room for the largest record every call makes progress until the end |
| `Dirents.WholeDirectoryIsRead` | api/src/imp/fs/ctl.rs:128-168 | one call more than there are entries delivers the whole directory and ends with Ok(0) |
| `UserString.CheckPages` | api/src/ptr.rs:53-71 | the inner loop passes exactly when the element's page may be read, checking no page twice |
| `UserString.ScanElement` | api/src/ptr.rs:49-79 | one round ends with the per-element scan's result or moves on by one element |
| `UserString.CheckNullTerminated` | api/src/ptr.rs:32-84 | the paged scan returns what the per-element scan returns, reads only inside pages already checked, checks each at most once, and terminates |
| `UserString.ScanFindsFirstZero` | api/src/ptr.rs:73-83 | the result is n exactly when element n is the first zero one and all up to it may be read |
| `UserString.ScanFaultsExactly` | api/src/ptr.rs:63-68 | EFAULT exactly when an unreadable element comes before any zero one |
| `Hardlinks.Unlink` | api/src/path.rs:266-290 | removing a link keeps the counts exact, never underflows, and removes the file exactly with its only link |
| `Hardlinks.Link` | api/src/path.rs:260-261 | a new link keeps the counts exact and removes nothing |
| `Hardlinks.Retarget` | api/src/path.rs:254-261 | a retargeted link leaves the counts exact and removes the old target exactly if it was its only link |
| `Hardlinks.LinkUpdate` | api/src/path.rs:253-262 | new, retargeted or unchanged link, with exact counts and removals |
| `Hardlinks.LinkRemove` | api/src/path.rs:266-270 | a missing link changes nothing, an existing one goes with exact counts |
| `Hardlinks.RemovedExactlyWithLastLink` | api/src/path.rs:253-290 | a call removes a file exactly when some link pointed to it before and none does after |
| `Hardlinks.CountsAfterAnyRun` | api/src/path.rs:204-290 | after any calls a target has a count exactly when a link points to it, and it is their number |
| `Hardlinks.LinkThenUnlink` | api/src/path.rs:253-270 | link then unlink restores links and counts, and removes the file exactly when no other link points to it |
| `Hardlinks.DirPaths` | api/src/path.rs:85-88 | the directory test accepts every path ending in a slash and no other |
| `Hardlinks.HardlinkManager.constructor` | api/src/path.rs:192-199 | the empty table is consistent |
| `Hardlinks.HardlinkManager.DecreaseRefCount` | api/src/path.rs:275-290 | one less, the entry and file gone at zero; a missing count changes nothing |
| `Hardlinks.HardlinkManager.AtomicLinkUpdate` | api/src/path.rs:253-262 | the two maps change as the specification says, and the missing-count branch is not reached |
| `Hardlinks.HardlinkManager.AtomicLinkRemove` | api/src/path.rs:266-270 | the same for removal, with the target returned |
| `Hardlinks.HardlinkManager.CreateLink` | api/src/path.rs:204-215 | NotFound for a path that does not exist, NotFile for one that does not end in a slash, with no change; otherwise the link |
| `Hardlinks.HardlinkManager.RemoveLink` | api/src/path.rs:221-228 | the link's target, or the file itself when there is no link and it could be removed |
| `Hardlinks.HardlinkManager.LinkCount` | api/src/path.rs:239-246 | the number of links pointing to the path, or one for an existing file without links |
| `Transfer.Source.Read` | api/src/file/mod.rs:88-88 | what a read is assumed to do: take at most the room, in stream order, or fail and take nothing |
| `Transfer.Sink.Write` | api/src/file/mod.rs:89-89 | what a write is assumed to do: accept a prefix, or fail and accept nothing |
| `Transfer.ReadVector` | api/src/imp/fs/io.rs:40-54 | one vector continues the stream where the vectors before it ended; an error takes nothing |
| `Transfer.Readv` | api/src/imp/fs/io.rs:29-58 | the bytes taken are the next of the stream and fill the concatenated vectors from their start, nothing else in memory changes, and the first vector not transferred whole decides their number and the result |
| `Transfer.WriteVector` | api/src/imp/fs/io.rs:85-99 | one vector continues what the file accepted from those before it |
| `Transfer.Writev` | api/src/imp/fs/io.rs:74-103 | the file accepts the first bytes of the concatenated vectors, and the first vector not transferred whole decides their number and the result |
| `Transfer.OutcomeIsFixed` | api/src/imp/fs/io.rs:36-57 | vectors, memory and the file's answers fix the result and the bytes transferred |
| `Transfer.ErrorHidesBytes` | api/src/imp/fs/io.rs:41-49 | an error comes from that vector, EFAULT exactly when it fails the access check, and exactly the bytes of the vectors before it go unreported |
| `Transfer.OneByteHidden` | api/src/imp/fs/io.rs:36-57 | two one-byte vectors and a file that fails at its second call: one byte transferred, an error reported |
| `Transfer.ObligingFile` | api/src/imp/fs/io.rs:36-57 | a file that never transfers less than it can fills the vectors as far as its data goes |
| `Transfer.SendRound` | api/src/imp/fs/io.rs:128-137 | one round forwards what it took, or ends the loop and counts nothing |
| `Transfer.DoSendfile` | api/src/imp/fs/io.rs:120-141 | the destination gets a prefix of what was taken; result, bytes taken and bytes accepted are those of the round-by-round specification |
| `Transfer.SendingOutcome` | api/src/imp/fs/io.rs:127-140 | whole rounds and then one that ends the loop: by an error of either file, the source's end, or a short write, with result and amounts exact in each case |
| `Transfer.LastChunkUncounted` | api/src/imp/fs/io.rs:133-137 | what a success does not report is exactly the chunk of its last round, accepted only in part, or nothing at the source's end |
| `Transfer.ObligingFilesSendAll` | api/src/imp/fs/io.rs:127-138 | between files that transfer all they can everything is sent and reported |
| `Transfer.Sendfile` | api/src/imp/fs/io.rs:143-179 | whatever the length asked for, with an offset the file's own position stays and the offset advances by exactly the bytes taken; ESPIPE for what is not a regular file |
| `Numerals.DigitsDenote` | apps/nimbos/c/lib/stdio.c:77-79 | the digits of a number in a base denote it |
| `Numerals.DigitsAreNumeral` | apps/nimbos/c/lib/stdio.c:77-79 | the digits printed are characters of the table below the base, without a leading zero, and denote the number |
| `Numerals.NumeralIsUnique` | apps/nimbos/c/lib/stdio.c:77-79 | a number has only one such numeral |
| `Numerals.HexTextDenotes` | apps/nimbos/c/lib/stdio.c:93-94 | a fixed number of hexadecimal digits denotes the number |
| `CString.AtoiDigits` | apps/nimbos/c/lib/string.c:38-38 | the loop that accumulates negatively gives the negated value of the digits, or overflows exactly when that is below INT_MIN |
| `CString.Atoi` | apps/nimbos/c/lib/string.c:27-40 | the integer the text denotes, or overflow exactly when it does not fit an int; no read past the terminator |
| `CString.PartsDenote` | apps/nimbos/c/lib/string.c:29-39 | spaces, an optional sign, digits and anything after denote the digits' number, negated after a minus sign |
| `CString.HasParts` | apps/nimbos/c/lib/string.c:29-39 | every C string has such parts |
| `CString.Memchr` | apps/nimbos/c/lib/string.c:42-48 | the first occurrence, or none among the first n |
| `CString.Strnlen` | apps/nimbos/c/lib/string.c:11-15 | the length, at most n |
| `CString.Memset` | apps/nimbos/c/lib/string.c:50-90 | exactly the n requested bytes are set, for every n and every alignment |
| `Stdio.EmitConserves` | apps/nimbos/c/lib/stdio.c:41-60 | written then pending is all that was output, and what is pending is shorter than 256 and has no newline |
| `Stdio.EmitConcat` | apps/nimbos/c/lib/stdio.c:41-60 | how output is cut into calls does not matter |
| `Stdio.EmitPlain` | apps/nimbos/c/lib/stdio.c:49-51 | without newlines exactly whole lines of 256 characters are flushed |
| `Stdio.EmitLine` | apps/nimbos/c/lib/stdio.c:49-51 | a newline flushes everything up to it |
| `Stdio.Stdout.constructor` | apps/nimbos/c/lib/stdio.c:13-14 | nothing written, nothing pending |
| `Stdio.Stdout.Out` | apps/nimbos/c/lib/stdio.c:41-60 | the line buffer does what the character-by-character output does, and the result counts the characters written |
| `Stdio.Stdout.PutChar` | apps/nimbos/c/lib/stdio.c:116-120 | outputs one character |
| `Stdio.FillDigits` | apps/nimbos/c/lib/stdio.c:74-79 | the buffer's tail holds the digits and the index never goes below the place reserved for a sign |
| `Stdio.Stdout.PrintInt` | apps/nimbos/c/lib/stdio.c:62-85 | for every 64-bit value the numeral, sign included, fits the 20 characters and is output |
| `Stdio.IntTextDenotes` | apps/nimbos/c/lib/stdio.c:62-85 | in every base the text is the numeral, after a minus sign exactly for a negative number taken as signed, modulo 2^64 otherwise |
| `Stdio.SignedDenotes` | apps/nimbos/c/lib/string.c:27-40 | a signed decimal text read by `atoi` denotes its number |
| `Stdio.AtoiUndoesPrintInt` | apps/nimbos/c/lib/stdio.c:62-85 | what `printint` prints in decimal for an int denotes that int, with no overflow on the way back |
| `Stdio.PtrTextDenotes` | apps/nimbos/c/lib/stdio.c:87-97 | the sixteen characters of `printptr` are hexadecimal digits and denote the 64-bit value |
| `Stdio.HexDigits` | apps/nimbos/c/lib/stdio.c:93-94 | reading and shifting out the leading digit sixteen times prints that text |
| `Stdio.Stdout.PrintPtr` | apps/nimbos/c/lib/stdio.c:87-97 | outputs that text |
| `Format.Conv` | apps/nimbos/c/lib/stdio.c:150-192 | a conversion takes at least one character and never steps over the terminator |
| `Format.ScanText` | apps/nimbos/c/lib/stdio.c:140-141 | the first scanning loop covers text that the renderer prints as it stands |
| `Format.ScanPairs` | apps/nimbos/c/lib/stdio.c:142-143 | the run of percent pairs: the characters printed are half the run and what the renderer prints for it |
| `Format.ScanLiteral` | apps/nimbos/c/lib/stdio.c:140-144 | with nothing found the scan stands on a conversion or at the end |
| `Format.ConversionRenders` | apps/nimbos/c/lib/stdio.c:150-192 | a conversion's text followed by the rest is what the renderer prints |
| `FormatMeaning.DecimalInt` | apps/nimbos/c/lib/stdio.c:154-156 | `%d` prints the decimal numeral with its sign, which `atoi` reads back |
| `FormatMeaning.UnsignedInt` | apps/nimbos/c/lib/stdio.c:151-153 | `%u` prints the decimal numeral of the int modulo 2^64 |
| `FormatMeaning.HexInt` | apps/nimbos/c/lib/stdio.c:157-159 | `%x` prints the hexadecimal numeral with a minus sign for a negative int |
| `FormatMeaning.DecimalLong` | apps/nimbos/c/lib/stdio.c:172-173 | `%ld` prints the decimal numeral with its sign |
| `FormatMeaning.UnsignedLong` | apps/nimbos/c/lib/stdio.c:170-171 | `%lu` prints the decimal numeral modulo 2^64 |
| `FormatMeaning.HexLong` | apps/nimbos/c/lib/stdio.c:174-175 | `%lx` prints the hexadecimal numeral with a minus sign for a negative long |
| `FormatMeaning.Pointer` | apps/nimbos/c/lib/stdio.c:160-162 | `%p` prints 0x and sixteen hexadecimal digits that denote the pointer |
| `FormatMeaning.Text` | apps/nimbos/c/lib/stdio.c:163-168 | `%s` prints the first 200 characters of the string, or all of them |
| `FormatMeaning.NullText` | apps/nimbos/c/lib/stdio.c:164-165 | `%s` prints "(null)" for a null pointer |
| `FormatMeaning.Plain` | apps/nimbos/c/lib/stdio.c:140-145 | a character that is no percent sign is printed as it is |
| `FormatMeaning.Percent` | apps/nimbos/c/lib/stdio.c:142-145 | two percent signs print one |
| `FormatMeaning.Unknown` | apps/nimbos/c/lib/stdio.c:186-190 | a percent sign and a character that is no conversion are printed as they are |
| `FormatMeaning.UnknownLong` | apps/nimbos/c/lib/stdio.c:176-180 | so are `%l` and a character that makes no conversion of it |
| `FormatMeaning.LongAtEnd` | apps/nimbos/c/lib/stdio.c:176-184 | and `%l` at the end of the format |
| `FormatMeaning.End` | apps/nimbos/c/lib/stdio.c:138-149 | the end of the format prints nothing, and a lone percent sign before it neither |
| `Format.ConvertLong` | apps/nimbos/c/lib/stdio.c:169-185 | the `%l` branch with its backstep outputs the conversion's text and stays inside the format |
| `Format.Convert` | apps/nimbos/c/lib/stdio.c:150-192 | the switch outputs the conversion's text, takes its argument and steps past it |
| `Format.FormatRound` | apps/nimbos/c/lib/stdio.c:137-193 | one round outputs the next part of the rendered text and moves forward, or ends with all of it output |
| `Format.Fprintf` | apps/nimbos/c/lib/stdio.c:130-195 | the output is exactly what a one-character-at-a-time renderer prints, and the scan terminates inside the format |

## Left out

- `poll` and `select` (api/src/imp/fs/io_mpx): the loop rescans until some event is ready, and a pipe does not report that its peer is gone, so there is no exact statement of when it returns.
- Whole blocking loops of pipe reads and writes appear as rounds of the transition system; that a waiting call is ever scheduled is not claimed.
- The table lock is not held across the steps of clearing a table, so runs interleave more than the code does; copying a table and `dup2` stay one step, because what `closed` reports is the same between their parts.
- A fork that shares its parent's table makes no new holder, so it is no step of its own; its processes are calls on the same table.
- A read or write on the wrong end of a pipe, or on another kind of file, moves no pipe bytes; its error code is not modelled in `PipeSystem`.
- `FlattenObjects` is not part of this repository; a table is taken to hand out the lowest free descriptor and to hold 1024.
- The futex table and its guards are modelled on values inside the transition system, because their steps interleave; the wait queue alone is a class, with the operations that `sys_futex` calls (pop the front, drain a prefix, extend).
- Timed futex waits are not modelled. The value test and the enqueue are separate steps, so freedom from lost wake-ups is not claimed.
- EAGAIN of a futex call whose value does not match, and ENOSYS, change no state and are no steps.
- `getdents64`: names are taken to have no NUL and a record length below 65536, and reading the directory does not fail; the padding stored with a header is arbitrary.
- User memory is fixed while a string is scanned, and an element's size equals its alignment and divides a page.
- Which paths exist and which files can be removed are parameters of the hard-link model; the removal list holds attempts, since their failure is ignored. Path resolution is left out.
- `readv` vectors are taken not to overlap, and sources of `sendfile` are finite and differ from the destination.
- Output goes to stdout and `write` takes everything it is given; with a short write `out` drops characters.
- The negation of the smallest 64-bit value in `printint` is taken to wrap, as the code relies on.
- The process tree, signals, address spaces, mounts, stat, open flags, clocks, sockets and the console: thin layers over crates that are not part of this repository, or one-branch facts.
- Time statistics and socket address conversions: no conservation law or round trip holds for the code as it is.
