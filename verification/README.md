# Operating-system laboratory programs, modelled and proved in Dafny

Five programs of the repository are modelled: the readers and writers around a System V semaphore
set, the producers and consumers around a ring of letters in shared memory, the recursive
directory walk that changes the working directory as it goes, the buffered streams that share one
file offset (in turn and in threads), and the message log of a kernel module.

`SystemV` says what the kernel does with a semop vector, a SETVAL and a GETVAL. The steps of the two
semaphore programs are proved to be the calls written in the source, performed that way.

Each program appears three times. A state machine or a pure function says what the code does, with
the same branches, constants and conversions. A class with mutable fields and loops, in the
program's own form, is proved equal to it. Lemmas then state what the program guarantees over
every input and every schedule, and where a natural guarantee fails, the exact condition under
which it holds.

`dafny verify dfyconfig.toml` checks everything.

## Results in short

* **Producers and consumers** (`BoundedBuffer*`). Every interleaving of single statements, of any
  number of processes, is explained by whole puts and gets in order of entry. The ring is a FIFO
  queue in all schedules exactly when it has at most 125 cells: the indices live in signed chars and
  are compared with a `size_t`, so index 127 is followed by index 3 whatever the ring's size. For a
  larger ring, `FifoOfARun` says of each single run whether it delivers the letters in order. In every
  reachable state it is known exactly which processes can go on (`BoundedBufferCalls`). Nobody
  can deadlock, and a bounded schedule always empties the ring.
* **Readers and writers, call by call** (`RwSemaphores`, `RwSyscall*`). The counters are exact and
  at most one writer is ever in. Readers and writers are *not* kept apart in general: `stop_read` is
  three calls and the writer's wake-up vector does not test ACT_R. For two readers and a writer and
  for a reader and two writers a schedule is given that brings a reader and a writer to the shared
  letter together; every schedule keeps the two kinds apart exactly when one kind is absent or
  there is one of each. A schedule that leaves everybody asleep exists exactly when both kinds are present.
  All this is also proved for the orderly schedules alone, in which a sleeper whose vector is possible
  always comes first, as Linux sees to it. The program creates two writers and five readers, so both
  faults are reachable.
* **Readers and writers, function by function** (`RwMonitor*`). Under the assumption stated below,
  exclusion, absence of stranded waiters, admission of all waiting readers, overtaking by at most
  one writer, and precedence of a waiting writer hold in every run, and exactly those who do not sleep
  can act. A waiting *writer* can be passed
  any number of times exactly when there are at least three writers, or two and a reader
  (`RwOvertaking`); if writers are woken in the order of their failed tries, it is passed by no more
  writers than were waiting before it.
* **Directory walk** (`Directory*`). The walk is the preorder traversal cut off at the first failure,
  with the open directories closed innermost first, and each report is made from the directory named
  by the names above the entry; it restores the working directory and closes each
  stream once. A text reads back as a tree exactly when it is the output of walking that tree.
* **Shared streams** (`Shared*`). The closed form of the sequential output, position by position, and
  for threads conservation of every byte, the blocks each thread prints, a bound on the steps, and that
  every schedule that gives each thread a turn often enough ends with all of them finished.
* **Message log** (`MessageLog*`). Every run of writes and shows, in any order and with any bytes,
  delivers the strings of the texts in order (`FirstInFirstOut`). These are the texts themselves
  exactly when none contains a zero byte (`InOrderExactly`). One show for each message still owed
  then completes the output to everything written exactly when, besides, no non-empty message comes
  behind an empty one (`DeliveredExactly`). `RoomExactly` says exactly which runs stay inside the buffer.

## Assumptions

* System calls other than an `IPC_NOWAIT` vector that cannot proceed succeed. A process whose vector
  cannot proceed stays where it is.
* No process ends, and no producer or consumer completes 32767 rounds. Each round moves the
  `SEM_UNDO` adjustment that the kernel keeps for the process by one (line 11 takes from EMPT, line 13
  gives to FULL), and Linux refuses the operation that would move it out of range.
* Producers and consumers: `SETVAL` of EMPT succeeds, so the queue size is from 1 to 32767, and a
  plain char is signed and has 8 bits.
* Readers and writers as a monitor: each start and stop function is not interrupted (a failed try
  up to its blocking `semop`), and a blocked vector that becomes possible completes inside the act
  that made it possible. The latter is how Linux serves the waiting queue of a semaphore set, and
  Hoare's signal rule; the order among the sleepers is left open. That a woken reader's `SETVAL` of
  line 39 comes before anything else is an assumption of its own, which Linux does not provide.
* Directory walk: the tree does not change meanwhile, `chdir` succeeds where `opendir` did, and names
  are single path components.
* Streams: a read returns as many bytes as there are, up to the size of the buffer.
* Message log: once an access has left the buffer, which the code does not check, nothing is said of
  the log. The theorems about runs speak of those that stay inside (`MessageLogRuns.Possible`), and
  `RoomExactly` says in terms of the texts which runs these are.

## Model

| member | source | states |
|---|---|---|
| BoundedBufferCalls.Conversions | sem_5/lab3_1/main.c:27-30 | storing in a signed 8-bit char turns 128 into -128, and comparing that with a 64-bit size_t makes it the largest numbers there are |
| BoundedBufferCalls.QueueSizes | sem_5/lab3_1/main.c:88-88 | the queue sizes for which SETVAL of EMPT succeeds are 1 to 32767 |
| BoundedBufferCalls.AtTheStart | sem_5/lab3_1/main.c:87-111 | the three semaphores, the letter A, both indices 3, zeros behind them, and everybody at the first semop |
| BoundedBufferCalls.StepIsCall | sem_5/lab3_1/main.c:11-14 | for every process alike, the step at a semop is the vector the program passes, performed as the kernel does |
| BoundedBufferCalls.StatementsKeepSemaphores | sem_5/lab3_1/main.c:25-30 | between its semops a process always goes on and changes no semaphore |
| BoundedBufferCalls.EntryExactly | sem_5/lab3_1/main.c:19-54 | in every reachable state with nobody inside, any producer gets in if and only if the ring is not full, and any consumer if and only if it is not empty |
| BoundedBufferCalls.HolderExactly | sem_5/lab3_1/main.c:19-65 | in every reachable state with somebody inside, exactly that process can go on |
| BoundedBufferProofs.Reduction | sem_5/lab3_1/main.c:17-39 | every statement-level schedule ends in the state of the puts and gets of those that entered, in order of entry, plus at most one process part of the way through |
| BoundedBufferProofs.AtomicRunsAreCalm | sem_5/lab3_1/main.c:54-69 | in every run of puts and gets the semaphores, both indices and the next letter are functions of the numbers of items written and read, and the last items written are in their cells |
| BoundedBufferProofs.PutKeepsCalm | sem_5/lab3_1/main.c:25-30 | one producer round keeps that invariant for every queue size, overwritten cells included |
| BoundedBufferProofs.GetKeepsCalm | sem_5/lab3_1/main.c:60-63 | one consumer round keeps it |
| BoundedBufferProofs.SlotAdvances | sem_5/lab3_1/main.c:27-28 | the char increment and the size_t comparison move the index through 3, 4, ... cyclically over at most 125 cells |
| BoundedBufferTheorems.RingIsFifo | sem_5/lab3_1/main.c:19-69 | up to 125 cells, in every schedule: letters read are a prefix of letters written, item k is letter k mod 26, at most the capacity is outstanding, every unread letter is in its cell |
| BoundedBufferTheorems.FifoExactly | sem_5/lab3_1/main.c:25-30 | the letters read are a prefix of the letters written in all schedules if and only if the queue has at most 125 cells |
| BoundedBufferTheorems.Overrun | sem_5/lab3_1/main.c:25-28 | for any larger queue a schedule after which the first letter written is A and the first letter read is V |
| BoundedBufferTheorems.LoadedLetter | sem_5/lab3_1/main.c:60-60 | for a ring of any size, with w items written and r read, the next letter loaded is the one written as item r if and only if the items that went over its cell since are a multiple of 26 rounds |
| BoundedBufferTheorems.FifoOfARun | sem_5/lab3_1/main.c:25-63 | for a ring of any size, the letters read in a run are a prefix of those written if and only if no print of a consumer happens at counts for which that fails |
| BoundedBufferTheorems.Conservation | sem_5/lab3_1/main.c:11-14 | in every schedule BIN plus the processes inside is 1, FULL plus EMPT plus the processes inside is the capacity, none negative |
| BoundedBufferTheorems.AccessesAreSafe | sem_5/lab3_1/main.c:25-28 | up to 125 cells, in every schedule: a store goes to a ring cell with no unread letter, a load takes the oldest unread one, both indices stay in the ring outside the wrap statement |
| BoundedBufferTheorems.NoDeadlock | sem_5/lab3_1/main.c:19-65 | with a producer and a consumer some process can proceed in every reachable state |
| BoundedBufferTheorems.Finish | sem_5/lab3_1/main.c:25-36 | whoever is inside can run on and leaves the state that its whole round gives |
| BoundedBufferTheorems.Settle | sem_5/lab3_1/main.c:32-69 | at most seven steps bring any reachable state to one with nobody inside |
| BoundedBufferTheorems.Round | sem_5/lab3_1/main.c:19-36 | whoever can enter completes a whole put or get in at most eight steps |
| BoundedBufferTheorems.Drain | sem_5/lab3_1/main.c:54-69 | from every reachable state at most 7 + 6Q further steps leave the ring empty with as many letters read as written, and up to 125 cells the same letters in order |
| BoundedBufferObject.SharedRing.constructor | sem_5/lab3_1/main.c:87-111 | the semaphore values and the three header cells |
| BoundedBufferObject.SharedRing.Produce | sem_5/lab3_1/main.c:17-39 | the loop body of a producer in place is one atomic put, or nothing if it would block |
| BoundedBufferObject.SharedRing.Consume | sem_5/lab3_1/main.c:52-72 | the loop body of a consumer in place is one atomic get, or nothing if it would block |
| BoundedBufferObject.Simulate | sem_5/lab3_1/main.c:17-72 | the loops executed statement by statement on the shared objects, under any schedule, lead to the state the theorems speak about |
| RwVectors.NothingToStart | sem_5/lab3_2/main.c:183-188 | all six semaphores start at zero |
| RwVectors.ReaderStepIsCall | sem_5/lab3_2/main.c:10-75 | every step of a reader is the vector, SETVAL or GETVAL at its place in start_read or stop_read, performed as the kernel does, and leads to the call that follows in the program |
| RwVectors.WriterStepIsCall | sem_5/lab3_2/main.c:78-142 | the same for a writer in start_write and stop_write |
| RwSyscallProofs.HandOn | sem_5/lab3_2/main.c:17-39 | a woken reader has closed CAN_R, so a second sleeping reader sleeps on until the first one's SETVAL, after which it can be woken |
| RwSyscallProofs.NoHandOn | sem_5/lab3_2/main.c:84-102 | after a woken writer no second sleeping writer can go on |
| RwSyscallProofs.Counting | sem_5/lab3_2/main.c:8-142 | in every schedule of calls ACT_W, ACT_R, WAI_W, WAI_R count the processes in their regions, CAN_W and CAN_R are 0 or 1, ACT_W is at most 1 |
| RwSyscallProofs.WriterExclusion | sem_5/lab3_2/main.c:78-137 | two writers are never in together |
| RwSyscallProofs.OnlyWakeUpsBlock | sem_5/lab3_2/main.c:34-102 | no call blocks but the two wake-up vectors; in particular leaving never does |
| RwSyscallProofs.ReadersOnlyLeave | sem_5/lab3_2/main.c:10-20 | while a writer is in, no call raises ACT_R |
| RwSyscallProofs.DirectEntry | sem_5/lab3_2/main.c:78-90 | a writer that entered by the non-blocking vector shares its whole section with no reader |
| RwSyscallLimits.ExclusionOfARun | sem_5/lab3_2/main.c:84-88 | a run never has readers and a writer in together if and only if none of its writer wake-ups happens with ACT_R positive |
| RwSyscallLimits.OverlapOfTwoReaders | sem_5/lab3_2/main.c:57-70 | with two readers and a writer an orderly schedule (no process passes a sleeper whose vector is possible) brings a reader and a writer to the shared letter together |
| RwSyscallLimits.OverlapOfTwoWriters | sem_5/lab3_2/main.c:84-137 | so does an orderly schedule with a reader and two writers |
| RwSyscallLimits.ExclusionExactly | sem_5/lab3_2/main_header.h:25-26 | no schedule makes ACT_R and ACT_W positive together, no schedule brings a reader and a writer to the shared letter together, and no orderly schedule does, each if and only if there are no readers, no writers, or one of each |
| RwSyscallLimits.EverybodySleeps | sem_5/lab3_2/main.c:63-97 | with at least one of each an orderly schedule leaves every process blocked |
| RwSyscallLimits.DeadlockShape | sem_5/lab3_2/main.c:34-102 | a reachable state is deadlocked if and only if everybody is in a wake-up vector and both CAN semaphores are 0 |
| RwSyscallLimits.DeadlockExactly | sem_5/lab3_2/main.c:29-97 | a deadlock is reachable, by any schedule and by an orderly one, if and only if there is at least one reader and one writer |
| RwCalls.StartReadEffect | sem_5/lab3_2/main.c:22-34 | the calls of start_read taken together enter or queue up |
| RwCalls.StartWriteEffect | sem_5/lab3_2/main.c:90-102 | likewise start_write |
| RwCalls.StopReadEffect | sem_5/lab3_2/main.c:57-70 | the calls of stop_read taken together lower ACT_R and open CAN_W when it was the last reader |
| RwCalls.StopWriteEffect | sem_5/lab3_2/main.c:114-137 | the calls of stop_write taken together open CAN_R if readers wait, else CAN_W, and lower ACT_W |
| RwMonitor.ActIsSchedule | sem_5/lab3_2/main.c:8-142 | every act of the monitor, wake-ups included, is a schedule of single calls |
| RwMonitor.MonitorIsSchedule | sem_5/lab3_2/main.c:8-142 | so is every run of acts |
| RwMonitorProofs.StartReadOutcome | sem_5/lab3_2/main.c:22-34 | start_read enters when no writer is in or waits, and otherwise announces itself, closes CAN_R and sleeps |
| RwMonitorProofs.StartWriteOutcome | sem_5/lab3_2/main.c:90-102 | start_write enters when nobody is in, and otherwise announces itself, closes CAN_W and sleeps |
| RwMonitorProofs.DrainReaders | sem_5/lab3_2/main.c:34-39 | the CAN_R hand-on chain admits every sleeping reader and no writer, in any order of the sleepers |
| RwMonitorProofs.DrainWriter | sem_5/lab3_2/main.c:84-102 | an open CAN_W admits exactly one sleeping writer |
| RwMonitorProofs.StopReadOutcome | sem_5/lab3_2/main.c:52-75 | the last reader to leave lets in exactly one waiting writer if there is one, any other nobody |
| RwMonitorProofs.StopWriteOutcome | sem_5/lab3_2/main.c:109-142 | a leaving writer admits all waiting readers and no writer, else exactly one waiting writer, else nobody |
| RwMonitorProofs.RunTidy | sem_5/lab3_2/main.c:8-142 | every run keeps: open CAN_W means no writer waits, open CAN_R means no reader waits, waiting readers imply an active or waiting writer, waiting writers imply somebody active, and exclusion |
| RwMonitorTheorems.MonitorExclusion | sem_5/lab3_2/main.c:84-137 | in every reachable state of the monitor no reader is in with a writer and no two writers are in |
| RwMonitorTheorems.ExclusiveAfterEveryCall | sem_5/lab3_2/main.c:8-142 | the calls of a run of acts are a schedule that ends in the same state, and after none of them, in the middle of an act included, are readers and a writer in together |
| RwMonitorTheorems.DrainExists | sem_5/lab3_2/main.c:34-39 | waking sleepers always comes to an end |
| RwMonitorTheorems.AnySleeperFirst | sem_5/lab3_2/main.c:34-102 | whoever can be woken can be the first to be woken |
| RwMonitorTheorems.WhoCanAct | sem_5/lab3_2/main.c:144-171 | between acts, exactly those that are out can start and exactly those that are in can leave |
| RwMonitorTheorems.BalanceOfRun | sem_5/lab3_2/main.c:10-142 | over every run ACT_R and ACT_W change by the entries less the exits of readers and of writers |
| RwMonitorTheorems.NoStrandedWaiters | sem_5/lab3_2/main.c:10-135 | nobody waits while nobody is in, waiting readers imply an active or waiting writer, and some act is always possible |
| RwMonitorTheorems.WaitingStep | sem_5/lab3_2/main.c:22-34 | an act that leaves some reader waiting lets no reader in |
| RwMonitorTheorems.Admission | sem_5/lab3_2/main.c:120-127 | a waiting reader is let in only by a leaving writer, together with every other waiting reader and no writer |
| RwMonitorTheorems.Waiting | sem_5/lab3_2/main.c:22-137 | while a reader waits at most one writer enters, none if one was in, no other reader enters, and no more leave than readers were in |
| RwMonitorTheorems.BoundedOvertaking | sem_5/lab3_2/main.c:22-137 | the same up to and including the act that admits it, and it is in once more processes have left than readers were in |
| RwMonitorTheorems.OvertakenAtMostOnce | sem_5/lab3_2/main.c:22-44 | in any run, at most one writer enters between a failed start_read and that reader's entry |
| RwMonitorTheorems.WriterPriority | sem_5/lab3_2/main.c:12-20 | once a writer waits behind active readers no reader enters before a writer does |
| RwOvertaking.LeaveInOrder | sem_5/lab3_2/main.c:63-137 | whoever is in can leave in an act that wakes writers in order, whatever the line |
| RwOvertaking.PassedByThoseInFront | sem_5/lab3_2/main.c:90-137 | with writers woken in order, while a writer waits only those in front of it enter, each once |
| RwOvertaking.PassedAtMostByEarlierWriters | sem_5/lab3_2/main.c:90-137 | in any run that wakes writers in order, at most as many writers enter during a writer's wait as were waiting when it failed its try |
| RwOvertaking.PassingExactly | sem_5/lab3_2/main.c:84-137 | with sleepers woken in any order, a waiting writer can be passed n times for every n if and only if there are three writers, or two and a reader; otherwise it is never passed |
| RwObject.SemaphoreSet.constructor | sem_5/lab3_2/main.c:183-188 | six zeroed semaphores |
| RwObject.SemaphoreSet.Read | sem_5/lab3_2/main.c:8-34 | start_read in place is the monitor's act |
| RwObject.SemaphoreSet.Write | sem_5/lab3_2/main.c:76-102 | start_write in place is the monitor's act |
| RwObject.SemaphoreSet.Drain | sem_5/lab3_2/main.c:34-39 | completing blocked vectors in any order terminates with none left that could complete |
| RwObject.SemaphoreSet.StopReading | sem_5/lab3_2/main.c:52-75 | stop_read in place, with whoever it wakes, is the monitor's act and keeps its invariant |
| RwObject.SemaphoreSet.StopWriting | sem_5/lab3_2/main.c:109-142 | the same for stop_write |
| RwObject.Simulate | sem_5/lab3_2/main.c:8-142 | the calls executed on the shared semaphores, under any schedule, lead to the state the theorems speak about |
| DirectoryWalk.WalkIsCutOff | sem_6/lab2/main.c:33-62 | the walk is the preorder traversal of the whole tree up to its first failure, followed by the closing of each open directory innermost first; it returns 0 if nothing failed and -1 otherwise |
| DirectoryWalk.WalkAllIsCutOff | sem_6/lab2/main.c:47-51 | the same for the readdir loop over any list of entries |
| DirectoryWalk.ReportedUpToFailure | sem_6/lab2/main.c:33-86 | the reports are those of the traversal up to and including the first failure, and the result is 0 if and only if no lstat, opendir or closedir fails |
| DirectoryWalk.WalkReports | sem_6/lab2/main.c:33-62 | the walk reports the entries in preorder, each under its name and as what it is, from the directory named by the start and the names above it, as deep and with as many streams open; all of them when the result is 0, otherwise up to the failure |
| DirectoryWalk.WalkIsLocated | sem_6/lab2/main.c:41-51 | every report of the walk is made from a working directory, and with a number of open streams, as deep as its indentation |
| DirectoryWalk.WalkAllIsLocated | sem_6/lab2/main.c:47-51 | the same for the readdir loop over any list of entries |
| DirectoryWalk.ChdirLaws | sem_6/lab2/main.c:44-54 | a proper name goes down to it and ".." comes back; "." and ".." at the root stay |
| DirectoryWalk.CwdRestoredExactly | sem_6/lab2/main.c:44-54 | chdir in and chdir ".." restore the working directory if and only if none was entered, its name is neither "." nor "..", or the start is the root |
| DirectoryText.LineShapes | sem_6/lab2/main.c:18-75 | the four kinds of line character by character |
| DirectoryText.FailureTexts | sem_6/lab2/main.c:53-81 | a failed lstat prints its indentation, a failed opendir nothing, and the closing line is printed whether closedir fails or not |
| DirectoryText.FailedWalkTexts | sem_6/lab2/main.c:31-42 | the whole text of the walk of a lost entry and of a directory that cannot be opened |
| DirectoryText.CleanText | sem_6/lab2/main.c:18-75 | a tree in which nothing fails is printed line by line as its nesting says |
| DirectoryParse.ParseOfLines | sem_6/lab2/main.c:31-75 | the lines of an entry read back as that entry whatever follows them |
| DirectoryParse.LinesOfParse | sem_6/lab2/main.c:31-75 | lines that read as an entry are the lines of that entry |
| DirectoryParse.RoundTrip | sem_6/lab2/main.c:31-75 | the output of the walk reads back as the tree, the skipped "." and ".." left out, if and only if nothing the walk gets to see fails and no name contains a line break |
| DirectoryParse.ParseExactly | sem_6/lab2/main.c:31-75 | a text reads as a tree if and only if it is the output of the error-free walk of that tree |
| DirectoryObject.Walker.PrintIndent | sem_6/lab2/main.c:18-22 | four spaces for each level |
| DirectoryObject.Walker.PrintInfo | sem_6/lab2/main.c:66-86 | the line of the reported entry follows its indentation, and the result is -1 for the two failures |
| DirectoryObject.Walker.Open | sem_6/lab2/main.c:41-45 | a new stream is open, the working directory is the entry, the opening line is printed |
| DirectoryObject.Walker.Close | sem_6/lab2/main.c:53-56 | the closing line, chdir "..", and the innermost stream, not closed before, is closed |
| DirectoryObject.Walker.DoPath | sem_6/lab2/main.c:24-63 | on every return path: output and result are the walk's, the working directory is as above, the open streams are those at entry, and the streams closed are exactly those opened meanwhile |
| DirectoryObject.Walker.WalkDirectory | sem_6/lab2/main.c:44-62 | the same from the successful opendir on |
| DirectoryObject.Walker.ReadEntries | sem_6/lab2/main.c:47-51 | the loop follows the pure walk of the entries, and leaves working directory and open streams as they were |
| SharedStreams.OutputIsPermutation | sem_6/lab5/main1.c:24-35 | every byte of the file is printed exactly once |
| SharedStreams.DealKeeps | sem_6/lab5/main1.c:15-21 | the two streams share the file, and the first gets between 0 and a buffer more than the second |
| SharedStreams.PositionFormula | sem_6/lab5/main1.c:15-21 | byte k of the first stream is byte k mod B of every other block |
| SharedStreams.OutputAt | sem_6/lab5/main1.c:24-35 | which file position is printed at each output position: in turn while both streams have bytes, then the rest of the first |
| SharedStreams.Round | sem_6/lab5/main1.c:24-35 | one pass of the loop prints the first of what is still to be printed and keeps the buffers in step |
| SharedStreamsObject.OpenFile.Read | sem_6/lab5/main1.c:8-21 | a refill takes the next block from the shared offset |
| SharedStreamsObject.Stream.Scan | sem_6/lab5/main1.c:28-32 | one character from the buffer, refilled first if empty, or -1 at the end of the file |
| SharedStreamsObject.ReadRound | sem_6/lab5/main1.c:26-34 | one pass of the loop in place |
| SharedStreamsObject.ReadInTurn | sem_6/lab5/main1.c:15-35 | the program terminates and prints the closed form, for every file and buffer size |
| SharedThreads.EveryByteAccounted | sem_6/lab5/th1.c:14-21 | in every interleaving each thread has printed, holds and has buffered exactly the blocks it fetched, in file order, and a thread is done only at the end of the file |
| SharedThreads.RefillAccounted | sem_6/lab5/th1.c:18-18 | a refill by any thread deals it the next whole block |
| SharedThreads.TurnsDealAlternately | sem_6/lab5/main1.c:24-35 | the sequential program's two streams are the deal in which refills alternate |
| SharedThreadsTheorems.Conservation | sem_6/lab5/th1.c:14-53 | in every interleaving printed, held, buffered and unread bytes together are the file, for each byte value |
| SharedThreadsTheorems.OutputAtTheEnd | sem_6/lab5/th1.c:46-55 | when all threads have finished the output is a permutation of the file and each thread's part is its blocks in file order |
| SharedThreadsTheorems.EveryThreadEnds | sem_6/lab5/th1.c:15-55 | from every reachable state, every schedule that gives each thread a turn often enough (4 for each byte and 3 for each thread) ends with all threads out of their loops |
| SharedThreadsTheorems.EndOfFile | sem_6/lab5/th1.c:15-21 | at the end of the file any thread with an empty buffer leaves its loop after three steps and prints nothing |
| SharedThreadsTheorems.StepProgress | sem_6/lab5/th1.c:15-21 | every step of a running thread lowers the work that is left |
| SharedThreadsTheorems.Termination | sem_6/lab5/th1.c:15-53 | no interleaving takes more than four steps for each byte and three for each thread |
| SharedThreadsObject.ReadAlone | sem_6/lab5/th1.c:14-21 | an uninterrupted thread prints its buffer and the rest of the file |
| SharedThreadsObject.Readers.constructor | sem_6/lab5/th1.c:24-45 | one open file and an empty buffer for each thread |
| SharedThreadsObject.Simulate | sem_6/lab5/th1.c:7-55 | the loops executed step by step on the shared file, under any schedule, lead to the state the theorems speak about |
| MessageLog.WriteAppends | sem_6/lab4_seq_file/main.c:39-49 | a write, up to one that fills the buffer to its last byte, appends the strings of its text to the queue and keeps the invariant: indices in order, zeros from the write index on, a terminator before it; an empty write changes nothing |
| MessageLog.ShowTakes | sem_6/lab4_seq_file/main.c:31-36 | a show prints the front of the queue and removes it; an empty one in front, or none, changes nothing |
| MessageLog.ShownInRegion | sem_6/lab4_seq_file/main.c:31-33 | the string shown lies inside the written region and its end is found inside the buffer |
| MessageLogRuns.RoomExactly | sem_6/lab4_seq_file/main.c:31-46 | a run of writes and shows stays inside the buffer if and only if the log was written to before or the first write is not empty, the bytes of all writes fit, and no show comes when the buffer is written to its last byte and everything in it is shown |
| MessageLogRuns.NewLogRoom | sem_6/lab4_seq_file/main.c:79-89 | on a new log all of its size is room and nothing is queued |
| MessageLogRuns.ShowBehindTheBuffer | sem_6/lab4_seq_file/main.c:31-35 | on a buffer of two bytes a write of two, a show and another show read behind the buffer |
| MessageLogRuns.FirstInFirstOut | sem_6/lab4_seq_file/main.c:31-48 | over every run of writes and shows, what was delivered followed by what is queued is what was queued followed by the strings of all texts written |
| MessageLogRuns.InOrderExactly | sem_6/lab4_seq_file/main.c:31-48 | over every such run these are the texts themselves, in order, if and only if no text contains a zero byte |
| MessageLogRuns.OnePiece | sem_6/lab4_seq_file/main.c:42-46 | a text without zero bytes is kept as one string, its last byte given up to the terminator |
| MessageLogRuns.DeliveredExactly | sem_6/lab4_seq_file/main.c:31-48 | after every such run, one show for each message still owed stays inside the buffer and completes the output to everything queued and written, in order, if and only if no text has a zero byte and no non-empty message comes behind an empty one |
| MessageLogObject.CookiePot.constructor | sem_6/lab4_seq_file/main.c:79-89 | a zeroed buffer, both indices 0, an empty queue |
| MessageLogObject.CookiePot.CopyIn | sem_6/lab4_seq_file/main.c:42-43 | the bytes replace those at the position and no others, or the access leaves the buffer |
| MessageLogObject.CookiePot.Write | sem_6/lab4_seq_file/main.c:39-49 | my_write in place, for any bytes: it leaves the buffer exactly when they do not fit or an empty write comes first, and otherwise is the write of the theorems |
| MessageLogObject.CookiePot.Show | sem_6/lab4_seq_file/main.c:22-37 | my_show in place: it leaves the buffer exactly when the read index is behind it, and otherwise prints the index and the string and moves on |
| MessageLogObject.Simulate | sem_6/lab4_seq_file/main.c:22-49 | a run of writes and shows on a new log leaves the buffer if and only if the run is not possible, and otherwise delivers what the theorems say |

## Left out

- BoundedBufferObject.SharedRing.Produce: asks for a write index past the header cells, which every state between two rounds has (BoundedBufferProofs.AtomicRunsAreCalm).
- RwMonitorTheorems.MonitorExclusion: rests on the monitor assumption above; for calls interleaved freely it is false, and RwSyscallLimits.ExclusionExactly says when it is not.
- DirectoryObject.Walker.DoPath: an entry name is one path component; a longer path as the program's argument changes the directory by more than one level and is not modelled.
- MessageLogObject.CookiePot.Write: says only that an access has left the buffer; what it does to other memory is undefined. A failing copy_from_user is not modelled.
- MessageLogObject.CookiePot.Show: likewise for a read behind the buffer.
- The letter that readers and writers exchange, random delays, and all fork, wait, semget and shmget plumbing with their error messages.
- SEM_UNDO adjustments, their range, and processes that end.
- A chdir that fails after a successful opendir, the wording on standard error, and the line with the program's own name.
- sem_6/lab2/comment.c: an annotated variant with other error results.
- stdio beyond the refill of a buffer, and the three programs of sem_6/lab5 that only show flushing or doubled output.
- seq_file machinery around the log, including a second call of the show function by the kernel.
- sem_6/lab4_2: its writes always append at the first string, so there is no queue to prove.
- The socket server, the file system module, the daemon, the /proc readers and the interrupt modules: calls into the kernel with little logic of their own.
