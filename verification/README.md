# Models of the programs of an operating-systems course

The repository is a set of small C programs: socket servers around a ring buffer,
two directory walkers, a kernel module that serves fortune cookies, experiments
with file offsets and stdio buffers, a dump of `/proc`, and a keyboard interrupt
with deferred work. This project models the ones whose behaviour depends on
interleaving, on buffers edited in place or on parsing, and proves what holds of
all their inputs and all their runs. `dafny verify dfyconfig.toml` checks it.

The system calls are part of the model: a `semop` that takes or gives two
semaphores at once, a descriptor with an offset of its own or a shared one, path
look-up in a finite tree, a work queue. The constants of the C code (ring size,
initial semaphore values, buffer sizes, page size, size of the pot) are
parameters. Programs that change things in place are classes with methods; each
method is proved equal to a step of a specification function, and the lemmas are
about all sequences of steps.

| file | subject |
|---|---|
| `RingServer`, `RingOutcomes` | thread-per-request server of lab_01: any number of threads, any schedule |
| `QueueServer` | epoll server of lab_01: a bounded queue |
| `DirTree`, `PathBuffers`, `TreeWalk`, `NochdirWalk`, `ChdirWalk`, `WalkTheorems`, `WalkVisits` | the two tree walkers of lab_02 |
| `ProcStat`, `ProcMaps` | the stat parsers and the maps loop of lab_03 |
| `FortunePot`, `FortuneRace` | the cookie pot of lab_04, and its writes when several run at once |
| `SharedOffset`, `SharedInode`, `SharedInodeOutcomes`, `ReaderThreads` | the experiments of lab_05 |
| `KeyWork` | the work queue of lab_07 |
| `Cycles`, `Strings`, `Options` | indices that run round a cycle; string searches; an option type |

Properties that turn out to hold only under a condition are proved with the exact
condition:

- The thread-per-request server starts SE at 4096 for a ring of 26 slots. Letters
  still come out right, because slot j only ever holds letter j, but unread slots
  are overwritten. No run overwrites one exactly when SE starts no higher than the
  ring size (`RingOutcomes.OverwriteFreeIff`).
- The final outcome is independent of the schedule exactly when SE starts above 0
  or one of the roles is absent (`RingOutcomes.FinalOutcome`).
- `myftw` finds `pathlen` 0 and makes the buffer twice as long as the start path,
  and `dopath` doubles it at most once for a directory. No tree makes the walk
  store past the end exactly when the start path has at least 86 bytes for
  nochdir.c and at least 64 for chdir.c (`TreeWalk.RoomIff`). With a shorter one
  the calls made before that point are still the first calls of the preorder.
- chdir.c exits at a directory that can be read but not entered, where nochdir.c
  reports FTW_NS for its entries; it never exits exactly when there is no such
  directory in the way (`WalkTheorems.NeverExitsIff`).
- For any characters, the buffered and the unbuffered writer leave the same file for
  every capacity of the buffers exactly when the file that 3-write.c opens (and does
  not truncate) is not longer than what gets written, and either no prefix has more
  even codes than odd ones or there are no odd codes
  (`SharedInodeOutcomes.SameFileIff`). The alphabet meets the condition on the codes.
- The cookie pot gives what a list of cookies with a cursor gives exactly when every
  read asks for at least the cookie it is due, or fails its copy
  (`FortunePot.PotIsListAndCursor`). A shorter read drops a character, and the next
  read may then return nothing (`FortunePot.ShortReadDropsCharacter`).
- `fortune_write` takes no lock. However writers interleave, every store stays inside
  the pot exactly when there is room for all those together that would fit alone
  (`FortuneRace.InsideIff`); two writers that each fill an empty pot do not meet that.

## Model

| member | source | states |
|---|---|---|
| RingServer.NextKeepsInv | lab_01/client-server-af-inet/multithread/server.c:66-88 | one atomic action of one thread keeps the whole invariant: what the semaphores count, where the indices stand, which letter each slot holds, and which consumer holds which letter |
| RingServer.ApplyKeepsInv | lab_01/client-server-af-inet/multithread/server.c:299-320 | so do the creation of a thread and an attempt to move a blocked one, and no action ever leaves the ring |
| RingServer.AtAccess | lab_01/client-server-af-inet/multithread/server.c:107-116 | at its buffer access a thread finds its index at the slot of the next letter, and a consumer finds that letter already stored |
| RingServer.LoadsAreStores | lab_01/client-server-af-inet/multithread/server.c:66-75 | in every run the i-th produce stores the byte 97 + i mod n (`'a'` is 97), and the i-th slot read returns it, for any initial SE and however unread slots were overwritten; with 26 slots every byte is a letter from 97 to 122 |
| RingServer.Server.Create | lab_01/client-server-af-inet/multithread/server.c:299-320 | `pthread_create` adds one thread at its first statement and changes nothing else |
| RingServer.Server.Advance | lab_01/client-server-af-inet/multithread/server.c:55-124 | the next statement of a thread changes the shared memory as the step function says, and blocks exactly when one of the two semaphores it takes is 0 |
| RingServer.Server.AdvanceProduce | lab_01/client-server-af-inet/multithread/server.c:66-88 | the same for the statements of `produce`, over the ring array and the index variables |
| RingServer.Server.AdvanceConsume | lab_01/client-server-af-inet/multithread/server.c:107-129 | the same for the statements of `consume` |
| RingServer.Server.Serve | lab_01/client-server-af-inet/multithread/server.c:276-320 | any sequence of thread creations and thread moves takes a freshly started server to the state of that run, so all that holds of runs holds of the shared memory |
| RingServer.Server.constructor | lab_01/client-server-af-inet/multithread/server.c:219-239 | the initial state: SE at k, SF at 0, SB at 1, both indices 0 |
| RingOutcomes.SemaphoresConserved | lab_01/client-server-af-inet/multithread/server.c:25-40 | in every reachable state SB and the threads between their two `semop` calls sum to 1, and SE, SF and those threads sum to the initial SE |
| RingOutcomes.EachLetterDeliveredOnce | lab_01/client-server-af-inet/multithread/server.c:107-118 | the loads are a bijection from the first produces to the consumers past their read: each of these holds the byte 97 + i mod n of one produce, no two that of the same one, and no letter read is held by nobody |
| RingOutcomes.FinalOutcome | lab_01/client-server-af-inet/multithread/server.c:25-40 | a run of p producers and c consumers in which nobody can move has finished min(p, K + c) and min(c, p) of them, if and only if K > 0 or a role is absent; with K = 0 nobody finishes |
| RingOutcomes.SomeoneCanMove | lab_01/client-server-af-inet/multithread/server.c:66-88 | with K > 0 a waiting producer and a waiting consumer are never both stuck |
| RingOutcomes.MovesAreBounded | lab_01/client-server-af-inet/multithread/server.c:55-138 | the moves of any run are at most five for each thread, so every run comes to rest once requests stop |
| RingOutcomes.NoOverwrite | lab_01/client-server-af-inet/multithread/server.c:72-75 | with K at most the ring size, every unread slot belongs to a letter stored and not read yet, and no store ever hits one |
| RingOutcomes.OverwriteFreeIff | lab_01/client-server-af-inet/multithread/server.c:219-219 | no run ever overwrites an unread slot if and only if K is at most the ring size |
| QueueServer.Server.Producer | lab_01/client-server-af-inet/multiplex/server.c:63-106 | adds the next letter to the queue and replies OK, or replies ER and changes nothing when it is full |
| QueueServer.Server.Consumer | lab_01/client-server-af-inet/multiplex/server.c:108-150 | takes the oldest letter out of the queue and sends it, or replies ER and changes nothing when it is empty |
| QueueServer.Server.Worker | lab_01/client-server-af-inet/multiplex/server.c:152-173 | dispatches on the request; any other byte gets no reply and changes nothing |
| QueueServer.Server.Serve | lab_01/client-server-af-inet/multiplex/server.c:306-361 | for any sequence of requests to a fresh server, the replies and the final state are those of the bounded queue, and EMPTY + FULL = N between requests |
| QueueServer.Server.constructor | lab_01/client-server-af-inet/multiplex/server.c:194-235 | a fresh server is an empty queue at letter 'a' |
| QueueServer.QueueHoldsInterval | lab_01/client-server-af-inet/multiplex/server.c:78-85 | the queue always holds the letters from the first not taken to the last made, for any capacity, so the letter cycle and the index cycle may differ |
| QueueServer.RepliesAreFifo | lab_01/client-server-af-inet/multiplex/server.c:63-144 | the three bytes of every single reply, from the earlier replies alone: with m produces accepted and t letters sent so far, a produce gets 'O' 'K' 0 exactly when m - t < N, a consume gets 'a' + t mod 26 and two zero bytes exactly when t < m, and every other one gets 'E' 'R' 0 |
| NochdirWalk.Walk.Dopath | lab_02/ftw/nochdir.c:105-154 | the recursion makes the calls of its script, cut just after the first answer that is not 0, and returns that answer; every return leaves the path in the buffer, with a slash behind it only at the FTW_DNR exit |
| NochdirWalk.Walk.Directory | lab_02/ftw/nochdir.c:122-136 | the single doubling, the slash and the exit for an unreadable directory |
| NochdirWalk.Walk.Entries | lab_02/ftw/nochdir.c:138-153 | the loop over the entries, stopped by an answer that is not 0, and the exact restoration of the path after it |
| NochdirWalk.Walk.One | lab_02/ftw/nochdir.c:142-143 | one round: the name is stored behind the slash and walked; the path and the slash are intact after it |
| NochdirWalk.Walk.Myftw | lab_02/ftw/nochdir.c:88-103 | the calls and the result of the whole program, in a buffer of twice the start path |
| ChdirWalk.Walk.Dopath | lab_02/ftw/chdir.c:105-163 | the same with `chdir`; it also says in which directory it returns, and that every name given to the callback leads, from the working directory at that call, to a node that is what the call says |
| ChdirWalk.Walk.Directory | lab_02/ftw/chdir.c:121-141 | the slash, the exit for an unreadable directory and `chdir` in, or the exit of the program |
| ChdirWalk.Walk.Entries | lab_02/ftw/chdir.c:143-162 | the loop over the entries and `chdir("..")`, which never fails here and ends in the parent |
| ChdirWalk.Walk.One | lab_02/ftw/chdir.c:147-148 | every recursive call of depth at least 1 returns with the working directory it was entered with, early stops included |
| ChdirWalk.Walk.Myftw | lab_02/ftw/chdir.c:88-103 | the calls, the result and the final working directory of the whole program, and the truth of every name given to the callback |
| PathBuffers.PathBuffer.Grow | lab_02/ftw/nochdir.c:123-131 | the check and the doubling keep the bytes of the buffer |
| PathBuffers.StoreString | lab_02/ftw/nochdir.c:132-142 | storing text and a terminator behind a path in the buffer makes the string path + text |
| DirTree.ResolveChild | lab_02/ftw/nochdir.c:113-142 | path, slash and name lead to the entry of that name, or nowhere when the directory cannot be searched |
| DirTree.ResolveUp | lab_02/ftw/chdir.c:152-152 | from a directory that was entered, ".." leads to its parent, which can be entered |
| TreeWalk.ScriptIsPreorder | lab_02/ftw/nochdir.c:122-142 | once a path fits the buffer, one doubling for each directory leaves room for separator, name and terminator at every depth and after every return |
| TreeWalk.RoomIff | lab_02/ftw/nochdir.c:92-101 | over all trees, the walk never stores past its buffer if and only if the start path has at least 86 (nochdir.c) or 64 (chdir.c) bytes |
| WalkTheorems.WalkIsPreorder | lab_02/ftw/nochdir.c:105-154 | for any tree, `readdir` order, callback and buffer: the calls are the preorder (FTW_D, then FTW_DNR for an unreadable directory), cut just after the first answer that is not 0, and that answer is returned; or the buffer was overrun first |
| WalkTheorems.LongStartIsPreorder | lab_02/ftw/nochdir.c:88-154 | from a long enough start path both programs do exactly the walk that is meant |
| WalkTheorems.SameWalk | lab_02/ftw/chdir.c:131-162 | for a callback that looks at base name, type and depth only, the two walks make the same calls and return the same answer; if chdir.c exits, its calls are the first calls of nochdir.c |
| WalkTheorems.SameRun | lab_02/ftw/chdir.c:88-163 | the same for the two programs with their buffers, from a start path of at least 86 bytes |
| WalkTheorems.NeverExitsIff | lab_02/ftw/chdir.c:88-141 | chdir.c with its buffer, from a start path of at least 64 bytes, exits for no callback if and only if every directory it can read on its way can be entered |
| WalkTheorems.PathsAreTrue | lab_02/ftw/nochdir.c:132-147 | every path given to the callback of nochdir.c leads from the working directory to the node the call is about |
| WalkTheorems.BaseOfName | lab_02/ftw/nochdir.c:158-159 | `strrchr` finds the last component of a path, whichever prefix it has |
| WalkTheorems.MyfuncCountsTree | lab_02/ftw/nochdir.c:156-213 | with `myfunc` both programs, from a long enough start path (and for chdir.c with directories that can be entered), visit everything and return 0, and each counter is the number of nodes of its type that can be reached |
| WalkVisits.EveryNodeVisited | lab_02/ftw/nochdir.c:105-154 | every node that names other than "." and ".." lead to through readable directories is visited: exactly one call other than FTW_DNR has its path, with its type and depth (FTW_NS below a directory that cannot be searched), and an unreadable directory has its FTW_DNR call right after |
| WalkVisits.EveryCallIsOfANode | lab_02/ftw/nochdir.c:105-154 | and nothing else is visited: every call is about such a node, under its path, at its depth, and tells what it is |
| WalkVisits.VisitOrder | lab_02/ftw/nochdir.c:119-146 | of two calls the earlier one is about a directory above the other node, or about an entry that `readdir` delivered first on the way to it, and conversely |
| WalkVisits.ChdirVisitsTheSame | lab_02/ftw/chdir.c:105-163 | chdir.c makes a call of the same type and depth for each of these, with the last name of its path |
| WalkVisits.FirstAnswerEnds | lab_02/ftw/nochdir.c:119-153 | whatever the callback: the calls are the first ones of the full walk, all answers before the last are 0, the last answer is returned, and if it is 0 the walk is complete |
| WalkVisits.CountersCountCalls | lab_02/ftw/nochdir.c:172-202 | after any calls nreg, nblk, nchr, nfifo, nslink and nsock are the numbers of FTW_F calls for files of their kind, and ndir that of the FTW_D calls |
| ProcStat.PrintFullStat | lab_03/proc-1/main.c:112-171 | overwriting the two parentheses in the buffer leaves the pid, comm and the fields as the three strings that the table of the line shows, for any line |
| ProcStat.PrintFields | lab_03/proc-1/main.c:148-169 | the loop shows the first 50 tokens |
| ProcStat.Between | lab_03/proc-1/main.c:114-149 | any line is split at its first left and last right parenthesis, whatever stands between them, by both parsers |
| ProcStat.Crossed | lab_03/proc-1/main.c:114-149 | a line whose last right parenthesis comes before its first left one: the pid ends at the right one, comm starts behind the left one, and the fields end there |
| ProcStat.NoTable | lab_03/proc-1/main.c:114-120 | there is no table exactly when a parenthesis is missing, and the fields are sought behind the line exactly when it ends in a right parenthesis |
| ProcStat.RoundTrip | lab_03/proc-1/main.c:114-169 | printing a pid, any comm and any words as fields, then parsing, gives all of them back (of more than 50 fields the first 50), whatever parentheses and spaces comm holds |
| ProcStat.ParsersAgree | lab_03/proc-1/main.c:74-88 | on every such line the skipping `sscanf` converts exactly the texts that the table shows as fields 23 and 28 |
| ProcStat.ScanSkips | lab_03/proc-1/main.c:83-88 | a number conversion skips white space of any kind, and takes a sign and all digits |
| ProcMaps.LookUpRegion | lab_03/proc-1/main.c:414-427 | the inner loop looks up every page of its region, and its 64-bit counter does not pass the end or wrap |
| ProcMaps.ProcessMaps | lab_03/proc-1/main.c:385-430 | the sum of the sizes is page size times the number of pages, without wrapping, and the look-ups are those of all pages |
| ProcMaps.EveryPageOnce | lab_03/proc-1/main.c:388-428 | the pages looked up are exactly the mapped ones, each once, in ascending order |
| ProcMaps.OffsetOfPage | lab_03/proc-1/main.c:416-419 | the offset read for a page is its page number times the size of an entry, and 64 bits hold it |
| ProcMaps.OffsetsAscend | lab_03/proc-1/main.c:416-419 | the offsets read in the pagemap are strictly increasing and do not wrap |
| FortunePot.Pot.Write | lab_04/lkm-3/md.c:31-46 | a write is refused with ENOSPC, fails the copy without changing the cookies, or adds its pieces to the list; the bytes below the write index are always the encoded list |
| FortunePot.Pot.Read | lab_04/lkm-3/md.c:48-71 | a read returns the rest of the cookie at the cursor, cut to the length asked for, and moves the cursor; it gives nothing at a later offset or for an empty pot, and a failing copy only rewinds |
| FortunePot.Pot.constructor | lab_04/lkm-3/md.c:80-86 | a fresh pot is an empty list |
| FortunePot.WriteLaw | lab_04/lkm-3/md.c:34-45 | -28 exactly when data and terminator do not fit behind the bytes in use, -14 exactly when a copy of something fails, else data and a zero byte are added; the file offset grows by the result exactly when it is not negative |
| FortunePot.ReadLaw | lab_04/lkm-3/md.c:53-70 | in terms of the bytes in use alone: nothing at a later offset or in an empty pot; else the bytes from the read index (0 when it is at the end) to a zero byte or the length asked for, and the index behind the next byte; a failing copy of something gives -14 and leaves the index at the start of the read |
| FortunePot.StepAdvances | lab_04/lkm-3/md.c:59-66 | a read moves the read index by what it returned and one, and never past the write index |
| FortunePot.PositionInside | lab_04/lkm-3/md.c:53-57 | the read index is at most the write index, and below it exactly when the cursor is at a cookie |
| FortunePot.FetchAdvances | lab_04/lkm-3/md.c:59-70 | each read returns a contiguous part of a single cookie |
| FortunePot.PassIsBounded | lab_04/lkm-3/md.c:53-67 | between two wraps every read advances the read index, so the reads of a pass and the characters they return are together at most the bytes left in the pot |
| FortunePot.EncodePieces | lab_04/lkm-3/md.c:37-41 | written data and their terminator are the encoding of their pieces, none of which holds a NUL |
| FortunePot.PiecesOfEncode | lab_04/lkm-3/md.c:37-41 | the bytes of a pot determine its cookies: decoding what was encoded gives them back |
| FortunePot.RoundRobin | lab_04/lkm-3/md.c:56-66 | the k-th long enough read of a pot at rest returns cookie k mod n, forever |
| FortunePot.PotIsListAndCursor | lab_04/lkm-3/md.c:31-71 | for NUL-free cookies and reads of any lengths on fresh opens, a mix of stored, refused and failing operations returns what a list with a cursor returns, if and only if every read asks for at least the cookie it is due or fails its copy |
| FortunePot.ShortReadDropsCharacter | lab_04/lkm-3/md.c:59-66 | a one-byte read of a two-byte cookie returns its first byte, and the next read returns nothing |
| FortuneRace.InsideIff | lab_04/lkm-3/md.c:34-41 | over all interleavings of the check, the copy, the two halves of the addition and the terminator of any number of writers, no store leaves the pot if and only if the writers that would fit alone fit together |
| FortuneRace.InsideMeansNoStoreOutside | lab_04/lkm-3/md.c:37-41 | a schedule counts as inside exactly when none of its steps, failing copies included, stores at or past the end of the pot |
| FortuneRace.RunKeepsInv | lab_04/lkm-3/md.c:34-41 | while they fit together, write_index plus what is still pending never passes the size, and neither does any stale value a writer has loaded |
| FortuneRace.OneWriterStaysInside | lab_04/lkm-3/md.c:31-46 | a writer alone never leaves the pot |
| FortuneRace.TwoWritersLeave | lab_04/lkm-3/md.c:34-41 | two writers that each fill an empty pot have an interleaving that stores outside it |
| SharedOffset.Print | lab_05/src/1.c:8-30 | for any file and any buffer size the loop terminates and prints the weave of the file: its blocks, alternated two by two |
| SharedOffset.InStream.Scan | lab_05/src/1.c:20-25 | one `fscanf` takes the next character of the buffer, refilling it from the shared offset when empty |
| SharedOffset.WeaveKeepsAll | lab_05/src/1.c:17-30 | every byte of the file is printed exactly once |
| SharedOffset.AlternateAt | lab_05/src/1.c:17-30 | where each character of two blocks is printed |
| SharedOffset.ShortFiles | lab_05/src/1.c:8-14 | a file of one block is printed as it is; a file of up to two blocks is the first block alternating with the rest, then the remainder of the first block |
| SharedInode.WriteUnbuffered | lab_05/src/3-write.c:15-29 | for any characters, two descriptors with offsets of their own overlay the file one character at a time |
| SharedInode.PrintInTurn | lab_05/src/3-fprintf.c:17-24 | for any characters, the loop over two buffered streams leaves the file, the offsets and the buffers of the step function |
| SharedInode.WriteBuffered | lab_05/src/3-fprintf.c:13-27 | for any characters and any capacity, the file after both streams are closed, the first one first |
| SharedInode.Stream.Put | lab_05/src/3-fprintf.c:19-22 | a character goes to the buffer, and a full buffer goes to the file at the stream's own offset first |
| SharedInodeOutcomes.UnbufferedSplit | lab_05/src/3-write.c:15-29 | what the file held before matters only beyond the last place written |
| SharedInodeOutcomes.PrintedWaits | lab_05/src/3-fprintf.c:17-24 | at any point of the loop each stream has in its buffer exactly what it put and did not flush, never more than the capacity |
| SharedInodeOutcomes.LedLevel | lab_05/src/3-fprintf.c:17-24 | when no prefix has more even codes than odd ones, the first stream is always a whole number of buffers ahead of the second in the file |
| SharedInodeOutcomes.LedKeeps | lab_05/src/3-fprintf.c:13-27 | then both programs leave the characters of the second descriptor and those of the first without a partner, whatever the capacity, and 3-write.c what the file held beyond |
| SharedInodeOutcomes.LagShows | lab_05/src/3-fprintf.c:17-27 | when some prefix has more even codes than odd ones and there is an odd code, there is a capacity for which the two programs differ on an empty file |
| SharedInodeOutcomes.SameFileIff | lab_05/src/3-write.c:15-29 | for any characters and any file, the two programs leave the same for every capacity if and only if that file is not longer than what is written, and no prefix has more even codes than odd ones or there is no odd code |
| SharedInodeOutcomes.OddsAreOdd | lab_05/src/3-fprintf.c:19-22 | every character goes through exactly one descriptor, the first for odd codes and the second for even ones |
| SharedInodeOutcomes.AlternatingKeeps | lab_05/src/3-fprintf.c:17-27 | for characters of alternating parity, position i of the file holds item 2i + 1, or the last item without a partner |
| SharedInodeOutcomes.ConsecutiveKeeps | lab_05/src/3-fprintf.c:17-27 | the same for characters in the order of their codes that start with an odd one, for both programs and every capacity |
| SharedInodeOutcomes.AlphabetKeeps | lab_05/src/3-fprintf.c:17-27 | the 26 characters from 'a' on leave "bdfhjlnprtvxz" in both programs |
| SharedInodeOutcomes.EvenCountKeepsSecond | lab_05/src/3-fprintf.c:25-27 | for an even number of them the file is the letters of the second descriptor, in order |
| ReaderThreads.RunKeepsInv | lab_05/src/2-2t.c:13-17 | in any interleaving of the separate reads and writes, every thread has written what it has read, except for the character in hand |
| ReaderThreads.JoinedOutputs | lab_05/src/2-3t.c:28-40 | with joined threads the possible outputs, over all schedules, are exactly the shuffles of the threads' copies of the whole file |
| ReaderThreads.DetachedOutputs | lab_05/src/2-2t-det.c:40-45 | with detached threads and process exit, exactly the outputs in which the main copy is complete and every other thread's is a prefix of the file |
| ReaderThreads.EachCharacterTwice | lab_05/src/2-2t.c:36-41 | with two joined threads every character of the file is printed twice |
| ReaderThreads.Process.Step | lab_05/src/2-2t.c:13-17 | one system call of one thread changes offset, character in hand and output as the step function says |
| ReaderThreads.Process.Loop | lab_05/src/2-2t.c:36-40 | the loop of a thread that runs alone terminates at the end of the file and adds the whole file to the output |
| KeyWork.RunKeepsInv | lab_07/my-workqueue.c:32-77 | in any interleaving of the statements of handler and workers, each item is pending, running before its read, about to be queued, or has been read with its present code |
| KeyWork.LastCodeIsRead | lab_07/my-workqueue.c:32-77 | however interrupts and workers interleave, at rest both workers have last read the scancode of the last interrupt |
| KeyWork.ReadsAreDelivered | lab_07/my-workqueue.c:35-52 | at any time each worker has read only scancodes of interrupts that happened, never an older one after a newer one, and at most one for each interrupt |
| KeyWork.WorkFunction | lab_07/my-workqueue.c:37-45 | after its read a worker logs nothing exactly for a press (a code below 0x80); a release is logged under its code less 0x80, with a name exactly when the layout table has one |
| KeyWork.LogShowsReleases | lab_07/my-workqueue.c:37-62 | whatever a worker has read, the messages of its log are exactly the releases among it, in order, each under the key number of its press |
| KeyWork.Driver.Enter | lab_07/my-workqueue.c:67-69 | the handler is entered and reads the port |
| KeyWork.Driver.Continue | lab_07/my-workqueue.c:71-75 | its four statements, over the statics of the module |
| KeyWork.Driver.Worker | lab_07/my-workqueue.c:32-63 | a worker starts a pending item, reads the code it holds by then, and ends; its log has exactly one message for each of its reads |
| Cycles.SlotIsMod | lab_01/client-server-af-inet/multithread/server.c:73-75 | an index that is incremented and reset at the end stands at i mod n after i increments |

## Left out

- Sockets, epoll, accept loops, clients, signals, clocks, logs and delays of lab_01.
- `semop`, `send` and `write` errors that end in `exit(1)`. A decrement blocks, or gives EAGAIN in its timed form, exactly when the value is 0; an increment always succeeds, so the EAGAIN branches after increments are not reached.
- The address of `connfd` that the thread-per-request server hands to its threads: which connection a reply goes to is not modelled.
- A client of the epoll server that closes without sending a request.
- RingServer.Server.Advance: takes one store or load to be one atomic action; `++index` is one action, which exclusion by SB makes enough; `send` between the index and the second `semop`, with its failing exit, is left out.
- NochdirWalk.Walk.Myftw: ends the model at a store past the end of the buffer, since C promises nothing after it; ENAMETOOLONG and failures of `realloc` and `closedir` are not modelled.
- ChdirWalk.Walk.Myftw: same; an empty start path overruns its buffer of length 0 at once.
- Symbolic links met while a path is resolved (`lstat` reports a link as a file, and the start path is taken to contain none), trees that change during the walk, running out of descriptors, `path_alloc` and `sysconf`, the indentation and the messages that `myfunc` prints.
- The call for an unreadable directory passes its path with a trailing slash, so the base name that `myfunc` finds there is empty; the model keeps this.
- FortunePot.Pot.Write: does not wrap `len + 1`, since the kernel bounds the length of a write, and runs one call at a time, though the module takes no lock; where stores of concurrent writers can go is the subject of FortuneRace. `printk` is left out.
- FortunePot.Pot.Read: runs one call at a time, though the module takes no lock; readers that interleave with each other or with writers are not modelled.
- FortuneRace.InsideIff: is about where the stores of concurrent writers go, in a pot smaller than 2^31 bytes; which bytes of overlapping copies survive is not modelled.
- FortunePot.PotIsListAndCursor: is about data without NUL bytes; what other data amount to is stated by EncodePieces and Pot.Write.
- SharedInode.WriteBuffered: takes a full buffer to be flushed when the next character arrives, which stdio may also do at once. The sizes printed by `print_stat` on the way are left out.
- ReaderThreads.JoinedOutputs: leaves out failing reads and writes, where `thread_func` writes a character after a failed read and `main` does not.
- KeyWork.LastCodeIsRead: assumes that the module is initialised before the first interrupt, although it asks for the interrupt before it creates the queue; of the kernel it assumes that queueing a pending item does nothing, that pending is cleared before the function runs and that an item does not run twice at once. The 2 ms sleep of the second function has no effect in the model, which delays every read arbitrarily.
- ProcStat.RoundTrip: the numbers are texts; the hexadecimal form in which some fields are printed, and the conversion of the texts to 64-bit values, are left out. A pointer to fields behind the end of the line is reported and not followed.
- ProcMaps.ProcessMaps: takes the two addresses of a line as parsed; a look-up is a call of `pread`, and what is printed when it succeeds is left out, as is the printing of the maps lines. The regions are sorted, disjoint, page-aligned and below 2^64, as the kernel writes them.
- lab_03's directory creation, descriptors, links, environment, command line and task dumps: printing only.
- lab_01's AF_UNIX and socketpair programs, lab_04's lkm-1 and lkm-2, lab_06, lab_07/tasklet.c, lab_05's 2-1t.c and 2-3t-det.c: registration code, or easier cases of what is modelled.
