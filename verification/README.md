# A verified model of verdiff

verdiff compares two directory trees. It scans each tree into a hash index from relative path to
size, classifies paths by looking one index up in the other, hands the common paths of equal size to
a pool of worker threads that compare contents, collects the verdicts in a result set with counters
and an AVL tree, and writes a report in order of path. This project models that program in Dafny, from
the byte comparison to the interleaving of its threads, and proves what the parts promise and what
they add up to.

The central result is `Verdiff.SuccessfulRunsReportTheDifference`: under every interleaving, with any
number of workers, any queue capacity, any layout of the indexes and any hash function, a run that
returns 0 has recorded exactly the set-theoretic difference of the two indexes, each path once, sorted
by path, with the right counters. `EndToEnd.CompareTrees` carries this to the whole program, from two
directory trees to the rows written, with all threads working on the real data structures under any
schedule. `Liveness` shows that runs end: nobody waits in vain, and the number of steps is bounded by
the input.

## How the model is laid out

- `Common`: bytes, paths, error numbers, records, and `strcmp` as an order.
- `Avl`, `PathTree`: the path tree as a value and, on the heap, the in-place rotations and insertion
  proved against it.
- `Results`, `ResultSet`: the result set as a value and as a class with its growing array, counters,
  tree and rollback.
- `Words`, `Arena`, `Slots`, `FileIndex`: machine words and masks, the string arena, linear probing as
  a value, and the index class proved to be a finite map.
- `Paths`, `Tree`, `Scanner`: path joining, directory trees as values, and the scan with its explicit
  stack.
- `Content`, `Compare`: chunked byte comparison, line differences, and the verdict on one file.
- `Planner`: which call each index slot leads to, and that the calls cover every path once.
- `TaskQueue`, `Protocol`, `Safety`, `Liveness`, `Runs`: the ring buffer; planner and workers as a
  transition system in which every critical section is a step; what every reachable state satisfies;
  progress and termination; and statements about whole runs.
- `FirstError`: on which inputs the code returned is always the first error.
- `Refinement`, `WorkerLoop`, `PlannerLoop`: the methods on the heap carry out the protocol's steps, up
  to the worker's whole loop and the planner's two loops.
- `Machine`: planner and workers together on those objects, under any schedule.
- `Reporting`, `Verdiff`, `Output`, `EndToEnd`: sorted listings, the report of a successful run, the walk
  that writes its rows, and the whole program as a function of two directory trees.

Allocation failures, I/O errors, short reads, looks for text that fail, the choice of the thread that
moves, the waiter that a signal wakes and wake-ups without a signal are all parameters over which the
statements are quantified. How the reads of a path's two files split them and whether the files can be
looked at for text is given with the input of a run, as a function of the path: no path is compared
twice (`Verdiff.TakenOnce`). Hash functions, for paths and for contents, are arbitrary. Files do not
change during a run.

## What turned out not to hold

- The error returned is not always the first one, as the comment in `include/thread_pool.h:7-12` has
  it: when a worker fails while the planner is still pushing, the planner returns `ECANCELED`, and when
  a record of the planner cannot be pushed there is a code but no first error. Every run on an input
  returns the first error exactly if the two indexes agree on paths and sizes and hold at most one
  file (`FirstError.FirstErrorReturnedIffOneFile`); on every other input a run that does not is
  constructed. `FirstError.ReturnedCodeNeedNotBeFirstError` is one for two tables as `main` makes them.
- A line difference can be stored with the same text on both sides, because lines are compared with
  their terminators and stored without them. This is so exactly for lines that differ only in the
  newlines and carriage returns at their ends, a missing line counting as empty
  (`Content.PairLooksIdenticalIff`, `Content.SomePairLooksIdenticalIff`). Printed, the two sides are
  the same in more cases, since both are clipped to 36 columns: `Output.PrintedAlikeIff` says in which.
- A verdict is not always right. Unequal files of one size are told apart exactly if their hashes differ
  or they are verified with a buffer of at least one byte; equal files are recognised exactly if they
  are not verified or both are read in pieces of the same lengths (`Compare.VerdictRightIff`,
  `Content.LooksEqualIff`). `Content.ShortReadMisleads` is a short `read` that misleads.
- `next_pow2` never returns for an argument above 2^63 (`Words.NextPow2Diverges`).
- `include/common.h:146` calls the table Robin-Hood-esque. It is plain linear probing: no entry is ever
  moved to make room for another. The initial value in `vd_hash_path` (`src/index.c:18`) has a digit
  less than the published FNV-1a offset basis, so nothing here relies on that function being FNV-1a.

## Model

| member | source | states |
|---|---|---|
| Verdiff.SuccessfulRunsReportTheDifference | src/planner.c:62-95 | Whatever the interleaving, thread count, queue size, table layout and hash: a run that returns 0 on unchanged files, with verification on and reads that fill the buffer, lists exactly one record per listed path, the one the two contents call for, in strict order of path, with line details exactly if both files were taken for text (a look that fails makes a file binary, without an error); and its four counters are the sizes of A without B, B without A, and the common paths with unequal and equal contents |
| Verdiff.ReportIsDeterministic | src/planner.c:62-91 | Any two successful runs over the same input, including the same outcomes of the looks for text and the same splitting of reads, give the same listing and counters, whatever the schedule, insertion order, slot layout, queue size or thread count |
| Verdiff.RowsIgnoreOptions | src/output.c:123-128 | With verification on, reads that fill the buffer and the same outcomes of the looks for text, neither the content hash nor skipping unchanged files changes a row of the report or a counter |
| Verdiff.CountsAddUp | src/main.c:141-144 | After any successful run the four counters add up to the number of paths in either index, which is the files of A plus the files added |
| Verdiff.OneNodePerRecord | src/index.c:250-295 | In every reachable state no path has two records, the tree has as many nodes as there are records, and its in-order walk is strictly sorted by path |
| Verdiff.SettledOnce | src/planner.c:62-88 | In every reachable state, failed runs included, no path has been settled twice and only paths of an index have been settled |
| Verdiff.TakenOnce | src/thread_pool.c:142-143 | In every reachable state no task has been taken from the queue twice, so no path is compared twice |
| Verdiff.EventIsSpec | src/compare.c:99-176 | On unchanged files, with verification on and reads that fill the buffer, the event that settles a path, by planner or worker, is the one the contents of both sides define |
| EndToEnd.CompareTrees | src/main.c:115-160 | The program from two roots to the rows, with every thread on the real objects and under any schedule. It ends. With 0 both trees could be read, no call of a comparison failed, and the rows are, sorted, one for each path that only one tree has or whose files are told apart by size, hash or verification, with the detail the contents call for; with verification on and reads that fill the buffer these are the paths with different contents, and none exactly if the trees hold the same files. With another code, which is that of a failing call, ENOMEM or ECANCELED, the rows are some of these. If both trees can be read, hold fewer than 2^56 files each, every allocation is granted and no call fails, it returns 0 |
| EndToEnd.RowsAreTheDifference | src/main.c:115-160 | For two scanned directory trees the rows of a successful run are the paths the trees disagree on, sorted; there are none exactly if both trees hold the same files with the same contents |
| EndToEnd.ChangeOfFiles | src/compare.c:110-116 | Removed, added and unchanged, said of the files in the two trees: the comparer finds each file where the scan found it, with the same content and size |
| EndToEnd.IndexTree | src/main.c:115-135 | A successful scan into a fresh index leaves exactly the path and size of every regular file of the tree, and a count equal to their number; it fails only for lack of memory or with the error of a call on the tree, and not at all on a readable tree of fewer than 2^56 files when every allocation is granted |
| EndToEnd.PrepareRun | src/main.c:115-138 | Two successful scans give the tables, sizes and contents a run starts from: a sound input that is exactly what the two trees hold, with an empty queue of 4096 slots, result set and error slot; both scans succeed if both trees can be read, have fewer than 2^56 files and every allocation is granted |
| EndToEnd.TotalScanned | src/main.c:141-144 | The printed total, the regular files of A plus the added ones, is what the four counters add up to |
| Runs.NobodyWaitsInVain | src/thread_pool.c:49-111 | In every state of every run: nobody sleeps after shutdown; while a worker sleeps, every queued task has a woken worker; while the planner sleeps the queue is full; no worker has left before shutdown |
| Runs.TasksConserved | src/thread_pool.c:49-101 | In every state the tasks pushed are those popped followed by the ring from head, in order; popped tasks are compared, in a worker's hands, or the one it failed on |
| Runs.SuccessIsComplete | src/planner.c:90-95 | When 0 is returned every planner call is complete, the queue is empty, every task was compared exactly once and every path settled exactly once |
| Runs.CommonCompared | src/planner.c:78-95 | After a run that returned 0 every common path of one size has been compared |
| Runs.LeftoversNeedAllWorkersFailed | src/thread_pool.c:139-151 | In a finished run, failed or not, tasks are left in the queue only if every worker left because of a failed comparison; with fewer failed comparisons than workers every task pushed was taken, and compared or lost; there are never more failures than workers |
| Runs.OneLossPerFailedWorker | src/thread_pool.c:144-148 | In every state the tasks lost are as many as the workers that have failed |
| Runs.ReturnCodeSound | src/planner.c:90-95 | 0 is returned exactly if no record push and no comparison of the run failed; any other code is that of a failure, or ECANCELED with a worker's error on record |
| FirstError.FirstErrorReturnedIff | src/planner.c:90-95 | For every input: all finished runs return the first error recorded exactly if the planner has at most one call to make and that is a task |
| FirstError.FirstErrorReturnedIffOneFile | src/planner.c:62-95 | The same said of the two indexes: they agree on paths and sizes and hold at most one file |
| FirstError.CancelledReturned | src/thread_pool.c:63-66 | With two tasks or more and nothing to record, a run in which the first task fails returns ECANCELED while the first error is EIO |
| FirstError.RecordFailureReturned | src/planner.c:70-75 | With a record to push, a run in which it cannot be pushed returns ENOMEM while no first error is recorded |
| FirstError.ReturnedCodeNeedNotBeFirstError | src/planner.c:93-95 | Such a run for two sound tables of 1024 slots with two files, one worker and a queue of 4096 slots |
| Runs.FirstErrorStays | src/thread_pool.c:113-121 | Once nonzero, the first error never changes |
| Runs.EarlyShutdownMeansError | src/thread_pool.c:63-66 | A push is refused, or the planner finds the queue already shut down, only after a worker's error is on record |
| Runs.EveryInputCanSucceed | src/planner.c:34-100 | On every input there is a run that returns 0 |
| Liveness.NeverStuck | src/thread_pool.c:49-151 | In every reachable state before the end some thread can take a step that is neither a spurious wake-up nor an error: no deadlock, no lost wake-up |
| Liveness.MaximalRunsEnd | src/thread_pool.c:176-185 | A run that could only go on by spurious wake-ups has returned, and every worker has left |
| Liveness.StepMeasure | src/thread_pool.c:76-111 | Every real step makes the measure smaller, every spurious wake-up adds one |
| Liveness.RunsAreBounded | src/thread_pool.c:139-185 | The real steps of a run number at most ten per source slot, one per target slot, three per worker and six, plus the spurious wake-ups |
| Liveness.CanFinish | src/thread_pool.c:139-185 | From every reachable state the run can be completed without another error or spurious wake-up |
| Safety.RunInv | src/thread_pool.c:49-151 | Waiting, leaving, errors, the planner's progress, the flow of tasks and the result set stay consistent along every run |
| Safety.WakeStep | src/thread_pool.c:49-111 | Every step, with a signal to one waiter only, keeps the relation between sleepers, woken workers and the queue |
| Safety.FlowStep | src/thread_pool.c:68-98 | Every step keeps tasks in order and in one place |
| Safety.PlanStep | src/planner.c:62-91 | Every step keeps the planner's completed calls a prefix of all its calls, complete exactly if its own code is 0 |
| Safety.TasksStep | src/compare.c:100-108 | A task is always a path of both indexes with one size, so the error for a missing path and the second size check are never taken in a run |
| Safety.ReportStep | src/compare.c:136-170 | At every step the result set is what the settled paths make it, in the order they were settled |
| Machine.RunPool | src/thread_pool.c:139-185 | All threads on the real queue, result set and error slot, one critical section at a time in any order a schedule picks, with any bounded number of wake-ups without a signal: the execution follows the schedule, ends and is a run of the protocol that these objects are in step with; every comparison that counts as done has met no error; the code is 0, ECANCELED or that of a call, and 0 if no comparison and no record push is hindered |
| Machine.EveryRunIsScheduled | src/thread_pool.c:139-185 | Every run of the protocol, in whatever interleaving, is the one some schedule asks for |
| Machine.RunSection | src/thread_pool.c:49-151 | The next critical section of the thread picked, or of another if it cannot run, is a real step of the protocol, and a signal wakes the waiter picked |
| PlannerLoop.PlannerMain | src/planner.c:62-91 | The planner's two loops on the real indexes, queue, result set and error slot, from their start or from a wake-up inside a push, while no other thread moves, are a run of the protocol's planner up to the point where it waits or has shut the queue down with its code |
| PlannerLoop.ClassifySource | src/planner.c:63-77 | The call a source slot leads to, found by looking its path up in the target index |
| PlannerLoop.ClassifyTarget | src/planner.c:81-87 | The call a target slot leads to, if the source index does not have its path |
| WorkerLoop.WorkerMain | src/thread_pool.c:139-151 | The worker's loop on the real queue, result set and error slot, while no other thread moves, is a run of the protocol's worker up to the point where it waits or has left |
| Refinement.PushTask | src/thread_pool.c:49-74 | A critical section of push on the heap is the protocol's push step |
| Refinement.TakeTask | src/thread_pool.c:76-101 | A critical section of pop on the heap is the protocol's pop step |
| Refinement.PresentRecord | src/planner.c:16-25 | Pushing a presence record is the protocol's planner step, also when it fails |
| Refinement.CompareTask | src/thread_pool.c:142-144 | Comparing a task, however its files are read and whether or not the looks for text succeed, on the heap is the protocol's compare step, with the code returned as its fault |
| Refinement.ReportError | src/thread_pool.c:113-121 | Recording an error is the protocol's step |
| Refinement.StopAll | src/thread_pool.c:103-111 | Shutting the queue down is the protocol's step, by a worker or the planner |
| TaskQueue.EnqueueAppends | src/thread_pool.c:68-70 | A push puts its task behind the others, also when the ring wraps |
| TaskQueue.DequeueTakesFront | src/thread_pool.c:95-97 | A pop takes the oldest task, also when the ring wraps |
| TaskQueue.TaskQueue.Push | src/thread_pool.c:49-74 | Waits if full and open, refuses if shut, otherwise appends; otherwise leaves the queue alone |
| TaskQueue.TaskQueue.Pop | src/thread_pool.c:76-101 | Waits if empty and open, ends if empty and shut, otherwise takes the front, also after shutdown |
| Planner.CallsCoverUnion | src/planner.c:62-88 | Every path of either index is in exactly one call of the planner, and no other path is |
| Compare.CompareCandidateFile | src/compare.c:99-176 | On success the result set gains exactly the verdict on the path, given how the files were read and whether they could be looked at for text; on any error it is as it was; the code is that of the first call that fails, or ENOMEM if the record cannot be stored; a path missing from an index gives ENOENT |
| Compare.ExamineFaultIff | src/compare.c:110-164 | No error exactly if both paths can be joined, both files hashed, every byte needed read when equal hashes are verified, and every line read and kept when lines are listed |
| Compare.VerdictRightIff | src/compare.c:118-134 | For files of the indexed sizes: unequal contents are told apart exactly if size or hash differs or verification has a real buffer; equal ones are recognised exactly if they are not verified or are read in pieces of the same lengths |
| Compare.AlikeIff | src/hash.c:133-157 | The byte comparison finds no difference exactly if the buffer is empty or the contents are equal and read in pieces of the same lengths |
| Compare.VerdictIgnoresHash | src/compare.c:118-134 | With verification on, the verdict is the same for every hash function |
| Compare.LinesListedIff | src/compare.c:147-163 | The detail is a list of lines exactly if the sizes agree, the contents differ and were judged so, lines were asked for, both looks at the files succeeded and both contents are text |
| Content.CompareBinaryFiles | src/hash.c:111-164 | On success equal is set exactly if both files come in the same pieces (or the buffer is empty); the code is that of the first call that fails before the files are told apart or end |
| Content.ReadFaultIff | src/hash.c:135-145 | A read makes the comparison fail exactly if all pieces before it were the same in both files |
| Content.SameFromMeansEqual | src/hash.c:133-157 | Same pieces mean equal contents; when reads fill the buffer, equal is exact for every positive buffer size |
| Content.LooksEqualIff | src/hash.c:133-157 | For all contents and all ways of reading, with a buffer of at least one byte two files look equal exactly if their contents are equal and the reads return the same numbers of bytes until the end |
| Content.ShortReadMisleads | src/hash.c:146-148 | A short read of one of two equal files makes the comparison find them different |
| Content.DetectLineDifferences | src/compare.c:18-86 | On success the vector holds the line differences of the two contents; the code is that of the first getline that fails before the end of both files, or ENOMEM when a difference cannot be stored |
| Content.SplitLinesIff | src/compare.c:39-54 | The lines of a file are the one way to cut it at its newlines: together they are the file, none is empty, every one but the last ends in byte 10 and none has that byte before its end |
| Content.NoLinesFault | src/compare.c:39-79 | Without an error every getline up to the end of both files has succeeded and every differing line was copied |
| Content.NoLinesFaultIf | src/compare.c:39-79 | There is no error if every getline up to the end of both files succeeds and every differing line can be stored |
| Content.ReportedLinesExact | src/compare.c:39-79 | The numbers reported are exactly those of lines whose raw bytes differ or that exist on one side only, strictly increasing |
| Content.DiffsDescribe | src/compare.c:56-78 | Each entry carries the text of both sides without terminators, empty for a missing line |
| Content.NoDiffsIffEqual | src/compare.c:39-79 | The list is empty exactly if the files are the same byte for byte |
| Content.SameTextIff | src/compare.c:11-16 | Two lines are stored as the same text exactly if they agree up to some point and hold only newlines and carriage returns from there on |
| Content.PairLooksIdenticalIff | src/compare.c:56-78 | Among the line differences of any two files, a pair is stored with the same text on both sides exactly if its two lines differ only in their terminators |
| Content.SomePairLooksIdenticalIff | src/compare.c:39-79 | The line differences have such a pair exactly if some line of the files differs only in its terminators |
| Content.PairCanLookIdentical | src/compare.c:56-73 | Two files of equal size whose first difference is stored with the same text on both sides |
| Content.TrimLineLength | src/compare.c:11-16 | The longest beginning of the line that does not end in byte 10 or 13 |
| Content.LineDiffVector.Push | src/index.c:161-193 | Appends the difference or, when an allocation fails, changes nothing |
| Scanner.ScanDirectory | src/scanner.c:57-153 | On success the index has gained every regular file that names other than "." and ".." lead to, under those names and with its size, and nothing else, and every call succeeded; on failure it has gained some of them and the code is ENOMEM or the error of a call on the tree; on a readable tree with room in the index and every allocation granted it succeeds |
| Scanner.WalkStack | src/scanner.c:76-147 | The stack loop ends on every finite tree and leaves no directory unread |
| Scanner.SizesCount | src/scanner.c:123-127 | No two files share an index entry, so the count is the number of files |
| Scanner.FrameStack.Push | src/scanner.c:28-40 | Pushes the frame, keeping those below, or fails and changes nothing |
| Scanner.FrameStack.Pop | src/scanner.c:42-48 | Takes the top frame, if there is one |
| Tree.FilesUnambiguous | src/scanner.c:96-99 | Joined paths never collide: the files below a directory have different paths and are as many as its entries lead to |
| Tree.FilesInIff | src/scanner.c:87-131 | One directory: its regular files under the joined names and what lies in its directories; only the names "." and ".." are passed over |
| Tree.FilesOfIff | src/scanner.c:87-131 | The files of a tree are the regular files that chains of names lead to, each under its names with slashes between them |
| Tree.ReadableIff | src/scanner.c:76-143 | A tree is readable exactly if every directory that names lead to opens, reads to its end and can have all its entries looked at |
| Tree.ComparerOpensFile | src/compare.c:110-111 | For every file the scan finds, the path joined from root and relative path leads to that very file |
| Paths.ScannerAndComparerAgree | src/index.c:307-342 | The absolute path the scan builds piece by piece is the root joined with the whole relative path, with or without a slash at the end of the root |
| Paths.JoinPathParts | src/index.c:307-324 | The root comes first, whatever it ends in, and the relative path last, with one byte 47 between them exactly if there is a root that does not end in it |
| Paths.JoinRelativeParts | src/index.c:326-342 | The parent comes first and the name last, with one byte 47 between them if there is a parent |
| Paths.PathTellsName | src/index.c:326-342 | Two names of one directory that lead to a common path are the same name |
| Paths.BuildJoinPath | src/index.c:307-324 | The buffer is filled exactly with root, separator if needed, relative path and terminator |
| Paths.BuildJoinRelative | src/index.c:326-342 | Likewise for a parent and a name, without a separator when the parent is empty |
| FileIndex.FileIndex.Upsert | src/index.c:118-148 | Binds the path to the size and nothing else, keeping load, chains, unique keys and stored strings; a failed allocation leaves the map as it was; with fewer than 2^56 files it fails only for a refused allocation |
| FileIndex.FileIndex.Find | src/index.c:110-116 | The size last stored for the path, or nothing if none was, for every hash function |
| FileIndex.FileIndex.KeyReadsBack | src/index.c:135-146 | The key pointer of every occupied slot leads to the string of its key, after any upserts and rehashes |
| FileIndex.FindSlot | src/index.c:88-108 | The probe ends, at the key if it is present and otherwise at the vacant slot where it belongs |
| FileIndex.FileIndex.Rehash | src/index.c:37-64 | The same map in a larger table, or ENOMEM and no change |
| FileIndex.MoveEntries | src/index.c:49-60 | Moves every entry, keeping chains and unique keys |
| Slots.ProbeMisses | src/index.c:93-107 | A vacant slot on the probe path means the key is nowhere in the table |
| Slots.PlaceRepresents | src/index.c:128-146 | Writing a slot binds one key and leaves the others |
| FileIndex.ProbeStep | src/index.c:101-101 | The masked increment goes once round the table |
| Words.MaskIsMod | src/index.c:27-29 | Masking with a power of two minus one is the remainder |
| Words.NextPow2 | src/index.c:9-15 | The least power of two from 16 on that is not below the argument, for arguments up to 2^63 |
| Words.NextPow2Diverges | src/index.c:9-15 | Above 2^63 the loop condition holds in every round |
| Arena.StringArena.Copy | src/arena.c:47-61 | A new string in the arena with all others and all chunks kept in place, or NULL, which happens only when a new chunk is needed and cannot be had |
| Arena.StringArena.KeptStringReads | src/arena.c:47-61 | At the address of any string ever copied, that string is read, however many copies and chunks followed |
| Arena.StringArena.RegionsApart | src/arena.c:57-59 | No two copied strings share a byte, and none runs past its chunk |
| Arena.StringArena.AllocChunk | src/arena.c:23-37 | A chunk with room enough, and no string disturbed |
| Results.PushConsistent | src/index.c:267-294 | After a push the tree is balanced, sorted by path and holds the latest record of every path |
| Results.ReplayAgrees | src/index.c:233-304 | However events are ordered, the tree agrees with the records, the records are those pushed, and each counter counts the events of its type |
| Results.MeetsIffPushed | src/path_tree.c:78-81 | The insertion meets an equal path exactly if an earlier record has that path |
| ResultSet.ResultSet.Push | src/index.c:250-295 | All or nothing: record, counter and tree node together, or no change after a failed growth or node allocation |
| ResultSet.ResultSet.NoteType | src/index.c:297-305 | Only the counter of that type changes |
| PathTree.InsertNode | src/path_tree.c:59-86 | In place, the tree becomes the one with the index inserted, or is as it was when the node cannot be allocated; no node is needed for an equal path |
| PathTree.RebalanceAt | src/path_tree.c:41-57 | In place, single and double rotations as on values, with no node lost or shared |
| PathTree.Inorder | src/path_tree.c:92-105 | Visits the indices in order, up to and including the first at which the visitor fails, and returns its code |
| Output.ClipText | src/output.c:71-87 | The buffer holds the text, or its beginning and dots, and a terminator, also when the buffer is smaller than the width asked for |
| Output.ClipFits | src/output.c:71-87 | At every width: never more columns than that; what fits is whole; of the rest everything but the last three columns, then dots, or the bare beginning if the width is three or less |
| Output.PrintedAlikeIff | src/output.c:186-193 | Two texts are printed alike exactly if they are equal up to their first zero byte, or agree up to the last three columns and both show dots there |
| Output.PairPrintedAlikeIff | src/output.c:186-193 | The same for every line difference of two files: one that differs only in terminators is printed alike on both sides |
| Output.WriteRows | src/output.c:123-155 | The walk with the row writer writes the rows of the listing, or those before the first row that cannot be written |
| Avl.VisitAll | src/path_tree.c:92-105 | A visitor that never fails sees every index in order |
| Avl.InsertInOrder | src/path_tree.c:59-86 | Insertion with rotations is insertion into the sorted listing: rotations never move a path in the report |
| Avl.InsertSortedIncreasing | src/path_tree.c:68-81 | The listing stays strictly sorted, gains the new index and drops only one with an equal path |
| Avl.InsertBalanced | src/path_tree.c:15-86 | Cached heights stay exact, siblings stay within one of each other, and the height grows by at most one |
| Avl.CachedHeightExact | src/path_tree.c:15-17 | The cached height of a balanced tree is its longest path |
| Avl.HeightIsLogarithmic | src/path_tree.c:15-86 | A tree of height h has at least Fib(h + 2) - 1 nodes |
| Reporting.ListingSorted | src/path_tree.c:92-105 | With no path repeated, the in-order walk lists every record once, in strict order of path |
| Reporting.SortedListUnique | src/output.c:123-128 | There is only one listing of a set of records in strict order of path |
| Common.StrCmpAntisymmetric | src/path_tree.c:37-39 | Swapping the operands of strcmp swaps the sign |
| Common.BeforeIff | src/path_tree.c:37-39 | One path is before another exactly if it is a proper prefix or has the smaller byte after a common part |
| Common.BeforeTransitive | src/path_tree.c:37-39 | The order of paths is transitive |

## Left out

- WorkerLoop.WorkerMain: does not cover other threads moving in between; `Machine.RunPool` does.
- PlannerLoop.PlannerMain: does not cover other threads moving in between; `Machine.RunPool` does.
- FileIndex.FileIndex.Upsert: does not cover an index that was destroyed or has no slots (src/index.c:89-91), and takes the strings given to it to be C strings.
- Content.DetectLineDifferences: does not cover a `getline` that runs out of memory without setting the error flag of the stream.
- Content.CompareBinaryFiles: closing and freeing are not modelled.
- Words.NextPow2: arguments above 2^63 are excluded because the loop does not end there.
- Lock, wait and signal calls that fail, and a pool of which only some threads could be created (src/thread_pool.c:50-53, 153-174): they are taken to succeed.
- The progress lock and display (src/progress.c): no effect on verdicts.
- Queue creation with a capacity of zero: the only caller asks for 4096 slots.
- Allocation of the first index table and of the arena header, which `main` checks before anything else.
- Overflow of the byte counts passed to `realloc` for stacks, vectors and the result array.
- XXH3, `mmap`, `fstat` and `lseek` (src/hash.c:19-109): the content hash is an arbitrary function and hashing succeeds or fails.
- The text heuristic (src/hash.c:173-199): an arbitrary predicate on contents.
- Changes to the file system during a run, modification times, and files that are neither regular nor directories beyond being passed over.
- Parsing of the command line and layout of the report (src/main.c:49-107, src/output.c:12-121), apart from which rows are written and how long text is clipped.
- Destruction of the structures and accounting of memory.
