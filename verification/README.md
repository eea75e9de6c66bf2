# Verified models of uv.mbt

uv.mbt binds the libuv event loop to MoonBit. Most of it is thin glue; four parts carry algorithms and
protocols. Each is modelled here, and what it promises is proved for all inputs and all runs, or, where a
promise does not hold everywhere, together with the exact condition under which it does and an input or a run
where it fails.

**Flattening libuv's sources** (`scripts/prepare.py`). A tree of C files is copied into one directory, under
names joined with `#`, and every local include is redirected to the flat name of the file it resolves to.
`Project.copy` and `Project.relocate` call each other over an include graph that may be cyclic. `FlatNames.dfy`
has the names, `SourceTree.dfy` the tree and the header search, `HeaderSearch.dfy` which file a directive means,
`IncludeGraph.dfy` reachability through names not taken yet, `Project.dfy` the class with `copy` and `relocate`, `Configure.dfy` the run over a list of
configured sources, `Runs.dfy` repeated and interrupted runs, `Meaning.dfy` the comparison of what the
preprocessor sees before and after, `SearchedRun.dfy` a run whose headers lie in the include directories, and
`FlatteningLimits.dfy` small runs in which something goes wrong. File contents are sequences of text runs and include directives.

**Ownership between MoonBit and the event loop** (`docs/memory.md` and the C stubs). `Heap.dfy` has counted
objects whose slots own references; `Protocol.dfy` and `Requests.dfy` say what the stubs rely on between two
steps; `Runtime.dfy` is the imperative model: the primitive operations `make`, `incref` and `decref` with
finalizers, and the stubs and callbacks of timers, streams, handles, write requests, queued work and file
requests, written out step by step over them. `LoopRuns.dfy` puts user commands, loop events and pool threads
together into runs of any length and shape, with callbacks that may start, stop, close and drop whatever they
like. `Tally.dfy` computes from the commands alone what a run comes to, and each run is shown to be in exactly
that state; `RunLaws.dfy` proves what every possible list of commands keeps: which handle is active, which closure
is called, that requests, work and `close` are answered once. `RunResults.dfy` has what follows for whole runs,
and runs that fail; `RunExamples.dfy` carries out two runs from their commands. References are tracked one by
one: for each object who owns it, for each buffer where it went.

**The block shared between threads** (`src/mutex.c`, `src/thread.c`). `Arc.dfy` has the atomic and the
lock-guarded form as small-step machines of any number of threads, the invariant of each, the refinement, what a
finalizer and a copy do when left alone, and that whatever was begun can always be finished.

**Smaller data structures.** `Stdio.dfy` moves stdio containers into process options, `CpuSet.dfy` is the
processor mask against the set it stands for, `Args.dfy` the argument block with its pointer table, and
`Errno.dfy` the error maps and the message cache.

Four promises hold only under a condition. Each is proved with it, and each failure is shown in the model by a
method that carries out a small run:

- Flattening keeps the text every configured source expands to exactly when no unresolved header is spelled like a
  name of the target or of a flat file of the run, and no configured source is itself included
  (`Meaning.FreshRunMeaning`, a condition on tree, target and list of sources). `FlatteningLimits.CapturedHeader`
  and `FlatteningLimits.IncludedSource` carry out runs that change a meaning.
- A run keeps the raw headers it finds, such as those of an interrupted run: `Runs.RelocatedExactly` says when
  everything reachable ends up relocated, `FlatteningLimits.BrokenRun` carries out a run that stops half-way, and
  `FlatteningLimits.InterruptedRun` a completed one after it that leaves a raw header.
- `docs/memory.md:5-9` promises that no use of the public API leads to a segmentation fault, and no leaks for
  correct use. A handle that is started, stopped, or handed a buffer by its own allocation callback after `close`
  loses its close closure, and the close callback then goes through a null or foreign pointer; closing it again
  runs into an assertion of libuv. `LoopRuns.Execute` and `RunLaws.CloseAnswered` say exactly which runs get there,
  from their commands alone, and `RunResults.PoliteRunsDoNotCrash` that runs in which `close` comes last on every handle do not;
  `RunResults.StoppedAfterClose` and `RunResults.ClosedWhileAllocating` carry out runs that do.
  `RunResults.StartedAfterClose` carries out one that leaks, and `RunResults.NothingLeaks` excludes leaks from every
  run that touched no handle late.
- A stdio container for a file descriptor other than 0 that is finalized without having been moved into process
  options is taken for a stream (`ProcessStdio.FinalizeAll`, `ProcessStdio.DescriptorKept`), and a container listed
  twice reaches the process once (`ProcessStdio.Options.SetStdio`, `ProcessStdio.ListedTwice`).

## Model

| member | source | states |
|---|---|---|
| FlatNames.SplitJoinRoundTrip | scripts/prepare.py:73-74 | splitting a `#`-joined name gives the components back exactly when none of them contains a `#` |
| FlatNames.MangleInjective | scripts/prepare.py:73-74 | two source paths without `#` in a component never share a flat name |
| FlatNames.MangleCollision | scripts/prepare.py:73-74 | with a `#` in a component two different paths do share one |
| FlatNames.MangledKeepsPrefix | scripts/prepare.py:73-74 | a file of the package whose name does not start with the prefix and `#` is never overwritten |
| SourceTree.SearchIsFirstMatch | scripts/prepare.py:80-92 | the header search answers by the first directory whose candidate exists or lies outside the source root, and reports a missing header when all miss |
| HeaderSearch.OrdinaryHeader | scripts/prepare.py:77-92 | a relative header means the file of that path beside the source if there is one, else below the first include directory that has it, in their order, and none if none has |
| HeaderSearch.RelativeHeader | scripts/prepare.py:81-92 | with any number of `..` in front the same search goes that many directories up from each; the first directory decides whose candidate exists, or lies outside the tree after leaving the tree's root without coming back |
| HeaderSearch.AbsoluteHeader | scripts/prepare.py:82-84 | an absolute header means its path below the root of the tree, whatever the source, and fails outside it |
| HeaderSearch.DotDotCancels | scripts/prepare.py:82 | a component followed by `..` can be left out of a header anywhere without changing what it means |
| IncludeGraph.NewFilesClosed | scripts/prepare.py:76-105 | the files one relocation adds are closed: every header they name is among them or had its name taken |
| IncludeGraph.NewFilesLeast | scripts/prepare.py:76-105 | they are the least such set of names, so nothing unreachable is added |
| IncludeGraph.NewFilesNested | scripts/prepare.py:102-103 | what copying a queued header adds is part of what the enclosing relocation adds |
| IncludeGraph.UnseenShrinks | scripts/prepare.py:88-90 | a newly taken name makes the number of source files without a taken name drop; the measure both recursive functions terminate by, on cyclic graphs too |
| Flattening.PendingStep | scripts/prepare.py:102-103 | copying the first queued header keeps the invariant that every added file still raw is queued and every other one is relocated with all its headers present |
| Flattening.PendingDone | scripts/prepare.py:102-105 | with the queue empty, the added files are exactly the reached ones, all relocated, none with a failing directive |
| Flattening.Project.RelocateHeader | scripts/prepare.py:80-92 | the inner `relocate`: fails exactly when the search leaves the root; a found file not in the target is written raw, noted and queued, and nothing else changes; the header becomes the flat name, or stays |
| Flattening.Project.RelocateToken | scripts/prepare.py:94-100 | one match: the directive is rewritten, and the target gains at most the raw file it names, which is then queued |
| Flattening.Project.Relocate | scripts/prepare.py:76-105 | terminates; fails exactly when a directive of the content or of a newly reached file leaves the root; otherwise the content is rewritten token by token and the target gains the relocated form of exactly the newly reached files |
| Flattening.Project.CopyHeaders | scripts/prepare.py:102-103 | the closing loop turns a target with raw queued headers into one where all reached files are relocated |
| Flattening.Project.Copy | scripts/prepare.py:113-130 | the whole target after `copy`, with and without relocation, exactly when it fails, and what is left when the file's own directive fails; names that are no flat name are never touched |
| Configuration.ReachedClosed | scripts/prepare.py:133-235 | a header named by a root or a reached file is reached, or its name was taken at the start |
| Configuration.OutcomeAppend | scripts/prepare.py:133-235 | the outcome of a run over a list of roots extends to one more root, whatever the earlier ones reached |
| Configuration.Configure | scripts/prepare.py:133-235 | a run completes exactly when every root is a file and nothing reached has a failing directive, and then leaves exactly the described target and set of copied names; a run that stops in a root with a failing directive leaves the outcome of the roots before it and, raw, what that root named until then |
| Runs.OutcomeUnique | scripts/prepare.py:133-235 | the description of the target after a run leaves no freedom |
| Runs.FreshRun | scripts/prepare.py:120-130 | from a target without flat names, the new names are exactly those of the roots and the files reachable from them, every header is relocated and no other file changes |
| Runs.SettledStartRelocates | scripts/prepare.py:88-91 | found headers that are relocated and have their own headers present are as good as none: everything reachable ends up relocated |
| Runs.SecondRun | scripts/prepare.py:88-91 | once a run completed, running again completes too, changes no file and copies only the roots |
| Runs.ConfigureTwice | scripts/prepare.py:133-235 | two runs in a row: if the first completes, so does the second, and the target is the one the first left |
| Runs.LeftoversDecide | scripts/prepare.py:88-91 | the reachable headers in the final target are all relocated if and only if those found at the start were |
| Runs.RelocatedExactly | scripts/prepare.py:88-91 | everything reachable ends up relocated if and only if each reachable header found at the start was, and every other reachable name is one the run writes |
| Meaning.QuietAgrees | scripts/prepare.py:76-105 | as long as no captured header and no included root shows up to the given depth, flat and original expansion of a file are equal at that depth |
| Meaning.FirstDepthDiffers | scripts/prepare.py:76-130 | at the first depth where one shows, the flat text lost a directive that is left to the system, or has more characters: the two texts differ |
| Meaning.FlatteningPreservesMeaning | scripts/prepare.py:76-130 | the text that configured sources expand to, character by character and with the directives left to the system, is the same in both places at all depths if and only if no header is captured and no configured source is included |
| Meaning.RootFileMeaning | scripts/prepare.py:107-126 | the file written for a configured source expands to the prepended defines and the condition around the source's own expansion |
| Meaning.FreshRunMeaning | scripts/prepare.py:133-235 | for a completed run from a target without flat names: all configured sources expand to the same text at all depths if and only if no unresolved header is spelled like a name of the starting target or of a flat file of the run and no configured source is included; tree, target and list of sources decide it |
| SearchedRuns.SearchedHeaders | scripts/prepare.py:77-105 | a completed run whose source takes one header from the first and one from the second include directory: the whole target, with both directives rewritten and both headers written |
| FlatteningLimits.CapturedHeader | scripts/prepare.py:80-92 | a completed run over a tree with an unresolved header spelled like a flat name, after which a source expands to another text |
| FlatteningLimits.IncludedSource | scripts/prepare.py:107-126 | a completed run over a source that includes itself, after which it expands to another text: the prepended definitions appear inside it |
| FlatteningLimits.BrokenRun | scripts/prepare.py:80-92 | a run that stops at a directive leaving the tree, with the header named before it written raw |
| FlatteningLimits.InterruptedRun | scripts/prepare.py:88-91 | a completed run over the repaired tree, from the target of the stopped one: the header is still raw |
| SharedBlock.AtomicStep | src/mutex.c:27-52 | the atomic form keeps: counter equals wrappers plus references in transit, and one thread at most is past the last reference |
| SharedBlock.StepRefines | src/mutex.c:27-52 | each step of the lock form is invisible or is the same thread's fetch-add, fetch-sub or later step of the atomic form |
| SharedBlock.LockRefinesAtomic | src/mutex.c:102-113 | every run of the lock form, without its invisible steps, is a run of the atomic form to the corresponding state, freed by the same thread |
| SharedBlock.AnyInterleavingIsSafe | src/thread.c:32-45 | for any number of threads and any schedule: the counter is the number of references, the block is freed at most once, and while a thread holds a wrapper or is between lock and unlock the block is not destroyed, not freed, and no thread is about to |
| SharedBlock.FreedExactlyOnce | src/thread.c:32-45 | with no thread inside, the block has been freed exactly once if and only if no wrapper is left |
| SharedBlock.FinalizeAlone | src/mutex.c:27-52 | from any reachable state with the lock free, a finalizer left alone ends with one wrapper and one count fewer and nothing else changed; it destroys and frees the block exactly when the counter was 1 |
| SharedBlock.CopyAlone | src/mutex.c:102-113 | a copy left alone ends with one wrapper and one count more and nothing else changed |
| SharedBlock.CounterFromSchedule | src/thread.c:137-144 | for any schedule, when no thread is inside, the counter is one plus copies minus finalizers begun, and the block has been freed exactly when finalizers are one more than copies |
| SharedBlock.Progress | src/thread.c:32-45 | a thread inside can take its next step unless it waits for the lock, and then the holder can |
| SharedBlock.AllCanFinish | src/thread.c:32-45 | from every reachable state, steps already begun can be taken until every thread is out of these functions |
| SharedBlock.AdvancesEnd | src/thread.c:32-45 | no schedule takes more such steps than the threads inside have to go |
| SharedBlock.FreerReadOne | src/thread.c:39-43 | the thread that goes on to free is the one that read 1, when nobody holds the lock or will touch the block |
| SharedBlock.OwedAlive | src/thread.c:137-144 | a thread that still stands for a reference, also while copying, finds the block alive |
| CountedHeap.BuryBalanced | src/stream.c:43-55 | freeing on the last reference hands the references in the object's fields to its finalizer and keeps every count equal to the number of owners |
| CountedHeap.SingleOwner | src/write.c:87-96 | an object with count one sits in the fields of one object only |
| LoopProtocol.FineKept | docs/memory.md:22-40 | whatever a release frees, surviving objects keep their shape and what the loop may call stays callable |
| LoopProtocol.PutBackFine | src/stream.c:89-92 | putting the read data back over whatever the allocation callback left on the handle keeps the protocol's invariant |
| RequestProtocol.WorkFine | src/work.c:58-72 | taking the work closure, or the closure after it, out of a request's data keeps the invariant |
| EventLoopOwnership.Runtime.Decref | src/timer.c:28-35 | drops one reference; the last one finalizes the object and, through its fields, others; survivors keep kind and fields, all counts stay right, and each freed object is finalized once |
| EventLoopOwnership.Runtime.Finalize | src/fs.c:56-72 | a finalizer drops every non-null field once and nothing else |
| EventLoopOwnership.Runtime.SetData | src/handle.h:45-51 | the old data is dropped exactly if there was some, and the new reference moves in |
| EventLoopOwnership.Runtime.NewHandle | src/timer.c:45-62 | a new handle has two owners, the loop and the caller, and owns one reference to the loop object |
| EventLoopOwnership.Runtime.TimerStart | src/timer.c:72-87 | the closure moves into the handle, the former one and the handle argument are dropped, the handle becomes active unless it is closing or closed |
| EventLoopOwnership.Runtime.Stop | src/timer.c:89-96 | the data and the handle argument are dropped and the handle is no longer active |
| EventLoopOwnership.Runtime.ReadStart | src/stream.c:130-150 | both closures move into read data made for this start, which replaces the former data |
| EventLoopOwnership.Runtime.Close | src/handle.c:21-35 | the close closure replaces the data, the handle argument is dropped, the handle is closing and no longer active; on a handle that is closing or closed, libuv's assertion ends the process |
| EventLoopOwnership.Runtime.HandleLoop | src/handle.c:45-52 | the caller gets a live reference to the handle's loop, even when the handle is freed and was the loop's only owner |
| EventLoopOwnership.Runtime.TimerFires | src/timer.c:64-70 | the callee gets its own references to the closure and the timer; no object is lost |
| EventLoopOwnership.Runtime.CloseArrives | src/handle.h:29-43 | the callee gets the very closure `close` was given, live even when dropping the loop's reference frees the handle, if and only if the handle was not touched since; otherwise the call goes through a wrong pointer |
| EventLoopOwnership.Runtime.BufferWanted | src/stream.c:68-84 | the read data is off the stream and owned by the stub while its allocation closure runs with the stream |
| EventLoopOwnership.Runtime.BufferReturned | src/stream.c:89-93 | the returned buffer is recorded and sits in the read data, which is back on the stream, after any behaviour of the callback |
| EventLoopOwnership.Runtime.ReadArrives | src/stream.c:95-117 | the read closure gets the waiting buffer, if there is one; that buffer is recorded as delivered and waits no longer |
| EventLoopOwnership.Runtime.StartWrite | src/stream.mbt:151-180 | a request is made; closure and buffers belong to it, the loop and the caller own it, the stream argument is dropped |
| EventLoopOwnership.Runtime.WriteDone | src/write.c:57-64 | the callback receives the closure its request was submitted with and the loop's reference to the request |
| EventLoopOwnership.Runtime.QueueWork | src/work.mbt:31-49 | a request is made; loop and both closures belong to it, and the loop and the caller own it |
| EventLoopOwnership.Runtime.WorkRuns | src/work.c:57-64 | at any time, also during a callback: the work closure given at submission leaves the request's data and runs once, owning itself and a reference to the request |
| EventLoopOwnership.Runtime.WorkReturns | src/work.c:57-64 | a returning work closure drops itself and the request, and nothing else changes owner |
| EventLoopOwnership.Runtime.WorkDone | src/work.c:66-72 | the after closure given at submission is called once, for work that ran and for work that was cancelled |
| EventLoopOwnership.Runtime.StartFs | src/fs.mbt:1179-1214 | a request is made; loop, closure and buffers belong to it, and the loop and the caller own it |
| EventLoopOwnership.Runtime.FsDone | src/fs.c:37-53 | the callback receives its closure and its request, which still holds the submitted buffers |
| EventLoopOwnership.Runtime.ReadSync | src/fs.c:350-381 | the synchronous form drops everything it was given, and its request is freed before it returns |
| LoopRuns.Perform | src/timer.c:72-96 | one command of user code: references given up and got, objects made, and what the loop has then (started, stopped, closing, submitted, each with its closures) are exactly what the command and the state before it say; buffers given and delivered stay |
| LoopRuns.Deliver | src/stream.c:68-117 | one event: the callback in progress, or the work closure run, is the one the command that started, closed or submitted the object gave, with exactly its arguments; a returned buffer is added to those given, the buffer a read callback is called with to those delivered, and no other event changes either |
| LoopRuns.MayIsAllowed | docs/memory.md:5-6 | whether a command is possible next is decided by the commands before it, up to sharing an object that is gone |
| LoopRuns.Execute | docs/memory.md:5-6 | for every sequence of user commands, loop events and pool-thread steps: counts equal owners, freed objects are finalized once and callbacks find their closures in every state reached; the variables, the loop's whole state, the callback in progress and the pool's work are those computed from the commands, and so is how far the run gets and whether it crashes; each buffer that the run's allocation callbacks returned was passed to read callbacks, dropped with its read data or still waits in it, as often as it was returned |
| RunLaws.OpenLaw | src/handle.c:21-35 | in every possible run, a handle is in the loop and not closing exactly from its making to its `close` |
| RunLaws.ActiveLaw | src/timer.c:72-96 | a handle is active if and only if it was started, not stopped since, did not fire for the last time since, and was never closed |
| RunLaws.TimerFired | src/timer.c:64-96 | a timer fires only after a start with no start, stop, `close` or last firing of it in between, and the callback in progress is then the closure of that very start with the timer |
| RunLaws.ReadServed | src/stream.c:68-117 | a stream is asked for a buffer or read from only while its last start is in force, and the closures called are those of that start; if that start was made in the stream's own allocation callback, they are those of the earlier start whose callback it was |
| RunLaws.ReadPasses | src/stream.c:89-117 | a read callback gets exactly the buffer that its stream's allocation callback returned last for the read data and that no read callback got before, and no buffer if there is none |
| RunLaws.RequestAnswered | src/write.c:57-64 | a write, work or file request is answered after the command that submitted it, never twice, and by the closure that command gave, with the request |
| RunLaws.WorkRan | src/work.c:57-64 | queued work runs at most once, before it is reported, with the work closure it was queued with |
| RunLaws.CloseAnswered | src/handle.h:29-43 | a close callback comes after the only `close` of its handle, never twice, and with the closure given to it, unless a command in between started or stopped the handle or gave its allocation callback a buffer: exactly then the process is gone |
| RunLaws.CallbackBegins | src/handle.h:29-43 | an event that is neither a return nor a step of a pool thread finds no callback in progress and leaves its own in progress; a return ends one |
| RunResults.PoliteRunsDoNotCrash | docs/memory.md:5-6 | every possible run that starts, stops, closes and buffers no handle after closing it never crashes and touches no handle late |
| RunResults.CountsAreOwners | docs/memory.md:22-40 | in every such state an object's count is the number of variables, loop references, callback frames, pool threads and fields that own it; it is live exactly while it has an owner, and finalized exactly once after |
| LoopRuns.RunCallback | src/stream.c:96-117 | whatever commands a callback runs and whatever pool threads do meanwhile, all references its callee owns, and the read data during an allocation, stay live until it returns |
| RunResults.BuffersInFlight | src/write.c:57-75 | from submission until its callback, a write or file request's own buffer array, each buffer in it and its closure are live |
| RunResults.WorkInFlight | src/work.c:57-72 | queued work still has both closures, live, and work that has run still has the one called after it |
| RunResults.WorkersLive | src/work.c:57-64 | while a pool thread executes a work closure, the closure and its request are live, whatever the loop thread does |
| RunResults.NothingLeaks | docs/memory.md:7-9 | a run whose commands touched no handle late, with handles closed, requests done, callbacks and work returned and variables gone: no object is live, each was finalized exactly once, and each buffer was passed to read callbacks or released with its read data as often as the commands of the run returned it |
| RunResults.YoungerHolder | src/work.c:37-46 | in such a state an object that may hold closures could only be held by one made after it |
| RunResults.StoppedAfterClose | src/timer.c:89-96 | a run that makes, closes and stops a timer and then crashes in the close callback |
| RunResults.ClosedWhileAllocating | src/stream.c:89-92 | a run whose allocation callback closes its stream, after which the close callback crashes |
| RunResults.StartedAfterClose | docs/memory.md:7-9 | a run that closes a timer and starts it again: in the end no variable, loop, callback or thread owns anything and the timer is still live |
| RunExamples.StoppedTimer | src/timer.c:89-96 | the commands that make, share, start and stop a timer and then fire it: the run stops before the last, with no variable left and no callback in progress |
| RunExamples.TimerLife | src/timer.c:45-96 | a timer made, started, fired once, closed and its close callback delivered: all commands are carried out and every object is gone, finalized once |
| ProcessStdio.Container.CreatePipe | src/process.c:127-150 | the container owns the stream; the pipe flag is set, each of the three option flags if and only if it was asked for, and no other |
| ProcessStdio.Container.InheritFd | src/process.c:153-158 | the container has the given descriptor, whatever its number, and the flag for it |
| ProcessStdio.Container.InheritStream | src/process.c:162-167 | the container owns the stream and has the flag for it |
| ProcessStdio.Options.SetStdio | src/process.c:304-325 | each slot gets its container's content at the container's first listing and is empty at later ones, an inherited descriptor arrives in its slot as the number given, all listed containers are emptied, and every stream has as many owners as the containers gave it |
| ProcessStdio.Container.Finalize | src/process.c:98-106 | drops the container's stream once; goes wrong exactly for a file descriptor other than 0 |
| ProcessStdio.Options.Finalize | src/process.c:173-216 | drops the stream of each slot whose flags say there is one, as often as slots own it |
| ProcessStdio.FinalizeAll | src/process.c:98-216 | finalizers of all containers and of the options in any order drop each stream reference exactly once, if and only if no container still has a descriptor other than 0 |
| ProcessStdio.DescriptorKept | src/process.c:98-106 | a container for descriptor 1 whose finalizer goes wrong |
| ProcessStdio.ListedTwice | src/process.c:317-322 | one container listed as output and error stream: the second slot ignores it |
| ProcessStdio.OwnOutput | src/process.c:304-325 | a pipe for input and the parent's descriptors 1 and 2: the process gets the pipe readable in slot 0 and the descriptors in slots 1 and 2 |
| ProcessStdio.OwnedUpdate | src/process.c:317-322 | replacing one slot changes the number of owners by exactly the old and new content |
| CpuMask.CpuSet.New | src/thread.mbt:128-152 | an empty set of the given mask length; a negative size is an error |
| CpuMask.CpuSet.Set | src/thread.mbt:155-158 | for every number: adds exactly the processor; a number outside the mask panics and changes nothing; between -8 and 0 it adds what MoonBit's negative shift selects in the first byte |
| CpuMask.CpuSet.Clear | src/thread.mbt:170-173 | for every number: removes exactly the processor, or panics and changes nothing, or clears what a negative shift selects |
| CpuMask.CpuSet.IsSet | src/thread.mbt:176-179 | membership for every processor of the mask, a panic outside it, and for a negative shift whether anything it selects is set |
| CpuMask.CpuSet.Zero | src/thread.mbt:161-167 | the empty set |
| CpuMask.CpuSet.Count | src/thread.mbt:182-197 | shifting out every byte counts the members of the set |
| CpuMask.CpuSet.Intersect | src/thread.mbt:200-209 | the intersection, for masks of any lengths |
| CpuMask.CpuSet.Union | src/thread.mbt:212-227 | the union for masks of one length, a panic for every other pair |
| CpuMask.CpuSet.Xor | src/thread.mbt:230-245 | the symmetric difference for masks of one length, a panic for every other pair |
| CpuMask.SameSetSameMask | src/thread.mbt:146 | masks of one length stand for the same set only if they are equal, so derived equality is equality of sets |
| CpuMask.CountTogether | src/thread.mbt:182-245 | for two masks of one length, the counts of union and intersection add up to the counts of the two sets, and the count of `xor` with twice that of the intersection does too |
| ArgumentBlock.SetupArgs | src/args.c:24-48 | fails exactly when the allocation fails; otherwise the block has the computed size, entry i points to the C string of argument i up to its first NUL, and a null pointer ends the table |
| ArgumentBlock.StringsApart | src/args.c:37-43 | the strings lie behind the table, before the end of the block, and do not overlap |
| ArgumentBlock.KeepFilled | src/args.c:38-43 | writing a later argument leaves the entries and strings of earlier ones intact |
| ArgumentBlock.ArgsReadBack | src/args.c:23-48 | walking the finished table as a C program does gives the argument list back, each argument cut at its first NUL |
| ArgumentBlock.WholeArgument | src/args.c:39-40 | an argument arrives whole if and only if it contains no NUL |
| ErrorCodes.ErrnoRoundTrip | src/error.mbt:131-233 | every constructor survives the way to its code and back if and only if no two constructors share a code |
| ErrorCodes.CodeRoundTrip | src/error.mbt:223-233 | every code of libuv survives the way to a constructor and back; any other becomes the unknown error |
| ErrorCodes.Index | src/error.mbt:131-217 | after the insertions each code leads to the last constructor that has it |
| ErrorCodes.Invert | src/error.mbt:218-220 | turning the map around gives exactly those constructors their codes |
| ErrorCodes.Table.FromInt | src/error.mbt:223-227 | a code of libuv becomes the last constructor that has it, any other the unknown error |
| ErrorCodes.Table.Code | src/error.mbt:229-233 | a constructor gives libuv's code for it, or the unknown error's code when a later constructor has the same one |
| ErrorCodes.Table.ToBytes | src/error.mbt:235-243 | the message of the constructor's own code, or of the unknown error's when a later constructor has that code, whatever was asked before |

## Left out

- Lexing of C text: contents are text runs and include directives; the regular expression of `scripts/prepare.py:100` that finds the directives is not modelled. The text of the prepended definitions (`scripts/prepare.py:31-49`) is a parameter; it is taken to be non-empty, as it is there, where the necessity of the condition on meaning is claimed.
- Headers that name directories, symbolic links, encodings and unreadable files; the configured sources are a parameter instead of the literal list of `scripts/prepare.py:134-235`.
- The printing, download, extraction and JSON parts of `scripts/prepare.py`.
- libuv itself: which event comes next is arbitrary, within what a started, closing or submitted object allows. Numbers such as timeouts, byte counts, statuses and offsets are not modelled, nor are the offset and length arrays that the stubs drop.
- A read callback that libuv delivers although the allocation callback of the same read stopped or closed the stream.
- Failed submissions (negative status).
- EventLoopOwnership.Runtime.StartWrite: makes the request it submits, as the public functions do (`src/stream.mbt:165`, `src/work.mbt:37`, `src/fs.mbt:1197`); the stub alone would also take a request that was submitted before and replace its data.
- EventLoopOwnership.Runtime.QueueWork: likewise, a fresh request for each submission.
- EventLoopOwnership.Runtime.StartFs: likewise, a fresh request for each submission.
- Fields set one after the other while only the stub knows the object (the loop field, request data) are set as the object is made.
- EventLoopOwnership.Runtime.WorkRuns: interleaves with the loop thread stub by stub; that two threads change the same plain counter at the same moment is not modelled.
- Nested `uv_run` calls inside a callback, and the order in which a finalizer drops its fields.
- RunResults.NothingLeaks: no claim about runs that touched a handle after closing it, since these can leak, nor about closures that reach a younger object through a mutable cell of user code: a closure here owns only objects made before it. With such a cell a cycle can keep itself alive, for example the work closure of cancelled work, which stays in the request's data (`src/work.c:66-72`), when it reaches that request.
- `Async`, `Signal` and `Tty`, whose stubs count references differently; idle, check and prepare handles, `uv_write2`, `uv_try_write`, the remaining file requests, name resolution and sockets, which repeat shapes modelled here.
- Process spawning and its exit callback, and the other fields of process options.
- ProcessStdio.Options.SetStdio: a second call on the same options frees the former slots without dropping their streams, as the source does; no conservation is claimed for those. A failing allocation is not modelled.
- Weak memory and overflow of the 32-bit counters, the failure paths of the `init` and `create` functions, and `sem.c`, `cond.c` and `rwlock.c`, which repeat the shared block of `mutex.c`.
- SharedBlock.OwedAlive: a wrapper that never got a block (a null `block` field) is not part of the machine.
- MoonBit's core library: what shifting by a negative amount gives is a parameter of the processor mask.
- Wrap-around of `size_t` in `moonbit_uv_setup_args`; pointers are eight symbolic bytes.
- ErrorCodes.Table.ToBytes: `strerror` is a function of the code, so a message that changes with the locale during a run is not modelled.
- Flag builders, enumeration tables, `stat` and `rusage` getters and the `Show` and `ToJson` instances.
