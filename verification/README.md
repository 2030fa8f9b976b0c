# Verification model of the shared-stack coroutines, the frame pool, the accounting allocator and the task pool

The centre is libaco: many coroutines take turns on one share stack. `aco_resume` copies nothing if the target
still owns its stack; otherwise it saves the owner's live bytes in a private buffer that grows by doubling, copies
the target's bytes back below the return slot, changes the owner and switches registers. The library promises that
nobody can tell this from a machine in which every coroutine has a stack of its own. That promise is the main
theorem here, with the C++ factory and the round-robin program proved on top of it. Three smaller parts follow:
the width alignment and cache of the decoder's frame pool, the allocator that counts bytes behind a header, and
the start, notify and shutdown protocol of the task pool.

| file | subject |
|---|---|
| `Platform.dfy` | machine words of the two architectures, powers of two, bitwise and, words in memory |
| `SaveBuffer.dfy`, `Geometry.dfy`, `FastCopy.dfy`, `Switch.dfy` | the doubling loop, share-stack sizes and marks, the inline copy, `acosw` |
| `Machine.dfy` | the shared-stack machine: state, steps, invariant |
| `PrivateStacks.dfy` | the simple machine: one stack for each coroutine, no owner, no copies; what callers and bodies owe |
| `Refinement.dfy`, `Lifecycle.dfy`, `Runs.dfy` | every step keeps the invariant and commutes with the abstraction; whole runs |
| `Guarantees.dfy`, `Programs.dfy` | what comes back at a resume, bracketing, bookkeeping; programs cannot tell the two machines apart |
| `Aco.dfy`, `Thread.dfy` | libaco's records as classes with byte arrays, and its calls as methods that update them in place |
| `Changes.dfy`, `Records.dfy`, `Naming.dfy`, `WholeHeap.dfy`, `Script.dfy` | all records of a thread in memory as one state of the machine: every call in place is the machine's step, and every sequence of them its run |
| `Factory.dfy`, `RoundRobin.dfy` | `Coroutine`, `CoroutineFactory<int>` and the program that drives ten coroutines, for any number of them |
| `Decoder.dfy` | the frame pool: alignment loop, plane sizes, cache |
| `Accounting.dfy` | the accounting allocator |
| `TaskPool.dfy`, `Pool.dfy` | the task pool as interleaved steps, and main's calls as methods over the task list |
| `LumaOutput.dfy` | writing the luma plane of a frame |

How to read it. `Machine.State` is everything libaco keeps in one thread: contexts of main coroutines, coroutine
records with their save buffers, share stacks with the bytes behind them, who runs, and the registers. `Abs` maps
it to the private-stack machine, giving each coroutine the bytes between its stack pointer and its return slot
wherever they happen to lie. A coroutine body is arbitrary: it leaves any registers and any bytes below its return
slot, as long as its stack pointer stays inside its stack. The word size (4 or 8), the page size, the addresses
the system hands out, the number of coroutines and stacks and the order of events are all free. The methods of
`Aco` and `Thread` do the same work in place on objects and arrays; their contracts equate each record they leave
with the functions the steps of `Machine` are made of. In `WholeHeap` the records of a whole thread are put
together: `Is(rt, b)` says that the objects and arrays in memory are the state `b.st`, share nothing, and satisfy
the invariant; every call of the library, done in place, is proved to end in `Is(rt, b')` with `b'.st` the state
that `Runs.Step` gives. `Script.Play` does this for any sequence of events, so whatever is
proved of runs of the machine holds of the bytes in memory.

Four facts the proofs bring out. The save-time test on the owner's stack pointer, or a save buffer doubled past the
address space, is the only way `aco_resume` can abort on a coroutine that has not ended (`Refinement.ResumeAbortsIff`
is an if-and-only-if in sizes). And the release path of the task pool does not post a task's semaphore, so `clear` ends if
and only if every task had been started (`TaskPool.ClearEndsIff`). A hit in the frame pool can hand out line sizes
of another pixel format: the key has the frame's format, the sizes come from the codec's, and hits are safe if and
only if the codec's format is that of the last filling (`Decoder.AlwaysFreshIff`). The accounting allocator is a
plain one if and only if no granted request wraps when 64 is added to it and no realloc is asked for exactly
2^64 - 64 bytes (2^32 - 64 on the 32-bit target) of a C library that frees on a request of 0, as glibc does
(`Accounting.RunIsPlain`).

## Model

| member | source | states |
|---|---|---|
| SaveBuffer.Grow | libsrc/libaco/aco.c:395-401 | the doubling loop ends for every size and need, in the size Grown specifies or in the assert that a size wrapped to 0 |
| SaveBuffer.ShiftedIs | libsrc/libaco/aco.c:395-401 | each shift is the doubled size modulo the address space, bits lost off the top |
| SaveBuffer.GrownExactly | libsrc/libaco/aco.c:395-401 | for every size and need: the value is that of the first shift after which the register holds the need, bits lost off its top or not, and the assert fires if and only if no shift reaches it |
| SaveBuffer.GrownIsLeast | libsrc/libaco/aco.c:395-401 | for a need of at most half the address space the nonzero assert never fires and the result is the least initial size times 2^k that holds it |
| Geometry.SizeShareStack | libsrc/libaco/aco.c:208-252 | all wrap-around tests together: it aborts exactly for a page size that is not a power of two or a size that does not fit, and otherwise gives the exact sum; without a guard page the size itself: the request, 4096 for less, 2 MiB for 0 |
| Geometry.AddGuardPage | libsrc/libaco/aco.c:219-252 | the branches for small, ragged and even requests all give the page-rounded size plus one page, or abort together |
| Geometry.PowerTest | libsrc/libaco/aco.c:222-223 | the bit test on the page size holds exactly for powers of two |
| Geometry.MaskIsRemainder | libsrc/libaco/aco.c:231-246 | masking with the page size minus one is the remainder, so the bit operations are the division the other lemmas speak of |
| Geometry.PageCeilIsLeast | libsrc/libaco/aco.c:226-246 | the rounded size is a page multiple and no smaller page multiple holds the request |
| Geometry.PlaceMarks | libsrc/libaco/aco.c:277-283 | the marks computed in wrapping arithmetic never wrap, and satisfy every relation the rest of the library uses |
| Geometry.StackGeomOk | libsrc/libaco/aco.c:208-288 | for every request, page size and word size that does not abort: usable size at least the request, at least 4096, and 2 MiB for 0; with a guard page the least page multiple that is, without one exactly that; high mark 16-aligned, ptr below high minus limit by at most 16, protector word inside, return slot 8 mod 16 on x86_64 |
| Geometry.StackFits | libsrc/libaco/aco.c:208-252 | a stack can be had, without a guard page, always; with one, if and only if the page size is a power of two and some page multiple that suits the request, plus the guard page, is less than the address space |
| Geometry.StackSize | libsrc/libaco/aco.c:208-252 | the usable size is the least one, with a guard page the least page multiple, that suits the request, and the guard page lies below it |
| Geometry.WindowIsSize | libsrc/libaco/aco.c:373-387 | the save-time test on a stack pointer passes exactly when the live bytes and one word more fit the limit, for every stack pointer |
| FastCopy.MoveQuads | libsrc/libaco/aco.c:53-146 | case n of the switch, which loads n registers and then stores them, moves exactly those 16n bytes |
| FastCopy.InlineCopy | libsrc/libaco/aco.c:53-148 | the switch and the trailing 8-byte store write exactly the bytes memcpy would and nothing else |
| FastCopy.CopyDropIn | libsrc/libaco/aco.c:151-157 | whichever path the test picks, the effect is that of memcpy |
| FastCopy.FastPathOnX64 | libsrc/libaco/aco.c:47-51 | with a 16-aligned saved stack pointer the fast path depends only on a 16-aligned buffer and a live size of at most 136 |
| Switch.Acosw | libsrc/libaco/acosw.S:57-120 | on both architectures, register by register: the caller's instruction pointer, its stack pointer after the return, its callee-saved registers and FPU words are stored in from, and those in to become current |
| Switch.StoredThenLoaded | libsrc/libaco/acosw.S:57-120 | what a switch stores is what a later switch to it loads: instruction pointer, stack pointer, every callee-saved register, x87 control word and MXCSR |
| Machine.EvictedLinks | libsrc/libaco/aco.c:369-431 | eviction leaves the stack unowned, renames nothing and changes only save buffers |
| Refinement.SavedOk | libsrc/libaco/aco.c:373-425 | saving an owner inside its window keeps its record in order and its bytes exactly, and cannot fail on a stack of at most half the address space |
| Refinement.EvictKeepsInv | libsrc/libaco/aco.c:369-431 | the whole-state invariant survives eviction |
| Refinement.EvictKeepsAbs | libsrc/libaco/aco.c:369-431 | eviction changes nothing any coroutine can see |
| Refinement.PlacedOk | libsrc/libaco/aco.c:441-464 | the restored bytes are exactly what can be read below the return slot, and the slot and all above it stay |
| Refinement.OccupyNeverAborts | libsrc/libaco/aco.c:432-438 | the asserts after the save never fire in a state that satisfies the invariant |
| Refinement.OccupyKeepsInv | libsrc/libaco/aco.c:432-469 | the invariant survives a restore and the change of owner |
| Refinement.OccupyKeepsAbs | libsrc/libaco/aco.c:432-469 | a restore changes nothing any coroutine can see |
| Refinement.SwitchInCorrect | libsrc/libaco/aco.c:474-475 | once the target owns its stack the switch is the private machine's switch |
| Refinement.ResumeRefines | libsrc/libaco/aco.c:364-475 | aco_resume aborts if and only if the target has ended or another owner cannot be saved; otherwise it is a plain switch of the private machine, copied or not |
| Refinement.ResumeAbortsIff | libsrc/libaco/aco.c:364-404 | in sizes: aco_resume of a coroutine that has not ended aborts if and only if another coroutine is on the stack whose live bytes and one word exceed the limit, or exceed its buffer when no number of doublings reaches them; on a stack of at most half the address space only the first |
| Refinement.YieldRefines | libsrc/libaco/aco.h:190-194 | aco_yield1 keeps the invariant and is the private machine's yield |
| Refinement.ExitNeverAborts | libsrc/libaco/aco.h:210-217 | the owner assert of aco_exit1 never fires |
| Refinement.ExitRefines | libsrc/libaco/aco.h:210-217 | aco_exit1 keeps the invariant and is the private machine's exit |
| Refinement.ResumedRecords | libsrc/libaco/aco.c:364-475 | a resume changes the main context, the target, its stack and the previous owner in the way the in-place call does, and nothing else |
| Lifecycle.BodyRefines | libsrc/libaco/aco.c:474-476 | arbitrary code of a running coroutine that writes below its return slot disturbs no other coroutine |
| Lifecycle.NewCoOk | libsrc/libaco/aco.c:306-361 | a new coroutine's record satisfies the invariant, for every save-buffer size, 0 meaning 64 |
| Lifecycle.CreateKeepsInv | libsrc/libaco/aco.c:306-361 | aco_create keeps the invariant |
| Lifecycle.CreateAbs | libsrc/libaco/aco.c:306-361 | aco_create adds an empty private stack and changes no other |
| Lifecycle.DestroyRefines | libsrc/libaco/aco.c:479-492 | aco_destroy of any coroutine that is not running removes it alone, whether or not it owns its stack |
| Lifecycle.NewStackKeepsInv | libsrc/libaco/aco.c:208-288 | a new share stack keeps the invariant |
| Lifecycle.FreeStackKeepsInv | libsrc/libaco/aco.c:290-304 | freeing a share stack no coroutine uses keeps the invariant |
| Runs.StepRefines | libsrc/libaco/aco.c:306-492 | every event aborts exactly when Aborts says, keeps the invariant and commutes with the abstraction |
| Runs.RunsAgree | libsrc/libaco/aco.c:364-477 | over every run of any length, with any number of coroutines and share stacks, the shared-stack machine goes where the private-stack machine goes as long as it has not aborted |
| Guarantees.TightKept | libsrc/libaco/aco.c:373-387 | bodies that yield inside the save window keep every suspended coroutine inside it |
| Guarantees.TightNeverFails | libsrc/libaco/aco.c:364-404 | with such bodies aco_resume aborts if and only if its target has ended |
| Guarantees.CarefulRunsAgree | libsrc/libaco/aco.c:364-477 | with such bodies the two machines agree on every run, outcome for outcome |
| Guarantees.Untouched | libsrc/libaco/aco.c:364-477 | over any run without its own resume or destroy, a coroutine's private stack and context stay as they are |
| Guarantees.StackComesBack | libsrc/libaco/aco.c:364-477 | from a yield to the next resume of the same coroutine, whatever happens in between: same registers, same stack bytes, same argument |
| Guarantees.BytesComeBack | libsrc/libaco/aco.c:364-477 | the same of the memory: from the stack pointer to the return slot every byte of the share stack is what it was at the yield |
| Guarantees.ExitIsFinal | libsrc/libaco/aco.h:210-217 | after a coroutine has exited, and whatever happens next, resuming it aborts |
| Guarantees.FirstEntry | libsrc/libaco/aco.c:318-339 | the first resume, field by field: instruction pointer fp, stack pointer at the return slot, every callee-saved register 0, the control word and MXCSR of the thread at the creation, the protector above, and arg for aco_get_arg |
| Guarantees.WordsOfThreadInit | libsrc/libaco/aco.c:180-185 | over any run: those FPU words are the ones that were in the CPU at the last aco_thread_init before the creation |
| Guarantees.TopStays | libsrc/libaco/aco.c:277-283 | over every run that keeps the stack, the return slot holds the protector and no byte from it up changes |
| Guarantees.Protected | libsrc/libaco/aco.c:277-283 | in every reachable state the word in memory at the return slot of every stack is the protector |
| Guarantees.MainComesBack | libsrc/libaco/aco.c:474-476 | from resume to the yield or exit only that coroutine runs and aco_gtls_co names it; then its caller continues with all registers, and aco_gtls_co is the main coroutine |
| Guarantees.Bookkeeping | libsrc/libaco/aco.c:421-467 | in every reachable state: one more save than restores exactly while the bytes are in the buffer, the restore never raises the maximum, the buffer is the first one or less than twice the largest copy, and every doubling was forced by a copy |
| Guarantees.CreatedRecord | libsrc/libaco/aco.c:306-351 | the record of a creation field by field: an empty buffer of the size asked for, 64 bytes for 0, all counters 0, not ended, entry context as in FirstEntry |
| Guarantees.StepSaves | libsrc/libaco/aco.c:407-467 | what any event does to a save record: a coroutine put off its stack takes its live bytes, raises the maximum to their number and counts a save if there are any; one put back counts a restore if there are any; nobody else's record changes |
| Guarantees.LargestCopy | libsrc/libaco/aco.c:407-467 | over the whole life of a coroutine: max_cpsz is the largest number of bytes its buffer has held at any time since its creation |
| Guarantees.Ownership | libsrc/libaco/aco.c:368-473 | in every reachable state: a stack's owner is nobody, with valid size 0, or a live coroutine of that stack with its valid size plus a word; every other coroutine's saved bytes end at the return slot and fit buffer and limit |
| Guarantees.StartOk | libsrc/libaco/aco.c:169-185 | a thread before its first call satisfies the invariant |
| Programs.Indistinguishable | libsrc/libaco/aco.c:364-477 | for every program that acts on what it sees, and every content of dead bytes, the views on shared stacks are a prefix of the views on private stacks |
| Programs.IndistinguishableForever | libsrc/libaco/aco.c:364-477 | if the program yields inside its window they are the same views for any number of steps |
| Aco.Reserve | libsrc/libaco/aco.c:392-404 | a buffer too small is replaced by the doubled one, in place; fails exactly when the size would wrap |
| Aco.CopyOut | libsrc/libaco/aco.c:407-425 | the buffer array then holds the bytes from the stack pointer to the return slot; both counters follow |
| Aco.SaveOwner | libsrc/libaco/aco.c:372-427 | window test, growth and copy together leave the record that Machine.Saved prescribes and an unowned stack; they go through exactly when the live bytes and one word fit the limit and the buffer holds them or can be doubled until it does |
| Aco.CopyIn | libsrc/libaco/aco.c:441-464 | the stack array then holds the saved bytes just below the return slot and is otherwise unchanged |
| Aco.Occupy | libsrc/libaco/aco.c:432-469 | both asserts, the copy and the change of owner leave the records Machine.Restored and Machine.Taken prescribe |
| Thread.Runtime.ThreadInit | libsrc/libaco/aco.c:180-185 | the control word and MXCSR in the CPU are remembered, and the last-word callback unless it is null |
| Thread.Runtime.SwitchTo | libsrc/libaco/acosw.S:57-120 | call and acosw together: the caller's context as it will be after the call is stored, the other becomes current |
| Thread.Runtime.Yield | libsrc/libaco/aco.h:190-194 | the coroutine's context is stored, the main context resumes, aco_gtls_co is the main coroutine |
| Thread.Runtime.Exit | libsrc/libaco/aco.h:210-217 | is_end set, the stack given up, then a yield; aborts exactly when the coroutine does not own its stack |
| Thread.Runtime.Create | libsrc/libaco/aco.c:306-351 | a new record, field by field: entry point, return slot, the remembered FPU words, every callee-saved register 0, fp and arg, counters 0, and a buffer of the size asked for, 64 bytes for 0 |
| Thread.Runtime.CreateMain | libsrc/libaco/aco.c:352-359 | a main coroutine keeps fp and arg, has every register 0, no stack and no buffer |
| Thread.Runtime.Destroy | libsrc/libaco/aco.c:479-492 | a main coroutine is just freed; another gives up its stack if and only if it owned it, and its buffer is freed |
| Thread.Runtime.NewShareStack | libsrc/libaco/aco.c:208-288 | fails exactly when the size asserts do; otherwise the record and its memory, protector included, are those of a new stack |
| WholeHeap.Begin | libsrc/libaco/aco.c:169-178 | a thread before its first call: its memory, with no record and no object in it, is the machine's start state |
| WholeHeap.Resume | libsrc/libaco/aco.c:364-475 | aco_resume on all the records of a thread in memory: it aborts if and only if ResumeFails, and otherwise the memory, every array of it, is the state the machine's step gives; so the previous owner can be resumed again |
| WholeHeap.EvictOwner | libsrc/libaco/aco.c:372-427 | saving the owner in place, its buffer perhaps replaced, is Machine.Evict on the whole memory and aborts exactly when that does |
| WholeHeap.Occupy | libsrc/libaco/aco.c:432-469 | copying back and taking the stack in place is Machine.Occupy on the whole memory, and no assert fires |
| WholeHeap.Yield | libsrc/libaco/aco.h:190-194 | the memory goes where the machine's yield goes |
| WholeHeap.Exit | libsrc/libaco/aco.h:210-217 | the memory goes where the machine's exit goes, and the owner assert never fires |
| WholeHeap.Create | libsrc/libaco/aco.c:306-351 | the memory goes where the machine's create goes: one more record, sharing nothing with the others |
| WholeHeap.CreateMain | libsrc/libaco/aco.c:352-359 | the same for a main coroutine |
| WholeHeap.NewShareStack | libsrc/libaco/aco.c:208-288 | the same for a share stack, wherever the system puts it and whatever was there; it fails exactly when the machine's step does |
| WholeHeap.Destroy | libsrc/libaco/aco.c:479-492 | destroying a coroutine that is not running takes its record out of the memory and leaves every other as it was |
| WholeHeap.DestroyMain | libsrc/libaco/aco.c:479-492 | the same for a main coroutine that no coroutine needs |
| WholeHeap.FreeStack | libsrc/libaco/aco.c:290-304 | the same for a share stack that no coroutine runs on |
| WholeHeap.ThreadInit | libsrc/libaco/aco.c:180-185 | aco_thread_init on the whole memory is the machine's step |
| WholeHeap.Body | libsrc/libaco/aco.c:474-476 | arbitrary code of the running coroutine below its return slot is the machine's step, and writes no other record |
| Script.Play | libsrc/libaco/aco.c:169-492 | any sequence of events whatever that the contract allows, played in place on the objects and arrays: the memory ends as the state in which the run of the machine ends, and the calls stop only where that run aborts; so what is proved of runs holds of the bytes in memory |
| Script.GiveWay | libsrc/libaco/aco.c:364-477 | in memory: a coroutine yields, any events whatever follow that do not resume or destroy it, code of other coroutines on its stack included, and it is resumed: it has its registers back, and the array of its stack holds its own bytes below the return slot |
| Changes.ResumeParts | libsrc/libaco/aco.c:364-475 | the tests and steps aco_resume is made of: it goes on through eviction, restore and switch exactly when ResumeFails does not hold |
| Factory.Coroutine.Create | src/Coroutine.cpp:38-47 | refused, with nothing changed, if there is a handle already; otherwise the coroutine exists in the library with routine_proxy as entry |
| Factory.Open | src/Coroutine.cpp:64-71 | thread init, a main coroutine and a guarded share stack, and an empty map that agrees with the library; it aborts if and only if the page size is no power of two or no page multiple that suits the request fits with its guard page; otherwise the usable size is the least such multiple |
| Factory.CoroutineFactory.CrCreate | src/Coroutine.cpp:88-103 | succeeds if and only if the key is free; the map then holds one more coroutine under that key, and the branch for a failed insertion is proved dead |
| Factory.CoroutineFactory.Insert | src/Coroutine.cpp:97-97 | map::insert: the flag is true if and only if the key was free, and only then the map changes |
| Factory.CoroutineFactory.CrResume | src/Coroutine.cpp:117-127 | false for an unknown key; otherwise the routine runs on its own registers and bytes as really found on the share stack; afterwards only that coroutine has moved, and m_is_stop is set if and only if it returned |
| Factory.CoroutineFactory.CrIsQuit | src/Coroutine.cpp:129-138 | true if and only if the library has ended the coroutine under that key |
| Factory.CoroutineFactory.CrRemove | src/Coroutine.cpp:152-163 | destroys the coroutine under the key exactly once and takes the key out of the map; everything else stays |
| Factory.CoroutineFactory.Close | src/Coroutine.cpp:73-86 | the destructor frees each coroutine once, then the share stack, then the main coroutine; all other coroutines of the thread keep stack and context |
| Factory.FindsItsBytes | libsrc/libaco/aco.c:441-475 | what a running coroutine's share stack holds from its stack pointer up is its private stack |
| Factory.SlicedAgrees | src/Coroutine.cpp:22-29 | after a resume has come back, map and library agree again on every coroutine and its end |
| Factory.CreatedAgrees | src/Coroutine.cpp:88-103 | map and library agree after a creation |
| Factory.RemovedAgrees | src/Coroutine.cpp:152-163 | map and library agree after a removal, and no other key named the coroutine |
| RoundRobin.OneTurn | libsrc/libaco/test/main.cpp:10-36 | co_fp0 with its counter in its stack frame: turn t, counted from 0, yields if and only if t is less than the count, and the coroutine returns in the turn after |
| RoundRobin.Visit | libsrc/libaco/test/main.cpp:87-103 | one pass of the loop body: the coroutine at the index has one turn if it has any left, is removed when it returns, and nobody else moves |
| RoundRobin.RunAll | libsrc/libaco/test/main.cpp:85-109 | for any number of coroutines and any counts the loop ends with an empty map, and its log is round robin: as many resumes as the positive counts add up to and one more for each coroutine, each coroutine as often as its own count and once more, first turns in index order, and between two resumes of one coroutine every other that has not returned exactly once |
| RoundRobin.RoundsTotal | libsrc/libaco/test/main.cpp:85-109 | there are as many resumes as the positive yield counts add up to, and one more for each coroutine |
| RoundRobin.EachItsOwn | libsrc/libaco/test/main.cpp:85-109 | coroutine i is resumed max(k_i, 0) + 1 times, and nobody outside the program |
| RoundRobin.Between | libsrc/libaco/test/main.cpp:85-109 | between two resumes of one coroutine every other is resumed once if it has been resumed no more often than it yields, and otherwise not at all |
| RoundRobin.InOrder | libsrc/libaco/test/main.cpp:85-109 | before a coroutine is resumed for the first time those with a smaller index have been, each once, and nobody else |
| RoundRobin.Passed | libsrc/libaco/test/main.cpp:87-109 | no stopped coroutine is in the map at the loop head |
| RoundRobin.Demo | libsrc/libaco/test/main.cpp:73-109 | the whole program, with the destructor: nothing aborts, it terminates, its log is round robin in that sense, and the thread is left without the factory's stack and coroutines |
| Decoder.LowBitTrick | src/Decoder.cpp:73-74 | `w & ~(w - 1)`, bit by bit, is the lowest bit set in w |
| Decoder.AlignWidth | src/Decoder.cpp:67-79 | the do-while loop, with int overflow and endless repetition as outcomes, does what Search specifies |
| Decoder.FirstFit | src/Decoder.cpp:67-79 | every width tried is the start width rounded up to a power of two; the outcome is decided by the least such width that fits, fails or overflows |
| Decoder.EndsWhereItStops | src/Decoder.cpp:67-79 | for every int width, negative ones and 0 included: the loop ends at the least rounding up of it to a multiple of a power of two that fits, fails, or has no next width, with the line sizes, the error, the overflow or the endless repetition found there |
| Decoder.OneStop | src/Decoder.cpp:67-79 | there is only one such width |
| Decoder.AlignmentLoop | src/Decoder.cpp:67-79 | if all lines fit at multiples of 2^k: for every positive width the loop ends after at most k + 1 rounds, with the line sizes, failure or overflow of the first width that is not unfit |
| Decoder.RoundsBound | src/Decoder.cpp:67-79 | the exact form: at most one round more than the bits still missing below 2^k, for every positive int width |
| Decoder.OverflowIff | src/Decoder.cpp:67-79 | for every positive width: the int overflow happens if and only if the first rounded-up width that is not unfit, or else the last, has line sizes and its successor is no int |
| Decoder.NoOverflow | src/Decoder.cpp:67-79 | so it never happens for a width of at most 2^30 - 2^k |
| Decoder.SplitPlanes | src/Decoder.cpp:86-88 | the loop over the plane pointers gives the sizes PlaneSizes specifies |
| Decoder.SizesSum | src/Decoder.cpp:81-88 | the plane sizes add up to the size of the image |
| Decoder.PlanesTile | src/Decoder.cpp:81-88 | every byte of the image is in exactly one plane, for all plane pointers inside the image, if and only if the pointers ascend |
| Decoder.ComputedIs | src/Decoder.cpp:70-88 | for every width and height exactly one outcome: the loop started from the aligned width, the planes of the aligned height and the line sizes found, each plane size the way to the next plane and the last the rest of the total; -1 if the planes fail, the code of the line sizes if they do |
| Decoder.FramePool.Update | src/Decoder.cpp:47-109 | return value and pool after one frame: a hit on format, width and height, another codec type or any failure leaves key, line sizes and plane sizes alone and a failure returns its code; a success stores the frame's key and what Makes says of the aligned dimensions |
| Decoder.PoolIs | src/Decoder.cpp:61-98 | after any frames: some frame of the pool's key filled it, with what Makes says of its dimensions at the codec's pixel format of that time, and every later frame hit or failed; or no frame has filled it and all of it is 0 |
| Decoder.StaysCurrent | src/Decoder.cpp:61-98 | after any frames, hits and failures included, the pool is what a computation for its key gives at the pixel format the codec had when the pool was last filled |
| Decoder.HitHolds | src/Decoder.cpp:61-98 | what any hit hands out: the layout of its dimensions for the pixel format of the last filling; zeros only from a pool never filled |
| Decoder.HitIsFresh | src/Decoder.cpp:61-98 | a hit hands out what a fresh computation would if and only if the codec's pixel format and the one of the last filling have the same layout at these dimensions |
| Decoder.SameFormatIsFresh | src/Decoder.cpp:61-98 | what a caller can check: if the codec's pixel format has been the frame's in every frame so far and is now, every hit is fresh |
| Decoder.StaleHit | src/Decoder.cpp:61-98 | for any two different pixel formats there are helpers and frames that make the hit stale |
| Decoder.AlwaysFreshIff | src/Decoder.cpp:61-98 | hits are fresh whatever the helpers and the frames if and only if the codec's pixel format is that of the last filling; the frame's own format plays no part |
| Accounting.Allocator.JutMalloc | src/ff_mem.cpp:45-61 | heap, counts and result after a malloc are those Step specifies |
| Accounting.Allocator.JutRealloc | src/ff_mem.cpp:82-108 | the same for realloc: NULL with size 0 does nothing, size 0 keeps a live block, a failure keeps the block but has already lowered the count, and a request that wraps to 0 bytes may free the block and return NULL |
| Accounting.Allocator.JutFree | src/ff_mem.cpp:133-151 | the same for free |
| Accounting.StepIsPlain | src/ff_mem.cpp:39-158 | behind the 64-byte header one call is plain malloc, realloc or free, same pointer and same contents, if and only if it is neither a granted request whose size plus 64 wraps in a size_t nor a realloc whose size plus 64 wraps to exactly 0 and frees the block |
| Accounting.PlainForSureIff | src/ff_mem.cpp:39-158 | before the call: it is plain whatever the C library answers if and only if size plus 64 does not wrap |
| Accounting.WrapIsNotPlain | src/ff_mem.cpp:48-90 | in those two cases no plain heap explains the call: the pointer lies past the block, or dangles |
| Accounting.NullButFreed | src/ff_mem.cpp:90-90 | the second case exists for every live pointer: jut_realloc(p, 2^64 - 64) calls realloc(hdr, 0), returns NULL, and p is gone |
| Accounting.RunIsPlain | src/ff_mem.cpp:39-158 | a sequence of legal calls and writes is one on a plain heap if and only if none of them is a granted request that wraps or a realloc to 0 bytes that frees its block |
| Accounting.StepBalance | src/ff_mem.cpp:39-158 | one call moves the difference between counted and live bytes by exactly what Missed says, modulo 2^32 |
| Accounting.CountsMove | src/ff_mem.cpp:50-151 | decoder by decoder: a call moves the count of its own thread's decoder by exactly the size asked for less the user bytes given up, modulo 2^32, its peak only at a malloc, and nobody else's |
| Accounting.Conservation | src/ff_mem.cpp:39-158 | after any calls from any threads the counts add up to the live bytes modulo 2^32 if and only if the uncounted calls cancel out; in particular if every call has a decoder and no realloc of a live block fails and keeps it |
| Accounting.PeakOfMallocs | src/ff_mem.cpp:53-58 | memused_max is the largest count right after the decoder's own mallocs |
| Accounting.PeakMissesRealloc | src/ff_mem.cpp:82-108 | no realloc raises memused_max, whoever calls it and whatever it adds to the count |
| TaskPool.StepKeepsInv | src/TaskPool.cpp:37-83 | under every interleaving the pool semaphore counts the threads that have notified, each task semaphore its posts, and only returned threads are joined |
| TaskPool.Notification | src/TaskPool.cpp:56-62 | is_stop is true if and only if every thread has notified; each notifies once, and only after its own start was posted |
| TaskPool.StartReachesAll | src/TaskPool.cpp:37-45 | in every interleaving start has posted every task after one main step for each |
| TaskPool.StopSetsAll | src/TaskPool.cpp:47-55 | in every interleaving stop has set every exit flag after one main step for each |
| TaskPool.ShutdownDescends | src/TaskPool.cpp:71-75 | once the exit flags are set every step of every thread lowers one measure |
| TaskPool.SomebodyGoes | src/TaskPool.cpp:64-77 | a clear of started tasks never deadlocks |
| TaskPool.ClearCompletes | src/TaskPool.cpp:71-77 | under every schedule its second loop ends within 6n + 1 steps, with every thread joined |
| TaskPool.FirstLoopCompletes | src/TaskPool.cpp:66-70 | its first loop never blocks |
| TaskPool.ClearEndsIff | src/TaskPool.cpp:64-77 | a clear can end if and only if start had reached every task |
| TaskPool.UnstartedBlocks | src/Task.cpp:51-59 | a task never started keeps it waiting for ever, because release does not post the task's semaphore |
| TaskPool.NothingAfterClear | src/TaskPool.cpp:9-19 | after a clear no thread notifies, and the destructor's second clear joins nothing |
| TaskPool.OnceFinishes | src/Task.cpp:201-222 | in one-loop mode, over every run of started threads: they take at most 4n steps in all, after 4n of them is_stop is true, and until then some thread can go |
| TaskPool.StoppedFinish | src/Task.cpp:201-222 | with every exit flag set started threads take at most 4n more steps in all, after 4n of them is_stop is true, and until then some thread can go |
| TaskPool.WorkIsDone | src/Task.cpp:201-222 | in every interleaving: a thread that notifies without its exit flag set is in one-loop mode and has gone through its loop body exactly once; in that mode no thread goes through it twice |
| TaskPool.SpinsOtherwise | src/Task.cpp:201-222 | otherwise nobody notifies before stop or clear |
| Pool.AloneIsARun | src/TaskPool.cpp:37-77 | a call of main with no other thread's step in between is one of the interleavings |
| Pool.Task.Start | src/Task.cpp:36-43 | posts the task's semaphore if and only if there is a thread |
| Pool.Task.Release | src/Task.cpp:51-59 | exit flag set; joined if the thread has returned or there is none, and otherwise the join waits |
| Pool.TaskPool.AddTask | src/TaskPool.cpp:25-33 | one round of the loop in init adds a waiting thread to the list |
| Pool.TaskPool.Start | src/TaskPool.cpp:37-45 | the loop over the list does the main steps of the machine, one a task, and touches nothing else |
| Pool.TaskPool.Stop | src/TaskPool.cpp:47-55 | the same for stop, which leaves every exit flag set |
| Pool.TaskPool.IsStop | src/TaskPool.cpp:56-62 | compares the semaphore with the number of tasks |
| Pool.TaskPool.Clear | src/TaskPool.cpp:64-77 | both loops do the machine's main steps; the call comes through with every thread joined, or waits for the first thread that has not returned |
| LumaOutput.OnRecvFrame | src/Task.cpp:86-106 | for every frame: both branches append the same bytes, the rows, each cut to the width, in order; with padded lines and more than 65535 rows it never comes back |
| LumaOutput.RowsUnpadded | src/Task.cpp:93-96 | without padding the rows are the plane as it lies in memory |
| LumaOutput.PixelAt | src/Task.cpp:93-104 | pixel (r, c) of the frame is at r * width + c of the output, whatever the padding |
| LumaOutput.LoopEndsIff | src/Task.cpp:99-103 | the row loop with its 16-bit counter comes to an end if and only if the height is at most 65535, and then after exactly height rounds |
| LumaOutput.LoopWrites | src/Task.cpp:99-103 | up to 65535 rows the loop has written the first n rows after n rounds |

## Left out

- Factory.CoroutineFactory.CrResume: the factory keeps the library's state as one value, so the library calls inside it are the machine's steps; `WholeHeap` proves that the in-place calls are the same steps.
- Decoder.FramePool.Update: FFmpeg's helpers are functions of what they are given, with the small contracts of `LibOk`; the `fail` label, which nothing jumps to, is not modelled.
- Accounting.StepIsPlain: the alignment memalign gives is not stated.
- Factory.Open: a request that the size asserts let through is taken to get its region; a failing mmap is left out like every failing allocation.
- LumaOutput.OnRecvFrame: products of width, height and line size are taken to fit an int; a loop that never ends is watched for any given number of rounds.
- Pool.TaskPool.Clear: the methods of `Pool` run main's calls without a step of another thread in between, so where a join has to wait they return the wait; all interleavings are in `TaskPool`.
- Script.Play: labels that create a stack name its place and contents; where the system chooses others, the play ends there, with the memory in order.
- Switch.Acosw: the word that the call pushes below the stack pointer is handed over as a value and not written to the bytes of the stack; it is dead after the switch.
- TaskPool.StepKeepsInv: flags and semaphores change in sequentially consistent steps, and thread creation always succeeds.
- Programs.Indistinguishable: a program sees registers and its own stack from the stack pointer up; bytes below the stack pointer are dead and may differ.
- A stack larger than half the address space keeps all its guarantees but those about buffer growth.
- Resuming from a coroutine that is not a main one, destroying a running coroutine and signal handlers are outside the library's contract and are excluded by `PrivateStacks.Legal`.
- The build option that shares the FPU environment between coroutines, the valgrind hooks and `aco_runtime_test`.
- The protector: it is proved to stay in place; what it does when a body returns instead of exiting is not modelled.
- malloc, mmap and mprotect failures; memory handed out is fresh and disjoint.
- Allocator policies 1 and 5, which count nothing.
- `cr_yield`, `cr_get` and `size` of the factory, which add only map look-ups.
- The main thread's own stack, and output to the terminal in co_fp0.
- Everything that drives FFmpeg, reads files or parses arguments.
