# A verified model of the kernel's memory and task core

This project models the virtual memory and process core of a small AMD64 kernel and proves what the
rest of the system relies on: exact reference counts, page tables that form a tree, copy-on-write
that no task can tell from copying, a scheduler that neither loses nor starves a task, and a boot
sequence that ends in a state where all of this holds.

`dafny verify dfyconfig.toml` checks everything.

## How the model is laid out

| module | contents |
|---|---|
| `Mmu` | addresses, indices and page table entries (`mmu.h`, `layout.h`) |
| `Bits` | the macros of `mmu.h` on 64-bit words, and that they compute the numbers of `Mmu` |
| `Queue` | the intrusive list of `queue.h`, as arrays of links that spell out a sequence |
| `PageTree` | physical memory read as one radix tree: walks, translations and counts of references |
| `Radix`, `Growth`, `Supply`, `Stock` | how many tables a set of virtual pages needs, how address spaces grow, and exactly how far a supply of free pages goes |
| `Memory` | reference counts and the free list beside the tree, the invariant `Inv`, and what each single write keeps of it |
| `Machine`, `Map`, `Task`, `Syscall`, `Interrupt`, `Create` | the kernel's mutable state and its operations, as methods |
| `Teardown`, `Sharing`, `Views`, `CopyOnWrite` | what destroying, forking and write faults do to memory, and to what tasks see of it |
| `Mappings` | the counts against plain sets of virtual pages |
| `Scheduling`, `Effects`, `Runs`, `Records` | round-robin choice, the machine that copies eagerly, whole runs, and what they do to contexts and ids |
| `Loader`, `Sections`, `LoaderInit`, `Boot`, `Handover`, `Start` | from the 32-bit loader to the first state of the kernel |
| `Whole` | one method from the loader's inputs to any number of steps of the running system |
| `Enough` | how much memory is enough for it to start |

The main definitions, in the terms of the kernel:

- `PageTree` treats the array of task PML4 pointers as a table of level 5, so one definition covers
  the way from a task slot to an entry. `Pte(m, q)` is the flat map: the entry for the virtual page
  `q.v` of the task in slot `q.t`. `Tables(m, p)` and `Maps(m, p)` count the upper entries and the
  page table entries that name page `p`; both are read off memory, there is no ghost tree.
- `Memory.Inv`: the tables form a tree, absent entries are zero words, the `ref` of every allocated
  page is the number of entries that name it, tables are named once, pages on the free list are named
  by nothing and are there once, and all tasks share the kernel's half, in which the direct mapping is intact
  and every other entry names a page that boot keeps for good. No upper entry of a task's tables lacks W or U:
  such an entry would count as a reference to the pseudo-frame `SHUT`, and only allocated pages are referenced.
- `Growth.Tight`: every table of an address space holds a mapping. New address spaces are tight and stay so, so
  the pages they take are counted from the set of virtual pages alone (`Radix.TablesFor`).
- `Sharing.Fine` adds "a writable page is mapped once" and "private pages are open to user code". `Runs.Good`
  adds that KERNEL_TEMP is unmapped, that slots and the list of free slots agree, and that exactly one task is
  RUN, is `cpu->task`, and has its PML4 in CR3.
- `Views.View` is what a task sees of one virtual page. `Effects.Eager` is the machine in which fork
  copies every page; `Effects.Means` says that a step changed the views exactly as that machine does.
- `Interrupt.Handles` says for every interrupt what becomes of memory and of the task records.

Modelling choices that matter for reading the code beside the model:

- The four nested loops of `task_destroy` and of `sys_fork` are each written once, as a method with a
  loop that calls itself for the level below (`Task.ClearTable`, `Syscall.ShareTable`).
- `struct page` and `struct task` are kept field by field, one sequence or array for each field.
- A 64-bit entry is the datatype `Mmu.Word`; `Encode` and `Decode` are the bijection between them, and
  `Mmu.WordAddr` says that masking off the flags leaves the address of the frame.
- Operations take addresses, as in the source, and index tables with `Mmu.PageOfAddr`, which
  `Bits.MacrosAreNumbers` proves equal to the index macros.
- The loader is a 32-bit program, and `page2pa` wraps there. The model computes it as the code does and
  looks at the tables twice: as the loader follows them, and as the processor does.
- Handlers end in `task_run` or `schedule`, which do not return. A method that models such a function
  returns how it ended: task code goes on, or one of the two panics.
- `cpu->task` is a slot, or -1. The value -1 stands for NULL and also for `self_task`, which
  `task_init` installs and which is never run.
- Two results of `page_insert` that the code examines can never be failures (the first call in
  `task_share_page` and both calls in `page_fault_handler`); the model asserts this in place of the
  failure branch.
- After a handled fault an entry has both W and COW set. "Writable implies sole owner" holds all the
  same and is what the model states.

Four properties the code was meant to have turn out to hold only under a condition:

- The direct mapping of all memory. The code is meant for up to 32 GB. For memories whose available pages lie
  below 4 GB, the mapping is there for the processor exactly when they even lie below 2 GB
  (`LoaderInit.InitMemory`): the loader takes its tables from the highest pages, and from frame 0x80000 on its
  32-bit `page2pa` names a frame that does not exist (`LoaderInit.TableAtTwoGib`). If a page from 4 GB up is
  available, and exactly then, the loader writes its very first table into another page, the one with the same
  number modulo 2^20; the model follows it up to that write (outcome `Astray`). Then nothing translates at the
  kernel's addresses if that page lies from 2 GB up, and the page, if available, is a table and free at once.
  What the loader makes of this afterwards is not modelled, and nothing is claimed about it.
- No page is lost. A page allocated just before a `page_insert` that fails stays allocated with ref 0. Along
  runs this does not happen (`Runs.RunLimbo`). While tasks are created it happens exactly when the pages run out
  at a point where at least one is left: `Create.Wastes` says when from the number of free pages and the
  segments alone, and for a thread that is with two to four free pages (`Create.ThreadCreate`). The loss is
  shown on a kernel with two free pages (`Whole.LosePage`).
- No task slot is lost. A slot whose PML4 cannot be allocated is never used again. That happens exactly when
  `task_new` finds a slot and no page (`Task.TaskNew`): while tasks are created, and along runs in a fork without
  any free page and in no other step (`Runs.StepGone`, `Runs.RunGone`). `Whole.LoseSlot` shows it on a kernel
  without free pages.
- A segment is mapped completely. `task_load_segment` rounds address and size separately, so the last page is
  left out exactly if the segment crosses one page boundary more than it would from the start of a page
  (`Create.SegmentCovered`); two bytes around a boundary show it (`Create.EndLeftOutExample`).

Where comments and code differ, the code is followed. The comment in `page_alloc` says that the kernel
takes a page for free if its links are NULL. In fact zero links mark a page as in use
(`src/kernel/kernel.c:83-89`), and that is what `Handover.LinksTell` states.

## Model

| member | source | states |
|---|---|---|
| Whole.BootAndRun | src/kernel/kernel.c:110-153 | From the loader's inputs, with all available pages below 4 GB, to any number of steps. The system starts if and only if all available pages lie below 2 GB and they last, counted exactly, for the loader's tables, the four stacks, the user task and the idle thread. Then the first state has exactly as many free pages as that leaves, and exactly two tasks that can run: the idle thread, which sees its stack, and, if and only if the pages suffice for it, the user task, which sees its segments and its stack. From there all the steps are taken, or the step after the last state panics; every state is `Good`; at the end every task sees the memory of the eagerly copying machine; no page is lost; a gentle idle thread rules out the "no more tasks" panic. In every state each page of memory has a record, the kernel's PML4 is the loader's, no unavailable, low, stack, configuration or device page is free, and from CR3 the processor finds every page of memory in the direct mapping, writable for the kernel. The ids of the first tasks differ, and the next search starts behind the running task. |
| Enough.EnoughStarts | src/kernel/kernel.c:110-153 | The system starts, and with a proper program the user task too, whenever as many pages are available as a plain sum over the sections and the program's pages allows for. |
| Enough.RangeTables | src/kernel/loader/loader.c:297-328 | Consecutive pages need at most three tables for each page table they lie in, whatever is mapped already. |
| Enough.SmallStarts | src/kernel/kernel.c:110-153 | The condition for starting can be met: 64 MB with the first four in use, and any proper program of up to 3500 pages. |
| Enough.StartSmall | src/kernel/kernel.c:110-153 | On that memory the whole way from the loader on ends in a run with both first tasks, of all the steps or up to a panic. |
| Whole.LosePage | src/kernel/thread.c:33-45 | The failing input for "no page is lost": `thread_create` on a kernel with two free pages leaves one free and one allocated that nothing names. |
| Whole.LoseSlot | src/kernel/task.c:73-92 | The failing input for "no task slot is lost": `task_new` on a kernel without free pages leaves slot 0 DONT_RUN, without a PML4 and off the list. |
| Runs.RunMachine | src/kernel/interrupt/interrupt.c:134-199 | Along every run of interrupts and user stores, of any length and in any order: every state is `Good` (exact counts, writable pages mapped once, one RUN task equal to `cpu->task` with its PML4 in CR3); every task sees exactly the memory of the eagerly copying machine; no page is lost; and with a kernel thread that only breaks, ticks or types, the "no more tasks" panic does not occur. |
| Runs.RunAgrees | src/kernel/syscall.c:13-84 | Copy-on-write fork refines eager copying: at the end of every run, whatever forks, faults, stores, exits and kills it had, each task sees the memory of the machine in which fork copies every page. |
| Runs.StepMeans | src/kernel/interrupt/interrupt.c:86-115 | Every single step changes what the tasks see exactly as its effect changes the eager machine. |
| Runs.RunLimbo | src/kernel/lib/memory/map.c:18-53 | No run loses a page: the allocated pages that nothing names are the same in all its states. |
| Runs.StepGone | src/kernel/task.c:73-92 | A step loses a task slot, the first free one, if and only if it is a fork that finds a slot and no free page; a lost slot stays lost. |
| Runs.RunGone | src/kernel/syscall.c:37-45 | Over whole runs: the lost slots are exactly those lost before and those taken by forks without any free page. |
| Runs.RunWait | src/kernel/task.c:320-345 | Over whole runs: while a task stays READY, `schedule` is called fewer than TASK_MAX_CNT times, whatever tasks are forked, killed or ended meanwhile. |
| Runs.StepCloser | src/kernel/task.c:325-341 | Every step that calls `schedule` and leaves a READY task waiting strictly lowers that task's cyclic distance from the start of the next search; every other step leaves the start of the search alone. |
| Runs.StepIdle | src/kernel/kernel.c:102-108 | A kernel thread that is interrupted only by breakpoints, timer and keyboard stays READY or RUN, and the step does not end in the "no more tasks" panic. |
| Runs.UserStore | src/kernel/interrupt/interrupt.c:86-115 | A store by user code sets one word of one page of the storing task and nothing else: at once if its entry is writable, after a handled fault if the page is copy-on-write and a page is free; in all other cases, and only then, the task is destroyed and the next one runs. |
| Runs.UserMayIs | src/kernel/lib/memory/map.c:80-132 | What the processor allows, by the flags of all four entries of a walk: in a task's own part user code may read every page that is mapped and write exactly those with W in the page table entry, since `mmap_lookup` links every table with W and U; elsewhere it may do nothing. |
| Runs.ReadsWhatItSees | src/kernel/lib/memory/map.c:80-132 | A task may read exactly the pages of its view. |
| Records.RunContext | src/kernel/interrupt/interrupt.c:134-141 | Over whole runs: the saved registers of a task that lives and does not run stay as they are, whatever other tasks do. |
| Records.GivesWay | src/kernel/interrupt/interrupt.c:143-198 | A timer tick, a yield and a breakpoint of a kernel thread hand the processor to another task if one is READY; memory stays, and the registers are saved. |
| Records.RunAhead | src/kernel/task.c:340-341 | In every state of a run the next search starts behind the running task. |
| Records.RunIds | src/kernel/task.c:73-85 | Over whole runs: tasks have different ids for as long as the 32-bit counter does not wrap around. |
| Records.KillUnique | src/kernel/task.c:47-64 | With different ids, `kill` ends the one task with that id if it is an active user task, and otherwise nobody. |
| Runs.Advance | src/kernel/interrupt/interrupt.c:134-199 | One step keeps everything `Good` promises or panics, with memory, counts, free pages and records as `Handles` or `StoreDone` say. |
| Effects.StoreMeans | src/kernel/syscall.c:21-30 | A store through a writable entry keeps the invariant and is seen by no other virtual page of any task. |
| Effects.ForkedMeans | src/kernel/syscall.c:37-84 | A completed copy-on-write fork looks to all tasks like copying every page. |
| Effects.DestroyedMeans | src/kernel/task.c:105-183 | Destroying a task erases its view and changes no other. |
| Interrupt.InterruptHandler | src/kernel/interrupt/interrupt.c:134-199 | From any state in which task code runs: what each kind of interrupt does to memory, counts, free pages, task records, search position and CR3 (for an ended task, exactly `Destroyed`); if task code goes on, exactly one task is RUN, it is `cpu->task`, and CR3 is its PML4, so the assertion in `schedule` holds. |
| Interrupt.HandlesMeans | src/kernel/interrupt/interrupt.c:143-198 | What any interrupt does to the tables means to the tasks exactly its effect: nothing, a copied address space, or an erased one. |
| Interrupt.HandlesLimbo | src/kernel/interrupt/interrupt.c:143-198 | No interrupt loses a page. |
| Interrupt.Enter | src/kernel/interrupt/interrupt.c:140-141 | The context is saved in the running task, which becomes READY, and then no task is RUN. |
| Interrupt.IdleSaves | src/kernel/interrupt/interrupt.c:143-198 | Whatever the interrupt, every kernel task that was READY or RUN and was not itself at fault stays so, and the scheduler finds a task. |
| Interrupt.PageFaultHandler | src/kernel/interrupt/interrupt.c:86-132 | A fault is cured exactly when it is a write to a copy-on-write page and a page is free; then only `Handled` happened and the task goes on; otherwise the task is destroyed, with `Destroyed` saying which refs drop and which pages become free, and `schedule` picks the next one. |
| Interrupt.OtherFaultsEnd | src/kernel/interrupt/interrupt.c:86-131 | A read fault, a fault at an unmapped page and one in the kernel's half always end the task. |
| Interrupt.TryCopy | src/kernel/interrupt/interrupt.c:96-114 | The copy succeeds exactly when a page is free, with the effect `Handled`; without a page nothing changes. |
| Interrupt.CopyOnWriteFault | src/kernel/interrupt/interrupt.c:97-112 | Neither `page_insert` can fail, and the net effect of mapping at KERNEL_TEMP, copying, remapping and unmapping is the single update `Copy`. |
| Interrupt.FillTemp | src/kernel/interrupt/interrupt.c:107-109 | The copy through virtual addresses reaches the new page and reads the faulting one. |
| CopyOnWrite.CopyHandled | src/kernel/interrupt/interrupt.c:96-112 | After a handled fault the new page has ref 1 and the old contents, the old page has one ref fewer and is free if that was the last, KERNEL_TEMP is unmapped, and no other translation, table, page or count has changed. |
| CopyOnWrite.HandledEntry | src/kernel/interrupt/interrupt.c:107-111 | The entry after a handled fault names the new page with W and COW set and all other bits as before. |
| CopyOnWrite.CopySole | src/kernel/interrupt/interrupt.c:110-112 | The page made writable by a fault has a single mapping, and so has every other writable page. |
| CopyOnWrite.HandledViews | src/kernel/interrupt/interrupt.c:96-114 | No task sees a handled fault. |
| CopyOnWrite.HandledLimbo | src/kernel/interrupt/interrupt.c:101-112 | A handled fault loses no page. |
| CopyOnWrite.CowIsUser | src/kernel/interrupt/interrupt.c:96-100 | A copy-on-write entry found by the walk lies in the task's private part and is present, so the assertion in the handler holds. |
| Interrupt.KeyboardHandler | src/kernel/interrupt/keyboard.c:18-36 | After a key press the interrupted task goes on, unless the command killed it, in which case `schedule` runs; the victim, the first active task with the given id if it is a user task, is destroyed with exactly its refs and pages, and without a victim nothing changes. |
| Interrupt.KillExact | src/kernel/task.c:47-64 | Told from states, ids and contexts alone: the slot destroyed is RUN or READY, a user task, has the id, and no lower such slot has it; if nobody is destroyed, the lowest slot that is RUN or READY with that id, if any, is a kernel task. |
| Syscall.SyscallHandler | src/kernel/syscall.c:86-112 | What each system call, numbered by the low 32 bits of rax, does to memory, counts and records: puts returns 0 or, if it cannot read its string, faults in the kernel and ends the task; exit destroys it; fork and yield; an unknown number panics and changes nothing. |
| Syscall.SyscallEnds | src/stdlib/syscall.h:7-14 | The calls by number, told from the states: 0 answers 0 and changes nothing else, 1 frees slot and PML4 and leaves the task, 2 goes on with the same task, 3 changes neither memory nor contexts, and exactly the numbers above 3 panic. |
| Syscall.FaultInKernel | src/kernel/interrupt/interrupt.c:117-131 | A read fault inside a system call saves the kernel's registers, destroys the task and schedules. |
| Syscall.SysFork | src/kernel/syscall.c:37-84 | The four ways a fork ends, each exactly when: without a slot nothing happens; without any page the slot is lost; with fewer pages than a PML4 and one table for each of the parent's tables that holds a mapping, every count, free page and free slot is restored with all views unchanged; otherwise there is a READY child with the parent's translations, flags, views and context, except for 0 in rax, and exactly that many pages are taken. |
| Syscall.ShareBudget | src/kernel/syscall.c:28-34 | Sharing one page takes exactly the tables that the child does not have yet, and fails only if the child's whole address space needs more than there were. |
| Syscall.ForkSpent | src/kernel/syscall.c:46-81 | A complete child has as many tables below its PML4 as the virtual pages of the parent need. |
| Syscall.ForkInto | src/kernel/syscall.c:46-81 | The walk over the parent completes the child if and only if the pages suffice for a PML4 and the tables of the parent that hold a mapping, and is otherwise undone completely. |
| Syscall.ShareTable | src/kernel/syscall.c:46-79 | Below any table of the parent, each present entry is shared once, through the address PAGE_ADDR gives it: entries of parent and child there become the shared ones, all others stay; it fails only if the tables that the parent's pages need are more than there were pages. |
| Syscall.SharePage | src/kernel/syscall.c:13-35 | The entries of parent and child for the page become equal, copy-on-write instead of writable, and all other entries of all tasks stay; the lookup never gives NULL. |
| Syscall.ForkEntered | src/kernel/syscall.c:37-84 | However a fork ends, the parent is still the current READY task, in its own address space, and no live task is touched. |
| Syscall.ForkAndReturn | src/kernel/syscall.c:101-111 | The parent goes on with the child's id as a C `int`, or with -1. |
| Syscall.ForkAnswers | src/kernel/syscall.c:78-111 | The child gets the next 32-bit id and 0 in rax; the parent gets a C `int` congruent to that id, so the two answers differ unless the id is 0; a fork that failed gives -1. |
| Views.ForkedBy | src/kernel/syscall.c:46-81 | After a complete walk, parent and child have identical translations and flags, and the child sees the parent's memory as it was before the fork. |
| Views.ForkUndone | src/kernel/syscall.c:72-75 | Destroying the child, after a fork that failed part way or one that succeeded, restores every ref, the allocated pages, the free pages and every task's view. |
| Syscall.ForkAndDestroy | src/kernel/syscall.c:37-84 | A fork that succeeded and the destruction of its child together restore every ref, free page, view and the list of free slots; only the id counter and the contents of the free slot differ. |
| Views.ProgressView | src/kernel/syscall.c:13-35 | However far a fork has gone, no task but the child sees a difference. |
| Views.DestroyedSole | src/kernel/task.c:125-163 | Destroying a task keeps "a writable page is mapped once". |
| Sharing.InsertSole | src/kernel/syscall.c:21-30 | A second, read-only mapping of a page that is mapped read-only keeps "a writable page is mapped once". |
| Sharing.SameSlotsRestore | src/kernel/task.c:105-183 | If every slot names what it named before, then every ref, the allocated pages and the set of free pages are what they were. |
| Mappings.RefIsMappings | src/kernel/lib/memory/map.c:39-53 | The ref of an allocated page is the number of virtual pages, of all tasks, that map it; a table has ref 1 and is mapped nowhere. |
| Mappings.MappingsAre | src/kernel/lib/memory/map.c:177-190 | The recursive count over the tables is the size of the plain set of virtual pages whose translation names the page. |
| Mappings.WritableIsSole | src/kernel/syscall.c:21-30 | A user entry with W set names a page with ref 1 that no other virtual page of any task maps. |
| Mappings.FreeUnnamed | src/kernel/lib/memory/map.c:18-31 | A page that `page_alloc` can return is named by no entry outside the direct mapping, be it private or of the kernel's half (stacks, configuration, devices, KERNEL_TEMP), by no upper entry, task PML4 pointer or kernel table, and not by CR3, which in every state between operations is the kernel's PML4 or a task's. |
| Mappings.DirectIntact | src/kernel/lib/memory/map.c:65-68 | In the address space of every task the direct mapping is intact: the address that `page2kva` gives for a page of memory translates to that page, and every entry on the way lets the kernel write. |
| Mappings.RefFits | src/kernel/lib/memory/map.c:39-42 | In up to 32 GB of memory no 32-bit `ref` can overflow: there are not enough page tables for so many references. |
| Map.PageAlloc | src/kernel/lib/memory/map.c:18-31 | The first page of the list leaves it with ref 0 and zero links; an empty list gives NULL and nothing changes. |
| Map.PageFree | src/kernel/lib/memory/map.c:33-37 | The page comes back at the head of the list; it was not on it before and had ref 0. |
| Map.PageDecref | src/kernel/lib/memory/map.c:44-53 | One reference fewer; the page joins the free list exactly when that was the last. |
| Map.MmapLookup | src/kernel/lib/memory/map.c:70-135 | Finds the table of the entry or makes it; no translation of any task changes, even when it fails half way; with `create` it fails exactly when fewer pages are free than tables are missing, and takes exactly as many pages as tables were missing. |
| Map.Descend | src/kernel/lib/memory/map.c:92-112 | One level of the walk: an existing table is returned and nothing changes, a missing one takes one page, is empty, and keeps the invariant. |
| Map.NewTable | src/kernel/lib/memory/map.c:81-87 | Hanging an empty table into the tree keeps exact counts and every translation. |
| Map.PageLookup | src/kernel/lib/memory/map.c:177-190 | Reads the flat map back: the page named by a present entry and the table that holds it, NULL otherwise; nothing changes. |
| Map.PageInsert | src/kernel/lib/memory/map.c:137-159 | Sets the entry of its own virtual page and no other, keeps exact counts, succeeds exactly when as many pages are free as tables are missing, and otherwise changes no translation. |
| Map.PutEntry | src/kernel/lib/memory/map.c:144-158 | With the table at hand, the entry for the address is set, whatever was there before: the same page, another one, or nothing. |
| Map.PageRemove | src/kernel/lib/memory/map.c:161-175 | Deletes the entry of its own virtual page and no other, drops one reference, and does nothing for an absent entry. |
| Memory.AllocInv | src/kernel/lib/memory/map.c:18-31 | Taking a page off the list keeps the invariant; the page is then allocated and named by nothing. |
| Memory.InsertInv | src/kernel/lib/memory/map.c:144-158 | The writes of `page_insert` keep the invariant in all three cases: same page, other page, nothing mapped. |
| Memory.RemoveInv | src/kernel/lib/memory/map.c:166-172 | Dropping the reference and zeroing the entry keeps the invariant. |
| Memory.SpawnInv | src/kernel/task.c:87-100 | A PML4 with a cleared user part and the kernel's upper part is a new, empty address space that shares the kernel's half. |
| PageTree.UpdateCnt | src/kernel/lib/memory/map.c:70-135 | Replacing an entry anywhere in the tree changes every reference count by exactly the difference of the two entries. |
| PageTree.UpdateLeaf | src/kernel/lib/memory/map.c:70-135 | Replacing an entry at any level is seen exactly by the virtual pages whose walk goes through it. |
| PageTree.WritePte | src/kernel/lib/memory/map.c:148-156 | Writing one page table entry changes one translation of one task. |
| PageTree.LinkTable | src/kernel/lib/memory/map.c:80-87 | Linking an empty table adds one table reference and changes no translation. |
| PageTree.TwoLeavesCounted | src/kernel/lib/memory/map.c:39-42 | Two virtual pages that map the same page are two references. |
| Radix.TablesAdd | src/kernel/lib/memory/map.c:92-134 | For any set of virtual pages, one more page needs exactly as many more tables as have no page of the set below them on the way to it. |
| Growth.MissingIsNew | src/kernel/lib/memory/map.c:92-134 | In an address space without empty tables, the walk to a page lacks exactly the tables that the set of mapped pages does not need yet. |
| Growth.TightAdd | src/kernel/lib/memory/map.c:137-159 | Mapping a page with the tables on the way to it leaves no empty table. |
| Growth.BudgetAdd | src/kernel/lib/memory/map.c:137-159 | The free pages and the tables an address space needs add up to the same number after each mapping. |
| Task.TaskDestroy | src/kernel/task.c:105-183 | Frees exactly the private tables, the PML4 and the pages only this task mapped, lowers the ref of each shared page by its number of mappings here, leaves all other tasks' translations and the kernel's half alone, returns the slot, and never leaves CR3 on the freed PML4. |
| Task.DropSpace | src/kernel/task.c:116-177 | The same for the address space alone, with CR3 restored or moved to the kernel's PML4, which is not the task's. |
| Task.ClearTable | src/kernel/task.c:125-163 | The nested loops at any level drop each reference below the table exactly once and touch nothing else. |
| Teardown.RazeDestroys | src/kernel/task.c:125-177 | Clearing the PML4 and dropping it amounts to `Destroyed`: refs minus the slot's references, free pages plus those at zero. |
| Teardown.RazeInv | src/kernel/task.c:125-177 | Destroying an address space keeps the invariant. |
| Task.TaskNew | src/kernel/task.c:66-103 | The first free slot with a new empty address space; without a page the slot is lost (DONT_RUN, no PML4, off the list); without a slot nothing changes. |
| Task.ClaimSlot | src/kernel/task.c:73-85 | The slot leaves the free list cleared, DONT_RUN and with the next 32-bit id. |
| Task.TaskKill | src/kernel/task.c:47-64 | Destroys the first active task with the given id if it is a user task; otherwise nothing changes, so kernel tasks are never killed. |
| Task.Schedule | src/kernel/task.c:320-345 | Runs the READY slot closest ahead of the search position, in its own address space, and moves the position behind it; panics exactly when no slot is READY. |
| Task.TaskRun | src/kernel/task.c:281-285 | The task becomes RUN and the slot invariants stay. |
| Task.EndAndSchedule | src/kernel/interrupt/interrupt.c:197-198 | The interrupted task is destroyed, with exactly its refs and pages, and the next one is chosen from the rest. |
| Scheduling.DistFalls | src/kernel/task.c:325-340 | Choosing another slot brings the search strictly closer to every READY slot. |
| Scheduling.BoundedWait | src/kernel/task.c:320-345 | A slot that is READY at TASK_MAX_CNT successive calls is chosen by one of them, for arbitrary states of all other slots at each call. |
| Create.TaskCreate | src/kernel/task.c:246-279 | A READY user task that maps exactly the pages of its segments and its stack, each present, writable and open to user code, with no other task concerned, if and only if a slot is free, the magic number is right, no segment lies beyond the binary, and the free pages suffice for the PML4, the pages and their tables. Otherwise everything is given back except, exactly under `Wastes`, one page; the number of free pages afterwards is given exactly. |
| Create.TaskLoad | src/kernel/task.c:213-264 | All segment pages and the stack are mapped, writable, each to a page of its own, if and only if magic number and segments are right and the pages suffice; other tasks see nothing; one page is lost if and only if the pages run out where at least one is left. |
| Create.LoadSegment | src/kernel/task.c:185-204 | The pages from the rounded-down address on, as many as the rounded-up size has, are mapped if and only if the free pages suffice for them and their tables; if not, one page is lost if and only if one was left at the page where it stopped. |
| Create.SegmentCovered | src/kernel/task.c:188-192 | Every byte of a segment lies in a mapped page if and only if the offset of its start and that of its last byte, counted from the start, stay within one page together. |
| Create.SegmentPages | src/kernel/task.c:188-192 | Every page that is mapped for a segment holds a byte of it. |
| Create.EndLeftOutExample | src/kernel/task.c:188-192 | The failing input: two bytes across a page boundary get one page. |
| Create.ProgramMapped | src/kernel/task.c:213-264 | In the new task every byte of every segment that is mapped completely can be read and written by user code. |
| Create.MapNew | src/kernel/task.c:193-203 | A new page is mapped if and only if more pages are free than tables are missing; otherwise the first page of the list, if there is one, is lost. |
| Create.ThreadCreate | src/kernel/thread.c:28-90 | Succeeds if and only if a slot and five pages are free, takes those five, and gives a DONT_RUN kernel task that maps exactly its stack page; a failure loses a page if and only if there is a slot and two to four pages are free, and gives everything else back. |
| Create.ThreadRun | src/kernel/thread.c:92-96 | The thread becomes READY. |
| Create.KernelMain | src/kernel/kernel.c:131-152 | The user task is made if and only if the pages suffice for it, and the idle thread if and only if five are left then; with the thread, the first `schedule` succeeds, the system is in a state from which runs start, the number of free pages is exact, the user task sees exactly its segments and stack and the thread its stack, and no other slot has become or ceased to be runnable. |
| Supply.LoadingStep | src/kernel/task.c:193-203 | Mapping one more new page in a new address space succeeds if and only if the plain account `Left` of pages, tables and remapped pages says so, and leaves exactly the pages that account has left. |
| Supply.LeftClosed | src/kernel/task.c:193-203 | For pages mapped once each, that account is closed: as many pages as virtual pages and tables for them. |
| Start.TaskInit | src/kernel/task.c:21-32 | Every slot is FREE and on the list, in ascending order, and all invariants hold. |
| Start.FreshFine | src/kernel/kernel.c:122-126 | The state after boot, with no task, meets the invariant. |
| Start.InterruptInit | src/kernel/interrupt/interrupt.c:288-308 | Maps the interrupt and exception stacks beside KERNEL_TEMP, where nothing was mapped, to the first four free pages; it panics exactly with fewer than four, and leaves a state the kernel can start from. |
| Start.MapStack | src/kernel/interrupt/interrupt.c:293-296 | One stack page: taken from the list, mapped by one entry of the page table of KERNEL_TEMP, and the kernel's for good. |
| Start.SmallKernelFresh | src/kernel/lib/memory/layout.h:26-30 | The invariant can be met: a kernel with its six tables, the direct mapping, and any number of free pages up to 500. |
| Loader.Page2PaExact | src/kernel/lib/memory/map.c:55-58 | The loader's 32-bit `page2pa` gives the address of a page exactly for pages below 2 GB. |
| Loader.Page2KvaExact | src/kernel/lib/memory/map.c:65-68 | Its `page2kva` leads to the page itself exactly below 4 GB. |
| Loader.TableEntryWord | src/kernel/lib/memory/map.c:86-87 | The 64-bit word the loader writes for a table, read as an entry. |
| Loader.Alloc | src/kernel/lib/memory/map.c:18-31 | The loader's `page_alloc`: the page leaves the list with zero links, and off-list pages still have zero links. |
| Loader.HighestFirst | src/kernel/loader/loader.c:191-193 | The first page of the loader's list is the highest page still free. |
| Loader.Lookup | src/kernel/lib/memory/map.c:70-135 | Makes the missing tables from the highest free pages, with entries as the 32-bit `page2pa` gives them, and changes no translation, neither as the loader follows the tables nor, for pages below 2 GB, as the processor does; fails if and only if the list is shorter than the number of missing tables, and otherwise takes exactly that many; goes astray only at a page from 4 GB up, and then the table has gone to the page with the same number modulo 2^20. |
| Loader.Hang | src/kernel/lib/memory/map.c:83-87 | The new table is zeroed and linked where the loader finds it again, and the processor too if its page lies below 2 GB. |
| Loader.HangAstray | src/kernel/lib/memory/map.c:83-87 | A table page from 4 GB up: the zeros go to another page, and the entry names that one, or for a page from 2 GB up a frame that does not exist. |
| Loader.TakeSound | src/kernel/lib/memory/map.c:80-87 | Turning the first free page into a table keeps the tree, the descending list and "off the list means used exactly once". |
| Loader.PlaceSound | src/kernel/loader/loader.c:310-324 | Mapping a page keeps all that, whether the page leaves the list or stays on it. |
| Sections.MapPage | src/kernel/loader/loader.c:303-324 | One round: the entry was absent, names the frame afterwards, and no other entry has changed; it fails if and only if the list is shorter than the number of tables that the pages mapped so far do not need, and otherwise exactly those, and the page if it is to be kept, have left the list. |
| Sections.MapSection | src/kernel/loader/loader.c:297-328 | The whole section translates as written, all other entries are as before, the absence assertion holds in every round, its pages are used once and, when they are to be kept, are off the list; as the loader sees it, and as the processor does if the list lies below 2 GB. It fails if and only if the plain account `SectionList` of the list gives out, after a prefix of the section, and otherwise leaves exactly the list of that account. |
| Sections.SectionBytes | src/kernel/loader/loader.c:297-328 | Every byte of a section that starts at a page, the last partial page included, translates to the frame it should. |
| Stock.PlacedStock | src/kernel/loader/loader.c:303-324 | One round keeps the loader's tables free of empty ones, and the list is what the account `MapOne` says, page by page. |
| Stock.SectionSpent | src/kernel/loader/loader.c:297-328 | If no page to keep is on the list, a section takes from its front exactly the tables its virtual pages need beyond those mapped before. |
| LoaderInit.FillFree | src/kernel/loader/loader.c:182-194 | The list is exactly the available pages, in descending order; all others have ref 1. |
| LoaderInit.InitMemory | src/kernel/loader/loader.c:182-224 | The sections are mapped in order without ever meeting a present entry; at the end all pages have ref 1 and the list is exactly what the account `ListAfter` leaves of the available pages. With all available pages below 4 GB it runs out of pages if and only if that account does, and if it does not, the processor sees KERNEL_BASE + pa translate to pa if and only if every available page lies below 2 GB, and sees nothing there otherwise. If and only if a page from 4 GB up is available, the first table is written into another page; it is then linked as `Strayed` says, nothing translates at the kernel's addresses if that page lies from 2 GB up, and if it is available it is still on the list. |
| LoaderInit.ListSpent | src/kernel/loader/loader.c:196-222 | If no page to keep is available, the sections take exactly the tables they need together from the front of the list, which gives out if and only if it is shorter. |
| LoaderInit.DirectMapExact | src/kernel/loader/loader.c:219-222 | With the loader finished and the highest available page below 4 GB, the direct mapping of all memory is there for the processor if and only if that page lies below 2 GB. |
| LoaderInit.Nowhere | src/kernel/lib/memory/map.c:86-87 | If the table of the kernel's half lies between 2 GB and 4 GB, no address from KERNEL_BASE up translates. |
| LoaderInit.TableAtTwoGib | src/kernel/lib/memory/map.c:55-58 | The failing input: the entry for a table in page 0x80000 names frame 0xFFFFFFFF80000 to the processor, although the loader finds the table. |
| LoaderInit.Translations | src/kernel/loader/loader.c:196-222 | KERNEL_BASE + pa translates to pa for every page of up to 32 GB, the low section, stack, configuration and device pages translate as written and are off the list, and nothing else below them is mapped: to the loader, and to the processor under the condition of `LoaderInit.InitMemory`. |
| LoaderInit.LowBytes | src/kernel/loader/loader.c:213-217 | Every byte below `free_memory` translates to itself, and its page is off the list. |
| Handover.LinksTell | src/kernel/loader/loader.c:317-324 | A page record has non-zero links exactly when its page is on the loader's list, and both assertions of the kernel's rebuild hold. |
| Handover.LinksLead32 | src/kernel/loader/loader.c:191-193 | The same for the loader's 12-byte records. |
| Handover.ListReversed | src/kernel/kernel.c:83-94 | The kernel's free list is the loader's, backwards. |
| Handover.KernelFresh | src/kernel/kernel.c:54-95 | What the loader built, without PML4 entry 0, is a state the kernel can start from: the page table of KERNEL_TEMP exists and is reached only on its own way, every kernel table is off the list, the boundary slot is empty, nothing is mapped where the stacks go, the direct mapping is there, all other kernel entries name pages off the list, and none is open to users or copy-on-write. |
| Handover.TakeOver | src/kernel/kernel.c:38-95 | `kernel_init_mmap` on the loader's records yields the widened records, that list, and that state. |
| Whole.Assemble | src/kernel/kernel.c:38-95 | The kernel's first state, put together from the words of the page array and the loader's memory, can be started from; it has the loader's PML4, a record for every page, the loader's list backwards, and every page off the list is boot's. |
| Whole.ReadBack | src/kernel/lib/memory/map.h:13-18 | The widened records, read as counts and pointers, are a well-formed list of exactly the free pages with all counts unchanged. |
| Whole.EnterKernel | src/kernel/kernel.c:122-152 | `task_init`, the stacks, the first tasks and the first `schedule` lead to a state from which runs start, with the idle thread alive, if and only if four pages are free for the stacks and, after the user task, five for the thread; the number of free pages then is exact, the user task is there if and only if the pages sufficed, and no other slot can run. |
| Whole.BootedGrounded | src/kernel/kernel.c:38-95 | In every good state of a machine with the loader's kernel half, no reserved page is free and the direct mapping is found from CR3 and lets the kernel write. |
| Boot.KernelInitMmap | src/kernel/kernel.c:69-95 | Widening from the last record to the first overwrites no unread record, keeps every ref, satisfies both assertions, and links exactly the records with non-zero links, in ascending order, with zero links everywhere else. |
| Boot.LinksLead | src/kernel/kernel.c:93-93 | The words of the rebuilt list, followed as addresses: le_next of each free record is the address of the next one, le_prev of the first is the list head, and the word at the address in any other le_prev is the record's own address. |
| Boot.WidenedShows | src/kernel/kernel.c:77-81 | Widening record i keeps the narrow records before it and the wide records behind it. |
| Boot.InsertedShows | src/kernel/kernel.c:93-93 | The pointer writes of the list insertion, as addresses in the widened array, extend the list and touch no unread record. |
| Queue.List.InsertHead | src/stdlib/queue.h:120-125 | The pointers spell out the old sequence with the element in front; elements off the list keep their links. |
| Queue.List.Remove | src/stdlib/queue.h:127-132 | The pointers spell out the old sequence without that element, wherever it was. |
| Queue.List.First | src/stdlib/queue.h:143-143 | The first element, or NULL for the empty list. |
| Queue.Unlink | src/stdlib/queue.h:127-132 | Bypassing any element of a well-formed list leaves a well-formed list of the others. |
| Queue.Prepend | src/stdlib/queue.h:120-125 | The two or three pointer writes of the insertion give a well-formed list. |
| Bits.PageAddrIndices | src/kernel/lib/memory/mmu.h:31-51 | PAGE_ADDR gives a canonical address from which the four index macros and the offset mask recover its arguments, for all 64-bit values in range. |
| Bits.IndicesPageAddr | src/kernel/lib/memory/mmu.h:31-51 | PAGE_ADDR of the indices of a canonical address is that address. |
| Bits.MacrosAreNumbers | src/kernel/lib/memory/mmu.h:31-35 | The shifts and masks of the index macros are the divisions and remainders with which the model indexes tables. |
| Bits.PageAddrIsNumber | src/kernel/lib/memory/mmu.h:37-51 | PAGE_ADDR is the canonical address under which fork passes a page on. |
| Mmu.AddrRoundTrip | src/kernel/lib/memory/mmu.h:32-51 | The same on numbers: a virtual page is recovered from its canonical address. |
| Mmu.PageRoundTrip | src/kernel/lib/memory/mmu.h:32-51 | A canonical, aligned address is recovered from its virtual page. |
| Mmu.Layout | src/kernel/lib/memory/layout.h:10-41 | KERNEL_TEMP, the user stack and USER_TOP have the indices the model uses, and every user address lies in the slots that fork and destroy walk. |
| Mmu.EntryRoundTrip | src/kernel/lib/memory/mmu.h:80-93 | The flags of an entry and its frame are recovered from its 64-bit word. |
| Mmu.WordRoundTrip | src/kernel/lib/memory/mmu.h:80-93 | Every 64-bit word is the word of exactly one entry. |
| Mmu.WordAddr | src/kernel/lib/memory/mmu.h:26-29 | Masking the flags off any 64-bit word leaves the address of the frame it names, so comparing masked words compares pages. |
| Bits.FlagMasks | src/kernel/lib/memory/mmu.h:80-93 | The flags of the model's entries are the bits P, W, U and COW of the 64-bit word, and the frame is the word shifted by 12. |

## Left out

- TLB contents and `invlpg`: translation reads the tables in memory.
- The accessed and dirty bits that the processor sets in entries; an entry changes only when the kernel writes it.
- Inline and separate assembly (register saving, `iretq`, descriptor tables, mode switches); only the effect on task state, saved context and CR3 is modelled.
- APIC, IOAPIC, PIC, timer and disk programming, terminal output and the monitor's command line; a kill arrives as an event with an id.
- The scan over memory regions in `page_is_available`: availability is an arbitrary input that excludes the page of the loader's PML4, and page 0 for the kernel.
- LoaderInit.InitMemory: stops with the outcome `Astray` once the first table from 4 GB up has been written into some other page, and makes no claim about the tables the code goes on to build there, which may or may not end up as a direct mapping: the page written over may hold the loader's own code, stack or page records, whose places are not in the model; and maps the APIC and IOAPIC pages only when their frames lie inside the page array, since for smaller memories the code reads and writes a record beyond it.
- Whole.BootAndRun: takes memories whose available pages lie below 4 GB; for all others `LoaderInit.InitMemory` proves that the loader goes astray.
- Create.LoadSegment: does not model the bytes that `memcpy` and `memset` put into the new pages, which would only add a copy of the input; a new page has whatever contents the free page had.
- ELF parsing: a segment is an address, a size and whether its bytes lie inside the binary; segments that, rounded to pages, reach beyond USER_TOP are not modelled, since the code then maps user pages into the kernel's half.
- The string that puts prints: whether it can be read to its end is an input of the system call.
- The return path of a kernel thread function, where the thread destroys itself and then breaks with no current task: threads do not return.
- Interrupt.InterruptHandler: does not model on which stack the kernel runs. The gates of exceptions, page faults and system calls have IST 0 (`src/kernel/interrupt/interrupt.c:252-277`), so for a kernel thread their handler runs on the thread's own stack, which lies in its user half and which `task_destroy` or a switch of CR3 in `schedule` takes away under it; the model lets such a step end like that of a user task. `Runs.StepIdle` and the runs with a gentle idle thread are about threads that cause no such event.
- Stores by kernel threads, apart from those the kernel operations make.
- IDT, GDT and TSS setup in `interrupt_init`, `loader_init_gdt` and `loader_read_kernel`.
- Unused families of `queue.h`, user programs and everything else in the repository.
