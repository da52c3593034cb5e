# A verified model of the kernel's hard parts

This project models the parts of a small x86 teaching kernel whose correctness
depends on several pieces of code at once, and proves what those pieces promise
together. `dafny verify dfyconfig.toml` checks it.

| files | what they model |
|---|---|
| `Kernel.dfy`, `KernelInvariant.dfy`, `KernelSteps.dfy`, `KernelRuns.dfy`, `KernelSched.dfy`, `KernelIdle.dfy`, `KernelProgress.dfy`, `KernelLimits.dfy`, `KernelDriver.dfy` | scheduler, sleep call and disk queue as one transition system, its invariant, its whole-run theorems, and the in-place code that refines its steps |
| `Paging.dfy`, `PagingProofs.dfy`, `PagingRuns.dfy`, `PagingWindow.dfy`, `PagingMemory.dfy` | page allocator and two-level page tables in one memory, refining a plain map |
| `Machine.dfy`, `Interrupts.dfy`, `TaskFrame.dfy`, `Switching.dfy`, `SwitchRuns.dfy`, `Resumption.dfy`, `UnmaskedTick.dfy`, `KernelLayout.dfy`, `ProtocolWrites.dfy` | byte-addressed stack machine: interrupt entry and exit, the fabricated first frame, `__switch_to`, runs of switches and ticks, where contexts and stacks are, and what the disk protocol writes there |
| `Terminal.dfy`, `Printk.dfy` | scrolling console as a window of an unbounded terminal, and the format interpreter |
| `Ext2.dfy`, `Ext2Disk.dfy` | block, group and inode addressing, on top of the disk protocol |
| `Keyboard.dfy` | scan-code decoder, characterised by its input history |
| `Common.dfy` | shared definitions |

How the model is cut:

* Interrupt handlers use interrupt gates (`idt.c:64-69`) and are single steps, and
  so is the code between DISABLE_IRQ_BEGIN and DISABLE_IRQ_END. Syscalls use a trap
  gate (`idt.c:70`), so their code is cut at every access to shared state,
  including inside `reschedule`.
* A dispatch is two steps, `current = task` and the switch, and interrupts may
  arrive between the steps of the scheduler loop too. The one step that breaks the
  invariant is a tick between the two halves of a dispatch (`StepKeepsIff`), so runs
  of the protocol have none. `SnapshotsKeptIff` proves on the machine that this is
  exactly what saved contexts need. The comment at `sched.c:94` intends interrupts to
  be off there. `FlagFromSyscall` and `FlagFromReschedule` show when they can be on:
  after a syscall's `reschedule`, since its gate leaves IF set and `__switch_to` does
  not change it. `TickCanHitDispatch` and `TickHitsDispatch` construct the run in
  which that happens, the second one on the machine with its flag, from a scheduler
  that starts with interrupts off or on.
* In runs of context switches a suspended party names the ranges of its own stack
  that others may write: the request and the buffer of the `ata_read` it sleeps in.
  That the protocol writes no other part of a foreign stack is `ProtocolIsOwnCode`.
* The disk raises one interrupt per sector and reports no error (READ SECTOR(S) of
  ATA/ATAPI-6). A call of `ata_read` asks for 1 to 255 existing sectors below 2^28,
  with a buffer that no other read in progress uses; `ReadCompletesIff` shows that
  the length bound is exact. The number of tasks is arbitrary.
* A request is part of the stack frame of its `ata_read` call and is addressed by
  it. When the call returns the frame is gone, and following a pointer to it is the
  fault `Dangling`. A failing BUG_ON is the fault `BugOn`.
* Memory for paging is a map from page frame numbers to pages of 1024 words; the
  walk is that of section 4.3 of volume 3A of the Intel SDM. Physical and virtual
  ranges passed to `map_continous` do not wrap around 2^32, and flags lie in the
  low twelve bits.
* `vprintk` takes arguments that fit its format, as any C caller has to provide.

Where code and comments disagree the code is modelled: `alloc_page` rewrites the
directory flags on every call, so a kernel mapping removes user access from its
whole 4 MiB slot (`NeighbourLosesUser`); `map_continous` rounds start and length
separately (`CoversIff`); `ext2_init` reads the descriptors from block 1 whatever
the block size (`DescriptorsFromBlockOne`, `SmallBlocksReadSuperblock`) and loads one
block of them where it has checked for a page (`GroupsLoadedIff`); pages
mapped PT_USER | PT_WRITEABLE stay read-only for user code (`UserNeverWrites`).

## Model

| member | source | states |
|---|---|---|
| KernelRuns.QueueSafety | ata.c:29-119 | in every state of every run no BUG_ON fails and no dangling request is followed; the queue is a finite acyclic chain of live frames; a task is TASK_DISK_READ iff exactly one queued request, of its active call, names it; the device is busy iff the queue is non-empty and then serves the head with exactly the sectors it still needs |
| KernelRuns.ReadReturnsSectors | ata.c:90-119 | for every interleaving, when `ata_read(buf, lba, n)` returns the buffer holds disk sectors lba .. lba+n-1 word for word |
| KernelRuns.CompletesExactly | ata.c:41-63 | FIFO completion: a request is pending, its task asleep, until exactly as many disk interrupts have come as it and the requests before it need, and that interrupt completes it |
| KernelRuns.EnqueuePending | ata.c:102-115 | a new request needs its own sectors plus the backlog of the whole queue |
| KernelRuns.ForeignWrites | ata.c:41-115 | in every run, no step of another task or of an interrupt takes away the frame of an `ata_read`; it changes the frame only if that call sleeps in the queue, and its buffer only if it is the disk interrupt and the call sleeps |
| ProtocolWrites.ProtocolIsOwnCode | ata.c:41-115 | in bytes: every step of the protocol writes no context, and on a suspended stack only the request and the buffer of that task's own `ata_read`, so it is one of the steps over which `ResumesAsSuspended` is proved |
| KernelInvariant.IssueDecodes | ata.c:29-39 | the register writes select block addressing on the first drive; they decode back to the block address iff it lies in the 28-bit range, and to the length iff it is 1 to 256 |
| KernelInvariant.TailIsLast | ata.c:109-113 | the walk along `next` ends at the last request of the queue |
| KernelSteps.EnqueueKeeps | ata.c:102-115 | queueing a request keeps the whole invariant, with the request appended |
| KernelSteps.DiskIrqKeeps | ata.c:41-63 | a disk interrupt keeps the whole invariant, serving one sector of the head and dropping it at the last one |
| KernelSteps.ReturnKeeps | ata.c:117-119 | a returning call may take its frame away: nothing in the queue points to it |
| KernelSteps.ControlKeeps | sched.c:80-142 | the sleep call, `reschedule`, both halves of a dispatch and the scheduler loop keep the invariant |
| KernelSteps.TickKeeps | sched.c:121-134 | a timer interrupt keeps the invariant wherever it lands except inside a dispatch |
| KernelSteps.StepKeepsIff | sched.c:80-142 | every step of the system, disk interrupts inside a dispatch included, keeps the invariant, except the tick between `current = task` and the switch, which the model records as the fault `Clobbered` |
| KernelSched.WaitLastsExactlyNTicks | syscall.c:10-20 | a task that called `syscall_wait(n)` sleeps through fewer than n ticks, is neither dispatched nor returns meanwhile, and is made runnable by exactly the n-th tick, also if ticks land before its `reschedule` |
| KernelSched.WakesExactly | sched.c:121-129 | the same from any state in which the task sleeps with r ticks to go |
| KernelSched.BoundedBypass | sched.c:101-110 | while a task stays runnable without being dispatched the scan passes at most N-1 slots, by dispatch or skip, and ends at most once, and no other task is dispatched twice |
| KernelIdle.IdleIff | sched.c:101-118 | in every run, masked or not, the processor halts while a task is runnable iff an interrupt of that scan made the task runnable after the scan had passed it |
| KernelIdle.IdleOnlyWhenNoneRunnable | sched.c:101-118 | with interrupts masked during the scan the processor halts only if no task is runnable |
| KernelProgress.HaltsIff | sched.c:101-118 | in every run, masked or not, the end of a scan halts the processor iff the scan has dispatched no task |
| KernelProgress.MaskedIdleIff | sched.c:101-118 | with interrupts masked during the scan its end halts iff no task was runnable while it was under way |
| KernelProgress.SchedulerFindsTask | sched.c:101-118 | from any state of any run in which the scheduler has the processor, halted or not, and a task is runnable, its loop puts a runnable task on the processor within N+5 steps |
| KernelProgress.TickPreempts | sched.c:121-142 | a tick on a task's code takes the processor from it; the task keeps its place and stays runnable if it was |
| KernelProgress.TurnsEnd | sched.c:121-142 | a runnable task waits for at most N ticks on task code before it is dispatched |
| KernelIdle.FlagFromSyscall | sched.c:94-117 | scheduler code can be interrupted only after it was entered from a syscall's `reschedule` |
| KernelIdle.MaskedWithoutSyscalls | sched.c:94-117 | if tasks leave the processor through the timer only, the scan is masked |
| KernelIdle.IdleNeedsMasking | sched.c:101-118 | a run, with interrupts only where the flag is set, that halts with a runnable task |
| KernelIdle.TickCanHitDispatch | sched.c:80-118 | a run, with interrupts only where the flag is set, to a state between the halves of a dispatch where the flag is set and a tick breaks the invariant |
| KernelLimits.ReadCompletesIff | ata.c:29-63 | a lone read wakes its caller without failing a check iff its length is 1 to 255 and its buffer is not NULL |
| KernelDriver.Driver.QueueRequest | ata.c:102-115 | the in-place code with its tail walk performs the queueing step |
| KernelDriver.Driver.ProcessDiskInterrupt | ata.c:41-63 | the in-place handler with its 256 port reads performs the disk step |
| KernelDriver.Driver.IssueReadSectors | ata.c:29-39 | on a request of 1 to 255 sectors below 2^28 the device starts at the request's sector with its count; 256 or more fail the check and leave the device alone |
| KernelDriver.Driver.TickInterrupt | sched.c:121-142 | the loop over the task table and the reschedule perform the timer step |
| KernelDriver.Driver.Execute | sched.c:101-142 | every step of the system is performed by in-place code, which keeps the invariant |
| KernelDriver.Driver.AdvanceScan | sched.c:103-109 | the scan is a run of skip steps that ends at the first runnable slot or the end of the table |
| PagingRuns.MapRefines | paging.c:77-90 | after a mapping call covered pages go to the matching frames with the requested flags and user access; all other pages keep frame and flags, and everything if their directory slot was not touched |
| PagingRuns.RunRefinesPlainMap | paging.c:55-90 | after any run of mapping calls, allocations and writes to allocated pages, from an empty directory, a page translates to what the last call covering it asked for, and is user-accessible iff that call and the last call touching its slot asked for PT_USER |
| PagingRuns.UserNeverWrites | paging.c:69-73 | no run of calls makes a page writeable for user code, although `init_kernel_paging` asks for it: the directory entry never has the writeable bit |
| PagingRuns.NeighbourLosesUser | paging.c:69-73 | a kernel mapping removes user access from every other page of its slot and leaves the frames alone |
| PagingProofs.MapPagesEffect | paging.c:55-90 | a mapping call succeeds iff the slots without a table in its range are at most as many as the free pages, takes exactly that many, and keeps every page of the pool owned once |
| PagingRuns.RunOwned | paging.c:39-90 | over any such run every page of the initial pool has exactly one use: free, directory, the table of one slot, or handed out |
| PagingRuns.NoSharing | paging.c:39-75 | any two uses are of different pages, each pair on its own: tables of different slots, tables and directory, free pages and pages handed out |
| PagingRuns.LentPageKept | paging.c:39-90 | a page that was handed out is changed by its holder only: no later allocation or mapping writes it |
| PagingRuns.StacksNeverShared | sched.c:29-36 | pages handed out by different `kalloc` calls of a run differ and their 4096 bytes do not overlap, also if they are written |
| PagingProofs.KallocTakes | paging.c:39-49 | `kalloc` returns the page pushed last and NULL iff the list is empty |
| PagingProofs.WriteLent | paging.c:39-49 | whatever is written to a page that was handed out, free list, tables and every translation stay as they are |
| PagingWindow.EarlyWindow | paging.c:20-25 | under the early directory the kernel window and the low 4 MiB translate alike, to frames 0 .. 1023, writeable and without user access |
| PagingWindow.WindowPersists | paging.c:103-113 | after the first mapping of `init_kernel_paging` and any later run of calls outside it, the window translates to the same frames, without user access and with writeable leaves; only the directory entry is no longer writeable |
| PagingWindow.TablesReachable | paging.h:23-29 | every table and the directory are mapped at their `phys2virt` address |
| PagingMemory.Memory.InitKallocEarly | paging.c:27-37 | the loop pushes exactly the pages from the end of the kernel to the end of the window |
| PagingMemory.Memory.AllocPage | paging.c:55-75 | the in-place code, with its clearing loop, refines the table step |
| PagingMemory.Memory.MapContinous | paging.c:77-90 | the loop refines the mapping function, and fails exactly where that writes through NULL |
| PagingMemory.Memory.InitKernelPaging | paging.c:103-109 | with three free pages: ownership, the kernel window and a user-accessible first user page |
| PagingMemory.Memory.IdentityMap | paging.c:111-113 | covered pages translate to themselves, writeable and for the kernel only; all others keep their frames, and the kernel window stays if the range avoids it |
| PagingMemory.CoversIff | paging.c:78-80 | a byte range is mapped in full iff its offset in the first page plus its length is at most the rounded length |
| PagingMemory.RoundUpBounds | paging.h:16 | rounding goes to the next multiple of the page size unless it wraps around |
| Interrupts.InterruptReturns | irq.S:4-55 | entry and exit restore every register, stack pointer and flags, for user and kernel code, with and without error code, for any handler that leaves the frame alone |
| Interrupts.EnterInterrupt | irq.S:21-51 | the handler starts with kernel segments and, as its argument, the address of a frame that holds the registers in the order of `struct regs`; from user mode the frame ends at the stack of the TSS |
| Interrupts.LeaveInterrupt | irq.S:4-19 | the pops give back exactly the registers of the frame |
| TaskFrame.LayoutIsFrame | irq.h:4-22 | `struct regs` with its offsets is a frame the pop sequence can consume |
| TaskFrame.TaskSetup | sched.c:34-56 | the stack built for a new task is `task_init`, `__jump_userspace` and a user frame, inside its own page |
| TaskFrame.EnterUser | irq.S:66-70 | `task_init` returns into `__jump_userspace`, which enters user mode at the stored eip with cs 0x1b, 0x23 in all data segments and ss, eflags with only IF, and zero in every other register |
| Switching.CallSwitchTo | sched.S:4-19 | the call stores the caller's context and return address, writes nothing else and continues with the other party's snapshot; flags and all other registers stay |
| Resumption.ResumesAsSuspended | sched.c:80-142 | in any run without a tick inside a dispatch, disk reads included, a party resumes with the stack pointer, callee-saved registers and return address it left with, and finds its stack as it was except in the ranges of its own disk read |
| Resumption.PreemptedContinues | sched.c:121-142 | a task interrupted by the timer, in user or kernel mode, finds on resumption the frame with every register it was interrupted with |
| Resumption.SnapshotsKeptIff | sched.c:80-87 | in every run all suspended parties keep their snapshots iff no tick lands on scheduler code while `current` is set |
| Switching.NewTask | sched.c:25-59 | a new task is suspended as if about to return to `task_init`, its frame above; no other task's stack or context is written |
| Resumption.FirstDispatch | sched.c:15-87 | in any run, however long a new task waits, the first switch to it enters `task_init` with exactly the stack `EnterUser` needs |
| UnmaskedTick.BadTickGoesBack | sched.c:85-86 | a tick inside a dispatch does not return: the scheduler goes on with the stack pointer and registers of its previous dispatch |
| UnmaskedTick.FlagFromReschedule | sched.c:94-142 | if the scheduler starts with IF clear, it has IF set only after a task entered it from its own `reschedule` with IF set, never after a tick |
| UnmaskedTick.TickHitsDispatch | sched.c:85-86 | a run from any scheduler state, with IF clear or set, through user mode and a syscall's `reschedule` to a tick inside a dispatch with IF set: the task's context then points into the scheduler's stack, and the scheduler repeats the interrupted instruction with a stack pointer that is 8 off and `current` cleared |
| KernelLayout.LayoutHolds | sched.c:13-83 | contexts in the task table and the image, the boot stack and the stacks that `kalloc` handed out in any run never overlap |
| Terminal.WriteShows | vga.c:35-78 | after any characters the 25 rows are the window of an unbounded terminal at its scroll offset, the cursor is inside it, and row 25 is unchanged and shows on rows scrolled in |
| Terminal.Console.constructor | vga.c:20-33 | clears the 25 rows and leaves row 25 |
| Terminal.Console.ShiftBuffer | vga.c:35-40 | the row copies move rows 1 to 25 up by one |
| Terminal.Console.PutChar | vga.c:47-72 | the in-place code refines the function the window theorem is about |
| Terminal.Console.WriteChars | vga.c:74-78 | the loop writes the characters one by one |
| Printk.VPrintk | printk.c:67-121 | the console ends as after one write of the rendered text, light grey on black, and exactly one argument per specifier is taken |
| Printk.OneSpecifier | printk.c:88-109 | a specifier prints: u and x the decimal and the hexadecimal numeral that reads back as the argument, d the signed one of its two's-complement reading, p "(nil)" or 0x and a hexadecimal numeral, s the string; it takes one argument |
| Printk.UnknownSpecifier | printk.c:110-112 | any other character after a percent sign, or none, prints nothing and takes nothing |
| Printk.RenderConcat | printk.c:80-120 | formats are rendered piece by piece, each with the arguments it takes |
| Printk.PlainFormat | printk.c:82-83 | a format without percent signs is printed as it is |
| Printk.PrintU32 | printk.c:10-29 | the digit loop and the in-place reversal produce the numeral |
| Printk.ReverseInPlace | printk.c:23-27 | the XOR swaps reverse the digits and touch nothing else |
| Printk.NumeralRoundTrip | printk.c:19-22 | a numeral consists of digits of its base and reads back as its number |
| Printk.NoLeadingZero | printk.c:15-22 | a positive number has no leading zero |
| Printk.PrintS32 | printk.c:31-38 | sign and magnitude in any base from 2 to 16, including the least number |
| Printk.SignedRoundTrip | printk.c:31-38 | a signed numeral determines its number, sign included |
| Printk.PrintPtr | printk.c:50-58 | `(nil)` or a hexadecimal numeral with prefix |
| Printk.RenderingsFit | printk.c:7-58 | every rendering of a 32-bit value fits the 11-byte buffer |
| Ext2.ReadInode | ext2.c:129-144 | inode 1 + g * inodes per group + k is the 128 bytes at table start of descriptor g times block size plus k times record size, which is 128 before revision 1 and the size field from then on |
| Ext2.ReadBlock | ext2.c:119-127 | the bytes of the block |
| Ext2Disk.ReadIsSectors | ata.c:90-119 | for every interleaving, a returned `ata_read` leaves the bytes of its sectors in the buffer |
| Ext2Disk.BlockReadIsBlock | ext2.c:123-127 | so a block read leaves exactly the block |
| Ext2.NeverCrosses | ext2.c:136-142 | an inode whose size divides the block size lies in one block |
| Ext2.InodesApart | ext2.c:129-144 | distinct inodes have disjoint places when distinct tables are disjoint |
| Ext2.InitFs | ext2.c:146-162 | mounts exactly the disks that pass its checks, with the fields of the superblock and block 1 as descriptors; panics exactly on a wrong signature |
| Ext2.OffsetOnDisk | ext2.c:129-137 | that place in terms of the disk's own bytes: superblock fields at their offsets from byte 1024, descriptors of 32 bytes in block 1 |
| Ext2.ReadRoot | ext2.c:164-168 | the root inode is the 128 bytes one record behind the table start of group 0, all read from the disk's own bytes |
| Ext2.SmallBlocksReadSuperblock | ext2.c:159 | with 1 KiB blocks the reserved-blocks count of the superblock is taken for the inode table of group 0 |
| Ext2.GroupsLoadedIff | ext2.c:154-159 | on an accepted disk the descriptors fit a page, and every group has its descriptor loaded iff they fit one block |
| Ext2.GroupsMissing | ext2.c:154-159 | a disk with 2 KiB blocks and 128 groups that passes every check; groups 64 to 127 have no descriptor |
| Ext2.DescriptorsFromBlockOne | ext2.c:159 | block 1 holds the descriptors iff blocks are larger than 1 KiB |
| Keyboard.Decoder.ReadCode | keyboard.c:8-44 | over any history of bytes, by the keys that are down: nothing without data, 0 for releases and escapes, otherwise the entry of the control map if a control key is down, else of the shifted map if a shift key is, else of the normal map, with the cases exchanged after an odd number of caps lock presses; every index lies in its table |
| Keyboard.EscapeTracksLastByte | keyboard.c:20-32 | the escape bit is set iff the last byte was 0xE0 |
| Keyboard.ModifierTracksKeys | keyboard.c:23-34 | SHIFT is set iff the latest event on keys 0x2A and 0x36 was a press, CTL on 0x1D and escaped 0x1D, ALT on 0x38 and escaped 0x38; an event is the make byte or that plus 0x80, after 0xE0 or not |
| Keyboard.LockTracksParity | keyboard.c:35 | each lock bit is the parity of the presses of its code 0x3A, 0x45 or 0x46; an escaped code does not count |
| Keyboard.SevenFlags | keyboard.c:9 | the static word never holds more than its seven flags |

## Left out

- Port I/O, `hlt`, `load_cr3`, TSS reload and the TLB: steps of the model or not part of it.
- APIC, PIT, ACPI, PCI, GDT and IDT encoding, event bus, memory-map printing, panic text, boot code: they would add only easy members.
- Fault paths of the disk and `ata_init`: the device is initialised and reports no error.
- `syscall_print`, the syscall table and the values returned in eax: easy members.
- Task creation in runs of the disk and sleep protocol: such a run starts with any set of allocated tasks. Runs of context switches do contain it.
- The lookup of a free slot in `task_allocate`: an easy scan.
- `task_setup` after a failed `kalloc` leaves a runnable slot without a stack; only successful allocation is modelled.
- `kfree` is empty in the source; pages are never returned.
- The directory listing at the end of `ext2_init`, and its use of pages from `kalloc` without a check for NULL.
- `ext2_read_block` and `ext2_read_inode` return their bytes; the shared buffer `fs->tmp` they go through is not a field.
- Processor and memory of the stack machine are values handed from instruction to instruction, not a mutable object; there is one processor, so no aliasing is lost.
- The 256-entry character maps of the keyboard are parameters; their contents are not modelled.
- Wrap-around of buffer and range addresses at 2^32 and unaligned word buffers.
- KernelDriver.Driver.QueueRequest: the walk is proved for an acyclic queue, which every reachable state has; on a cycle the original would not terminate.
