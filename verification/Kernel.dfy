/**
 The scheduler, the sleep call and the disk queue as one transition system.

 A state holds the task table, `current`, the scheduler's scan variables, the
 stack frames of the `ata_read` calls in progress, the queue head, the disk
 controller and the memory the buffers live in. Requests are linked by the
 addresses of the frames that contain them, so a returned call leaves a hole:
 a pointer to it is dangling, and following one is a fault of the model.

 Code between two steps is atomic. Interrupt handlers and the block between
 DISABLE_IRQ_BEGIN and DISABLE_IRQ_END are single steps; syscall code is cut at
 every access to shared state.
 */
module Kernel {
  import opened Common

  type Addr = nat
  const NULL: Addr := 0

  /** One disk sector is 256 words of 16 bits; memory is addressed in words. */
  type Word = w: nat | w < 0x1_0000
  const SECTOR_WORDS := 256
  type Sector = s: seq<Word> | |s| == SECTOR_WORDS witness seq(SECTOR_WORDS, _ => 0)

  const LBA_LIMIT := 0x1000_0000

  // ---------------------------------------------------------------- disk

  /** Task-file registers, next sector to transfer and sectors left. */
  datatype Device = Device(drive: nat, seccount: nat, lo: nat, mid: nat, hi: nat, cur: int, left: nat)

  /** Bit 6 of the device register asks for block addresses, bit 4 for the second drive. */
  predicate AddressesBlocks(drive: nat) {
    drive / 64 % 2 == 1 && drive / 16 % 2 == 0
  }

  /**
   What the controller does with a READ SECTOR(S) command: the first drive decodes
   a block address from the registers. A command with a cylinder address, or for
   the second drive, delivers nothing that is modelled.
   */
  function Start(d: Device): Device {
    if AddressesBlocks(d.drive) then
      d.(cur := (d.drive % 16) * 0x100_0000 + d.hi * 0x1_0000 + d.mid * 0x100 + d.lo,
         left := if d.seccount == 0 then 256 else d.seccount)
    else
      d.(cur := -1, left := 0)
  }

  /** The register writes of `ata_issue_read_sectors`, ending with the command. */
  function Issue(d: Device, lba: int, count: int): Device {
    Start(d.(drive := 0xa0 + 0x40 + lba / 0x100_0000 % 16,
             seccount := count % 256,
             lo := lba % 256,
             mid := lba / 0x100 % 256,
             hi := lba / 0x1_0000 % 256))
  }

  function DiskSector(disk: seq<Sector>, i: int): Sector {
    if 0 <= i < |disk| then disk[i] else seq(SECTOR_WORDS, _ => 0)
  }

  function StoreSector(mem: map<int, Word>, buf: int, data: Sector): map<int, Word> {
    mem + map a | buf <= a < buf + SECTOR_WORDS :: WordFor(data, buf, a)
  }

  function WordFor(data: Sector, buf: int, a: int): Word
    requires buf <= a < buf + SECTOR_WORDS
  {
    data[a - buf]
  }

  // ---------------------------------------------------------------- tasks

  datatype Status = NotAllocated | Running | Waiting | DiskRead

  /** Where a call of `reschedule` returns to. */
  datatype Cont = FromWait | FromRead(frame: Addr)

  /** What a task executes next, or resumes at when it is dispatched. */
  datatype Pc =
    | User                            // outside the protocol
    | WaitArmed                       // ticks_remaining set, state not yet
    | ReadBuilt(frame: Addr)          // request built on the stack, not queued
    | Resched(k: Cont)                // about to enter reschedule()
    | ReschedOld(k: Cont, prev: nat)  // old = current done
    | ReschedOff(k: Cont, prev: nat)  // current = NULL done
    | Back(k: Cont)                   // reschedule() returned

  datatype Task = Task(status: Status, ticks: int, pc: Pc)

  /** The stack frame of an `ata_read` call: the request, then the two arguments it started from. */
  datatype Frame = Frame(buf: int, lba: int, count: int, next: Addr, task: nat, buf0: int, n: int)

  /** Whose code the processor executes; Selected is the scheduler between `current = task` and the switch. */
  datatype Cpu = OnTask(task: nat) | Scheduler | Selected(task: nat) | Halted

  predicate Busy(cpu: Cpu) { cpu.OnTask? || cpu.Selected? }

  /**
   A failed check, a pointer to a returned frame followed, or the context of a
   task overwritten by the scheduler's.
   */
  datatype Fault = NoFault | BugOn | Dangling | Clobbered

  datatype Sys = Sys(
    tasks: seq<Task>, current: Option<nat>,
    cpu: Cpu, cursor: nat, found: bool,
    frames: map<Addr, Frame>, head: Addr,
    dev: Device, mem: map<int, Word>, disk: seq<Sector>,
    fault: Fault)

  // ---------------------------------------------------------------- driver

  function SetStatus(tasks: seq<Task>, t: nat, st: Status): (r: seq<Task>)
    ensures |r| == |tasks|
  {
    if t < |tasks| then tasks[t := tasks[t].(status := st)] else tasks
  }

  function SetPc(tasks: seq<Task>, t: nat, pc: Pc): (r: seq<Task>)
    ensures |r| == |tasks|
  {
    if t < |tasks| then tasks[t := tasks[t].(pc := pc)] else tasks
  }

  function IssueFor(s: Sys, a: Addr): Sys {
    if a !in s.frames then s.(fault := Dangling)
    else if s.frames[a].count >= 256 then s.(fault := BugOn)
    else s.(dev := Issue(s.dev, s.frames[a].lba, s.frames[a].count))
  }

  /** `ata_process_request`, the body of the disk interrupt. */
  function ProcessRequest(s: Sys): Sys {
    if s.head == NULL then s.(fault := BugOn)
    else if s.head !in s.frames then s.(fault := Dangling)
    else
      var f := s.frames[s.head];
      if f.buf == 0 || f.count == 0 then s.(fault := BugOn)
      else
        var s1 := ServeSector(s);
        if f.count != 1 then s1 else CompleteHead(s1, f)
  }

  /** One sector moves from the device into the buffer of the first request. */
  function ServeSector(s: Sys): Sys
    requires s.head in s.frames
  {
    var f := s.frames[s.head];
    s.(mem := StoreSector(s.mem, f.buf, DiskSector(s.disk, s.dev.cur)),
       dev := s.dev.(cur := s.dev.cur + 1, left := if s.dev.left == 0 then 0 else s.dev.left - 1),
       frames := s.frames[s.head := f.(buf := f.buf + SECTOR_WORDS, count := f.count - 1)])
  }

  /** The end of a request: wake its task, advance the queue and start the next request. */
  function CompleteHead(s: Sys, f: Frame): Sys {
    var s1 := s.(tasks := SetStatus(s.tasks, f.task, Running), head := f.next);
    if f.next == NULL then s1 else IssueFor(s1, f.next)
  }

  /** The last frame reached from `a`; a chain that leaves the live frames ends where it leaves them. */
  function TailFrom(frames: map<Addr, Frame>, a: Addr): Addr
    requires a in frames
    decreases |frames|
  {
    var rest := frames - {a};
    assert |rest.Keys| < |frames.Keys| by {
      assert a in frames.Keys && a !in rest.Keys && rest.Keys < frames.Keys;
      SubsetSize(rest.Keys, frames.Keys);
    }
    if frames[a].next in rest then TailFrom(rest, frames[a].next) else a
  }

  lemma SubsetSize<T>(a: set<T>, b: set<T>)
    requires a < b
    ensures |a| < |b|
  {
    var x :| x in b && x !in a;
    SubsetLe(a, b - {x});
  }

  lemma SubsetLe<T>(a: set<T>, b: set<T>)
    requires a <= b
    ensures |a| <= |b|
  {
    if a != {} {
      var x :| x in a;
      SubsetLe(a - {x}, b - {x});
    }
  }

  /** The block of `ata_read` that runs with interrupts off. */
  function EnqueueRequest(s: Sys, a: Addr): Sys
    requires a in s.frames
  {
    match s.current
    case None => s.(fault := BugOn)
    case Some(c) =>
      var s1 := s.(tasks := SetStatus(s.tasks, c, DiskRead));
      if s.head == NULL then IssueFor(s1.(head := a), a)
      else if s.head !in s.frames then s1.(fault := Dangling)
      else
        var last := TailFrom(s.frames, s.head);
        s1.(frames := if last in s.frames then s.frames[last := s.frames[last].(next := a)] else s.frames)
  }

  // ---------------------------------------------------------------- scheduler

  /** The loop of `scheduler_tick`. */
  function TickTask(t: Task): Task {
    if t.status != Waiting then t
    else if t.ticks - 1 == 0 then t.(ticks := 0, status := Running)
    else t.(ticks := t.ticks - 1)
  }

  function TickAll(tasks: seq<Task>): (r: seq<Task>)
    ensures |r| == |tasks|
    ensures forall i | 0 <= i < |tasks| :: r[i] == TickTask(tasks[i])
  {
    seq(|tasks|, i requires 0 <= i < |tasks| => TickTask(tasks[i]))
  }

  /** The timer interrupt: count down, then leave the interrupted task if there is a `current`. */
  function TimerTick(s: Sys): Sys {
    var s1 := s.(tasks := TickAll(s.tasks));
    match s.current
    case None => s1
    case Some(prev) =>
      if s.cpu.Selected? then s1.(current := None, cpu := Scheduler, fault := Clobbered)
      else
        var pc := if s.cpu.OnTask? && s.cpu.task < |s1.tasks| then s1.tasks[s.cpu.task].pc else User;
        s1.(tasks := SetPc(s1.tasks, prev, pc), current := None, cpu := Scheduler)
  }

  // ---------------------------------------------------------------- steps

  datatype Step =
    // by the task on the CPU
    | CallWait(n: int)
    | SetWaiting
    | CallRead(frame: Addr, buf: int, lba: int, n: int)
    | Enqueue
    | LoadOld
    | ClearCurrent
    | SwitchOut
    | Return
    | Scribble(a: int, v: Word)
    // interrupts
    | Tick
    | DiskIrq
    // by the scheduler loop
    | Skip
    | Dispatch
    | Enter
    | ScanEnd
    | LeaveHalt

  ghost predicate OnCpu(s: Sys, t: nat) {
    s.cpu == OnTask(t) && t < |s.tasks|
  }

  /** The control state allows the step. */
  ghost predicate Enabled(s: Sys, step: Step) {
    && s.fault == NoFault
    && match step
       case CallWait(_) => s.cpu.OnTask? && OnCpu(s, s.cpu.task) && s.tasks[s.cpu.task].pc == User
       case SetWaiting => s.cpu.OnTask? && OnCpu(s, s.cpu.task) && s.tasks[s.cpu.task].pc == WaitArmed
       case CallRead(a, _, _, _) =>
         s.cpu.OnTask? && OnCpu(s, s.cpu.task) && s.tasks[s.cpu.task].pc == User && a != NULL && a !in s.frames
       case Enqueue =>
         && s.cpu.OnTask? && OnCpu(s, s.cpu.task)
         && s.tasks[s.cpu.task].pc.ReadBuilt? && s.tasks[s.cpu.task].pc.frame in s.frames
       case LoadOld => s.cpu.OnTask? && OnCpu(s, s.cpu.task) && s.tasks[s.cpu.task].pc.Resched?
       case ClearCurrent => s.cpu.OnTask? && OnCpu(s, s.cpu.task) && s.tasks[s.cpu.task].pc.ReschedOld?
       case SwitchOut => s.cpu.OnTask? && OnCpu(s, s.cpu.task) && s.tasks[s.cpu.task].pc.ReschedOff?
       case Return => s.cpu.OnTask? && OnCpu(s, s.cpu.task) && s.tasks[s.cpu.task].pc.Back?
       case Scribble(_, _) => s.cpu.OnTask? && OnCpu(s, s.cpu.task)
       case Tick => true
       case DiskIrq => s.dev.left > 0
       case Skip => s.cpu == Scheduler && s.cursor < |s.tasks| && s.tasks[s.cursor].status != Running
       case Dispatch => s.cpu == Scheduler && s.cursor < |s.tasks| && s.tasks[s.cursor].status == Running
       case Enter => s.cpu.Selected?
       case ScanEnd => s.cpu == Scheduler && s.cursor >= |s.tasks|
       case LeaveHalt => s.cpu == Halted
  }

  ghost function Apply(s: Sys, step: Step): Sys
    requires Enabled(s, step)
  {
    match step
    case CallWait(n) =>
      if n <= 0 then s   // -EINVAL
      else if s.current.None? then s.(fault := Dangling)
      else var t := s.cpu.task;
           var c := s.current.value;
           var ts := if c < |s.tasks| then s.tasks[c := s.tasks[c].(ticks := n)] else s.tasks;
           s.(tasks := SetPc(ts, t, WaitArmed))
    case SetWaiting =>
      if s.current.None? then s.(fault := Dangling)
      else s.(tasks := SetPc(SetStatus(s.tasks, s.current.value, Waiting), s.cpu.task, Resched(FromWait)))
    case CallRead(a, buf, lba, n) =>
      if s.current.None? then s.(fault := BugOn)
      else s.(frames := s.frames[a := Frame(buf, lba, n, NULL, s.current.value, buf, n)],
              tasks := SetPc(s.tasks, s.cpu.task, ReadBuilt(a)))
    case Enqueue =>
      var t := s.cpu.task;
      var a := s.tasks[t].pc.frame;
      var s1 := EnqueueRequest(s, a);
      s1.(tasks := SetPc(s1.tasks, t, Resched(FromRead(a))))
    case LoadOld =>
      if s.current.None? then s.(fault := BugOn)
      else s.(tasks := SetPc(s.tasks, s.cpu.task, ReschedOld(s.tasks[s.cpu.task].pc.k, s.current.value)))
    case ClearCurrent =>
      var pc := s.tasks[s.cpu.task].pc;
      s.(current := None, tasks := SetPc(s.tasks, s.cpu.task, ReschedOff(pc.k, pc.prev)))
    case SwitchOut =>
      var pc := s.tasks[s.cpu.task].pc;
      s.(tasks := SetPc(s.tasks, pc.prev, Back(pc.k)), cpu := Scheduler)
    case Return =>
      var k := s.tasks[s.cpu.task].pc.k;
      var s1 := s.(tasks := SetPc(s.tasks, s.cpu.task, User));
      if k.FromRead? then s1.(frames := s.frames - {k.frame}) else s1
    case Scribble(a, v) => s.(mem := s.mem[a := v])
    case Tick => TimerTick(s)
    case DiskIrq => ProcessRequest(s)
    case Skip => s.(cursor := s.cursor + 1)
    case Dispatch => s.(current := Some(s.cursor), cpu := Selected(s.cursor), cursor := s.cursor + 1, found := true)
    case Enter => s.(cpu := OnTask(s.cpu.task))
    case ScanEnd => s.(cursor := 0, found := false, cpu := if s.found then Scheduler else Halted)
    case LeaveHalt => s.(cpu := Scheduler)
  }

  // ---------------------------------------------------------------- callers

  ghost predicate Outside(f: Frame, lo: int, hi: int) {
    hi <= f.buf0 || f.buf0 + SECTOR_WORDS * f.n <= lo
  }

  /**
   What the driver demands of its callers: 1 to 255 existing sectors below the
   28-bit limit, a non-null buffer disjoint from the buffers of reads in
   progress, and no other write into such a buffer.
   */
  ghost predicate Polite(s: Sys, step: Step) {
    match step
    case CallRead(_, buf, lba, n) =>
      && 1 <= n <= 255 && 0 <= lba && lba + n <= |s.disk| && lba + n <= LBA_LIMIT && buf > 0
      && forall b | b in s.frames :: Outside(s.frames[b], buf, buf + SECTOR_WORDS * n)
    case Scribble(a, _) => forall b | b in s.frames :: Outside(s.frames[b], a, a + 1)
    case _ => true
  }

  /** A tick between `current = task` and the switch: `reschedule` would save the scheduler into the task's context. */
  predicate TickInDispatch(s: Sys, step: Step) {
    step == Tick && s.cpu.Selected?
  }

  ghost predicate Allowed(s: Sys, step: Step) {
    Enabled(s, step) && Polite(s, step) && !TickInDispatch(s, step)
  }

  ghost predicate Init(s: Sys) {
    && s.current == None && s.cpu == Scheduler && s.cursor == 0 && !s.found
    && s.frames == map[] && s.head == NULL && s.dev.left == 0 && s.fault == NoFault
    && forall t | 0 <= t < |s.tasks| :: s.tasks[t].pc == User && s.tasks[t].status in {NotAllocated, Running}
  }

  /** A finite run: `trace[i + 1]` follows from `trace[i]` by `steps[i]`. */
  ghost predicate IsRun(trace: seq<Sys>, steps: seq<Step>) {
    && |trace| == |steps| + 1
    && forall i | 0 <= i < |steps| :: Follows(trace, steps, i)
  }

  ghost predicate Follows(trace: seq<Sys>, steps: seq<Step>, i: nat)
    requires i < |steps| < |trace|
  {
    Allowed(trace[i], steps[i]) && trace[i + 1] == Apply(trace[i], steps[i])
  }

  /** The run keeps interrupts off while the scheduler loop is scanning. */
  ghost predicate Masked(trace: seq<Sys>, steps: seq<Step>)
    requires IsRun(trace, steps)
  {
    forall i | 0 <= i < |steps| && steps[i] in {Tick, DiskIrq} :: trace[i].cpu != Scheduler
  }
}
