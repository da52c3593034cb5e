/**
 The in-place code of the disk driver and the timer, proved against the steps of
 the transition system.
 */
module KernelDriver {
  import opened Common
  import opened Kernel
  import opened KernelInvariant
  import opened KernelSteps

  class Driver {
    var tasks: array<Task>
    var current: Option<nat>
    var cpu: Cpu
    var cursor: nat
    var found: bool
    var frames: map<Addr, Frame>
    var head: Addr
    var dev: Device
    var mem: map<int, Word>
    const disk: seq<Sector>
    var fault: Fault

    ghost function View(): Sys
      reads this, tasks
    {
      Sys(tasks[..], current, cpu, cursor, found, frames, head, dev, mem, disk, fault)
    }

    constructor (n: nat, disk: seq<Sector>)
      ensures fresh(tasks) && Init(View()) && View().disk == disk && tasks.Length == n
    {
      tasks := new Task[n](_ => Task(NotAllocated, 0, User));
      current, cpu, cursor, found := None, Scheduler, 0, false;
      frames, head, mem := map[], NULL, map[];
      dev := Device(0, 0, 0, 0, 0, 0, 0);
      this.disk := disk;
      fault := NoFault;
    }

    /** `ata_issue_read_sectors` */
    method IssueReadSectors(a: Addr)
      requires a in frames
      modifies this`dev, this`fault
      ensures View() == IssueFor(old(View()), a)
      ensures frames[a].count >= 256 ==> fault == BugOn && dev == old(dev)
      ensures 1 <= frames[a].count < 256 && 0 <= frames[a].lba < LBA_LIMIT ==>
                fault == old(fault) && dev.cur == frames[a].lba && dev.left == frames[a].count
    {
      IssueDecodes(dev, frames[a].lba, frames[a].count);
      if frames[a].count >= 256 {
        fault := BugOn;
        return;
      }
      var lba := frames[a].lba;
      dev := dev.(drive := 0xa0 + 0x40 + lba / 0x100_0000 % 16);
      dev := dev.(seccount := frames[a].count % 256);
      dev := dev.(lo := lba % 256);
      dev := dev.(mid := lba / 0x100 % 256);
      dev := dev.(hi := lba / 0x1_0000 % 256);
      dev := Start(dev);
    }

    method SetTaskStatus(t: nat, st: Status)
      modifies tasks
      ensures tasks[..] == SetStatus(old(tasks[..]), t, st)
    {
      if t < tasks.Length { tasks[t] := tasks[t].(status := st); }
    }

    /** The 256 reads of the data port for one sector. */
    method ReadDataPort(buf: int)
      modifies this`mem
      ensures mem == StoreSector(old(mem), buf, DiskSector(disk, dev.cur))
    {
      var data := DiskSector(disk, dev.cur);
      for i := 0 to SECTOR_WORDS
        invariant mem == old(mem) + map a | buf <= a < buf + i :: WordFor(data, buf, a)
      {
        mem := mem[buf + i := data[i]];
        assert WordFor(data, buf, buf + i) == data[i];
      }
    }

    /** One sector moves into the buffer of the first request; the device goes on to the next. */
    method TransferSector()
      requires head in frames
      modifies this`mem, this`dev, this`frames
      ensures View() == ServeSector(old(View()))
    {
      var req := frames[head];
      ReadDataPort(req.buf);
      dev := dev.(cur := dev.cur + 1, left := if dev.left == 0 then 0 else dev.left - 1);
      frames := frames[head := req.(buf := req.buf + SECTOR_WORDS, count := req.count - 1)];
    }

    /** `ata_process_request` */
    method ProcessDiskInterrupt()
      modifies this, tasks
      ensures tasks == old(tasks)
      ensures View() == ProcessRequest(old(View()))
    {
      if head == NULL {
        fault := BugOn;
        return;
      }
      if head !in frames {
        fault := Dangling;
        return;
      }
      var req := frames[head];
      if req.buf == 0 || req.count == 0 {
        fault := BugOn;
        return;
      }
      TransferSector();
      if req.count - 1 == 0 {
        FinishHead(req);
      }
    }

    method FinishHead(req: Frame)
      modifies this, tasks
      ensures tasks == old(tasks)
      ensures View() == CompleteHead(old(View()), req)
    {
      SetTaskStatus(req.task, Running);
      head := req.next;
      if head != NULL {
        if head !in frames { fault := Dangling; } else { IssueReadSectors(head); }
      }
    }

    /** The block of `ata_read` between DISABLE_IRQ_BEGIN and DISABLE_IRQ_END, with its walk to the tail. */
    method QueueRequest(a: Addr, ghost q: seq<Addr>)
      requires a in frames && NULL !in frames && Chain(frames, head, q)
      modifies this, tasks
      ensures tasks == old(tasks)
      ensures View() == EnqueueRequest(old(View()), a)
    {
      if current.None? {
        fault := BugOn;
        return;
      }
      SetTaskStatus(current.value, DiskRead);
      if head == NULL {
        head := a;
        IssueReadSectors(a);
      } else {
        var ptr := head;
        ghost var i := 0;
        while frames[ptr].next != NULL
          invariant 0 <= i < |q| && ptr == q[i]
          invariant frames == old(frames) && head == old(head)
          decreases |q| - i
        {
          ptr := frames[ptr].next;
          i := i + 1;
        }
        TailIsLast(frames, frames, q, 0);
        frames := frames[ptr := frames[ptr].(next := a)];
      }
    }

    /** `scheduler_tick`, with the `reschedule` it ends in when a task was interrupted. */
    method TickInterrupt()
      modifies this, tasks
      ensures tasks == old(tasks)
      ensures View() == TimerTick(old(View()))
    {
      var i := 0;
      while i < tasks.Length
        invariant 0 <= i <= tasks.Length && tasks == old(tasks)
        invariant View() == old(View()).(tasks := tasks[..])
        invariant forall k | 0 <= k < i :: tasks[k] == TickTask(old(tasks[k]))
        invariant forall k | i <= k < tasks.Length :: tasks[k] == old(tasks[k])
      {
        if tasks[i].status == Waiting {
          tasks[i] := tasks[i].(ticks := tasks[i].ticks - 1);
          if tasks[i].ticks == 0 {
            tasks[i] := tasks[i].(status := Running);
          }
        }
        i := i + 1;
      }
      assert tasks[..] == TickAll(old(tasks[..]));
      if current.Some? {
        var prev := current.value;
        current := None;
        if cpu.Selected? {
          fault := Clobbered;
        } else if prev < tasks.Length {
          var pc := if cpu.OnTask? && cpu.task < tasks.Length then tasks[cpu.task].pc else User;
          tasks[prev] := tasks[prev].(pc := pc);
        }
        cpu := Scheduler;
      }
    }

    // -------------------------------------------------------------- syscall code

    method SetTaskPc(t: nat, pc: Pc)
      modifies tasks
      ensures tasks[..] == SetPc(old(tasks[..]), t, pc)
    {
      if t < tasks.Length { tasks[t] := tasks[t].(pc := pc); }
    }

    /** `syscall_wait` up to the store into `ticks_remaining` */
    method ArmWait(n: int)
      requires Enabled(View(), CallWait(n))
      modifies this, tasks
      ensures tasks == old(tasks) && View() == Apply(old(View()), CallWait(n))
    {
      if n <= 0 { return; }
      if current.None? { fault := Dangling; return; }
      if current.value < tasks.Length { tasks[current.value] := tasks[current.value].(ticks := n); }
      SetTaskPc(cpu.task, WaitArmed);
    }

    /** The store of TASK_WAITING */
    method FallAsleep()
      requires Enabled(View(), SetWaiting)
      modifies this, tasks
      ensures tasks == old(tasks) && View() == Apply(old(View()), SetWaiting)
    {
      if current.None? { fault := Dangling; return; }
      SetTaskStatus(current.value, Waiting);
      SetTaskPc(cpu.task, Resched(FromWait));
    }

    /** `ata_read` up to the request on its stack */
    method BuildRequest(a: Addr, buf: int, lba: int, n: int)
      requires Enabled(View(), CallRead(a, buf, lba, n))
      modifies this, tasks
      ensures tasks == old(tasks) && View() == Apply(old(View()), CallRead(a, buf, lba, n))
    {
      if current.None? { fault := BugOn; return; }
      frames := frames[a := Frame(buf, lba, n, NULL, current.value, buf, n)];
      SetTaskPc(cpu.task, ReadBuilt(a));
    }

    /** The rest of `ata_read` before `reschedule` */
    method SubmitRequest(ghost q: seq<Addr>)
      requires Enabled(View(), Enqueue) && NULL !in frames && Chain(frames, head, q)
      modifies this, tasks
      ensures tasks == old(tasks) && View() == Apply(old(View()), Enqueue)
    {
      var t := cpu.task;
      var a := tasks[t].pc.frame;
      QueueRequest(a, q);
      SetTaskPc(t, Resched(FromRead(a)));
    }

    /** The three instructions of `reschedule` that other code can come between */
    method RescheduleStep(step: Step)
      requires step in {LoadOld, ClearCurrent, SwitchOut} && Enabled(View(), step)
      modifies this, tasks
      ensures tasks == old(tasks) && View() == Apply(old(View()), step)
    {
      var pc := tasks[cpu.task].pc;
      if step == LoadOld {
        if current.None? { fault := BugOn; return; }
        SetTaskPc(cpu.task, ReschedOld(pc.k, current.value));
      } else if step == ClearCurrent {
        current := None;
        SetTaskPc(cpu.task, ReschedOff(pc.k, pc.prev));
      } else {
        SetTaskPc(pc.prev, Back(pc.k));
        cpu := Scheduler;
      }
    }

    /** The call ends and its stack frame is gone */
    method ReturnFromCall()
      requires Enabled(View(), Return)
      modifies this, tasks
      ensures tasks == old(tasks) && View() == Apply(old(View()), Return)
    {
      var k := tasks[cpu.task].pc.k;
      SetTaskPc(cpu.task, User);
      if k.FromRead? { frames := frames - {k.frame}; }
    }

    // -------------------------------------------------------------- scheduler

    /** One step of the loop of `scheduler_start` */
    method SchedulerStep(step: Step)
      requires step in {Skip, Dispatch, Enter, ScanEnd, LeaveHalt} && Enabled(View(), step)
      modifies this
      ensures tasks == old(tasks) && View() == Apply(old(View()), step)
    {
      if step == Skip { cursor := cursor + 1; }
      else if step == Dispatch {
        current, cpu := Some(cursor), Selected(cursor);
        cursor, found := cursor + 1, true;
      } else if step == Enter {
        cpu := OnTask(cpu.task);
      } else if step == ScanEnd {
        cpu := if found then Scheduler else Halted;
        cursor, found := 0, false;
      } else { cpu := Scheduler; }
    }

    /** Any step of the system, by the code above; it keeps the invariant of the protocol. */
    method Execute(step: Step, ghost q: seq<Addr>)
      requires Allowed(View(), step) && Inv(View(), q)
      modifies this, tasks
      ensures tasks == old(tasks) && View() == Apply(old(View()), step)
      ensures Inv(View(), NextQueue(old(View()), q, step))
    {
      StepKeeps(View(), q, step);
      match step
      case CallWait(n) => ArmWait(n);
      case SetWaiting => FallAsleep();
      case CallRead(a, buf, lba, n) => BuildRequest(a, buf, lba, n);
      case Enqueue => SubmitRequest(q);
      case LoadOld => RescheduleStep(step);
      case ClearCurrent => RescheduleStep(step);
      case SwitchOut => RescheduleStep(step);
      case Return => ReturnFromCall();
      case Scribble(a, v) => mem := mem[a := v];
      case Tick => TickInterrupt();
      case DiskIrq => ProcessDiskInterrupt();
      case Skip => SchedulerStep(step);
      case Dispatch => SchedulerStep(step);
      case Enter => SchedulerStep(step);
      case ScanEnd => SchedulerStep(step);
      case LeaveHalt => SchedulerStep(step);
    }

    /** The scan of `scheduler_start` up to the next runnable slot or the end of the table: a run of `Skip` steps. */
    method AdvanceScan()
      requires cpu == Scheduler && cursor <= tasks.Length && fault == NoFault
      modifies this`cursor
      ensures old(cursor) <= cursor <= tasks.Length && !Enabled(View(), Skip)
      ensures Skips(old(View()), View(), cursor - old(cursor))
    {
      ghost var s := View();
      while cursor < tasks.Length && tasks[cursor].status != Running
        invariant old(cursor) <= cursor <= tasks.Length
        invariant Skips(s, View(), cursor - old(cursor))
      {
        cursor := cursor + 1;
      }
    }
  }

  /** `s'` follows from `s` by `k` steps of the scan over slots that cannot run. */
  ghost predicate Skips(s: Sys, s': Sys, k: nat)
    decreases k
  {
    if k == 0 then s' == s
    else
      s'.cursor > 0 &&
      var p := s'.(cursor := s'.cursor - 1);
      Skips(s, p, k - 1) && Enabled(p, Skip) && Apply(p, Skip) == s'
  }
}
