/**
 Each step keeps the invariant.
 */
module KernelSteps {
  import opened Kernel
  import opened KernelInvariant

  /** No task enters or leaves an `ata_read` call or a disk sleep. */
  ghost predicate SameReads(s: Sys, s': Sys) {
    && |s'.tasks| == |s.tasks|
    && (s'.frames, s'.head, s'.dev, s'.mem, s'.disk) == (s.frames, s.head, s.dev, s.mem, s.disk)
    && forall t | 0 <= t < |s.tasks| :: SameRead(s.tasks[t], s'.tasks[t])
  }

  ghost predicate SameRead(a: Task, b: Task) {
    && FrameOf(b.pc) == FrameOf(a.pc) && b.pc.ReadBuilt? == a.pc.ReadBuilt?
    && (b.status == DiskRead <==> a.status == DiskRead)
  }

  lemma ReadsKept(s: Sys, s': Sys, q: seq<Addr>)
    requires Inv(s, q) && SameReads(s, s')
    requires s'.fault == NoFault && s'.cursor <= |s'.tasks| && CpuOk(s')
    requires TasksOk(s')
    ensures Inv(s', q)
  {
    forall a | a in s'.frames ensures FrameOk(s', a) && QueueOk(s', q, a) {
      assert FrameOk(s, a) && QueueOk(s, q, a);
      assert SameRead(s.tasks[s.frames[a].task], s'.tasks[s.frames[a].task]);
    }
    forall a, b | a in s'.frames && b in s'.frames && a != b ensures Disjoint(s', a, b) {
      assert Disjoint(s, a, b);
    }
  }

  predicate IsControl(step: Step) {
    step.CallWait? || step in {SetWaiting, LoadOld, ClearCurrent, SwitchOut, Skip, Dispatch, Enter, ScanEnd, LeaveHalt}
  }

  predicate IsLoop(step: Step) {
    step in {Skip, Dispatch, Enter, ScanEnd, LeaveHalt}
  }

  lemma ControlTask(s: Sys, step: Step, t: nat)
    requires CpuOk(s) && Enabled(s, step) && IsControl(step) && t < |s.tasks| && TaskOk(s, t)
    requires Busy(s.cpu) ==> TaskOk(s, s.cpu.task)
    ensures |Apply(s, step).tasks| == |s.tasks|
    ensures TaskOk(Apply(s, step), t) && SameRead(s.tasks[t], Apply(s, step).tasks[t])
  {
    if IsLoop(step) { LoopTask(s, step, t); } else { SyscallTask(s, step, t); }
  }

  lemma LoopTask(s: Sys, step: Step, t: nat)
    requires CpuOk(s) && Enabled(s, step) && IsLoop(step) && t < |s.tasks| && TaskOk(s, t)
    ensures Apply(s, step).tasks == s.tasks && TaskOk(Apply(s, step), t)
  {
  }

  lemma SyscallTask(s: Sys, step: Step, t: nat)
    requires CpuOk(s) && Enabled(s, step) && IsControl(step) && !IsLoop(step)
    requires t < |s.tasks| && TaskOk(s, t) && TaskOk(s, s.cpu.task)
    ensures |Apply(s, step).tasks| == |s.tasks|
    ensures TaskOk(Apply(s, step), t) && SameRead(s.tasks[t], Apply(s, step).tasks[t])
  {
    if step.CallWait? || step == SetWaiting { WaitTask(s, step, t); } else { ReschedTask(s, step, t); }
  }

  lemma WaitTask(s: Sys, step: Step, t: nat)
    requires CpuOk(s) && Enabled(s, step) && (step.CallWait? || step == SetWaiting)
    requires t < |s.tasks| && TaskOk(s, t) && TaskOk(s, s.cpu.task)
    ensures |Apply(s, step).tasks| == |s.tasks|
    ensures TaskOk(Apply(s, step), t) && SameRead(s.tasks[t], Apply(s, step).tasks[t])
  {
  }

  lemma ReschedTask(s: Sys, step: Step, t: nat)
    requires CpuOk(s) && Enabled(s, step) && step in {LoadOld, ClearCurrent, SwitchOut}
    requires t < |s.tasks| && TaskOk(s, t) && TaskOk(s, s.cpu.task)
    ensures |Apply(s, step).tasks| == |s.tasks|
    ensures TaskOk(Apply(s, step), t) && SameRead(s.tasks[t], Apply(s, step).tasks[t])
  {
  }

  lemma ControlCpu(s: Sys, step: Step)
    requires CpuOk(s) && Enabled(s, step) && IsControl(step) && s.cursor <= |s.tasks|
    requires Busy(s.cpu) ==> TaskOk(s, s.cpu.task)
    requires step == Dispatch ==> TaskOk(s, s.cursor)
    ensures var s' := Apply(s, step);
            && CpuOk(s') && s'.fault == NoFault && s'.cursor <= |s'.tasks| && |s'.tasks| == |s.tasks|
            && (s'.frames, s'.head, s'.dev, s'.mem, s'.disk) == (s.frames, s.head, s.dev, s.mem, s.disk)
  {
  }

  /** Steps that only move control: the sleep call, `reschedule`, the scheduler loop. */
  lemma ControlKeeps(s: Sys, q: seq<Addr>, step: Step)
    requires Inv(s, q) && Enabled(s, step) && IsControl(step)
    ensures Inv(Apply(s, step), q)
  {
    var s' := Apply(s, step);
    if Busy(s.cpu) { assert TaskOk(s, s.cpu.task); }
    if step == Dispatch { assert TaskOk(s, s.cursor); }
    ControlCpu(s, step);
    forall t | 0 <= t < |s.tasks| ensures TaskOk(s', t) && SameRead(s.tasks[t], s'.tasks[t]) {
      assert TaskOk(s, t);
      ControlTask(s, step, t);
    }
    ReadsKept(s, s', q);
  }

  lemma TickTaskKeeps(s: Sys, t: nat)
    requires CpuOk(s) && Enabled(s, Tick) && !s.cpu.Selected? && t < |s.tasks| && TaskOk(s, t)
    ensures var s' := TimerTick(s);
            && |s'.tasks| == |s.tasks| && TaskOk(s', t) && SameRead(s.tasks[t], s'.tasks[t]) && CpuOk(s')
            && s' == s.(tasks := s'.tasks, current := s'.current, cpu := s'.cpu)
  {
  }

  lemma TickKeeps(s: Sys, q: seq<Addr>)
    requires Inv(s, q) && !s.cpu.Selected?
    ensures Inv(TimerTick(s), q)
  {
    var s' := TimerTick(s);
    forall t | 0 <= t < |s.tasks| ensures TaskOk(s', t) && SameRead(s.tasks[t], s'.tasks[t]) {
      assert TaskOk(s, t);
      TickTaskKeeps(s, t);
    }
    if |s.tasks| > 0 { assert TaskOk(s, 0); TickTaskKeeps(s, 0); }
    ReadsKept(s, s', q);
  }

  // ---------------------------------------------------------------- calls and returns

  lemma ApartKept(s: Sys, s': Sys)
    requires Apart(s) && s'.frames.Keys <= s.frames.Keys
    requires forall a | a in s'.frames :: s'.frames[a].buf0 == s.frames[a].buf0 && s'.frames[a].n == s.frames[a].n
    ensures Apart(s')
  {
    forall a, b | a in s'.frames && b in s'.frames && a != b ensures Disjoint(s', a, b) {
      assert Disjoint(s, a, b);
    }
  }

  lemma CallReadTask(s: Sys, step: Step, t: nat)
    requires CpuOk(s) && Enabled(s, step) && step.CallRead? && t < |s.tasks| && TaskOk(s, t) && TaskOk(s, s.cpu.task)
    ensures var s' := Apply(s, step);
            && |s'.tasks| == |s.tasks| && TaskOk(s', t) && CpuOk(s')
            && s'.frames == s.frames[step.frame :=
                              Frame(step.buf, step.lba, step.n, NULL, s.cpu.task, step.buf, step.n)]
            && s' == s.(frames := s'.frames, tasks := SetPc(s.tasks, s.cpu.task, ReadBuilt(step.frame)))
  {
  }

  lemma CallReadFrame(s: Sys, s': Sys, q: seq<Addr>, me: nat, a: Addr, f: Frame, b: Addr)
    requires me < |s.tasks| && s.tasks[me].pc == User && s.tasks[me].status == Running
    requires a != NULL && a !in q && f.task == me && f.count == f.n && f.next == NULL && f.buf == f.buf0
    requires 1 <= f.n <= 255 && 0 <= f.lba && f.lba + f.n <= LBA_LIMIT && f.buf0 > 0
    requires s' == s.(frames := s.frames[a := f], tasks := SetPc(s.tasks, me, ReadBuilt(a)))
    requires b != a ==> b != NULL && b in s.frames && FrameOk(s, b) && QueueOk(s, q, b)
    ensures FrameOk(s', b) && QueueOk(s', q, b)
  {
  }

  lemma CallReadKeeps(s: Sys, q: seq<Addr>, step: Step)
    requires Inv(s, q) && Allowed(s, step) && step.CallRead?
    ensures Inv(Apply(s, step), q)
  {
    var s', a, me := Apply(s, step), step.frame, s.cpu.task;
    assert TaskOk(s, me);
    forall t | 0 <= t < |s.tasks| ensures TaskOk(s', t) {
      assert TaskOk(s, t);
      CallReadTask(s, step, t);
    }
    CallReadTask(s, step, me);
    forall b | b in s'.frames ensures FrameOk(s', b) && QueueOk(s', q, b) {
      if b != a { assert FrameOk(s, b); }
      CallReadFrame(s, s', q, me, a, s'.frames[a], b);
    }
    forall b, c | b in s'.frames && c in s'.frames && b != c ensures Disjoint(s', b, c) {
      if b != a && c != a { assert Disjoint(s, b, c); }
    }
  }

  lemma ReturnTask(s: Sys, t: nat)
    requires CpuOk(s) && Enabled(s, Return) && t < |s.tasks| && TaskOk(s, t) && TaskOk(s, s.cpu.task)
    ensures var s' := Apply(s, Return);
            |s'.tasks| == |s.tasks| && TaskOk(s', t) && CpuOk(s')
  {
  }

  lemma ReturnFrame(s: Sys, q: seq<Addr>, b: Addr)
    requires CpuOk(s) && Enabled(s, Return) && TaskOk(s, s.cpu.task)
    requires b in s.frames && b != FrameOf(s.tasks[s.cpu.task].pc) && FrameOk(s, b) && QueueOk(s, q, b)
    ensures var s' := Apply(s, Return);
            b in s'.frames && FrameOk(s', b) && QueueOk(s', q, b)
  {
  }

  /** A returning `ata_read` takes its frame away; nothing in the queue points to it. */
  lemma ReturnKeeps(s: Sys, q: seq<Addr>)
    requires Inv(s, q) && Enabled(s, Return)
    ensures Inv(Apply(s, Return), q)
  {
    var s', me := Apply(s, Return), s.cpu.task;
    var a := FrameOf(s.tasks[me].pc);
    assert TaskOk(s, me);
    assert a !in q by { if a != NULL { assert FrameOk(s, a); } }
    forall t | 0 <= t < |s'.tasks| ensures TaskOk(s', t) {
      assert TaskOk(s, t);
      ReturnTask(s, t);
    }
    ReturnTask(s, me);
    forall b | b in s'.frames ensures FrameOk(s', b) && QueueOk(s', q, b) {
      assert FrameOk(s, b);
      ReturnFrame(s, q, b);
    }
    ApartKept(s, s');
  }

  lemma ScribbleFrame(s: Sys, q: seq<Addr>, b: Addr, a: int, v: Word)
    requires b in s.frames && FrameOk(s, b) && QueueOk(s, q, b) && Outside(s.frames[b], a, a + 1)
    ensures var s' := s.(mem := s.mem[a := v]);
            FrameOk(s', b) && QueueOk(s', q, b)
  {
    var f, mem' := s.frames[b], s.mem[a := v];
    forall i | 0 <= i < f.n - f.count ensures SectorLoaded(mem', s.disk, f.buf0, f.lba, i) {
      assert SectorLoaded(s.mem, s.disk, f.buf0, f.lba, i);
      var base, data := f.buf0 + SECTOR_WORDS * i, DiskSector(s.disk, f.lba + i);
      forall j | 0 <= j < SECTOR_WORDS ensures HasWord(mem', base, data, j) {
        assert HasWord(s.mem, base, data, j);
      }
    }
  }

  lemma ScribbleKeeps(s: Sys, q: seq<Addr>, step: Step)
    requires Inv(s, q) && Allowed(s, step) && step.Scribble?
    ensures Inv(Apply(s, step), q)
  {
    var s' := Apply(s, step);
    forall t | 0 <= t < |s'.tasks| ensures TaskOk(s', t) {
      assert TaskOk(s, t);
    }
    forall b | b in s'.frames ensures FrameOk(s', b) && QueueOk(s', q, b) {
      assert FrameOk(s, b);
      ScribbleFrame(s, q, b, step.a, step.v);
    }
    ApartKept(s, s');
  }

  // ---------------------------------------------------------------- enqueue

  /** What the block of `ata_read` changes when no check fails. */
  ghost function Enqueued(s: Sys, q: seq<Addr>, a: Addr): Sys
    requires s.cpu.OnTask? && (q != [] ==> q[|q| - 1] in s.frames)
  {
    var me := s.cpu.task;
    var s1 := s.(tasks := SetPc(SetStatus(s.tasks, me, DiskRead), me, Resched(FromRead(a))));
    if q == [] then s1.(head := a)
    else s1.(frames := s.frames[q[|q| - 1] := s.frames[q[|q| - 1]].(next := a)])
  }

  lemma EnqueueDevice(s: Sys, q: seq<Addr>, a: Addr)
    requires Enabled(s, Enqueue) && CpuOk(s) && a == s.tasks[s.cpu.task].pc.frame && FrameOk(s, a)
    requires s.frames[a].task == s.cpu.task
    requires Chain(s.frames, s.head, q) && NULL !in s.frames && DeviceOk(s, q)
    ensures Apply(s, Enqueue) == Enqueued(s, q, a).(dev := Apply(s, Enqueue).dev)
    ensures DeviceOk(Apply(s, Enqueue), q + [a])
  {
    if q == [] {
      IssueDecodes(s.dev, s.frames[a].lba, s.frames[a].count);
    } else {
      TailIsLast(s.frames, s.frames, q, 0);
    }
  }

  lemma EnqueuedTask(s: Sys, q: seq<Addr>, a: Addr, t: nat)
    requires CpuOk(s) && s.cpu.OnTask? && s.tasks[s.cpu.task].pc == ReadBuilt(a) && a != NULL
    requires t < |s.tasks| && TaskOk(s, t) && TaskOk(s, s.cpu.task)
    requires q != [] ==> q[|q| - 1] in s.frames
    ensures var s' := Enqueued(s, q, a);
            |s'.tasks| == |s.tasks| && TaskOk(s', t) && CpuOk(s')
  {
  }

  lemma EnqueuedFrame(s: Sys, q: seq<Addr>, a: Addr, b: Addr)
    requires s.cpu.OnTask? && s.cpu.task < |s.tasks| && s.tasks[s.cpu.task].pc == ReadBuilt(a)
    requires a in s.frames && s.frames[a].task == s.cpu.task && FrameOk(s, a)
    requires q != [] ==> q[|q| - 1] in s.frames && q[|q| - 1] != a
    requires b in s.frames && FrameOk(s, b) && QueueOk(s, q, b) && TaskOk(s, s.frames[b].task)
    ensures var s' := Enqueued(s, q, a);
            b in s'.frames && FrameOk(s', b) && QueueOk(s', q + [a], b)
  {
    assert b in q + [a] <==> b in q || b == a;
  }

  lemma EnqueueChain(frames: map<Addr, Frame>, frames': map<Addr, Frame>, head: Addr, q: seq<Addr>, a: Addr)
    requires Chain(frames, head, q) && a in frames && a !in q && a != NULL && frames[a].next == NULL
    requires frames' == if q == [] then frames else frames[q[|q| - 1] := frames[q[|q| - 1]].(next := a)]
    ensures Chain(frames', if q == [] then a else head, q + [a])
  {
  }

  /** A request joins at the tail; on an empty queue the device starts on it. */
  lemma EnqueueKeeps(s: Sys, q: seq<Addr>, a: Addr)
    requires Inv(s, q) && Enabled(s, Enqueue) && a == s.tasks[s.cpu.task].pc.frame
    ensures Inv(Apply(s, Enqueue), q + [a])
  {
    var s', me := Apply(s, Enqueue), s.cpu.task;
    assert TaskOk(s, me);
    assert FrameOk(s, a);
    EnqueueDevice(s, q, a);
    EnqueueChain(s.frames, s'.frames, s.head, q, a);
    forall t | 0 <= t < |s.tasks| ensures TaskOk(s', t) {
      assert TaskOk(s, t);
      EnqueuedTask(s, q, a, t);
    }
    EnqueuedTask(s, q, a, me);
    EnqueuedFrames(s, q, a);
    DeviceIrrelevant(Enqueued(s, q, a), s', q + [a]);
    ApartKept(s, s');
  }

  lemma EnqueuedFrames(s: Sys, q: seq<Addr>, a: Addr)
    requires s.cpu.OnTask? && s.cpu.task < |s.tasks| && s.tasks[s.cpu.task].pc == ReadBuilt(a)
    requires TasksOk(s) && FramesOk(s, q) && Chain(s.frames, s.head, q) && a in s.frames && a !in q
    ensures FramesOk(Enqueued(s, q, a), q + [a])
  {
    var w := Enqueued(s, q, a);
    assert TaskOk(s, s.cpu.task) && FrameOk(s, a);
    forall b | b in w.frames ensures FrameOk(w, b) && QueueOk(w, q + [a], b) {
      assert FrameOk(s, b) && TaskOk(s, s.frames[b].task);
      EnqueuedFrame(s, q, a, b);
    }
  }

  lemma DeviceIrrelevant(w: Sys, s': Sys, q: seq<Addr>)
    requires s' == w.(dev := s'.dev) && FramesOk(w, q)
    ensures FramesOk(s', q)
  {
    forall b | b in s'.frames ensures FrameOk(s', b) && QueueOk(s', q, b) {
      assert FrameOk(w, b);
    }
  }

  lemma EnqueueShape(s: Sys, q: seq<Addr>, a: Addr)
    requires Inv(s, q) && Enabled(s, Enqueue) && a == s.tasks[s.cpu.task].pc.frame
    ensures a in s.frames && s.frames[a].task == s.cpu.task && s.frames[a].count == s.frames[a].n && a !in q
    ensures Apply(s, Enqueue) == Enqueued(s, q, a).(dev := Apply(s, Enqueue).dev)
  {
    assert TaskOk(s, s.cpu.task);
    assert FrameOk(s, a);
    EnqueueDevice(s, q, a);
  }

  // ---------------------------------------------------------------- disk interrupt

  /** What `ata_process_request` changes when no check fails. */
  ghost function Served(s: Sys): Sys
    requires s.head in s.frames
  {
    var f := s.frames[s.head];
    s.(mem := StoreSector(s.mem, f.buf, DiskSector(s.disk, s.dev.cur)),
       frames := s.frames[s.head := f.(buf := f.buf + SECTOR_WORDS, count := f.count - 1)],
       tasks := if f.count == 1 then SetStatus(s.tasks, f.task, Running) else s.tasks,
       head := if f.count == 1 then f.next else s.head)
  }

  function ServedQueue(s: Sys, q: seq<Addr>): seq<Addr>
    requires q != [] && q[0] in s.frames
  {
    if s.frames[q[0]].count == 1 then q[1..] else q
  }

  lemma DiskIrqDevice(s: Sys, q: seq<Addr>)
    requires q != [] && Chain(s.frames, s.head, q) && DeviceOk(s, q)
    requires FrameOk(s, q[0]) && s.frames[q[0]].count > 0
    requires |q| > 1 ==> FrameOk(s, q[1]) && s.frames[q[1]].count == s.frames[q[1]].n
    ensures ProcessRequest(s) == Served(s).(dev := ProcessRequest(s).dev)
    ensures DeviceOk(ProcessRequest(s), ServedQueue(s, q))
  {
    var f := s.frames[s.head];
    if f.count == 1 && |q| > 1 {
      IssueDecodes(s.dev.(cur := s.dev.cur + 1, left := s.dev.left - 1), s.frames[q[1]].lba, s.frames[q[1]].count);
    }
  }

  lemma ServedChain(s: Sys, q: seq<Addr>)
    requires q != [] && Chain(s.frames, s.head, q)
    ensures Chain(Served(s).frames, Served(s).head, ServedQueue(s, q))
  {
  }

  lemma ServedHead(s: Sys, q: seq<Addr>)
    requires q != [] && s.head == q[0] && q[0] in s.frames && DeviceOk(s, q)
    requires FrameOk(s, q[0]) && s.frames[q[0]].count > 0
    requires Queueable(s.tasks[s.frames[q[0]].task].pc)
    ensures FrameOk(Served(s), q[0])
  {
    ServedData(s.mem, s.disk, s.frames[q[0]], s.dev.cur);
  }

  /** The sector at the device's position is the one the request needs next. */
  lemma ServedData(mem: map<int, Word>, disk: seq<Sector>, f: Frame, cur: int)
    requires f.count <= f.n && f.buf == f.buf0 + SECTOR_WORDS * (f.n - f.count) && cur == f.lba + f.n - f.count
    requires Loaded(mem, disk, f.buf0, f.lba, f.n - f.count)
    ensures Loaded(StoreSector(mem, f.buf, DiskSector(disk, cur)), disk, f.buf0, f.lba, f.n - (f.count - 1))
    ensures f.buf + SECTOR_WORDS == f.buf0 + SECTOR_WORDS * (f.n - (f.count - 1))
  {
    var k := f.n - f.count;
    StoreLoads(mem, disk, f.buf0, f.lba, k);
    assert f.n - (f.count - 1) == k + 1 && cur == f.lba + k;
  }

  lemma ServedOther(s: Sys, h: Addr, b: Addr)
    requires s.head == h && h in s.frames && b in s.frames && FrameOk(s, h) && FrameOk(s, b)
    requires h != b && Disjoint(s, h, b) && s.frames[h].count > 0
    ensures FrameOk(Served(s), b)
  {
    var f, g := s.frames[h], s.frames[b];
    StoreKeeps(s.mem, f.buf, DiskSector(s.disk, s.dev.cur), s.disk, g.buf0, g.lba, g.n - g.count);
  }

  lemma ServedMember(s: Sys, q: seq<Addr>, b: Addr)
    requires q != [] && q[0] in s.frames
    requires forall i | 0 < i < |q| :: q[i] != q[0]
    ensures b in ServedQueue(s, q) <==> b in q && (b != q[0] || s.frames[q[0]].count != 1)
  {
    assert q == [q[0]] + q[1..];
  }

  lemma ServedQueueOk(s: Sys, q: seq<Addr>, b: Addr)
    requires q != [] && s.head == q[0] && Chain(s.frames, s.head, q)
    requires b in s.frames && FrameOk(s, q[0]) && QueueOk(s, q, q[0]) && FrameOk(s, b) && QueueOk(s, q, b)
    ensures QueueOk(Served(s), ServedQueue(s, q), b)
  {
    ServedMember(s, q, b);
  }

  lemma ServedFrames(s: Sys, q: seq<Addr>)
    requires q != [] && Chain(s.frames, s.head, q) && DeviceOk(s, q) && TasksOk(s) && FramesOk(s, q) && Apart(s)
    ensures FramesOk(Served(s), ServedQueue(s, q))
  {
    var w := Served(s);
    assert FrameOk(s, q[0]) && TaskOk(s, s.frames[q[0]].task);
    forall b | b in w.frames ensures FrameOk(w, b) && QueueOk(w, ServedQueue(s, q), b) {
      assert FrameOk(s, b);
      if b != q[0] { assert Disjoint(s, q[0], b); ServedOther(s, q[0], b); } else { ServedHead(s, q); }
      ServedQueueOk(s, q, b);
    }
  }

  lemma ServedTasks(s: Sys)
    requires s.head in s.frames && TasksOk(s) && CpuOk(s)
    requires s.frames[s.head].task < |s.tasks| && s.tasks[s.frames[s.head].task].status == DiskRead
    ensures TasksOk(Served(s)) && CpuOk(Served(s))
  {
    forall t | 0 <= t < |s.tasks| ensures TaskOk(Served(s), t) {
      assert TaskOk(s, t);
    }
  }

  /** One disk interrupt serves one sector of the head; the last one wakes its task and starts the next. */
  lemma DiskIrqKeeps(s: Sys, q: seq<Addr>)
    requires Inv(s, q) && s.dev.left > 0
    ensures q != [] && s.head == q[0] && s.head in s.frames
    ensures Inv(ProcessRequest(s), ServedQueue(s, q))
    ensures ProcessRequest(s) == Served(s).(dev := ProcessRequest(s).dev)
  {
    var s', w := ProcessRequest(s), Served(s);
    assert FrameOk(s, q[0]);
    if |q| > 1 { assert FrameOk(s, q[1]); }
    DiskIrqDevice(s, q);
    ServedChain(s, q);
    ServedTasks(s);
    forall t | 0 <= t < |s'.tasks| ensures TaskOk(s', t) { assert TaskOk(w, t); }
    ServedFrames(s, q);
    DeviceIrrelevant(w, s', ServedQueue(s, q));
    ApartKept(s, s');
  }

  // ---------------------------------------------------------------- every step

  /** The queue after a step. */
  ghost function NextQueue(s: Sys, q: seq<Addr>, step: Step): seq<Addr>
    requires Inv(s, q) && Enabled(s, step)
  {
    match step
    case Enqueue => q + [s.tasks[s.cpu.task].pc.frame]
    case DiskIrq => ServedQueue(s, q)
    case _ => q
  }

  lemma StepKeeps(s: Sys, q: seq<Addr>, step: Step)
    requires Inv(s, q) && Allowed(s, step)
    ensures Inv(Apply(s, step), NextQueue(s, q, step))
  {
    match step
    case Enqueue => EnqueueKeeps(s, q, s.tasks[s.cpu.task].pc.frame);
    case DiskIrq => DiskIrqKeeps(s, q);
    case Tick => TickKeeps(s, q);
    case Return => ReturnKeeps(s, q);
    case CallRead(_, _, _, _) => CallReadKeeps(s, q, step);
    case Scribble(_, _) => ScribbleKeeps(s, q, step);
    case _ => ControlKeeps(s, q, step);
  }

  /**
   Of all the steps there are, exactly the tick between `current = task` and the
   switch breaks the invariant. It does so because `TimerTick` records the fault
   Clobbered there; that the task's saved context is really lost in that case, and
   in no other, is `Resumption.SnapshotsKeptIff` on the stack machine.
   */
  lemma StepKeepsIff(s: Sys, q: seq<Addr>, step: Step)
    requires Inv(s, q) && Enabled(s, step) && Polite(s, step)
    ensures (exists q' :: Inv(Apply(s, step), q')) <==> !TickInDispatch(s, step)
  {
    if !TickInDispatch(s, step) { StepKeeps(s, q, step); } else { assert TaskOk(s, s.cpu.task); }
  }
}
