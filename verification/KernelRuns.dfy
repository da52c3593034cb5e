/**
 What holds over whole runs of the disk protocol: the queue, the reads and the
 order of completion.
 */
module KernelRuns {
  import opened Kernel
  import opened KernelInvariant
  import opened KernelSteps

  ghost predicate Started(trace: seq<Sys>, steps: seq<Step>) {
    IsRun(trace, steps) && Init(trace[0])
  }

  lemma InitHolds(s: Sys)
    requires Init(s)
    ensures Inv(s, [])
  {
    forall t | 0 <= t < |s.tasks| ensures TaskOk(s, t) {}
  }

  /** The queue of every state of a run. */
  ghost function QueueAt(trace: seq<Sys>, steps: seq<Step>, i: nat): (q: seq<Addr>)
    requires Started(trace, steps) && i <= |steps|
    ensures Inv(trace[i], q)
  {
    if i == 0 then InitHolds(trace[0]); []
    else
      var q := QueueAt(trace, steps, i - 1);
      assert Follows(trace, steps, i - 1);
      StepKeeps(trace[i - 1], q, steps[i - 1]);
      NextQueue(trace[i - 1], q, steps[i - 1])
  }

  // ---------------------------------------------------------------- queue

  /** Request number `i` of the queue was issued by task `t`, whose `ata_read` call is still active. */
  ghost predicate Names(s: Sys, q: seq<Addr>, i: nat, t: nat) {
    && i < |q| && q[i] in s.frames && s.frames[q[i]].task == t
    && t < |s.tasks| && FrameOf(s.tasks[t].pc) == q[i]
  }

  /** The queue as the driver's comments and checks promise it. */
  ghost predicate QueueSound(s: Sys, q: seq<Addr>) {
    && s.fault == NoFault
    && Chain(s.frames, s.head, q)
    && (forall i | 0 <= i < |q| :: Names(s, q, i, s.frames[q[i]].task))
    && (forall t | 0 <= t < |s.tasks| && s.tasks[t].status == DiskRead :: exists i: nat :: Names(s, q, i, t))
    && (forall t: nat, i: nat | Names(s, q, i, t) :: s.tasks[t].status == DiskRead)
    && (forall t: nat, i: nat, j: nat | Names(s, q, i, t) && Names(s, q, j, t) :: i == j)
    && (s.dev.left > 0 <==> q != [])
    && (q != [] ==> s.dev.left == s.frames[q[0]].count
                    && s.dev.cur == s.frames[q[0]].lba + s.frames[q[0]].n - s.frames[q[0]].count)
  }

  lemma InvSound(s: Sys, q: seq<Addr>)
    requires Inv(s, q)
    ensures QueueSound(s, q)
  {
    forall i | 0 <= i < |q| ensures Names(s, q, i, s.frames[q[i]].task) && s.frames[q[i]].count > 0 {
      assert FrameOk(s, q[i]);
    }
    forall t | 0 <= t < |s.tasks| && s.tasks[t].status == DiskRead ensures exists i: nat :: Names(s, q, i, t) {
      assert TaskOk(s, t);
      var a := FrameOf(s.tasks[t].pc);
      assert FrameOk(s, a);
      var i :| 0 <= i < |q| && q[i] == a;
      assert Names(s, q, i, t);
    }
    forall t: nat, i: nat | Names(s, q, i, t) ensures s.tasks[t].status == DiskRead {
      assert FrameOk(s, q[i]);
    }
  }

  /**
   In every state of every run no check of the driver fails and no dangling
   request is followed; the queue is finite and acyclic; a task sleeps on the
   disk exactly when one request, of its active call, is queued; the device is
   busy exactly when the queue is non-empty and then serves its head.
   */
  lemma QueueSafety(trace: seq<Sys>, steps: seq<Step>, i: nat)
    requires Started(trace, steps) && i <= |steps|
    ensures exists q :: QueueSound(trace[i], q)
  {
    InvSound(trace[i], QueueAt(trace, steps, i));
  }

  ghost predicate Asleep(s: Sys, a: Addr) {
    a in s.frames && s.frames[a].task < |s.tasks| && s.tasks[s.frames[a].task].status == DiskRead
  }

  ghost predicate SameWordAt(mem: map<int, Word>, mem': map<int, Word>, x: int) {
    (x in mem' <==> x in mem) && (x in mem ==> mem'[x] == mem[x])
  }

  /** The buffer of a call holds what it held. */
  ghost predicate SameBuffer(mem: map<int, Word>, mem': map<int, Word>, f: Frame) {
    forall x | f.buf0 <= x < f.buf0 + SECTOR_WORDS * f.n :: SameWordAt(mem, mem', x)
  }

  /**
   What code running for one task writes into the stack frame of another: only
   into the request, or the buffer, of an `ata_read` call that sleeps in the
   queue. Nobody else's frame is touched or taken away.
   */
  lemma ForeignWrites(trace: seq<Sys>, steps: seq<Step>, i: nat, b: Addr)
    requires Started(trace, steps) && i < |steps| && b in trace[i].frames
    requires trace[i].cpu != OnTask(trace[i].frames[b].task)
    ensures b in trace[i + 1].frames
    ensures trace[i + 1].frames[b] != trace[i].frames[b] ==> Asleep(trace[i], b) && steps[i] in {DiskIrq, Enqueue}
    ensures !(steps[i] == DiskIrq && Asleep(trace[i], b)) ==>
            SameBuffer(trace[i].mem, trace[i + 1].mem, trace[i].frames[b])
  {
    var s, q := trace[i], QueueAt(trace, steps, i);
    assert Follows(trace, steps, i) && FrameOk(s, b);
    if Busy(s.cpu) { assert TaskOk(s, s.cpu.task); }
    if steps[i] == DiskIrq { IrqWrites(s, q, b); }
    else if steps[i] == Enqueue { EnqueueWrites(s, q, b); }
    else { PlainWrites(s, steps[i], b); }
  }

  lemma IrqWrites(s: Sys, q: seq<Addr>, b: Addr)
    requires Inv(s, q) && s.dev.left > 0 && b in s.frames
    ensures b in ProcessRequest(s).frames && (ProcessRequest(s).frames[b] != s.frames[b] ==> Asleep(s, b))
    ensures !Asleep(s, b) ==> SameBuffer(s.mem, ProcessRequest(s).mem, s.frames[b])
  {
    DiskIrqKeeps(s, q);
    assert FrameOk(s, b) && FrameOk(s, q[0]);
    if b != q[0] { assert Disjoint(s, q[0], b); SectorInside(s.frames[q[0]]); }
  }

  lemma SectorInside(f: Frame)
    requires 0 < f.count <= f.n && f.buf == f.buf0 + SECTOR_WORDS * (f.n - f.count)
    ensures f.buf0 <= f.buf && f.buf + SECTOR_WORDS <= f.buf0 + SECTOR_WORDS * f.n
  {
  }

  lemma EnqueueWrites(s: Sys, q: seq<Addr>, b: Addr)
    requires Inv(s, q) && Enabled(s, Enqueue) && b in s.frames
    ensures b in Apply(s, Enqueue).frames && (Apply(s, Enqueue).frames[b] != s.frames[b] ==> Asleep(s, b))
    ensures Apply(s, Enqueue).mem == s.mem
  {
    EnqueueShape(s, q, s.tasks[s.cpu.task].pc.frame);
    assert FrameOk(s, b);
  }

  lemma PlainWrites(s: Sys, step: Step, b: Addr)
    requires CpuOk(s) && Enabled(s, step) && step !in {DiskIrq, Enqueue} && b in s.frames && b != NULL
    requires Busy(s.cpu) ==> TaskOk(s, s.cpu.task)
    requires s.cpu != OnTask(s.frames[b].task)
    ensures b in Apply(s, step).frames && Apply(s, step).frames[b] == s.frames[b]
    ensures Polite(s, step) ==> SameBuffer(s.mem, Apply(s, step).mem, s.frames[b])
  {
    if step.Scribble? && Polite(s, step) { assert Outside(s.frames[b], step.a, step.a + 1); }
  }

  /** The disk interrupt is the only step of the protocol that writes memory, and it writes into a sleeper's buffer. */
  lemma WordChanges(trace: seq<Sys>, steps: seq<Step>, i: nat, w: int) returns (b: Addr)
    requires Started(trace, steps) && i < |steps| && !steps[i].Scribble?
             && !SameWordAt(trace[i].mem, trace[i + 1].mem, w)
    ensures steps[i] == DiskIrq && b in trace[i].frames && Asleep(trace[i], b)
    ensures trace[i].frames[b].buf0 <= w < trace[i].frames[b].buf0 + SECTOR_WORDS * trace[i].frames[b].n
  {
    var s, q := trace[i], QueueAt(trace, steps, i);
    assert Follows(trace, steps, i);
    OnlyIrqWrites(s, q, steps[i]);
    DiskIrqKeeps(s, q);
    b := q[0];
    assert FrameOk(s, b);
    SectorInside(s.frames[b]);
  }

  lemma OnlyIrqWrites(s: Sys, q: seq<Addr>, step: Step)
    requires Inv(s, q) && Enabled(s, step) && !step.Scribble?
    ensures step != DiskIrq ==> Apply(s, step).mem == s.mem
  {
    if step == Enqueue { EnqueueShape(s, q, s.tasks[s.cpu.task].pc.frame); }
  }

  /** A frame keeps its task; a new frame belongs to the task on the processor. */
  lemma RunFrameTask(trace: seq<Sys>, steps: seq<Step>, i: nat, b: Addr)
    requires Started(trace, steps) && i < |steps| && b in trace[i + 1].frames
    ensures trace[i].cpu == OnTask(trace[i + 1].frames[b].task)
            || (b in trace[i].frames && trace[i].frames[b].task == trace[i + 1].frames[b].task)
  {
    var s, q := trace[i], QueueAt(trace, steps, i);
    assert Follows(trace, steps, i);
    if steps[i] == DiskIrq { DiskIrqKeeps(s, q); }
    else if steps[i] == Enqueue { EnqueueShape(s, q, s.tasks[s.cpu.task].pc.frame); }
    else { PlainFrameTask(s, steps[i], b); }
  }

  lemma PlainFrameTask(s: Sys, step: Step, b: Addr)
    requires CpuOk(s) && Enabled(s, step) && step !in {DiskIrq, Enqueue} && b in Apply(s, step).frames
    ensures s.cpu == OnTask(Apply(s, step).frames[b].task)
            || (b in s.frames && s.frames[b].task == Apply(s, step).frames[b].task)
  {
  }

  // ---------------------------------------------------------------- reads

  ghost predicate ReturnOf(trace: seq<Sys>, steps: seq<Step>, t: nat, i: nat)
    requires i < |steps| < |trace|
  {
    steps[i] == Return && trace[i].cpu == OnTask(t)
  }

  /** Task `t` is in the call that built frame `a` with these arguments. */
  ghost predicate InCall(s: Sys, t: nat, a: Addr, buf: int, lba: int, n: int) {
    && t < |s.tasks| && a in s.frames && FrameOf(s.tasks[t].pc) == a
    && s.frames[a].buf0 == buf && s.frames[a].lba == lba && s.frames[a].n == n
  }

  lemma CallPersists(s: Sys, q: seq<Addr>, step: Step, t: nat, a: Addr, buf: int, lba: int, n: int)
    requires Inv(s, q) && Allowed(s, step) && InCall(s, t, a, buf, lba, n)
    requires !(step == Return && s.cpu == OnTask(t))
    ensures InCall(Apply(s, step), t, a, buf, lba, n)
  {
    assert TaskOk(s, t) && FrameOk(s, a);
    if Busy(s.cpu) { assert TaskOk(s, s.cpu.task); }
    if step == DiskIrq { DiskIrqKeeps(s, q); }
    else if step == Enqueue { EnqueueInCall(s, q, t, a, buf, lba, n); }
    else { PlainInCall(s, step, t, a, buf, lba, n); }
  }

  lemma PlainInCall(s: Sys, step: Step, t: nat, a: Addr, buf: int, lba: int, n: int)
    requires CpuOk(s) && Enabled(s, step) && step !in {DiskIrq, Enqueue} && InCall(s, t, a, buf, lba, n)
    requires TaskOk(s, t) && (Busy(s.cpu) ==> TaskOk(s, s.cpu.task)) && a != NULL
    requires !(step == Return && s.cpu == OnTask(t))
    ensures InCall(Apply(s, step), t, a, buf, lba, n)
  {
  }

  lemma EnqueueInCall(s: Sys, q: seq<Addr>, t: nat, a: Addr, buf: int, lba: int, n: int)
    requires Inv(s, q) && Enabled(s, Enqueue) && InCall(s, t, a, buf, lba, n)
    ensures InCall(Apply(s, Enqueue), t, a, buf, lba, n)
  {
    EnqueueShape(s, q, s.tasks[s.cpu.task].pc.frame);
  }

  lemma {:induction false} CallUntilReturn(trace: seq<Sys>, steps: seq<Step>, i: nat, j: nat,
                                           t: nat, a: Addr, buf: int, lba: int, n: int)
    requires Started(trace, steps) && i < j <= |steps|
    requires steps[i] == CallRead(a, buf, lba, n) && trace[i].cpu == OnTask(t)
    requires forall k | i < k < j :: !ReturnOf(trace, steps, t, k)
    ensures InCall(trace[j], t, a, buf, lba, n) && trace[j].disk == trace[i].disk
  {
    if j - 1 == i {
      CallBegins(trace, steps, i, t);
    } else {
      CallUntilReturn(trace, steps, i, j - 1, t, a, buf, lba, n);
      RunStepInCall(trace, steps, j - 1, t, a, buf, lba, n);
    }
  }

  lemma CallBegins(trace: seq<Sys>, steps: seq<Step>, i: nat, t: nat)
    requires Started(trace, steps) && i < |steps| && steps[i].CallRead? && trace[i].cpu == OnTask(t)
    ensures InCall(trace[i + 1], t, steps[i].frame, steps[i].buf, steps[i].lba, steps[i].n)
    ensures trace[i + 1].disk == trace[i].disk
  {
    assert Follows(trace, steps, i);
    assert Inv(trace[i], QueueAt(trace, steps, i));
  }

  lemma RunStepInCall(trace: seq<Sys>, steps: seq<Step>, j: nat, t: nat, a: Addr, buf: int, lba: int, n: int)
    requires Started(trace, steps) && j < |steps| && !ReturnOf(trace, steps, t, j)
    requires InCall(trace[j], t, a, buf, lba, n)
    ensures InCall(trace[j + 1], t, a, buf, lba, n) && trace[j + 1].disk == trace[j].disk
  {
    assert Follows(trace, steps, j);
    var q := QueueAt(trace, steps, j);
    CallPersists(trace[j], q, steps[j], t, a, buf, lba, n);
    DiskFixed(trace[j], steps[j]);
  }

  lemma DiskFixed(s: Sys, step: Step)
    requires Enabled(s, step)
    ensures Apply(s, step).disk == s.disk
  {
    if step == DiskIrq { IrqDisk(s); } else if step == Enqueue { EnqueueDisk(s, s.tasks[s.cpu.task].pc.frame); }
  }

  lemma IrqDisk(s: Sys)
    ensures ProcessRequest(s).disk == s.disk
  {
  }

  lemma EnqueueDisk(s: Sys, a: Addr)
    requires a in s.frames
    ensures EnqueueRequest(s, a).disk == s.disk
  {
  }

  /** Word `w` of the k-th sector of the buffer is word `w` of disk sector lba + k. */
  ghost predicate WordRead(mem: map<int, Word>, disk: seq<Sector>, buf: int, lba: int, k: nat, w: nat)
    requires 0 <= lba && lba + k < |disk| && w < SECTOR_WORDS
  {
    var x := buf + SECTOR_WORDS * k + w;
    x in mem && mem[x] == disk[lba + k][w]
  }

  /**
   Whatever is interleaved with it, when `ata_read(buf, lba, n)` returns, the
   buffer holds sectors lba .. lba + n - 1 of the disk, word for word.
   */
  lemma ReadReturnsSectors(trace: seq<Sys>, steps: seq<Step>, i: nat, j: nat,
                           t: nat, a: Addr, buf: int, lba: int, n: int)
    requires Started(trace, steps) && i < j < |steps|
    requires steps[i] == CallRead(a, buf, lba, n) && trace[i].cpu == OnTask(t)
    requires ReturnOf(trace, steps, t, j) && forall k | i < k < j :: !ReturnOf(trace, steps, t, k)
    ensures lba >= 0 && lba + n <= |trace[i].disk|
    ensures forall k: nat, w: nat | k < n && w < SECTOR_WORDS :: WordRead(trace[j].mem, trace[i].disk, buf, lba, k, w)
  {
    CallUntilReturn(trace, steps, i, j, t, a, buf, lba, n);
    var s := trace[j];
    var q := QueueAt(trace, steps, j);
    assert Follows(trace, steps, j) && Follows(trace, steps, i);
    assert TaskOk(s, t) && FrameOk(s, a);
    forall k: nat, w: nat | k < n && w < SECTOR_WORDS
      ensures WordRead(s.mem, trace[i].disk, buf, lba, k, w)
    {
      assert SectorLoaded(s.mem, s.disk, buf, lba, k);
      assert HasWord(s.mem, buf + SECTOR_WORDS * k, DiskSector(s.disk, lba + k), w);
    }
  }

  // ---------------------------------------------------------------- counting

  function Count(steps: seq<Step>, kind: Step, i: nat, j: nat): nat
    requires i <= j <= |steps|
  {
    if i == j then 0 else Count(steps, kind, i, j - 1) + if steps[j - 1] == kind then 1 else 0
  }

  /** What holds at step `k` with `x` to go holds after it, with one less to go if the step is of the kind counted. */
  ghost predicate CountsDown(steps: seq<Step>, kind: Step, p: (nat, int) -> bool, k: nat, x: int)
    requires k < |steps|
  {
    (steps[k] != kind ==> p(k + 1, x)) && (steps[k] == kind && x > 1 ==> p(k + 1, x - 1))
  }

  lemma {:induction false} CountDown(steps: seq<Step>, kind: Step, p: (nat, int) -> bool, i: nat, j: nat, r: int)
    requires i <= j <= |steps| && p(i, r) && Count(steps, kind, i, j) < r
    requires forall k: nat, x: int {:trigger CountsDown(steps, kind, p, k, x)} | i <= k < j && p(k, x) ::
             CountsDown(steps, kind, p, k, x)
    ensures p(j, r - Count(steps, kind, i, j))
  {
    if i < j {
      CountDown(steps, kind, p, i, j - 1, r);
      assert CountsDown(steps, kind, p, j - 1, r - Count(steps, kind, i, j - 1));
    }
  }

  // ---------------------------------------------------------------- completion

  /** Sectors the device has to deliver before request number `p` is complete. */
  ghost function Work(frames: map<Addr, Frame>, q: seq<Addr>, p: nat): int
    requires p < |q| && forall i | 0 <= i < |q| :: q[i] in frames
  {
    frames[q[p]].count + if p == 0 then 0 else Work(frames, q, p - 1)
  }

  /** Request `a` is at position `p` of the queue `q` and still needs `r` interrupts. */
  ghost predicate PendingAt(s: Sys, q: seq<Addr>, p: nat, a: Addr, r: int) {
    Links(s.frames, s.head, q) && p < |q| && q[p] == a && Work(s.frames, q, p) == r
  }

  ghost predicate Pending(s: Sys, a: Addr, r: int) {
    exists q: seq<Addr>, p: nat :: PendingAt(s, q, p, a, r)
  }

  lemma {:induction false} WorkKept(frames: map<Addr, Frame>, frames': map<Addr, Frame>, q: seq<Addr>, q': seq<Addr>,
                                    p: nat)
    requires p < |q| && q <= q'
    requires forall i | 0 <= i < |q| :: q[i] in frames && q[i] in frames' && frames'[q[i]].count == frames[q[i]].count
    requires forall i | 0 <= i < |q'| :: q'[i] in frames'
    ensures Work(frames', q', p) == Work(frames, q, p)
  {
    if p > 0 { WorkKept(frames, frames', q, q', p - 1); }
  }

  lemma {:induction false} WorkServed(frames: map<Addr, Frame>, frames': map<Addr, Frame>, q: seq<Addr>, p: nat)
    requires p < |q| && forall i | 0 <= i < |q| :: q[i] in frames && q[i] in frames'
    requires frames'[q[0]].count == frames[q[0]].count - 1
    requires forall i | 0 < i < |q| :: frames'[q[i]].count == frames[q[i]].count
    ensures Work(frames', q, p) == Work(frames, q, p) - 1
  {
    if p > 0 { WorkServed(frames, frames', q, p - 1); }
  }

  lemma {:induction false} WorkPopped(frames: map<Addr, Frame>, q: seq<Addr>, p: nat)
    requires p + 1 < |q| && (forall i | 0 <= i < |q| :: q[i] in frames) && frames[q[0]].count == 0
    ensures forall i | 0 <= i < |q[1..]| :: q[1..][i] in frames
    ensures Work(frames, q[1..], p) == Work(frames, q, p + 1)
  {
    if p > 0 { WorkPopped(frames, q, p - 1); }
  }

  lemma {:induction false} WorkPositive(s: Sys, q: seq<Addr>, p: nat)
    requires Inv(s, q) && p < |q|
    ensures Work(s.frames, q, p) >= 1
    ensures p > 0 ==> Work(s.frames, q, p) > 1
  {
    assert FrameOk(s, q[p]);
    if p > 0 { WorkPositive(s, q, p - 1); }
  }

  /** The frames a step other than the disk interrupt leaves as far as the queue is concerned. */
  lemma CountsKept(s: Sys, q: seq<Addr>, step: Step, a: Addr)
    requires Inv(s, q) && Allowed(s, step) && step != DiskIrq && a in q
    ensures a in Apply(s, step).frames && Apply(s, step).frames[a].count == s.frames[a].count
  {
    var i :| 0 <= i < |q| && q[i] == a;
    assert FrameOk(s, a);
    if Busy(s.cpu) { assert TaskOk(s, s.cpu.task); }
    if step == Enqueue { EnqueueShape(s, q, s.tasks[s.cpu.task].pc.frame); }
  }

  lemma OtherStepPending(s: Sys, q: seq<Addr>, step: Step, p: nat, a: Addr, r: int)
    requires Inv(s, q) && Allowed(s, step) && step != DiskIrq && PendingAt(s, q, p, a, r)
    ensures PendingAt(Apply(s, step), NextQueue(s, q, step), p, a, r)
  {
    var s', q' := Apply(s, step), NextQueue(s, q, step);
    StepKeeps(s, q, step);
    forall i | 0 <= i < |q| ensures q[i] in s'.frames && s'.frames[q[i]].count == s.frames[q[i]].count {
      CountsKept(s, q, step, q[i]);
    }
    WorkKept(s.frames, s'.frames, q, q', p);
  }

  /** A disk interrupt takes one from every pending request. */
  lemma IrqPending(s: Sys, q: seq<Addr>, p: nat, a: Addr, r: int)
    requires Inv(s, q) && s.dev.left > 0 && PendingAt(s, q, p, a, r) && r > 1
    ensures Pending(ProcessRequest(s), a, r - 1)
  {
    DiskIrqKeeps(s, q);
    PendingServed(ProcessRequest(s), s.frames, q, p, a, r);
  }

  /** The frames differ in the first request of the queue, which has one sector less to go. */
  ghost predicate HeadServed(frames: map<Addr, Frame>, frames': map<Addr, Frame>, q: seq<Addr>) {
    && q != [] && q[0] in frames && q[0] in frames' && frames'[q[0]].count == frames[q[0]].count - 1
    && forall b | b in frames && b != q[0] :: b in frames' && frames'[b] == frames[b]
  }

  lemma PendingServed(s': Sys, frames: map<Addr, Frame>, q: seq<Addr>, p: nat, a: Addr, r: int)
    requires (forall i | 0 <= i < |q| :: q[i] in frames) && (forall i | 0 < i < |q| :: q[i] != q[0])
    requires p < |q| && q[p] == a && Work(frames, q, p) == r > 1 && HeadServed(frames, s'.frames, q)
    requires Links(s'.frames, s'.head, if frames[q[0]].count == 1 then q[1..] else q)
    ensures Pending(s', a, r - 1)
  {
    WorkServed(frames, s'.frames, q, p);
    if frames[q[0]].count == 1 {
      WorkPopped(s'.frames, q, p - 1);
      assert PendingAt(s', q[1..], p - 1, a, r - 1);
    } else {
      assert PendingAt(s', q, p, a, r - 1);
    }
  }

  /** Request `a` has left the queue and its task can run. */
  ghost predicate Finished(s: Sys, a: Addr) {
    && a in s.frames && s.frames[a].count == 0
    && s.frames[a].task < |s.tasks| && s.tasks[s.frames[a].task].status == Running
  }

  /** The interrupt a request still needs completes it. */
  lemma IrqFinishes(s: Sys, q: seq<Addr>, p: nat, a: Addr)
    requires Inv(s, q) && s.dev.left > 0 && PendingAt(s, q, p, a, 1)
    ensures Finished(ProcessRequest(s), a)
  {
    DiskIrqKeeps(s, q);
    WorkPositive(s, q, p);
    assert FrameOk(s, a);
  }

  lemma StepPending(s: Sys, q: seq<Addr>, step: Step, a: Addr, r: int)
    requires Inv(s, q) && Allowed(s, step) && Pending(s, a, r)
    ensures r >= 1 && Asleep(s, a)
    ensures step != DiskIrq ==> Pending(Apply(s, step), a, r)
    ensures step == DiskIrq && r > 1 ==> Pending(Apply(s, step), a, r - 1)
    ensures step == DiskIrq && r == 1 ==> Finished(Apply(s, step), a)
  {
    var q', p :| PendingAt(s, q', p, a, r);
    ChainUnique(s.frames, s.head, q, q');
    WorkPositive(s, q, p);
    assert FrameOk(s, a);
    if step != DiskIrq { OtherStepPending(s, q, step, p, a, r); }
    else if r > 1 { IrqPending(s, q, p, a, r); }
    else { IrqFinishes(s, q, p, a); }
  }

  /** A new request goes behind everything already queued. */
  lemma EnqueuePending(s: Sys, q: seq<Addr>, a: Addr)
    requires Inv(s, q) && Enabled(s, Enqueue) && a == s.tasks[s.cpu.task].pc.frame
    ensures Pending(Apply(s, Enqueue), a, s.frames[a].n + if q == [] then 0 else Work(s.frames, q, |q| - 1))
  {
    EnqueueShape(s, q, a);
    assert FrameOk(s, a);
    JoinsBehind(s.frames, Apply(s, Enqueue), s.head, q, a);
  }

  lemma JoinsBehind(frames: map<Addr, Frame>, s': Sys, head: Addr, q: seq<Addr>, a: Addr)
    requires Chain(frames, head, q) && a in frames && a !in q && a != NULL && frames[a].next == NULL
    requires s'.frames == if q == [] then frames else frames[q[|q| - 1] := frames[q[|q| - 1]].(next := a)]
    requires s'.head == if q == [] then a else head
    ensures Pending(s', a, frames[a].count + if q == [] then 0 else Work(frames, q, |q| - 1))
  {
    EnqueueChain(frames, s'.frames, head, q, a);
    EnqueuedWork(frames, s'.frames, q, a);
    assert PendingAt(s', q + [a], |q|, a, Work(s'.frames, q + [a], |q|));
  }

  lemma EnqueuedWork(frames: map<Addr, Frame>, frames': map<Addr, Frame>, q: seq<Addr>, a: Addr)
    requires (forall i | 0 <= i < |q| :: q[i] in frames) && a in frames && a !in q
    requires frames' == if q == [] then frames else frames[q[|q| - 1] := frames[q[|q| - 1]].(next := a)]
    ensures forall i | 0 <= i < |q + [a]| :: (q + [a])[i] in frames'
    ensures Work(frames', q + [a], |q|) == frames[a].count + if q == [] then 0 else Work(frames, q, |q| - 1)
  {
    if q != [] { WorkKept(frames, frames', q, q + [a], |q| - 1); }
  }

  /**
   FIFO completion. A request that needs `r` interrupts (its own sectors and
   those of every request before it) is still queued, with its task asleep,
   before the r-th disk interrupt, and exactly that one completes it.
   */
  lemma CompletesExactly(trace: seq<Sys>, steps: seq<Step>, i: nat, j: nat, a: Addr, r: int)
    requires Started(trace, steps) && i <= j < |steps|
    requires Pending(trace[i], a, r) && Count(steps, DiskIrq, i, j) < r
    ensures Pending(trace[j], a, r - Count(steps, DiskIrq, i, j)) && Asleep(trace[j], a)
    ensures steps[j] == DiskIrq && Count(steps, DiskIrq, i, j) == r - 1 ==> Finished(trace[j + 1], a)
  {
    var x := r - Count(steps, DiskIrq, i, j);
    PendingUntil(trace, steps, i, j, a, r, x);
    LastSector(trace, steps, j, a, x);
  }

  lemma LastSector(trace: seq<Sys>, steps: seq<Step>, j: nat, a: Addr, x: int)
    requires Started(trace, steps) && j < |steps| && Pending(trace[j], a, x)
    ensures Asleep(trace[j], a) && (steps[j] == DiskIrq && x == 1 ==> Finished(trace[j + 1], a))
  {
    RunStepPending(trace, steps, j, a, x);
  }

  lemma PendingUntil(trace: seq<Sys>, steps: seq<Step>, i: nat, j: nat, a: Addr, r: int, x: int)
    requires Started(trace, steps) && i <= j <= |steps| && Pending(trace[i], a, r)
    requires x == r - Count(steps, DiskIrq, i, j) && x > 0
    ensures Pending(trace[j], a, x)
  {
    assert PendingIn(trace, a)(i, r);
    StillPending(trace, steps, i, j, a, r);
    assert PendingIn(trace, a)(j, x);
  }

  /** Request `a` is pending in state `k` with `x` interrupts to go. */
  ghost function PendingIn(trace: seq<Sys>, a: Addr): (nat, int) -> bool {
    (k: nat, x: int) => k < |trace| && Pending(trace[k], a, x)
  }

  lemma PendingCounts(trace: seq<Sys>, steps: seq<Step>, k: nat, a: Addr, x: int)
    requires Started(trace, steps) && k < |steps| && PendingIn(trace, a)(k, x)
    ensures CountsDown(steps, DiskIrq, PendingIn(trace, a), k, x)
  {
    RunStepPending(trace, steps, k, a, x);
  }

  lemma StillPending(trace: seq<Sys>, steps: seq<Step>, i: nat, j: nat, a: Addr, r: int)
    requires Started(trace, steps) && i <= j <= |steps| && Count(steps, DiskIrq, i, j) < r
    requires PendingIn(trace, a)(i, r)
    ensures PendingIn(trace, a)(j, r - Count(steps, DiskIrq, i, j))
  {
    var p := PendingIn(trace, a);
    forall k: nat, x: int {:trigger CountsDown(steps, DiskIrq, p, k, x)} | i <= k < j && p(k, x)
      ensures CountsDown(steps, DiskIrq, p, k, x)
    {
      PendingCounts(trace, steps, k, a, x);
    }
    CountDown(steps, DiskIrq, p, i, j, r);
  }

  lemma RunStepPending(trace: seq<Sys>, steps: seq<Step>, j: nat, a: Addr, r: int)
    requires Started(trace, steps) && j < |steps| && Pending(trace[j], a, r)
    ensures Asleep(trace[j], a)
    ensures steps[j] != DiskIrq ==> Pending(trace[j + 1], a, r)
    ensures steps[j] == DiskIrq && r > 1 ==> Pending(trace[j + 1], a, r - 1)
    ensures steps[j] == DiskIrq && r == 1 ==> Finished(trace[j + 1], a)
  {
    assert Follows(trace, steps, j);
    StepPending(trace[j], QueueAt(trace, steps, j), steps[j], a, r);
  }
}
