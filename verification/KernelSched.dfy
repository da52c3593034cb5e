/**
 Sleeping and the round robin over whole runs.
 */
module KernelSched {
  import opened Kernel
  import opened KernelInvariant
  import opened KernelSteps
  import opened KernelRuns

  // ---------------------------------------------------------------- sleeping

  ghost predicate SleepingFor(s: Sys, t: nat, r: int) {
    t < |s.tasks| && s.tasks[t].status == Waiting && s.tasks[t].ticks == r
  }

  /** Steps that go through neither the queue nor the timer. */
  predicate Plain(step: Step) {
    step !in {Enqueue, DiskIrq, Tick}
  }

  /** Such a step changes no task but the one on the CPU, and never its sleep once it is asleep. */
  lemma PlainStep(s: Sys, step: Step, t: nat)
    requires CpuOk(s) && Enabled(s, step) && Plain(step) && t < |s.tasks| && TaskOk(s, t)
    requires Busy(s.cpu) ==> TaskOk(s, s.cpu.task)
    ensures t < |Apply(s, step).tasks|
    ensures s.cpu != OnTask(t) ==> Apply(s, step).tasks[t] == s.tasks[t]
    ensures s.tasks[t].status == Waiting ==>
              var u := Apply(s, step).tasks[t];
              && u.status == Waiting && u.ticks == s.tasks[t].ticks
              && !(step == Dispatch && s.cursor == t) && !(step == Return && s.cpu == OnTask(t))
  {
  }

  /** Only the timer changes a sleeping task, and a sleeping task is neither dispatched nor returns. */
  lemma SleepStep(s: Sys, q: seq<Addr>, step: Step, t: nat, r: int)
    requires Inv(s, q) && Allowed(s, step) && SleepingFor(s, t, r)
    ensures r > 0 && !(step == Dispatch && s.cursor == t) && !(step == Return && s.cpu == OnTask(t))
    ensures step != Tick ==> SleepingFor(Apply(s, step), t, r)
    ensures step == Tick && r > 1 ==> SleepingFor(Apply(s, step), t, r - 1)
    ensures step == Tick && r == 1 ==> Apply(s, step).tasks[t].status == Running
  {
    assert TaskOk(s, t);
    if Busy(s.cpu) { assert TaskOk(s, s.cpu.task); }
    if step == DiskIrq { DiskIrqOthers(s, q, t); }
    else if step == Enqueue { EnqueueShape(s, q, s.tasks[s.cpu.task].pc.frame); }
    else if step != Tick { PlainStep(s, step, t); }
  }

  lemma DiskIrqOthers(s: Sys, q: seq<Addr>, t: nat)
    requires Inv(s, q) && s.dev.left > 0 && t < |s.tasks| && s.tasks[t].status != DiskRead
    ensures t < |ProcessRequest(s).tasks| && ProcessRequest(s).tasks[t] == s.tasks[t]
  {
    DiskIrqKeeps(s, q);
    assert FrameOk(s, q[0]);
  }

  lemma RunSleepStep(trace: seq<Sys>, steps: seq<Step>, j: nat, t: nat, r: int)
    requires Started(trace, steps) && j < |steps| && SleepingFor(trace[j], t, r)
    ensures r > 0 && !(steps[j] == Dispatch && trace[j].cursor == t) && !ReturnOf(trace, steps, t, j)
    ensures steps[j] != Tick ==> SleepingFor(trace[j + 1], t, r)
    ensures steps[j] == Tick && r > 1 ==> SleepingFor(trace[j + 1], t, r - 1)
    ensures steps[j] == Tick && r == 1 ==> t < |trace[j + 1].tasks| && trace[j + 1].tasks[t].status == Running
  {
    assert Follows(trace, steps, j);
    SleepStep(trace[j], QueueAt(trace, steps, j), steps[j], t, r);
    TableSize(trace[j], steps[j]);
  }

  lemma TableSize(s: Sys, step: Step)
    requires Enabled(s, step)
    ensures |Apply(s, step).tasks| == |s.tasks|
  {
    if step == Enqueue { EnqueueSize(s, s.tasks[s.cpu.task].pc.frame); }
  }

  lemma EnqueueSize(s: Sys, a: Addr)
    requires a in s.frames
    ensures |EnqueueRequest(s, a).tasks| == |s.tasks|
  {
  }

  /**
   A task asleep with `r` ticks to go stays asleep, is not dispatched and does
   not return before the r-th tick, and that tick makes it runnable.
   */
  lemma WakesExactly(trace: seq<Sys>, steps: seq<Step>, i: nat, j: nat, t: nat, r: int)
    requires Started(trace, steps) && i <= j < |steps|
    requires SleepingFor(trace[i], t, r) && Count(steps, Tick, i, j) < r
    ensures SleepingFor(trace[j], t, r - Count(steps, Tick, i, j))
    ensures !(steps[j] == Dispatch && trace[j].cursor == t) && !ReturnOf(trace, steps, t, j)
    ensures steps[j] == Tick && Count(steps, Tick, i, j) == r - 1 ==>
              t < |trace[j + 1].tasks| && trace[j + 1].tasks[t].status == Running
  {
    StillSleeping(trace, steps, i, j, t, r, r - Count(steps, Tick, i, j));
    RunSleepStep(trace, steps, j, t, r - Count(steps, Tick, i, j));
  }

  lemma {:induction false} StillSleeping(trace: seq<Sys>, steps: seq<Step>, i: nat, j: nat, t: nat, r: int, x: int)
    requires Started(trace, steps) && i <= j <= |steps|
    requires SleepingFor(trace[i], t, r) && x == r - Count(steps, Tick, i, j) && x > 0
    ensures SleepingFor(trace[j], t, x)
  {
    if i < j {
      var y := if steps[j - 1] == Tick then x + 1 else x;
      StillSleeping(trace, steps, i, j - 1, t, r, y);
      RunSleepStep(trace, steps, j - 1, t, y);
    }
  }

  ghost predicate ArmedFor(s: Sys, t: nat, n: int) {
    t < |s.tasks| && s.tasks[t].pc == WaitArmed && s.tasks[t].ticks == n
  }

  lemma ArmedStep(s: Sys, q: seq<Addr>, step: Step, t: nat, n: int)
    requires Inv(s, q) && Allowed(s, step) && ArmedFor(s, t, n)
    ensures !(step == SetWaiting && s.cpu == OnTask(t)) ==> ArmedFor(Apply(s, step), t, n)
    ensures step == SetWaiting && s.cpu == OnTask(t) ==> SleepingFor(Apply(s, step), t, n)
  {
    assert TaskOk(s, t);
    if Busy(s.cpu) { assert TaskOk(s, s.cpu.task); }
    if step == DiskIrq { DiskIrqOthers(s, q, t); }
    else if step == Enqueue { EnqueueShape(s, q, s.tasks[s.cpu.task].pc.frame); }
    else if step != Tick { PlainStep(s, step, t); }
  }

  lemma {:induction false} ArmedUntil(trace: seq<Sys>, steps: seq<Step>, i: nat, j: nat, t: nat, n: int)
    requires Started(trace, steps) && i < j <= |steps| && n > 0
    requires steps[i] == CallWait(n) && trace[i].cpu == OnTask(t)
    requires forall k | i < k < j :: !(steps[k] == SetWaiting && trace[k].cpu == OnTask(t))
    ensures ArmedFor(trace[j], t, n)
  {
    var q := QueueAt(trace, steps, j - 1);
    assert Follows(trace, steps, j - 1);
    if i == j - 1 {
      CallWaitArms(trace[i], q, t, n);
    } else {
      ArmedUntil(trace, steps, i, j - 1, t, n);
      ArmedStep(trace[j - 1], q, steps[j - 1], t, n);
    }
  }

  lemma CallWaitArms(s: Sys, q: seq<Addr>, t: nat, n: int)
    requires Inv(s, q) && Enabled(s, CallWait(n)) && n > 0 && s.cpu == OnTask(t)
    ensures ArmedFor(Apply(s, CallWait(n)), t, n)
  {
  }

  /**
   `syscall_wait(n)`: the call made at step `i` that goes to sleep at step `j`
   stays asleep up to step `m` if fewer than `n` ticks came in between, however
   the ticks fall relative to its own `reschedule`; the n-th tick wakes it.
   */
  lemma WaitLastsExactlyNTicks(trace: seq<Sys>, steps: seq<Step>, i: nat, j: nat, m: nat, t: nat, n: int)
    requires Started(trace, steps) && i < j < m < |steps| && n > 0
    requires steps[i] == CallWait(n) && trace[i].cpu == OnTask(t)
    requires steps[j] == SetWaiting && trace[j].cpu == OnTask(t)
    requires forall k | i < k < j :: !(steps[k] == SetWaiting && trace[k].cpu == OnTask(t))
    requires Count(steps, Tick, j + 1, m) < n
    ensures SleepingFor(trace[m], t, n - Count(steps, Tick, j + 1, m))
    ensures !(steps[m] == Dispatch && trace[m].cursor == t) && !ReturnOf(trace, steps, t, m)
    ensures steps[m] == Tick && Count(steps, Tick, j + 1, m) == n - 1 ==>
              t < |trace[m + 1].tasks| && trace[m + 1].tasks[t].status == Running
  {
    ArmedUntil(trace, steps, i, j, t, n);
    assert Follows(trace, steps, j);
    ArmedStep(trace[j], QueueAt(trace, steps, j), steps[j], t, n);
    WakesExactly(trace, steps, j + 1, m, t, n);
  }

  // ---------------------------------------------------------------- round robin

  /** Slots the scan still visits before it reaches `t`. */
  function Distance(cursor: nat, t: nat, n: nat): int {
    if cursor <= t then t - cursor else n - cursor + t
  }

  ghost predicate Bypassed(trace: seq<Sys>, steps: seq<Step>, t: nat, i: nat)
    requires i < |steps| < |trace|
  {
    && t < |trace[i].tasks| && trace[i].tasks[t].status == Running
    && !(steps[i] == Dispatch && trace[i].cursor == t)
  }

  /** Ends of a scan still to come before it reaches `t`. */
  function Wraps(cursor: nat, t: nat): int {
    if cursor <= t then 0 else 1
  }

  predicate Moves(step: Step) { step == Dispatch || step == Skip }

  /** What a step costs, in slots and in ends of a scan, of the way to a task that can run. */
  lemma ScanStep(s: Sys, step: Step, t: nat)
    requires Enabled(s, step) && s.cursor <= |s.tasks| && t < |s.tasks| && s.tasks[t].status == Running
    requires !(step == Dispatch && s.cursor == t)
    ensures var d, d' := Distance(s.cursor, t, |s.tasks|), Distance(Apply(s, step).cursor, t, |s.tasks|);
            0 <= d' <= d < |s.tasks| && (Moves(step) ==> d' < d)
    ensures Wraps(Apply(s, step).cursor, t) + (if step == ScanEnd then 1 else 0) <= Wraps(s.cursor, t)
  {
    if step == DiskIrq { assert ProcessRequest(s).cursor == s.cursor; }
    else if step == Enqueue { assert EnqueueRequest(s, s.tasks[s.cpu.task].pc.frame).cursor == s.cursor; }
  }

  lemma RunScanCost(trace: seq<Sys>, steps: seq<Step>, t: nat, i: nat)
    requires Started(trace, steps) && i < |steps| && t < |trace[0].tasks| && Bypassed(trace, steps, t, i)
    ensures var n := |trace[0].tasks|;
            var d, d' := Distance(trace[i].cursor, t, n), Distance(trace[i + 1].cursor, t, n);
            0 <= d' <= d < n && (Moves(steps[i]) ==> d' < d)
    ensures Wraps(trace[i + 1].cursor, t) + (if steps[i] == ScanEnd then 1 else 0) <= Wraps(trace[i].cursor, t)
  {
    TableFixed(trace, steps, i);
    assert Follows(trace, steps, i) && Inv(trace[i], QueueAt(trace, steps, i));
    ScanStep(trace[i], steps[i], t);
  }

  lemma {:induction false} BypassRank(trace: seq<Sys>, steps: seq<Step>, t: nat, i: nat, j: nat)
    requires Started(trace, steps) && i <= j <= |steps|
    requires t < |trace[0].tasks| && forall k | i <= k < j :: Bypassed(trace, steps, t, k)
    ensures var n := |trace[0].tasks|;
            && 0 <= Distance(trace[j].cursor, t, n) <= Distance(trace[i].cursor, t, n) < n
            && Count(steps, Dispatch, i, j) + Count(steps, Skip, i, j) + Distance(trace[j].cursor, t, n)
               <= Distance(trace[i].cursor, t, n)
    ensures Count(steps, ScanEnd, i, j) + Wraps(trace[j].cursor, t) <= Wraps(trace[i].cursor, t)
  {
    if i < j {
      BypassRank(trace, steps, t, i, j - 1);
      assert Bypassed(trace, steps, t, j - 1);
      RunScanCost(trace, steps, t, j - 1);
    } else {
      TableFixed(trace, steps, i);
      assert Inv(trace[i], QueueAt(trace, steps, i));
    }
  }

  lemma {:induction false} TableFixed(trace: seq<Sys>, steps: seq<Step>, i: nat)
    requires Started(trace, steps) && i <= |steps|
    ensures |trace[i].tasks| == |trace[0].tasks|
  {
    if i > 0 {
      TableFixed(trace, steps, i - 1);
      assert Follows(trace, steps, i - 1);
      TableSize(trace[i - 1], steps[i - 1]);
    }
  }

  /**
   Bounded bypass: while a task stays runnable without being dispatched, the scan
   passes at most N - 1 slots, by a dispatch or a skip, and ends at most once; no
   task is dispatched twice.
   */
  lemma BoundedBypass(trace: seq<Sys>, steps: seq<Step>, t: nat, i: nat, j: nat)
    requires Started(trace, steps) && i <= j <= |steps|
    requires t < |trace[0].tasks| && forall k | i <= k < j :: Bypassed(trace, steps, t, k)
    ensures Count(steps, Dispatch, i, j) + Count(steps, Skip, i, j) <= |trace[0].tasks| - 1
    ensures Count(steps, ScanEnd, i, j) <= 1
    ensures forall k, l | i <= k < l < j && steps[k] == steps[l] == Dispatch :: trace[k].cursor != trace[l].cursor
  {
    BypassRank(trace, steps, t, i, j);
    forall k, l | i <= k < l < j && steps[k] == steps[l] == Dispatch ensures trace[k].cursor != trace[l].cursor {
      BypassRank(trace, steps, t, k + 1, l);
      RunScanCost(trace, steps, t, k);
    }
  }
}
