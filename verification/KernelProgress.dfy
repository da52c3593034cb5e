/**
 That things happen: the idle branch is entered when nothing can run, the loop
 finds a task when one can, and a tick takes the processor away from a task.
 */
module KernelProgress {
  import opened Common
  import opened Kernel
  import opened KernelInvariant
  import opened KernelSteps
  import opened KernelRuns
  import opened KernelSched
  import opened KernelIdle

  // ---------------------------------------------------------------- going idle

  /** A task was dispatched between state `b` and state `i`. */
  ghost predicate Dispatched(steps: seq<Step>, b: nat, i: nat)
    requires b <= i <= |steps|
  {
    exists k | b <= k < i :: steps[k] == Dispatch
  }

  lemma FoundStep(s: Sys, step: Step)
    requires Enabled(s, step)
    ensures step == Dispatch ==> Apply(s, step).found
    ensures step == ScanEnd ==> !Apply(s, step).found
    ensures step != Dispatch && step != ScanEnd ==> Apply(s, step).found == s.found
  {
    if step == DiskIrq { assert ProcessRequest(s).found == s.found; }
    else if step == Enqueue { assert EnqueueRequest(s, s.tasks[s.cpu.task].pc.frame).found == s.found; }
  }

  /** The scheduler's `found` says whether this scan has dispatched a task. */
  lemma {:induction false} FoundIff(trace: seq<Sys>, steps: seq<Step>, i: nat)
    requires Started(trace, steps) && i <= |steps|
    ensures trace[i].found <==> Dispatched(steps, ScanBegin(steps, i), i)
  {
    if i > 0 {
      assert Follows(trace, steps, i - 1);
      FoundStep(trace[i - 1], steps[i - 1]);
      FoundIff(trace, steps, i - 1);
      DispatchedGrows(steps, i);
    }
  }

  lemma DispatchedGrows(steps: seq<Step>, i: nat)
    requires 0 < i <= |steps|
    ensures steps[i - 1] != ScanEnd ==>
              (Dispatched(steps, ScanBegin(steps, i), i)
               <==> (Dispatched(steps, ScanBegin(steps, i - 1), i - 1) || steps[i - 1] == Dispatch))
  {
    var b := ScanBegin(steps, i - 1);
    if steps[i - 1] != ScanEnd && Dispatched(steps, b, i - 1) {
      var k :| b <= k < i - 1 && steps[k] == Dispatch;
      assert b <= k < i;
    }
    if steps[i - 1] == Dispatch { assert b <= i - 1 < i; }
  }

  /** The end of a scan enters the idle branch exactly if the scan has dispatched nothing. */
  lemma HaltsIff(trace: seq<Sys>, steps: seq<Step>, i: nat)
    requires Started(trace, steps) && i < |steps| && steps[i] == ScanEnd
    ensures trace[i + 1].cpu == Halted <==> !Dispatched(steps, ScanBegin(steps, i), i)
    ensures trace[i + 1].cpu == Halted || trace[i + 1].cpu == Scheduler
  {
    assert Follows(trace, steps, i);
    FoundIff(trace, steps, i);
  }

  ghost predicate NoneRunnable(s: Sys) {
    forall u | 0 <= u < |s.tasks| :: s.tasks[u].status != Running
  }

  /** A masked scan that dispatches nothing leaves the task table alone. */
  lemma {:induction false} MaskedTable(trace: seq<Sys>, steps: seq<Step>, k: nat, i: nat)
    requires Started(trace, steps) && Masked(trace, steps) && i <= |steps| && ScanBegin(steps, i) <= k <= i
    requires trace[k].cpu == Scheduler && !Dispatched(steps, ScanBegin(steps, i), i)
    ensures trace[i].cpu == Scheduler && trace[i].tasks == trace[k].tasks
  {
    if k < i {
      DispatchedGrows(steps, i);
      MaskedTable(trace, steps, k, i - 1);
      assert Follows(trace, steps, i - 1) && steps[i - 1] != Dispatch;
    }
  }

  /**
   With interrupts off while scanning, the end of a scan enters the idle branch
   exactly if no task could run at any time the scan was under way.
   */
  lemma MaskedIdleIff(trace: seq<Sys>, steps: seq<Step>, i: nat)
    requires Started(trace, steps) && Masked(trace, steps) && i < |steps| && steps[i] == ScanEnd
    ensures trace[i + 1].cpu == Halted
            <==> forall k | ScanBegin(steps, i) <= k <= i && trace[k].cpu == Scheduler :: NoneRunnable(trace[k])
  {
    HaltsIff(trace, steps, i);
    assert Follows(trace, steps, i);
    if trace[i + 1].cpu == Halted {
      IdleOnlyWhenNoneRunnable(trace, steps, i);
      forall k | ScanBegin(steps, i) <= k <= i && trace[k].cpu == Scheduler ensures NoneRunnable(trace[k]) {
        MaskedTable(trace, steps, k, i);
      }
    } else {
      var k :| ScanBegin(steps, i) <= k < i && steps[k] == Dispatch;
      assert Follows(trace, steps, k);
      assert trace[k].tasks[trace[k].cursor].status == Running;
      assert !NoneRunnable(trace[k]);
    }
  }

  // ---------------------------------------------------------------- finding a task

  /** What the scheduler loop does next, when it is left to itself. */
  ghost function LoopStep(s: Sys): Step
    requires !s.cpu.OnTask?
  {
    match s.cpu
    case Halted => LeaveHalt
    case Selected(_) => Enter
    case _ =>
      if s.cursor >= |s.tasks| then ScanEnd else if s.tasks[s.cursor].status == Running then Dispatch else Skip
  }

  /** The state after `k` steps of the loop, or earlier once a task runs. */
  ghost function Loop(s: Sys, k: nat): (r: Sys)
    requires s.fault == NoFault
    ensures r.fault == NoFault
  {
    if k == 0 then s
    else
      LoopOnce(Loop(s, k - 1))
  }

  ghost function LoopOnce(s: Sys): (r: Sys)
    requires s.fault == NoFault
    ensures r.fault == NoFault
  {
    if s.cpu.OnTask? then s else Apply(s, LoopStep(s))
  }

  /** Steps of the loop before it must have reached task `u`. */
  function Rank(s: Sys, u: nat): int {
    match s.cpu
    case OnTask(_) => 0
    case Selected(_) => 1
    case Halted => Distance(s.cursor, u, |s.tasks|) + 2 * Wraps(s.cursor, u) + 3
    case Scheduler => Distance(s.cursor, u, |s.tasks|) + 2 * Wraps(s.cursor, u) + 2
  }

  ghost predicate CanRun(s: Sys, u: nat) {
    s.fault == NoFault && u < |s.tasks| && s.cursor <= |s.tasks| && s.tasks[u].status == Running
  }

  lemma LoopRank(s: Sys, u: nat)
    requires CanRun(s, u) && !s.cpu.OnTask?
    ensures CanRun(Apply(s, LoopStep(s)), u) && Apply(s, LoopStep(s)).tasks == s.tasks
    ensures 0 <= Rank(Apply(s, LoopStep(s)), u) < Rank(s, u)
  {
  }

  /** Whoever is on the processor or chosen for it can run. */
  ghost predicate ChosenRuns(s: Sys) {
    Busy(s.cpu) ==> s.cpu.task < |s.tasks| && s.tasks[s.cpu.task].status == Running
  }

  lemma LoopChoice(s: Sys)
    requires s.fault == NoFault && !s.cpu.OnTask? && ChosenRuns(s)
    ensures ChosenRuns(Apply(s, LoopStep(s)))
  {
  }

  /** `r` is a state the loop can be in after `k` steps from `s`. */
  ghost predicate Advanced(s: Sys, u: nat, k: nat, r: Sys) {
    && CanRun(r, u) && ChosenRuns(r) && r.tasks == s.tasks && 0 <= Rank(r, u)
    && (r.cpu.OnTask? || Rank(r, u) + k <= Rank(s, u))
  }

  lemma {:induction false} LoopRuns(s: Sys, u: nat, k: nat)
    requires CanRun(s, u) && ChosenRuns(s)
    ensures Advanced(s, u, k, Loop(s, k))
  {
    if k > 0 {
      LoopRuns(s, u, k - 1);
      LoopKeeps(s, u, k - 1, Loop(s, k - 1));
    }
  }

  lemma LoopKeeps(s: Sys, u: nat, k: nat, p: Sys)
    requires Advanced(s, u, k, p)
    ensures Advanced(s, u, k + 1, LoopOnce(p))
  {
    if !p.cpu.OnTask? { LoopRank(p, u); LoopChoice(p); }
  }

  lemma RankBound(s: Sys, u: nat)
    requires CanRun(s, u)
    ensures Rank(s, u) <= |s.tasks| + 4 && (Rank(s, u) <= 0 ==> s.cpu.OnTask?)
  {
  }

  /** Within N + 5 steps of the loop alone a task that can run is on the processor, if there is one. */
  lemma LoopFindsTask(s: Sys, u: nat, k: nat)
    requires CanRun(s, u) && ChosenRuns(s) && k == |s.tasks| + 5
    ensures Loop(s, k).cpu.OnTask? && ChosenRuns(Loop(s, k)) && Loop(s, k).tasks == s.tasks
  {
    LoopRuns(s, u, k);
    RankBound(s, u);
  }

  /**
   In any state of any run in which the scheduler has the processor and a task can
   run, the loop, left to itself, puts one on the processor within N + 5 steps,
   from the halt as well.
   */
  lemma SchedulerFindsTask(trace: seq<Sys>, steps: seq<Step>, i: nat, u: nat, k: nat)
    requires Started(trace, steps) && i <= |steps| && !trace[i].cpu.OnTask?
    requires u < |trace[i].tasks| && trace[i].tasks[u].status == Running && k == |trace[i].tasks| + 5
    ensures trace[i].fault == NoFault && Loop(trace[i], k).cpu.OnTask?
    ensures ChosenRuns(Loop(trace[i], k)) && Loop(trace[i], k).tasks == trace[i].tasks
  {
    ReadyState(trace, steps, i);
    LoopFindsTask(trace[i], u, k);
  }

  lemma ReadyState(trace: seq<Sys>, steps: seq<Step>, i: nat)
    requires Started(trace, steps) && i <= |steps| && !trace[i].cpu.OnTask?
    ensures trace[i].fault == NoFault && trace[i].cursor <= |trace[i].tasks| && ChosenRuns(trace[i])
  {
    assert Inv(trace[i], QueueAt(trace, steps, i));
    if trace[i].cpu.Selected? { assert TaskOk(trace[i], trace[i].cpu.task); }
  }

  // ---------------------------------------------------------------- preemption

  /** A tick that lands on a task's code, outside the tail of its `reschedule`. */
  predicate Preempts(s: Sys, step: Step) {
    step == Tick && s.cpu.OnTask? && s.current.Some?
  }

  /** Such a tick takes the processor from the task, which keeps its place and, if it could run, still can. */
  lemma TickPreempts(trace: seq<Sys>, steps: seq<Step>, i: nat)
    requires Started(trace, steps) && i < |steps| && Preempts(trace[i], steps[i])
    ensures trace[i + 1].cpu == Scheduler && trace[i + 1].current == None
    ensures var t := trace[i].cpu.task;
            && t < |trace[i].tasks| == |trace[i + 1].tasks| && trace[i + 1].tasks[t].pc == trace[i].tasks[t].pc
            && (trace[i].tasks[t].status == Running ==> trace[i + 1].tasks[t].status == Running)
  {
    assert Follows(trace, steps, i) && Inv(trace[i], QueueAt(trace, steps, i));
    TickLeaves(trace[i]);
  }

  lemma TickLeaves(s: Sys)
    requires CpuOk(s) && Preempts(s, Tick)
    ensures var s' := TimerTick(s);
            && s'.cpu == Scheduler && s'.current == None
            && |s'.tasks| == |s.tasks| && s'.tasks[s.cpu.task].pc == s.tasks[s.cpu.task].pc
            && (s.tasks[s.cpu.task].status == Running ==> s'.tasks[s.cpu.task].status == Running)
  {
  }

  ghost function Preemptions(trace: seq<Sys>, steps: seq<Step>, i: nat, j: nat): nat
    requires i <= j <= |steps| < |trace|
  {
    if i == j then 0 else Preemptions(trace, steps, i, j - 1) + if Preempts(trace[j - 1], steps[j - 1]) then 1 else 0
  }

  function Occupied(s: Sys): int { if Busy(s.cpu) then 1 else 0 }

  lemma OccupiedStep(s: Sys, step: Step)
    requires CpuOk(s) && Enabled(s, step)
    ensures Occupied(Apply(s, step)) + (if Preempts(s, step) then 1 else 0)
            <= Occupied(s) + (if step == Dispatch then 1 else 0)
  {
    if step == DiskIrq { assert ProcessRequest(s).cpu == s.cpu; }
    else if step == Enqueue { assert EnqueueRequest(s, s.tasks[s.cpu.task].pc.frame).cpu == s.cpu; }
  }

  lemma {:induction false} PreemptionsPaid(trace: seq<Sys>, steps: seq<Step>, i: nat, j: nat)
    requires Started(trace, steps) && i <= j <= |steps|
    ensures Preemptions(trace, steps, i, j) + Occupied(trace[j]) <= Count(steps, Dispatch, i, j) + Occupied(trace[i])
  {
    if i < j {
      PreemptionsPaid(trace, steps, i, j - 1);
      assert Follows(trace, steps, j - 1) && Inv(trace[j - 1], QueueAt(trace, steps, j - 1));
      OccupiedStep(trace[j - 1], steps[j - 1]);
    }
  }

  /**
   A task that can run waits for at most N ticks that land on task code: each of
   them ends the turn of one task, and no task has a second turn meanwhile.
   */
  lemma TurnsEnd(trace: seq<Sys>, steps: seq<Step>, t: nat, i: nat, j: nat)
    requires Started(trace, steps) && i <= j <= |steps|
    requires t < |trace[0].tasks| && forall k | i <= k < j :: Bypassed(trace, steps, t, k)
    ensures Preemptions(trace, steps, i, j) <= |trace[0].tasks|
  {
    BoundedBypass(trace, steps, t, i, j);
    PreemptionsPaid(trace, steps, i, j);
  }
}
