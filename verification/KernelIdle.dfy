/**
 When the processor goes idle, and when interrupts can reach the scheduler.
 */
module KernelIdle {
  import opened Common
  import opened Kernel
  import opened KernelInvariant
  import opened KernelSteps
  import opened KernelRuns

  // ---------------------------------------------------------------- the scan

  predicate IsRunning(s: Sys, u: nat) {
    u < |s.tasks| && s.tasks[u].status == Running
  }

  /** The scheduler scans, has dispatched nothing in this scan and is past slot `u`. */
  predicate Passed(s: Sys, u: nat) {
    s.cpu == Scheduler && !s.found && u < s.cursor
  }

  ghost predicate ScanShape(s: Sys) {
    (s.cpu == Halted ==> s.cursor == 0 && !s.found) && (Busy(s.cpu) ==> s.found)
  }

  /** Index of the first state of the scan that state `i` belongs to. */
  function ScanBegin(steps: seq<Step>, i: nat): (b: nat)
    requires i <= |steps|
    ensures b <= i
  {
    if i == 0 then 0 else if steps[i - 1] == ScanEnd then i else ScanBegin(steps, i - 1)
  }

  /** Step `k` is an interrupt that makes task `u` runnable after the scan has passed it. */
  ghost predicate WakesBehind(trace: seq<Sys>, steps: seq<Step>, k: nat, u: nat)
    requires k < |steps| < |trace|
  {
    steps[k] in {Tick, DiskIrq} && u < trace[k].cursor && !IsRunning(trace[k], u) && IsRunning(trace[k + 1], u)
  }

  ghost predicate WokenBehind(trace: seq<Sys>, steps: seq<Step>, i: nat, u: nat)
    requires i <= |steps| < |trace|
  {
    exists k | ScanBegin(steps, i) <= k < i :: WakesBehind(trace, steps, k, u)
  }

  /**
   Within a scan the cursor only moves on and a dispatch is not forgotten. A slot
   that is passed after a step was passed before it, or is the one just skipped.
   */
  ghost predicate ScanStepOk(s: Sys, step: Step, s': Sys, u: nat) {
    && (step != ScanEnd ==> s.cursor <= s'.cursor && (s.found ==> s'.found))
    && (Passed(s', u) ==>
          && s.cpu == Scheduler && !s.found && step != ScanEnd
          && (u < s.cursor && IsRunning(s, u) ==> IsRunning(s', u))
          && (u < s.cursor && !IsRunning(s, u) && IsRunning(s', u) ==> step in {Tick, DiskIrq})
          && (u >= s.cursor ==> u == s.cursor && !IsRunning(s', u)))
  }

  lemma ScanStepExact(s: Sys, q: seq<Addr>, step: Step, u: nat)
    requires Inv(s, q) && Allowed(s, step) && ScanShape(s)
    ensures ScanShape(Apply(s, step))
    ensures ScanStepOk(s, step, Apply(s, step), u)
  {
    if step == DiskIrq { DiskIrqKeeps(s, q); }
    else if step == Enqueue { EnqueueShape(s, q, s.tasks[s.cpu.task].pc.frame); }
  }

  lemma RunScanStep(trace: seq<Sys>, steps: seq<Step>, i: nat, u: nat)
    requires Started(trace, steps) && i < |steps| && ScanShape(trace[i])
    ensures ScanShape(trace[i + 1]) && ScanStepOk(trace[i], steps[i], trace[i + 1], u)
  {
    assert Follows(trace, steps, i);
    ScanStepExact(trace[i], QueueAt(trace, steps, i), steps[i], u);
  }

  lemma {:induction false} CursorGrows(trace: seq<Sys>, steps: seq<Step>, k: nat, i: nat)
    requires Started(trace, steps) && i <= |steps| && ScanBegin(steps, i) <= k <= i
    ensures trace[k].cursor <= trace[i].cursor && (trace[k].found ==> trace[i].found)
  {
    if k < i {
      CursorGrows(trace, steps, k, i - 1);
      ShapeAt(trace, steps, i - 1);
      RunScanStep(trace, steps, i - 1, 0);
    }
  }

  lemma {:induction false} ShapeAt(trace: seq<Sys>, steps: seq<Step>, i: nat)
    requires Started(trace, steps) && i <= |steps|
    ensures ScanShape(trace[i])
  {
    if i > 0 {
      ShapeAt(trace, steps, i - 1);
      RunScanStep(trace, steps, i - 1, 0);
    }
  }

  /** A task that was passed can run exactly if an interrupt of the same scan woke it afterwards. */
  lemma {:induction false} PassedRunsIff(trace: seq<Sys>, steps: seq<Step>, i: nat, u: nat)
    requires Started(trace, steps) && i <= |steps| && Passed(trace[i], u)
    ensures IsRunning(trace[i], u) <==> WokenBehind(trace, steps, i, u)
  {
    if i > 0 {
      ShapeAt(trace, steps, i - 1);
      RunScanStep(trace, steps, i - 1, u);
      if u < trace[i - 1].cursor {
        PassedRunsIff(trace, steps, i - 1, u);
        WokenGrows(trace, steps, i, u);
      } else {
        forall k | ScanBegin(steps, i) <= k < i ensures !WakesBehind(trace, steps, k, u) {
          CursorGrows(trace, steps, k, i - 1);
        }
      }
    }
  }

  lemma WokenGrows(trace: seq<Sys>, steps: seq<Step>, i: nat, u: nat)
    requires 0 < i <= |steps| < |trace| && steps[i - 1] != ScanEnd
    ensures WokenBehind(trace, steps, i, u)
            <==> (WokenBehind(trace, steps, i - 1, u) || WakesBehind(trace, steps, i - 1, u))
  {
    if WokenBehind(trace, steps, i - 1, u) {
      var k :| ScanBegin(steps, i - 1) <= k < i - 1 && WakesBehind(trace, steps, k, u);
      assert ScanBegin(steps, i) <= k < i;
    }
    if WokenBehind(trace, steps, i, u) {
      var k :| ScanBegin(steps, i) <= k < i && WakesBehind(trace, steps, k, u);
      assert k == i - 1 || ScanBegin(steps, i - 1) <= k < i - 1;
    }
  }

  lemma HaltStep(s: Sys, step: Step)
    requires Enabled(s, step) && s.cpu != Halted && s.cursor <= |s.tasks|
    ensures Apply(s, step).cpu == Halted ==>
              step == ScanEnd && !s.found && s.cpu == Scheduler && s.cursor == |s.tasks|
                && Apply(s, step).tasks == s.tasks
  {
    if step == DiskIrq { assert ProcessRequest(s).cpu == s.cpu; }
    else if step == Enqueue { assert EnqueueRequest(s, s.tasks[s.cpu.task].pc.frame).cpu == s.cpu; }
  }

  /**
   The processor goes idle in a state where task `u` can run exactly if an
   interrupt reached the scan that found nothing and woke `u` behind it.
   */
  lemma IdleIff(trace: seq<Sys>, steps: seq<Step>, i: nat, u: nat)
    requires Started(trace, steps) && i < |steps| && u < |trace[i].tasks|
    requires trace[i].cpu != Halted && trace[i + 1].cpu == Halted
    ensures trace[i].cpu == Scheduler && !trace[i].found && trace[i + 1].tasks == trace[i].tasks
    ensures trace[i].tasks[u].status == Running <==> WokenBehind(trace, steps, i, u)
  {
    assert Follows(trace, steps, i);
    assert Inv(trace[i], QueueAt(trace, steps, i));
    HaltStep(trace[i], steps[i]);
    PassedRunsIff(trace, steps, i, u);
  }

  /** With interrupts off while scanning, the processor halts only when no task can run. */
  lemma IdleOnlyWhenNoneRunnable(trace: seq<Sys>, steps: seq<Step>, i: nat)
    requires Started(trace, steps) && Masked(trace, steps) && i < |steps|
    requires trace[i].cpu != Halted && trace[i + 1].cpu == Halted
    ensures forall u | 0 <= u < |trace[i].tasks| :: trace[i].tasks[u].status != Running
  {
    forall u | 0 <= u < |trace[i].tasks| ensures trace[i].tasks[u].status != Running {
      IdleIff(trace, steps, i, u);
      forall k | ScanBegin(steps, i) <= k < i ensures !WakesBehind(trace, steps, k, u) {
        CursorGrows(trace, steps, k, i);
        ShapeAt(trace, steps, k);
      }
    }
  }

  // ---------------------------------------------------------------- the interrupt flag

  /**
   Whether the interrupt flag can be set in state `i`. Task code may run with it
   set. The timer's gate clears it before it leaves for the scheduler; a syscall's
   gate does not, and `__switch_to` carries the flag over as it is. The idle
   branch sets it for the halt and clears it afterwards.
   */
  ghost function FlagMaySet(trace: seq<Sys>, steps: seq<Step>, i: nat): bool
    requires i <= |steps| < |trace|
  {
    if i == 0 then false
    else
      match steps[i - 1]
      case Enter => true
      case Tick => if trace[i - 1].current.Some? then false else FlagMaySet(trace, steps, i - 1)
      case ScanEnd => trace[i].cpu == Halted || FlagMaySet(trace, steps, i - 1)
      case LeaveHalt => false
      case _ => FlagMaySet(trace, steps, i - 1)
  }

  /** Interrupts come only where the flag can be set. */
  ghost predicate Gated(trace: seq<Sys>, steps: seq<Step>)
    requires |trace| == |steps| + 1
  {
    forall i | 0 <= i < |steps| && steps[i] in {Tick, DiskIrq} :: FlagMaySet(trace, steps, i)
  }

  predicate SchedulerCode(cpu: Cpu) { cpu == Scheduler || cpu.Selected? }

  /** Step `k` enters the scheduler from a syscall's `reschedule`, and its code runs from then on up to state `i`. */
  ghost predicate SyscallEntry(trace: seq<Sys>, steps: seq<Step>, k: nat, i: nat)
    requires k < i <= |steps| < |trace|
  {
    steps[k] == SwitchOut && forall l | k < l <= i :: SchedulerCode(trace[l].cpu)
  }

  lemma SideStep(s: Sys, q: seq<Addr>, step: Step)
    requires Inv(s, q) && Allowed(s, step) && SchedulerCode(Apply(s, step).cpu)
    ensures step != Enter
    ensures SchedulerCode(s.cpu) || step == SwitchOut || step == LeaveHalt || (step == Tick && s.current.Some?)
  {
    if step == DiskIrq { DiskIrqKeeps(s, q); }
    else if step == Enqueue { EnqueueShape(s, q, s.tasks[s.cpu.task].pc.frame); }
  }

  lemma RunSideStep(trace: seq<Sys>, steps: seq<Step>, i: nat)
    requires Started(trace, steps) && i < |steps| && SchedulerCode(trace[i + 1].cpu)
    ensures steps[i] != Enter
    ensures SchedulerCode(trace[i].cpu) || steps[i] == SwitchOut || steps[i] == LeaveHalt
            || (steps[i] == Tick && trace[i].current.Some?)
  {
    assert Follows(trace, steps, i);
    SideStep(trace[i], QueueAt(trace, steps, i), steps[i]);
  }

  /** Scheduler code can be interrupted only in the part of a run that follows a syscall's `reschedule`. */
  lemma {:induction false} FlagFromSyscall(trace: seq<Sys>, steps: seq<Step>, i: nat) returns (k: nat)
    requires Started(trace, steps) && i <= |steps| && FlagMaySet(trace, steps, i) && SchedulerCode(trace[i].cpu)
    ensures k < i && SyscallEntry(trace, steps, k, i)
  {
    RunSideStep(trace, steps, i - 1);
    if steps[i - 1] == SwitchOut { k := i - 1; } else { k := FlagFromSyscall(trace, steps, i - 1); }
  }

  /** If tasks leave the processor through the timer only, the scan is masked. */
  lemma MaskedWithoutSyscalls(trace: seq<Sys>, steps: seq<Step>)
    requires Started(trace, steps) && Gated(trace, steps) && SwitchOut !in steps
    ensures Masked(trace, steps)
  {
    forall i | 0 <= i < |steps| && steps[i] in {Tick, DiskIrq} ensures trace[i].cpu != Scheduler {
      if trace[i].cpu == Scheduler { var k := FlagFromSyscall(trace, steps, i); }
    }
  }

  // ---------------------------------------------------------------- an unmasked scan

  /** Two runs that meet make one. */
  lemma RunsJoin(t1: seq<Sys>, p1: seq<Step>, t2: seq<Sys>, p2: seq<Step>)
    requires IsRun(t1, p1) && IsRun(t2, p2) && t1[|p1|] == t2[0]
    ensures IsRun(t1 + t2[1..], p1 + p2)
  {
    var trace, steps := t1 + t2[1..], p1 + p2;
    forall i | 0 <= i < |steps| ensures Follows(trace, steps, i) {
      if i < |p1| { assert Follows(t1, p1, i); } else { assert Follows(t2, p2, i - |p1|); }
    }
  }

  lemma OneStep(s: Sys, step: Step)
    requires Allowed(s, step)
    ensures IsRun([s, Apply(s, step)], [step])
  {
    assert Follows([s, Apply(s, step)], [step], 0);
  }

  lemma RunExtends(trace: seq<Sys>, steps: seq<Step>, step: Step)
    requires IsRun(trace, steps) && Allowed(trace[|steps|], step)
    ensures IsRun(trace + [Apply(trace[|steps|], step)], steps + [step])
  {
    var s := trace[|steps|];
    OneStep(s, step);
    RunsJoin(trace, steps, [s, Apply(s, step)], [step]);
    assert trace + [s, Apply(s, step)][1..] == trace + [Apply(s, step)];
  }

  lemma EntersTask(s0: Sys) returns (trace: seq<Sys>, steps: seq<Step>)
    requires Init(s0) && |s0.tasks| > 0 && s0.tasks[0] == Task(Running, 0, User)
    ensures IsRun(trace, steps) && |steps| == 2 && trace[0] == s0 && steps == [Dispatch, Enter]
    ensures trace[2] == s0.(current := Some(0), cpu := OnTask(0), cursor := 1, found := true)
  {
    OneStep(s0, Dispatch);
    trace, steps := [s0, Apply(s0, Dispatch)], [Dispatch];
    RunExtends(trace, steps, Enter);
    trace, steps := trace + [Apply(trace[1], Enter)], steps + [Enter];
  }

  /** The first task, just dispatched, goes to sleep for one tick. */
  lemma SleepsOneTick(s: Sys) returns (trace: seq<Sys>, steps: seq<Step>)
    requires |s.tasks| > 0 && s.tasks[0] == Task(Running, 0, User)
    requires s.cpu == OnTask(0) && s.current == Some(0) && s.fault == NoFault
    ensures IsRun(trace, steps) && trace[0] == s && steps == [CallWait(1), SetWaiting, LoadOld, ClearCurrent, SwitchOut]
    ensures trace[5] == s.(tasks := s.tasks[0 := Task(Waiting, 1, Back(FromWait))], cpu := Scheduler, current := None)
  {
    OneStep(s, CallWait(1));
    trace, steps := [s, Apply(s, CallWait(1))], [CallWait(1)];
    RunExtends(trace, steps, SetWaiting);
    trace, steps := trace + [Apply(trace[1], SetWaiting)], steps + [SetWaiting];
    RunExtends(trace, steps, LoadOld);
    trace, steps := trace + [Apply(trace[2], LoadOld)], steps + [LoadOld];
    RunExtends(trace, steps, ClearCurrent);
    trace, steps := trace + [Apply(trace[3], ClearCurrent)], steps + [ClearCurrent];
    RunExtends(trace, steps, SwitchOut);
    trace, steps := trace + [Apply(trace[4], SwitchOut)], steps + [SwitchOut];
  }

  /** The scan passes the sleeping task, a tick wakes it, and the scan ends in the idle branch. */
  lemma HaltsBehindCursor(s: Sys) returns (trace: seq<Sys>, steps: seq<Step>)
    requires s.tasks == [Task(Waiting, 1, Back(FromWait))] && s.cpu == Scheduler && s.current == None
    requires s.fault == NoFault && s.cursor == 1 && s.found
    ensures IsRun(trace, steps) && trace[0] == s && steps == [ScanEnd, Skip, Tick, ScanEnd]
    ensures trace[3].cpu == Scheduler && trace[4].cpu == Halted && trace[4].tasks == [Task(Running, 0, Back(FromWait))]
  {
    OneStep(s, ScanEnd);
    trace, steps := [s, Apply(s, ScanEnd)], [ScanEnd];
    RunExtends(trace, steps, Skip);
    trace, steps := trace + [Apply(trace[1], Skip)], steps + [Skip];
    RunExtends(trace, steps, Tick);
    trace, steps := trace + [Apply(trace[2], Tick)], steps + [Tick];
    RunExtends(trace, steps, ScanEnd);
    trace, steps := trace + [Apply(trace[3], ScanEnd)], steps + [ScanEnd];
  }

  const SLEEP_STEPS := [Dispatch, Enter, CallWait(1), SetWaiting, LoadOld, ClearCurrent, SwitchOut]

  /** The first task is dispatched and leaves in `syscall_wait(1)`. */
  lemma SleepsInSyscall(s0: Sys) returns (trace: seq<Sys>, steps: seq<Step>)
    requires Init(s0) && |s0.tasks| > 0 && s0.tasks[0] == Task(Running, 0, User)
    ensures IsRun(trace, steps) && steps == SLEEP_STEPS && trace[0] == s0
    ensures trace[7] == s0.(tasks := s0.tasks[0 := Task(Waiting, 1, Back(FromWait))], cursor := 1, found := true)
  {
    var t0, p0 := EntersTask(s0);
    var t1, p1 := SleepsOneTick(t0[2]);
    RunsJoin(t0, p0, t1, p1);
    trace, steps := t0 + t1[1..], p0 + p1;
  }

  /** The scheduler it leaves for has the flag of the syscall. */
  lemma FlagAfterSleep(trace: seq<Sys>, steps: seq<Step>)
    requires |steps| >= 7 && |trace| == |steps| + 1 && steps[..7] == SLEEP_STEPS
    ensures FlagMaySet(trace, steps, 7) && forall i | 0 <= i < 7 :: steps[i] !in {Tick, DiskIrq}
  {
    forall i | 0 <= i < 7 ensures steps[i] == SLEEP_STEPS[i] { assert steps[i] == steps[..7][i]; }
    assert FlagMaySet(trace, steps, 2);
    assert FlagMaySet(trace, steps, 4);
    assert FlagMaySet(trace, steps, 6);
  }

  /**
   Without the masking hypothesis the processor can go idle with a runnable
   task: a tick that lands after the scan has passed a sleeping task wakes it
   behind the cursor. The flag is set there, since the task left in a syscall.
   */
  lemma IdleNeedsMasking(s0: Sys) returns (trace: seq<Sys>, steps: seq<Step>)
    requires Init(s0) && s0.tasks == [Task(Running, 0, User)]
    ensures IsRun(trace, steps) && |steps| == 11 && trace[0] == s0 && Gated(trace, steps)
    ensures trace[10].cpu != Halted && trace[11].cpu == Halted
    ensures |trace[11].tasks| == 1 && trace[11].tasks[0].status == Running
  {
    trace, steps := SleepsInSyscall(s0);
    var t2, p2 := HaltsBehindCursor(trace[7]);
    RunsJoin(trace, steps, t2, p2);
    trace, steps := trace + t2[1..], steps + p2;
    FlagAfterSleep(trace, steps);
    assert steps[7] == ScanEnd && steps[8] == Skip;
    assert FlagMaySet(trace, steps, 9);
  }

  /**
   A tick can hit a dispatch: with two tasks that can run, the first one leaves in
   a syscall, the scheduler chooses the second, and the flag is set between the
   two halves of that dispatch.
   */
  lemma TickCanHitDispatch(s0: Sys) returns (trace: seq<Sys>, steps: seq<Step>)
    requires Init(s0) && |s0.tasks| == 2 && s0.tasks[0] == Task(Running, 0, User) && s0.tasks[1].status == Running
    ensures Started(trace, steps) && trace[0] == s0 && Gated(trace, steps) && |steps| == 8
    ensures FlagMaySet(trace, steps, 8) && Enabled(trace[8], Tick) && TickInDispatch(trace[8], Tick)
    ensures Apply(trace[8], Tick).fault == Clobbered
  {
    trace, steps := SleepsInSyscall(s0);
    RunExtends(trace, steps, Dispatch);
    trace, steps := trace + [Apply(trace[7], Dispatch)], steps + [Dispatch];
    FlagAfterSleep(trace, steps);
  }
}
