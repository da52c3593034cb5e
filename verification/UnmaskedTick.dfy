/**
 What a tick between `current = task` and the switch does: over all runs, and in
 one run from any state of the scheduler. When interrupts can reach the scheduler.
 */
module UnmaskedTick {
  import opened Machine
  import opened Interrupts
  import opened TaskFrame
  import opened Switching
  import opened SwitchRuns
  import opened Resumption

  // ---------------------------------------------------------------- the stale context

  ghost predicate SchedulerCtxSame(lay: Layout, mem: Memory, mem': Memory)
    requires LayoutOk(lay) && |lay.ctx| > 0
  {
    Same(mem, mem', lay.ctx[0], lay.ctx[0] + 20)
  }

  lemma SwitchElsewhere(lay: Layout, c: Cpu, k: Cpu, r: nat, f: nat, to: int, ret: Word)
    requires LayoutOk(lay) && 0 < f < |lay.ctx| && OnOwnStack(lay, r, c) && Switched(c, k, lay.ctx[f], to, ret)
    ensures SchedulerCtxSame(lay, c.mem, k.mem)
  {
    assert PartiesApart(lay, 0, r) && PartiesApart(lay, 0, f);
  }

  lemma TickElsewhere(lay: Layout, s: State, act: Act, s': State)
    requires LayoutOk(lay) && act.Tick? && TickStep(lay, s, act, s')
    ensures SchedulerCtxSame(lay, s.c.mem, s'.c.mem)
  {
    if s.cur != 0 {
      assert PartiesApart(lay, 0, s.running);
      SwitchElsewhere(lay, act.h, s'.c, s.running, s.cur, lay.ctx[0], act.ret);
      forall a | lay.ctx[0] <= a < lay.ctx[0] + 20 ensures Get(s'.c.mem, a) == Get(s.c.mem, a) {
        assert Get(s'.c.mem, a) == Get(act.h.mem, a) == Get(act.k.mem, a);
      }
    }
  }

  /** Only a dispatch writes the scheduler's context. */
  lemma ContextElsewhere(lay: Layout, s: State, act: Act, s': State)
    requires LayoutOk(lay) && Step(lay, s, act, s') && !act.Dispatch?
    ensures SchedulerCtxSame(lay, s.c.mem, s'.c.mem)
  {
    match act
    case SwitchOut(ret, _) => SwitchElsewhere(lay, s.c, s'.c, s.running, s.running, lay.ctx[0], ret);
    case Tick(_, _, _, _, _) => TickElsewhere(lay, s, act, s');
    case Create(_, _, _, _) => assert SameParty(lay, s.c.mem, s'.c.mem, 0);
    case _ =>
  }

  lemma {:induction false} ContextStale(lay: Layout, trace: seq<State>, acts: seq<Act>, i: nat, j: nat)
    requires LayoutOk(lay) && IsRun(lay, trace, acts) && i <= j <= |acts| && |lay.ctx| > 0
    requires forall k | i <= k < j :: !acts[k].Dispatch?
    ensures SchedulerCtxSame(lay, trace[i].c.mem, trace[j].c.mem)
  {
    if i < j {
      ContextStale(lay, trace, acts, i, j - 1);
      assert StepAt(lay, trace, acts, j - 1);
      ContextElsewhere(lay, trace[j - 1], acts[j - 1], trace[j]);
    }
  }

  /** The registers that lie in a context. */
  ghost predicate LoadedFrom(r: Regs, mem: Memory, ctx: int) {
    && r.esp == Load32(mem, ctx) + 4 && r.ebp == Load32(mem, ctx + 4) && r.esi == Load32(mem, ctx + 8)
    && r.edi == Load32(mem, ctx + 12) && r.ebx == Load32(mem, ctx + 16)
  }

  lemma BadTickLoads(lay: Layout, trace: seq<State>, acts: seq<Act>, k: nat)
    requires LayoutOk(lay) && IsRun(lay, trace, acts) && k < |acts| && BadTick(trace[k], acts[k])
    ensures |lay.ctx| > 0 && trace[k + 1].running == 0 && LoadedFrom(trace[k + 1].c.r, trace[k + 1].c.mem, lay.ctx[0])
  {
    assert StepAt(lay, trace, acts, k);
  }

  lemma DispatchStores(lay: Layout, trace: seq<State>, acts: seq<Act>, i: nat)
    requires LayoutOk(lay) && IsRun(lay, trace, acts) && i < |acts| && acts[i].Dispatch?
    ensures |lay.ctx| > 0 && ContextIs(trace[i + 1].c.mem, lay.ctx[0], trace[i].c.r.(esp := trace[i].c.r.esp - 12))
  {
    assert StepAt(lay, trace, acts, i);
  }

  lemma ContextSame(mem: Memory, mem': Memory, ctx: int, r: Regs)
    requires Same(mem, mem', ctx, ctx + 20) && ContextIs(mem, ctx, r)
    ensures ContextIs(mem', ctx, r)
  {
    SameWord(mem, mem', ctx, ctx + 20, ctx);
    SameWord(mem, mem', ctx, ctx + 20, ctx + 4);
    SameWord(mem, mem', ctx, ctx + 20, ctx + 8);
    SameWord(mem, mem', ctx, ctx + 20, ctx + 12);
    SameWord(mem, mem', ctx, ctx + 20, ctx + 16);
  }

  /**
   A bad tick in step `k` of any run does not return to the interrupted code: the
   scheduler goes on with the stack pointer and registers it had in its last
   dispatch, step `i`, from which it had already returned.
   */
  lemma BadTickGoesBack(lay: Layout, trace: seq<State>, acts: seq<Act>, i: nat, k: nat)
    requires LayoutOk(lay) && IsRun(lay, trace, acts) && i < k < |acts| && acts[i].Dispatch?
             && BadTick(trace[k], acts[k])
    requires forall l | i < l < k :: !acts[l].Dispatch?
    ensures var a, b := trace[i].c.r, trace[k + 1].c.r;
            trace[k + 1].running == 0 && b.esp == a.esp - 8 && b.ebp == a.ebp && b.esi == a.esi && b.edi == a.edi
              && b.ebx == a.ebx
  {
    DispatchStores(lay, trace, acts, i);
    BadTickLoads(lay, trace, acts, k);
    ContextStale(lay, trace, acts, i + 1, k + 1);
    ContextSame(trace[i + 1].c.mem, trace[k + 1].c.mem, lay.ctx[0], trace[i].c.r.(esp := trace[i].c.r.esp - 12));
  }

  // ---------------------------------------------------------------- the flag

  /** Step `i` enters the scheduler from a task's `reschedule` with IF set, and scheduler code runs up to state `k`. */
  ghost predicate EnteredWithFlag(trace: seq<State>, acts: seq<Act>, i: nat, k: nat)
    requires i < k <= |acts| < |trace|
  {
    acts[i].SwitchOut? && IfSet(trace[i].c.r) && forall l | i < l <= k :: trace[l].running == 0
  }

  lemma FlagStep(lay: Layout, s: State, act: Act, s': State)
    requires LayoutOk(lay) && Step(lay, s, act, s') && s'.running == 0 && IfSet(s'.c.r)
    ensures IfSet(s.c.r) && (s.running != 0 ==> act.SwitchOut?)
  {
  }

  /**
   If the scheduler starts with interrupts off, it can be interrupted only after a
   task entered it from its own `reschedule`, in a syscall: never after a tick.
   */
  lemma {:induction false} FlagFromReschedule(lay: Layout, trace: seq<State>, acts: seq<Act>, k: nat) returns (i: nat)
    requires LayoutOk(lay) && IsRun(lay, trace, acts) && k <= |acts|
    requires trace[0].running == 0 && !IfSet(trace[0].c.r) && trace[k].running == 0 && IfSet(trace[k].c.r)
    ensures i < k && EnteredWithFlag(trace, acts, i, k)
  {
    assert StepAt(lay, trace, acts, k - 1);
    FlagStep(lay, trace[k - 1], acts[k - 1], trace[k]);
    if trace[k - 1].running != 0 { i := k - 1; } else { i := FlagFromReschedule(lay, trace, acts, k - 1); }
  }

  // ---------------------------------------------------------------- a run

  lemma OneStep(lay: Layout, s: State, act: Act, s': State)
    requires LayoutOk(lay) && Step(lay, s, act, s')
    ensures IsRun(lay, [s, s'], [act])
  {
    assert StepAt(lay, [s, s'], [act], 0);
  }

  /** Two runs that meet make one. */
  lemma RunsJoin(lay: Layout, t1: seq<State>, a1: seq<Act>, t2: seq<State>, a2: seq<Act>)
    requires LayoutOk(lay) && IsRun(lay, t1, a1) && IsRun(lay, t2, a2) && t1[|a1|] == t2[0]
    ensures IsRun(lay, t1 + t2[1..], a1 + a2)
  {
    var trace, acts := t1 + t2[1..], a1 + a2;
    forall i | 0 <= i < |acts| ensures StepAt(lay, trace, acts, i) {
      if i < |a1| { assert StepAt(lay, t1, a1, i); } else { assert StepAt(lay, t2, a2, i - |a1|); }
    }
  }

  /** Scheduler code with room on its stack. */
  ghost predicate Roomy(lay: Layout, c: Cpu)
    requires LayoutOk(lay) && |lay.ctx| > 0
  {
    lay.stack[0] + 100 <= c.r.esp <= lay.stack[0] + 4096 && !InUser(c.r)
  }

  method CreateTask(lay: Layout, c: Cpu, t: nat, taskInit: Word, jumpUser: Word, eip: Word)
    returns (act: Act, s': State)
    requires LayoutOk(lay) && 0 < t < |lay.ctx|
    ensures act == Create(t, taskInit, jumpUser, eip) && Step(lay, State(c, 0, 0, map[]), act, s')
    ensures s'.c.r == c.r && s'.running == 0 && s'.cur == 0 && s'.saved.Keys == {t}
    ensures NeverRan(lay, s', t, taskInit, jumpUser, eip)
  {
    var mem := NewTask(lay, c.mem, t, taskInit, jumpUser, eip);
    act := Create(t, taskInit, jumpUser, eip);
    s' := State(Cpu(c.r, mem), 0, 0, map[t := Saved(SnapAt(mem, lay.ctx[t]), [])]);
  }

  /** `__switch_to` from party `p`, which runs, to party `q`. */
  method SwitchBetween(lay: Layout, c: Cpu, p: nat, q: nat, ret: Word) returns (k: Cpu)
    requires LayoutOk(lay) && OnOwnStack(lay, p, c) && q < |lay.ctx|
    ensures Switched(c, k, lay.ctx[p], lay.ctx[q], ret) && k.r.cs == c.r.cs && k.r.eflags == c.r.eflags
  {
    assert AddressOk(lay, p) && AddressOk(lay, q) && PartiesApart(lay, p, p);
    k := CallSwitchTo(c, lay.ctx[p], lay.ctx[q], ret);
  }

  /** `current = task` is done; the switch to the task. */
  method DispatchTask(lay: Layout, s: State, ret: Word) returns (s': State)
    requires LayoutOk(lay) && Shape(lay, s) && s.running == 0 && s.cur != 0 && s.cur < |lay.ctx|
             && OnOwnStack(lay, 0, s.c)
    ensures Step(lay, s, Dispatch(ret), s') && s'.c.r.cs == s.c.r.cs
    ensures s'.running == s'.cur == s.cur && s'.saved == Handed(s, 0, Saved(SnapOf(s.c.r, ret), []), s.cur)
  {
    var k := SwitchBetween(lay, s.c, 0, s.cur, ret);
    s' := State(k, s.cur, s.cur, Handed(s, 0, Saved(SnapOf(s.c.r, ret), []), s.cur));
  }

  /** `current` is cleared; the switch back to the scheduler. */
  method LeaveTask(lay: Layout, s: State, ret: Word) returns (s': State)
    requires LayoutOk(lay) && Shape(lay, s) && s.running != 0 && s.cur == 0 && OnOwnStack(lay, s.running, s.c)
    ensures Step(lay, s, SwitchOut(ret, []), s') && s'.c.r.cs == s.c.r.cs && s'.c.r.eflags == s.c.r.eflags
    ensures s'.running == s'.cur == 0 && s'.saved == Handed(s, s.running, Saved(SnapOf(s.c.r, ret), []), 0)
  {
    var k := SwitchBetween(lay, s.c, s.running, 0, ret);
    s' := State(k, 0, 0, Handed(s, s.running, Saved(SnapOf(s.c.r, ret), []), 0));
  }

  /** The timer interrupts scheduler code with `current` set, and its handler calls `reschedule`. */
  method TickScheduler(lay: Layout, s: State, back: Word, ret: Word) returns (act: Act, s': State)
    requires LayoutOk(lay) && s.running == 0 && 0 < s.cur < |lay.ctx| && Roomy(lay, s.c) && IfSet(s.c.r)
    ensures act.Tick? && Step(lay, s, act, s') && s'.running == 0 && s'.cur == 0 && s'.saved == s.saved
    ensures Load32(s'.c.mem, s.c.r.esp - 12) == s.c.r.eip
    ensures s'.c.r.eip == Load32(s'.c.mem, Load32(s'.c.mem, lay.ctx[0]))
  {
    assert AddressOk(lay, 0);
    var k := EnterInterrupt(s.c, 0, true, [], lay.stack[0] + 4096, 0, back);
    var c := SaveElsewhere(lay, k, s.cur, ret);
    act := Tick(k, k, back, ret, []);
    s' := State(c, 0, 0, s.saved);
    TickIsStep(lay, s, k, c, back, ret);
    TickEip(lay, s.c, k, c, s.cur, back, ret);
  }

  lemma TickIsStep(lay: Layout, s: State, k: Cpu, c: Cpu, back: Word, ret: Word)
    requires LayoutOk(lay) && s.running == 0 && 0 < s.cur < |lay.ctx| && Roomy(lay, s.c) && IfSet(s.c.r) && !IfSet(k.r)
    requires 0 <= s.c.r.esp < 0x1_0000_0000
    requires 0 <= FrameBase(s.c, lay.stack[0] + 4096) < 0x1_0000_0000
    requires Entered(s.c, k, 0, lay.stack[0] + 4096, back) && Switched(k, c, lay.ctx[s.cur], lay.ctx[0], ret)
    ensures Step(lay, s, Tick(k, k, back, ret, []), State(c, 0, 0, s.saved))
  {
  }

  /** `reschedule` on the scheduler's stack saves into the context of task `t`. */
  method SaveElsewhere(lay: Layout, k: Cpu, t: nat, ret: Word) returns (c: Cpu)
    requires LayoutOk(lay) && 0 < t < |lay.ctx| && OnOwnStack(lay, 0, k)
    ensures Switched(k, c, lay.ctx[t], lay.ctx[0], ret)
  {
    assert AddressOk(lay, 0) && AddressOk(lay, t) && PartiesApart(lay, t, 0);
    c := CallSwitchTo(k, lay.ctx[t], lay.ctx[0], ret);
  }

  lemma TickEip(lay: Layout, s: Cpu, k: Cpu, c: Cpu, t: nat, back: Word, ret: Word)
    requires LayoutOk(lay) && 0 < t < |lay.ctx| && Roomy(lay, s) && 0 <= s.r.esp < 0x1_0000_0000
    requires 0 <= FrameBase(s, lay.stack[0] + 4096) < 0x1_0000_0000
    requires Entered(s, k, 0, lay.stack[0] + 4096, back) && Switched(k, c, lay.ctx[t], lay.ctx[0], ret)
    ensures Load32(c.mem, s.r.esp - 12) == s.r.eip
  {
    FrameEip(k.mem, FrameBase(s, lay.stack[0] + 4096), s.r, 0);
    assert PartiesApart(lay, t, 0);
    LoadSame(k.mem, c.mem, s.r.esp - 12);
  }

  lemma {:induction false} HoldsDrop(mem: Memory, a: int, x: seq<Item>, y: seq<Item>)
    requires Holds(mem, a, x + y)
    ensures Holds(mem, a + SizeOf(x), y)
    decreases |x|
  {
    if x == [] { assert x + y == y; }
    else {
      assert (x + y)[1..] == x[1..] + y;
      HoldsDrop(mem, a + Size(x[0]), x[1..], y);
    }
  }

  /** The return address in an interrupt frame. */
  lemma FrameEip(mem: Memory, a: int, r: Regs, e: Word)
    requires 0 <= r.esp < 0x1_0000_0000 && Holds(mem, a, FrameItems(r, e))
    ensures Load32(mem, a + 40) == r.eip
  {
    var x := SavedItems(r) + [W32(e)];
    HoldsDrop(mem, a, x, ReturnItems(r));
    SizeDrop5(x);
    SizeDrop5(x[5..]);
    assert x[5..][5..] == [W16(r.ds), W32(e)];
    assert SizeOf([W16(r.ds), W32(e)]) == 6 by {
      assert [W16(r.ds), W32(e)][1..] == [W32(e)];
      assert SizeOf([W32(e)]) == 4;
    }
  }

  /** The scheduler pops the two arguments of its call. */
  lemma PopArgs(lay: Layout, s: State)
    requires LayoutOk(lay) && s.running < |lay.ctx| && s.cur < |lay.ctx|
    ensures Step(lay, s, Local, s.(c := s.c.(r := s.c.r.(esp := s.c.r.esp + 8))))
  {
  }

  /** A task is created and chosen. */
  method ChooseNew(lay: Layout, c: Cpu, t: nat, taskInit: Word, jumpUser: Word, eip: Word)
    returns (trace: seq<State>, acts: seq<Act>)
    requires LayoutOk(lay) && 0 < t < |lay.ctx|
    ensures IsRun(lay, trace, acts) && |acts| == 2 && acts[0].Create? && acts[1] == SetCurrent(t)
    ensures trace[0] == State(c, 0, 0, map[]) && Good(lay, trace[0]) && Good(lay, trace[2])
    ensures trace[2].c.r == c.r && trace[2].running == 0 && trace[2].cur == t && trace[2].saved.Keys == {t}
    ensures NeverRan(lay, trace[2], t, taskInit, jumpUser, eip)
  {
    var s0 := State(c, 0, 0, map[]);
    var a0, s1 := CreateTask(lay, c, t, taskInit, jumpUser, eip);
    GoodStep(lay, s0, a0, s1);
    OneStep(lay, s0, a0, s1);
    var s2 := s1.(cur := t);
    GoodStep(lay, s1, SetCurrent(t), s2);
    OneStep(lay, s1, SetCurrent(t), s2);
    RunsJoin(lay, [s0, s1], [a0], [s1, s2], [SetCurrent(t)]);
    trace, acts := [s0, s1] + [s1, s2][1..], [a0] + [SetCurrent(t)];
  }

  ghost predicate NeverRan(lay: Layout, s: State, t: nat, taskInit: Word, jumpUser: Word, eip: Word)
    requires LayoutOk(lay) && t < |lay.ctx|
  {
    && Fresh(s.c.mem, lay, t, taskInit, jumpUser, eip)
    && t in s.saved && s.saved[t] == Saved(SnapAt(s.c.mem, lay.ctx[t]), [])
  }

  /**
   The task's way from `task_init` to its first syscall: into user mode, which
   sets IF, and back through a trap gate, which leaves it set.
   */
  method UserRound(c: Cpu, esp0: int, ghost jumpUser: Word, ghost eip: Word, handler: Word, back: Word) returns (k: Cpu)
    requires 68 <= esp0 < 0x1_0000_0000 && Holds(c.mem, c.r.esp, AfterRet(jumpUser, eip))
    ensures IfSet(k.r) && k.r.cs == 0x08 && k.r.esp == esp0 - 68 && Untouched(c.mem, k.mem, esp0 - 68, esp0)
  {
    var next, u := EnterUser(c, jumpUser, eip, (x: Cpu) => x);
    k := EnterInterrupt(u, 0, false, [], esp0, handler, back);
  }

  /** Writes to the stack of the running task are its own. */
  lemma OwnStackWrites(lay: Layout, s: State, k: Cpu)
    requires LayoutOk(lay) && Good(lay, s) && s.running != 0 && s.cur < |lay.ctx|
    requires Untouched(s.c.mem, k.mem, lay.stack[s.running] + 4096 - 68, lay.stack[s.running] + 4096)
    ensures Step(lay, s, Local, s.(c := k))
  {
    forall p: nat | p < |lay.ctx| ensures Same(s.c.mem, k.mem, lay.ctx[p], lay.ctx[p] + 20) {
      assert PartiesApart(lay, p, s.running);
    }
    forall p: nat | p < |lay.ctx| && p in s.saved ensures StackKept(lay, s.c.mem, k.mem, p, s.saved[p]) {
      assert PartiesApart(lay, p, s.running) && SavedOk(lay, s, p);
    }
  }

  /** It starts, goes to user mode and comes back in a syscall. */
  method RunToSyscall(lay: Layout, s: State, ret: Word, ghost taskInit: Word, ghost jumpUser: Word, ghost eip: Word,
                      handler: Word, back: Word)
    returns (trace: seq<State>, acts: seq<Act>)
    requires LayoutOk(lay) && Good(lay, s) && s.running == 0 && 0 < s.cur < |lay.ctx| && OnOwnStack(lay, 0, s.c)
    requires NeverRan(lay, s, s.cur, taskInit, jumpUser, eip)
    ensures acts == [Dispatch(ret), Local] && IsRun(lay, trace, acts) && trace[0] == s && Good(lay, trace[2])
    ensures trace[2].running == trace[2].cur == s.cur && IfSet(trace[2].c.r) && trace[2].c.r.cs == 0x08
    ensures trace[2].c.r.esp == lay.stack[s.cur] + 4096 - 68
    ensures 0 in trace[2].saved && trace[2].saved[0].snap.esp == s.c.r.esp - 12
  {
    var s1 := DispatchTask(lay, s, ret);
    StartsFresh(lay, s, s1, ret, taskInit, jumpUser, eip);
    assert AddressOk(lay, s.cur);
    var k := UserRound(s1.c, lay.stack[s.cur] + 4096, jumpUser, eip, handler, back);
    var s2 := s1.(c := k);
    OwnStackWrites(lay, s1, k);
    GoodStep(lay, s1, Local, s2);
    OneStep(lay, s1, Local, s2);
    RunsJoin(lay, [s, s1], [Dispatch(ret)], [s1, s2], [Local]);
    trace, acts := [s, s1] + [s1, s2][1..], [Dispatch(ret)] + [Local];
  }

  lemma StartsFresh(lay: Layout, s: State, s1: State, ret: Word, taskInit: Word, jumpUser: Word, eip: Word)
    requires LayoutOk(lay) && Good(lay, s) && s.cur < |lay.ctx| && NeverRan(lay, s, s.cur, taskInit, jumpUser, eip)
    requires Step(lay, s, Dispatch(ret), s1)
    ensures Good(lay, s1) && IsRun(lay, [s, s1], [Dispatch(ret)])
            && Holds(s1.c.mem, s1.c.r.esp, AfterRet(jumpUser, eip))
  {
    GoodStep(lay, s, Dispatch(ret), s1);
    OneStep(lay, s, Dispatch(ret), s1);
    StepResumes(lay, s, Dispatch(ret), s1, s.cur);
    FreshResumes(lay, s.c.mem, s1.c, s.cur, s.saved[s.cur], taskInit, jumpUser, eip);
  }

  /** Its `reschedule` clears `current` and switches; the scheduler, with IF as the task had it, pops its arguments. */
  method ComeBack(lay: Layout, s: State, ret: Word) returns (trace: seq<State>, acts: seq<Act>)
    requires LayoutOk(lay) && Good(lay, s) && s.running != 0 && s.cur == s.running && OnOwnStack(lay, s.running, s.c)
    ensures acts == [ClearCurrent, SwitchOut(ret, []), Local] && IsRun(lay, trace, acts) && trace[0] == s
    ensures Good(lay, trace[3]) && trace[3].running == 0 && trace[3].cur == 0 && s.running in trace[3].saved
    ensures trace[3].c.r.cs == s.c.r.cs && trace[3].c.r.eflags == s.c.r.eflags
    ensures 0 in s.saved && trace[3].c.r.esp == s.saved[0].snap.esp + 12
  {
    var s1 := s.(cur := 0);
    GoodStep(lay, s, ClearCurrent, s1);
    OneStep(lay, s, ClearCurrent, s1);
    var t2, a2 := SwitchBack(lay, s1, ret);
    RunsJoin(lay, [s, s1], [ClearCurrent], t2, a2);
    trace, acts := [s, s1] + t2[1..], [ClearCurrent] + a2;
  }

  method SwitchBack(lay: Layout, s: State, ret: Word) returns (trace: seq<State>, acts: seq<Act>)
    requires LayoutOk(lay) && Good(lay, s) && s.running != 0 && s.cur == 0 && OnOwnStack(lay, s.running, s.c)
    ensures acts == [SwitchOut(ret, []), Local] && IsRun(lay, trace, acts) && trace[0] == s
    ensures Good(lay, trace[2]) && trace[2].running == 0 && trace[2].cur == 0 && s.running in trace[2].saved
    ensures trace[2].c.r.cs == s.c.r.cs && trace[2].c.r.eflags == s.c.r.eflags
    ensures 0 in s.saved && trace[2].c.r.esp == s.saved[0].snap.esp + 12
  {
    var s1 := LeaveTask(lay, s, ret);
    GoodStep(lay, s, SwitchOut(ret, []), s1);
    StepResumes(lay, s, SwitchOut(ret, []), s1, 0);
    OneStep(lay, s, SwitchOut(ret, []), s1);
    var s2 := s1.(c := s1.c.(r := s1.c.r.(esp := s1.c.r.esp + 8)));
    PopArgs(lay, s1);
    GoodStep(lay, s1, Local, s2);
    OneStep(lay, s1, Local, s2);
    RunsJoin(lay, [s, s1], [SwitchOut(ret, [])], [s1, s2], [Local]);
    trace, acts := [s, s1] + [s1, s2][1..], [SwitchOut(ret, [])] + [Local];
  }

  /** The context of task `t` points into the scheduler's stack, and `current` is cleared. */
  ghost predicate Clobbered(lay: Layout, s: State, t: nat)
    requires LayoutOk(lay) && t < |lay.ctx|
  {
    && t in s.saved && !SnapKept(lay, s, t) && s.running == 0 && s.cur == 0
    && lay.stack[0] <= SnapAt(s.c.mem, lay.ctx[t]).esp < lay.stack[0] + 4096
  }

  /** The scheduler has chosen a task and is interrupted before it switches. */
  method TickOnce(lay: Layout, s: State, back: Word, ret: Word) returns (a: Act, s': State)
    requires LayoutOk(lay) && Good(lay, s) && s.running == 0 && 0 < s.cur < |lay.ctx| && Roomy(lay, s.c) && IfSet(s.c.r)
    ensures a.Tick? && IsRun(lay, [s, s'], [a]) && Clobbered(lay, s', s.cur)
    ensures Load32(s'.c.mem, s.c.r.esp - 12) == s.c.r.eip
    ensures s'.c.r.eip == Load32(s'.c.mem, Load32(s'.c.mem, lay.ctx[0]))
  {
    a, s' := TickScheduler(lay, s, back, ret);
    BadTickBreaks(lay, s, a, s');
    OneStep(lay, s, a, s');
  }

  /** The scheduler chooses task `t` and is interrupted before it switches. */
  method ChooseAndTick(lay: Layout, s: State, t: nat, back: Word, ret: Word) returns (trace: seq<State>, acts: seq<Act>)
    requires LayoutOk(lay) && Good(lay, s) && s.running == 0 && s.cur == 0 && t != 0 && t in s.saved
    requires Roomy(lay, s.c) && IfSet(s.c.r)
    ensures |acts| == 2 && acts[0] == SetCurrent(t) && acts[1].Tick? && IsRun(lay, trace, acts) && trace[0] == s
    ensures trace[1] == s.(cur := t) && t < |lay.ctx| && Clobbered(lay, trace[2], t)
    ensures Load32(trace[2].c.mem, s.c.r.esp - 12) == s.c.r.eip
    ensures trace[2].c.r.eip == Load32(trace[2].c.mem, Load32(trace[2].c.mem, lay.ctx[0]))
  {
    assert SavedOk(lay, s, t);
    var s1 := s.(cur := t);
    GoodStep(lay, s, SetCurrent(t), s1);
    OneStep(lay, s, SetCurrent(t), s1);
    var a, s2 := TickOnce(lay, s1, back, ret);
    RunsJoin(lay, [s, s1], [SetCurrent(t)], [s1, s2], [a]);
    trace, acts := [s, s1] + [s1, s2][1..], [SetCurrent(t)] + [a];
  }

  /** Facts about a run that dispatches once, in step 2, and takes no tick. */
  ghost predicate OneDispatch(trace: seq<State>, acts: seq<Act>, c: Cpu) {
    && 2 < |acts| < |trace| && trace[0] == State(c, 0, 0, map[]) && acts[2].Dispatch? && trace[2].c.r == c.r
    && (forall i | 2 < i < |acts| :: !acts[i].Dispatch?) && forall i | 0 <= i < |acts| :: !acts[i].Tick?
  }

  lemma StillOneDispatch(trace: seq<State>, acts: seq<Act>, t1: seq<State>, a1: seq<Act>, c: Cpu)
    requires OneDispatch(trace, acts, c) && |trace| == |acts| + 1 && |t1| == |a1| + 1
    requires forall i | 0 <= i < |a1| :: !a1[i].Dispatch? && !a1[i].Tick?
    ensures OneDispatch(trace + t1[1..], acts + a1, c)
  {
  }

  method FourSteps(lay: Layout, c: Cpu, t: nat, taskInit: Word, jumpUser: Word, eip: Word, handler: Word, back: Word,
                   r0: Word)
    returns (trace: seq<State>, acts: seq<Act>)
    requires LayoutOk(lay) && 0 < t < |lay.ctx| && Roomy(lay, c)
    ensures |acts| == 4 && IsRun(lay, trace, acts) && OneDispatch(trace, acts, c) && Good(lay, trace[0])
    ensures Good(lay, trace[4]) && trace[4].running == trace[4].cur == t && IfSet(trace[4].c.r)
    ensures trace[4].c.r.cs == 0x08 && OnOwnStack(lay, t, trace[4].c)
    ensures 0 in trace[4].saved && trace[4].saved[0].snap.esp == c.r.esp - 12
  {
    trace, acts := ChooseNew(lay, c, t, taskInit, jumpUser, eip);
    var t1, a1 := RunToSyscall(lay, trace[2], r0, taskInit, jumpUser, eip, handler, back);
    RunsJoin(lay, trace, acts, t1, a1);
    FirstDispatchSpliced(trace, acts, t1, a1, c);
    trace, acts := trace + t1[1..], acts + a1;
  }

  lemma FirstDispatchSpliced(trace: seq<State>, acts: seq<Act>, t1: seq<State>, a1: seq<Act>, c: Cpu)
    requires |trace| == |t1| == 3 && |acts| == |a1| == 2 && trace[0] == State(c, 0, 0, map[]) && trace[2].c.r == c.r
    requires acts[0].Create? && acts[1].SetCurrent? && a1[0].Dispatch? && a1[1] == Local
    ensures OneDispatch(trace + t1[1..], acts + a1, c)
    ensures (trace + t1[1..])[0] == trace[0] && (trace + t1[1..])[4] == t1[2]
  {
  }

  method SevenSteps(lay: Layout, c: Cpu, t: nat, taskInit: Word, jumpUser: Word, eip: Word,
                    handler: Word, back: Word, r0: Word, r1: Word)
    returns (trace: seq<State>, acts: seq<Act>)
    requires LayoutOk(lay) && 0 < t < |lay.ctx| && Roomy(lay, c)
    ensures |acts| == 7 && IsRun(lay, trace, acts) && OneDispatch(trace, acts, c) && Good(lay, trace[0])
    ensures Good(lay, trace[7]) && trace[7].running == 0 && trace[7].cur == 0 && t in trace[7].saved
    ensures trace[7].c.r.esp == c.r.esp && trace[7].c.r.cs == 0x08 && IfSet(trace[7].c.r)
  {
    trace, acts := FourSteps(lay, c, t, taskInit, jumpUser, eip, handler, back, r0);
    var t1, a1 := ComeBack(lay, trace[4], r1);
    RunsJoin(lay, trace, acts, t1, a1);
    StillOneDispatch(trace, acts, t1, a1, c);
    trace, acts := trace + t1[1..], acts + a1;
  }

  /** Where the scheduler goes on after a bad tick right at the stack level of its last dispatch. */
  lemma GoesOnInterrupted(lay: Layout, trace: seq<State>, acts: seq<Act>, i: nat, k: nat)
    requires LayoutOk(lay) && IsRun(lay, trace, acts) && i < k < |acts| && acts[i].Dispatch?
             && BadTick(trace[k], acts[k])
    requires (forall l | i < l < k :: !acts[l].Dispatch?) && |lay.ctx| > 0
    requires trace[k].c.r.esp == trace[i].c.r.esp
             && Load32(trace[k + 1].c.mem, trace[k].c.r.esp - 12) == trace[k].c.r.eip
    requires trace[k + 1].c.r.eip == Load32(trace[k + 1].c.mem, Load32(trace[k + 1].c.mem, lay.ctx[0]))
    ensures trace[k + 1].c.r.eip == trace[k].c.r.eip && trace[k + 1].c.r.esp == trace[k].c.r.esp - 8
  {
    BadTickGoesBack(lay, trace, acts, i, k);
    BadTickLoads(lay, trace, acts, k);
  }

  /**
   From any state of the scheduler, with interrupts off as at its start or not: a
   task is created, dispatched, runs in user mode, leaves in a syscall's
   `reschedule` and is chosen again. The scheduler has IF from that syscall, and
   the timer interrupts between the choice and the switch. The task's context then
   points into the scheduler's stack. The scheduler loads the context of its
   previous dispatch, whose return address the frame of the tick has overwritten
   by the interrupted address: it goes on there, with a stack pointer that is 8
   off and with `current` cleared.
   */
  method TickHitsDispatch(lay: Layout, c: Cpu, t: nat, taskInit: Word, jumpUser: Word, eip: Word,
                          handler: Word, back: Word, r0: Word, r1: Word, r2: Word)
    returns (trace: seq<State>, acts: seq<Act>)
    requires LayoutOk(lay) && 0 < t < |lay.ctx| && Roomy(lay, c)
    ensures |acts| == 9 && IsRun(lay, trace, acts) && trace[0] == State(c, 0, 0, map[]) && Good(lay, trace[0])
    ensures NoBadTick(trace, acts, 0, 8) && BadTick(trace[8], acts[8]) && IfSet(trace[8].c.r)
    ensures Clobbered(lay, trace[9], t)
    ensures trace[9].c.r.eip == trace[8].c.r.eip && trace[9].c.r.esp == trace[8].c.r.esp - 8
  {
    trace, acts := SevenSteps(lay, c, t, taskInit, jumpUser, eip, handler, back, r0, r1);
    var t1, a1 := ChooseAndTick(lay, trace[7], t, back, r2);
    RunsJoin(lay, trace, acts, t1, a1);
    Spliced(trace, acts, t1, a1, c);
    trace, acts := trace + t1[1..], acts + a1;
    GoesOnInterrupted(lay, trace, acts, 2, 8);
  }

  lemma Spliced(trace: seq<State>, acts: seq<Act>, t1: seq<State>, a1: seq<Act>, c: Cpu)
    requires |trace| == 8 && |acts| == 7 && |t1| == 3 && |a1| == 2 && !a1[0].Dispatch? && !a1[0].Tick?
    requires OneDispatch(trace, acts, c)
    ensures var tr, ac := trace + t1[1..], acts + a1;
            && tr[0] == trace[0] && tr[2] == trace[2] && tr[8] == t1[1] && tr[9] == t1[2]
            && ac[2] == acts[2] && ac[8] == a1[1]
            && (forall l | 2 < l < 8 :: !ac[l].Dispatch?) && NoBadTick(tr, ac, 0, 8)
  {
  }
}
