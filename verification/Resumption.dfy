/**
 What suspended parties keep over whole runs, and how they resume.
 */
module Resumption {
  import opened Machine
  import opened Interrupts
  import opened TaskFrame
  import opened Switching
  import opened SwitchRuns

  // ---------------------------------------------------------------- snapshots over runs

  ghost predicate SnapKept(lay: Layout, s: State, p: nat)
    requires LayoutOk(lay) && p in s.saved
  {
    p < |lay.ctx| && Suspended(s.c.mem, lay, p, s.saved[p].snap)
  }

  /** Every suspended party would resume as it left. */
  ghost predicate AllKept(lay: Layout, s: State)
    requires LayoutOk(lay)
  {
    forall p {:trigger SnapKept(lay, s, p)} | p in s.saved :: SnapKept(lay, s, p)
  }

  ghost predicate NoBadTick(trace: seq<State>, acts: seq<Act>, i: nat, j: nat)
    requires i <= j <= |acts| < |trace|
  {
    forall k | i <= k < j :: !BadTick(trace[k], acts[k])
  }

  lemma {:induction false} GoodRun(lay: Layout, trace: seq<State>, acts: seq<Act>, i: nat)
    requires LayoutOk(lay) && IsRun(lay, trace, acts) && Good(lay, trace[0]) && i <= |acts|
             && NoBadTick(trace, acts, 0, i)
    ensures Good(lay, trace[i])
  {
    if i > 0 {
      GoodRun(lay, trace, acts, i - 1);
      assert StepAt(lay, trace, acts, i - 1);
      GoodStep(lay, trace[i - 1], acts[i - 1], trace[i]);
    }
  }

  /** A bad tick leaves the context of the task about to start pointing into the scheduler's stack. */
  lemma BadTickBreaks(lay: Layout, s: State, act: Act, s': State)
    requires LayoutOk(lay) && Good(lay, s) && Step(lay, s, act, s') && BadTick(s, act)
    ensures s.cur in s'.saved && s.cur < |lay.ctx|
    ensures lay.stack[0] <= SnapAt(s'.c.mem, lay.ctx[s.cur]).esp < lay.stack[0] + 4096
    ensures !SnapKept(lay, s', s.cur)
  {
    assert SavedOk(lay, s, s.cur);
    assert PartiesApart(lay, 0, s.cur);
  }

  /**
   In every run, all suspended parties keep their snapshots exactly if no tick
   lands on scheduler code while `current` is set.
   */
  lemma SnapshotsKeptIff(lay: Layout, trace: seq<State>, acts: seq<Act>)
    requires LayoutOk(lay) && IsRun(lay, trace, acts) && Good(lay, trace[0])
    ensures (forall i | 0 <= i <= |acts| :: AllKept(lay, trace[i])) <==> NoBadTick(trace, acts, 0, |acts|)
  {
    if NoBadTick(trace, acts, 0, |acts|) {
      forall i | 0 <= i <= |acts| ensures AllKept(lay, trace[i]) {
        GoodRun(lay, trace, acts, i);
        forall p | p in trace[i].saved ensures SnapKept(lay, trace[i], p) { assert SavedOk(lay, trace[i], p); }
      }
    } else {
      var k := FirstBad(trace, acts, |acts|);
      GoodRun(lay, trace, acts, k);
      assert StepAt(lay, trace, acts, k);
      BadTickBreaks(lay, trace[k], acts[k], trace[k + 1]);
      assert !AllKept(lay, trace[k + 1]);
    }
  }

  lemma {:induction false} FirstBad(trace: seq<State>, acts: seq<Act>, j: nat) returns (k: nat)
    requires j <= |acts| < |trace| && !NoBadTick(trace, acts, 0, j)
    ensures k < j && NoBadTick(trace, acts, 0, k) && BadTick(trace[k], acts[k])
  {
    if NoBadTick(trace, acts, 0, j - 1) { k := j - 1; } else { k := FirstBad(trace, acts, j - 1); }
  }

  // ---------------------------------------------------------------- resumption

  lemma {:induction false} StaysSaved(lay: Layout, trace: seq<State>, acts: seq<Act>, i: nat, j: nat, p: nat, sv: Saved)
    requires LayoutOk(lay) && IsRun(lay, trace, acts) && Good(lay, trace[0]) && i <= j <= |acts|
             && NoBadTick(trace, acts, 0, j)
    requires p < |lay.ctx| && (forall k | i <= k <= j :: p in trace[k].saved) && trace[i].saved[p] == sv
    ensures trace[j].saved[p] == sv && PartyKept(lay, trace[i].c.mem, trace[j].c.mem, p, sv)
  {
    if i < j {
      StaysSaved(lay, trace, acts, i, j - 1, p, sv);
      OneMore(lay, trace, acts, i, j, p, sv);
    }
  }

  lemma OneMore(lay: Layout, trace: seq<State>, acts: seq<Act>, i: nat, j: nat, p: nat, sv: Saved)
    requires LayoutOk(lay) && IsRun(lay, trace, acts) && Good(lay, trace[0]) && i < j <= |acts|
             && NoBadTick(trace, acts, 0, j)
    requires p < |lay.ctx| && p in trace[j - 1].saved && trace[j - 1].saved[p] == sv
    requires PartyKept(lay, trace[i].c.mem, trace[j - 1].c.mem, p, sv)
    ensures PartyKept(lay, trace[i].c.mem, trace[j].c.mem, p, sv) && (p in trace[j].saved ==> trace[j].saved[p] == sv)
    ensures p !in trace[j].saved ==> trace[j].running == p && ReturnsTo(trace[j].c.r, sv.snap)
  {
    GoodRun(lay, trace, acts, j - 1);
    RunStepKeeps(lay, trace, acts, j - 1, p);
    KeptTwice(lay, trace[i].c.mem, trace[j - 1].c.mem, trace[j].c.mem, p, sv);
  }

  lemma SavedBound(lay: Layout, trace: seq<State>, acts: seq<Act>, i: nat, p: nat)
    requires LayoutOk(lay) && IsRun(lay, trace, acts) && Good(lay, trace[0]) && i <= |acts|
             && NoBadTick(trace, acts, 0, i)
    requires p in trace[i].saved
    ensures p < |lay.ctx|
  {
    GoodRun(lay, trace, acts, i);
    assert SavedOk(lay, trace[i], p);
  }

  lemma RunStepKeeps(lay: Layout, trace: seq<State>, acts: seq<Act>, k: nat, p: nat)
    requires LayoutOk(lay) && IsRun(lay, trace, acts) && k < |acts| && !BadTick(trace[k], acts[k])
    requires Good(lay, trace[k]) && p in trace[k].saved && p < |lay.ctx|
    ensures Good(lay, trace[k + 1]) && PartyKept(lay, trace[k].c.mem, trace[k + 1].c.mem, p, trace[k].saved[p])
    ensures p in trace[k + 1].saved ==> trace[k + 1].saved[p] == trace[k].saved[p]
    ensures p !in trace[k + 1].saved ==>
              trace[k + 1].running == p && ReturnsTo(trace[k + 1].c.r, trace[k].saved[p].snap)
  {
    assert StepAt(lay, trace, acts, k);
    StepKeeps(lay, trace[k], acts[k], trace[k + 1], p);
    GoodStep(lay, trace[k], acts[k], trace[k + 1]);
    if p !in trace[k + 1].saved { StepResumes(lay, trace[k], acts[k], trace[k + 1], p); }
  }

  /** The registers are those of a return through the snapshot. */
  predicate ReturnsTo(r: Regs, snap: Snapshot) {
    && r.esp == snap.esp + 4 && r.eip == snap.ret
    && r.ebp == snap.ebp && r.esi == snap.esi && r.edi == snap.edi && r.ebx == snap.ebx
  }

  lemma LoadsSnapshot(lay: Layout, c: Cpu, k: Cpu, from: int, p: nat, ret: Word, snap: Snapshot)
    requires LayoutOk(lay) && p < |lay.ctx| && Switched(c, k, from, lay.ctx[p], ret) && Suspended(k.mem, lay, p, snap)
    ensures ReturnsTo(k.r, snap)
  {
  }

  /** Which party a step resumes, and from which processor state. */
  lemma StepResumesWhom(lay: Layout, s: State, act: Act, s': State, p: nat) returns (c: Cpu, from: int, ret: Word)
    requires LayoutOk(lay) && Shape(lay, s) && Step(lay, s, act, s') && !BadTick(s, act) && p in s.saved
             && p !in s'.saved && p < |lay.ctx|
    ensures s'.running == p && Switched(c, s'.c, from, lay.ctx[p], ret)
  {
    match act
    case Dispatch(r) => c, from, ret := s.c, lay.ctx[0], r;
    case SwitchOut(r, _) => c, from, ret := s.c, lay.ctx[s.running], r;
    case Tick(_, h, _, r, _) => c, from, ret := h, lay.ctx[s.cur], r;
    case _ => assert false;
  }

  /** A party that stops being suspended runs, from its snapshot. */
  lemma StepResumes(lay: Layout, s: State, act: Act, s': State, p: nat)
    requires LayoutOk(lay) && Good(lay, s) && Step(lay, s, act, s') && !BadTick(s, act)
    requires p in s.saved && p !in s'.saved && p < |lay.ctx|
    ensures s'.running == p && ReturnsTo(s'.c.r, s.saved[p].snap)
    ensures PartyKept(lay, s.c.mem, s'.c.mem, p, s.saved[p])
  {
    assert SavedOk(lay, s, p);
    StepKeeps(lay, s, act, s', p);
    KeptSuspended(lay, s.c.mem, s'.c.mem, p, s.saved[p]);
    var c, from, ret := StepResumesWhom(lay, s, act, s', p);
    LoadsSnapshot(lay, c, s'.c, from, p, ret, s.saved[p].snap);
  }

  /**
   A party that leaves in step `i` and is next resumed by step `j` returns
   through the snapshot it left, and finds its stack from there up as it was,
   except in the ranges of its own disk read.
   */
  lemma ResumesFromSnapshot(lay: Layout, trace: seq<State>, acts: seq<Act>, i: nat, j: nat, p: nat)
    requires LayoutOk(lay) && IsRun(lay, trace, acts) && Good(lay, trace[0]) && i < j < |acts|
             && NoBadTick(trace, acts, 0, j + 1)
    requires p !in trace[j + 1].saved && forall k | i < k <= j :: p in trace[k].saved
    ensures p < |lay.ctx| && trace[j + 1].running == p && ReturnsTo(trace[j + 1].c.r, trace[i + 1].saved[p].snap)
    ensures PartyKept(lay, trace[i + 1].c.mem, trace[j + 1].c.mem, p, trace[i + 1].saved[p])
  {
    SavedBound(lay, trace, acts, i + 1, p);
    StaysSaved(lay, trace, acts, i + 1, j, p, trace[i + 1].saved[p]);
    OneMore(lay, trace, acts, i + 1, j + 1, p, trace[i + 1].saved[p]);
  }

  /**
   A party that calls `__switch_to` in step `i`, the scheduler in a dispatch or a
   task in `reschedule`, and is next resumed by step `j`, continues at its return
   address, with the stack pointer just above it and the registers it had. What
   it had on its stack is there, except in the ranges of its own disk read.
   */
  lemma ResumesAsSuspended(lay: Layout, trace: seq<State>, acts: seq<Act>, i: nat, j: nat, p: nat)
    requires LayoutOk(lay) && IsRun(lay, trace, acts) && Good(lay, trace[0]) && i < j < |acts|
             && NoBadTick(trace, acts, 0, j + 1)
    requires (acts[i].Dispatch? || acts[i].SwitchOut?) && trace[i].running == p
    requires p !in trace[j + 1].saved && forall k | i < k <= j :: p in trace[k].saved
    ensures var a, b := trace[i].c.r, trace[j + 1].c.r;
            && b.esp == a.esp - 8 && b.eip == acts[i].ret
            && b.ebp == a.ebp && b.esi == a.esi && b.edi == a.edi && b.ebx == a.ebx
    ensures p < |lay.ctx| && forall x | trace[i].c.r.esp <= x < lay.stack[p] + 4096 && !InOpen(OpenOf(acts[i]), x) ::
              Get(trace[j + 1].c.mem, x) == Get(trace[i].c.mem, x)
  {
    ResumesFromSnapshot(lay, trace, acts, i, j, p);
    LeaveAt(lay, trace, acts, i, p);
  }

  function OpenOf(act: Act): seq<Range> {
    if act.SwitchOut? then act.open else []
  }

  lemma LeaveAt(lay: Layout, trace: seq<State>, acts: seq<Act>, i: nat, p: nat)
    requires LayoutOk(lay) && IsRun(lay, trace, acts) && Good(lay, trace[0]) && i < |acts|
             && NoBadTick(trace, acts, 0, i)
    requires (acts[i].Dispatch? || acts[i].SwitchOut?) && trace[i].running == p
    ensures p < |lay.ctx| && p in trace[i + 1].saved
    ensures trace[i + 1].saved[p] == Saved(SnapOf(trace[i].c.r, acts[i].ret), OpenOf(acts[i]))
    ensures forall x | trace[i].c.r.esp <= x < lay.stack[p] + 4096 ::
            Get(trace[i + 1].c.mem, x) == Get(trace[i].c.mem, x)
  {
    GoodRun(lay, trace, acts, i);
    assert StepAt(lay, trace, acts, i);
    LeavesStack(lay, trace[i], acts[i], trace[i + 1], p);
  }

  /** The call itself writes below the caller's stack pointer only. */
  lemma LeavesStack(lay: Layout, s: State, act: Act, s': State, p: nat)
    requires LayoutOk(lay) && Good(lay, s) && Step(lay, s, act, s') && (act.Dispatch? || act.SwitchOut?)
             && p == s.running
    ensures forall x | s.c.r.esp <= x < lay.stack[p] + 4096 :: Get(s'.c.mem, x) == Get(s.c.mem, x)
  {
    assert PartiesApart(lay, p, p);
  }

  // ---------------------------------------------------------------- preempted code

  /**
   Where the frame of a tick lies: above the snapshot the task leaves, below its
   open ranges; the handler does not write it.
   */
  ghost predicate TickLeft(lay: Layout, s: State, act: Act, s': State, base: int, size: int)
    requires LayoutOk(lay) && s.running < |lay.ctx| && act.Tick?
  {
    && s.running in s'.saved && s'.saved[s.running] == Saved(SnapOf(act.h.r, act.ret), act.open)
    && act.h.r.esp <= base && base + size <= lay.stack[s.running] + 4096 && OpenAbove(act.open, base + size)
    && Same(act.k.mem, s'.c.mem, base, base + size)
  }

  lemma TickLeaves(lay: Layout, s: State, act: Act, s': State)
    requires LayoutOk(lay) && Shape(lay, s) && Step(lay, s, act, s') && act.Tick? && s.cur != 0 && s.running != 0
    ensures 0 <= s.c.r.esp < 0x1_0000_0000 && 0 <= FrameBase(s.c, lay.stack[s.running] + 4096) < 0x1_0000_0000
    ensures Entered(s.c, act.k, 0, lay.stack[s.running] + 4096, act.back)
    ensures TickLeft(lay, s, act, s', FrameBase(s.c, lay.stack[s.running] + 4096), if InUser(s.c.r) then 60 else 52)
  {
    var top := lay.stack[s.running] + 4096;
    SwitchSpares(lay, act.h, s'.c, s.running, lay.ctx[0], act.ret, FrameBase(s.c, top));
    SameTwice(act.k.mem, act.h.mem, s'.c.mem, FrameBase(s.c, top), top);
  }

  /** A call of `__switch_to` writes its own stack below the caller's stack pointer only. */
  lemma SwitchSpares(lay: Layout, c: Cpu, k: Cpu, p: nat, to: int, ret: Word, lo: int)
    requires LayoutOk(lay) && OnOwnStack(lay, p, c) && Switched(c, k, lay.ctx[p], to, ret) && c.r.esp <= lo
    ensures Same(c.mem, k.mem, lo, lay.stack[p] + 4096)
  {
    assert PartiesApart(lay, p, p);
  }

  lemma SameTwice(m0: Memory, m1: Memory, m2: Memory, lo: int, hi: int)
    requires Same(m0, m1, lo, hi) && Same(m1, m2, lo, hi)
    ensures Same(m0, m2, lo, hi)
  {
    forall a | lo <= a < hi ensures Get(m2, a) == Get(m0, a) { assert Get(m2, a) == Get(m1, a); }
  }

  /** The saved registers are still on the stack of a party that was kept. */
  lemma FrameKept(lay: Layout, s: State, act: Act, s': State, mem: Memory)
    requires LayoutOk(lay) && s.running < |lay.ctx| && act.Tick? && 0 <= s.c.r.esp < 0x1_0000_0000
    requires 0 <= FrameBase(s.c, lay.stack[s.running] + 4096) < 0x1_0000_0000
    requires Entered(s.c, act.k, 0, lay.stack[s.running] + 4096, act.back)
    requires TickLeft(lay, s, act, s', FrameBase(s.c, lay.stack[s.running] + 4096), if InUser(s.c.r) then 60 else 52)
    requires PartyKept(lay, s'.c.mem, mem, s.running, s'.saved[s.running])
    ensures Holds(mem, FrameBase(s.c, lay.stack[s.running] + 4096), FrameItems(s.c.r, 0))
  {
    FrameSize(s.c.r, 0);
    FrameMoves(lay, act.k.mem, s'.c.mem, mem, s.running, s'.saved[s.running],
               FrameBase(s.c, lay.stack[s.running] + 4096), FrameItems(s.c.r, 0));
  }

  lemma FrameMoves(lay: Layout, m0: Memory, m1: Memory, m2: Memory, p: nat, sv: Saved, base: int, items: seq<Item>)
    requires LayoutOk(lay) && p < |lay.ctx| && Same(m0, m1, base, base + SizeOf(items)) && PartyKept(lay, m1, m2, p, sv)
    requires Holds(m0, base, items) && sv.snap.esp <= base && base + SizeOf(items) <= lay.stack[p] + 4096
    requires OpenAbove(sv.open, base + SizeOf(items))
    ensures Holds(m2, base, items)
  {
    HoldsSame(m0, m1, base, items);
    KeptFrame(lay, m1, m2, p, sv, base, items);
  }

  /** What lies below every open range of a suspended party is as it left it. */
  lemma KeptFrame(lay: Layout, mem: Memory, mem': Memory, p: nat, sv: Saved, base: int, items: seq<Item>)
    requires LayoutOk(lay) && p < |lay.ctx| && PartyKept(lay, mem, mem', p, sv) && Holds(mem, base, items)
    requires sv.snap.esp <= base && base + SizeOf(items) <= lay.stack[p] + 4096
             && OpenAbove(sv.open, base + SizeOf(items))
    ensures Holds(mem', base, items)
  {
    HoldsSame(mem, mem', base, items);
  }

  /**
   A task interrupted by the timer in step `i`, in user mode or in the kernel,
   and next resumed by step `j`: it returns into its handler, and the frame of
   the interrupt still holds every register it was interrupted with, so that
   `LeaveInterrupt` gives them all back.
   */
  lemma PreemptedContinues(lay: Layout, trace: seq<State>, acts: seq<Act>, i: nat, j: nat, p: nat)
    requires LayoutOk(lay) && IsRun(lay, trace, acts) && Good(lay, trace[0]) && i < j < |acts|
             && NoBadTick(trace, acts, 0, j + 1)
    requires acts[i].Tick? && trace[i].cur != 0 && trace[i].running == p
    requires p !in trace[j + 1].saved && forall k | i < k <= j :: p in trace[k].saved
    ensures p < |lay.ctx| && trace[j + 1].running == p && ReturnsTo(trace[j + 1].c.r, SnapOf(acts[i].h.r, acts[i].ret))
    ensures 0 <= trace[i].c.r.esp < 0x1_0000_0000
    ensures Holds(trace[j + 1].c.mem, FrameBase(trace[i].c, lay.stack[p] + 4096), FrameItems(trace[i].c.r, 0))
  {
    assert !BadTick(trace[i], acts[i]);
    ResumesFromSnapshot(lay, trace, acts, i, j, p);
    TickAt(lay, trace, acts, i);
    FrameKept(lay, trace[i], acts[i], trace[i + 1], trace[j + 1].c.mem);
  }

  lemma TickAt(lay: Layout, trace: seq<State>, acts: seq<Act>, i: nat)
    requires LayoutOk(lay) && IsRun(lay, trace, acts) && Good(lay, trace[0]) && i < |acts|
             && NoBadTick(trace, acts, 0, i)
    requires acts[i].Tick? && trace[i].cur != 0 && trace[i].running != 0
    ensures var s := trace[i];
            && s.running < |lay.ctx| && 0 <= s.c.r.esp < 0x1_0000_0000
            && 0 <= FrameBase(s.c, lay.stack[s.running] + 4096) < 0x1_0000_0000
            && Entered(s.c, acts[i].k, 0, lay.stack[s.running] + 4096, acts[i].back)
            && TickLeft(lay, s, acts[i], trace[i + 1], FrameBase(s.c, lay.stack[s.running] + 4096),
               if InUser(s.c.r) then 60 else 52)
  {
    GoodRun(lay, trace, acts, i);
    assert StepAt(lay, trace, acts, i);
    TickLeaves(lay, trace[i], acts[i], trace[i + 1]);
  }

  // ---------------------------------------------------------------- new tasks

  /**
   However long a new task waits and whatever runs meanwhile, the first switch
   to it enters `task_init` with the way into user mode on its stack: what
   `EnterUser` starts from.
   */
  lemma FirstDispatch(lay: Layout, trace: seq<State>, acts: seq<Act>, i: nat, j: nat, t: nat)
    requires LayoutOk(lay) && IsRun(lay, trace, acts) && Good(lay, trace[0]) && i < j < |acts|
             && NoBadTick(trace, acts, 0, j + 1)
    requires acts[i].Create? && acts[i].t == t
    requires t !in trace[j + 1].saved && forall k | i < k <= j :: t in trace[k].saved
    ensures t < |lay.ctx|
    ensures var c := trace[j + 1].c;
            && c.r.eip == acts[i].taskInit && c.r.esp == FreshEsp(lay, t) + 4 && c.r.ebp == FreshEsp(lay, t)
            && c.r.esi == c.r.edi == c.r.ebx == 0
            && Holds(c.mem, c.r.esp, AfterRet(acts[i].jumpUser, acts[i].eip))
  {
    ResumesFromSnapshot(lay, trace, acts, i, j, t);
    CreateAt(lay, trace, acts, i);
    FreshResumes(lay, trace[i + 1].c.mem, trace[j + 1].c, t, trace[i + 1].saved[t], acts[i].taskInit, acts[i].jumpUser,
      acts[i].eip);
  }

  lemma CreateAt(lay: Layout, trace: seq<State>, acts: seq<Act>, i: nat)
    requires LayoutOk(lay) && IsRun(lay, trace, acts) && i < |acts| && acts[i].Create?
    ensures var t := acts[i].t;
            && t < |lay.ctx| && Fresh(trace[i + 1].c.mem, lay, t, acts[i].taskInit, acts[i].jumpUser, acts[i].eip)
            && t in trace[i + 1].saved && trace[i + 1].saved[t] == Saved(SnapAt(trace[i + 1].c.mem, lay.ctx[t]), [])
  {
    assert StepAt(lay, trace, acts, i);
  }

  lemma FreshResumes(lay: Layout, mem: Memory, c: Cpu, t: nat, sv: Saved, taskInit: Word, jumpUser: Word, eip: Word)
    requires LayoutOk(lay) && t < |lay.ctx| && Fresh(mem, lay, t, taskInit, jumpUser, eip)
    requires sv == Saved(SnapAt(mem, lay.ctx[t]), []) && PartyKept(lay, mem, c.mem, t, sv) && ReturnsTo(c.r, sv.snap)
    ensures c.r.eip == taskInit && c.r.esp == FreshEsp(lay, t) + 4 && c.r.ebp == FreshEsp(lay, t)
    ensures c.r.esi == c.r.edi == c.r.ebx == 0 && Holds(c.mem, c.r.esp, AfterRet(jumpUser, eip))
  {
    FreshSize(taskInit, jumpUser, eip);
    KeptFrame(lay, mem, c.mem, t, sv, FreshEsp(lay, t), FreshStack(taskInit, jumpUser, eip));
    Popped(Cpu(c.r.(esp := FreshEsp(lay, t)), c.mem), FreshStack(taskInit, jumpUser, eip));
  }
}
