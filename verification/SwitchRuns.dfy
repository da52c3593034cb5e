/**
 Runs of the processor over the scheduler and the tasks: code of one party, the
 two halves of a dispatch, the two halves of `reschedule`, timer interrupts and
 new tasks, with what each may write.
 */
module SwitchRuns {
  import opened Machine
  import opened Interrupts
  import opened Switching

  // ---------------------------------------------------------------- states

  datatype Range = Range(lo: int, hi: int)

  /**
   A suspended party: the snapshot it left, and the ranges of its own stack that
   others may write meanwhile. These are the request and the buffer of an
   `ata_read` it sleeps in, which the disk handler and later callers write.
   */
  datatype Saved = Saved(snap: Snapshot, open: seq<Range>)

  /** The processor, the party whose code it executes, `current` (0 for NULL) and the suspended parties. */
  datatype State = State(c: Cpu, running: nat, cur: nat, saved: map<nat, Saved>)

  predicate InOpen(open: seq<Range>, a: int) {
    exists i | 0 <= i < |open| :: open[i].lo <= a < open[i].hi
  }

  /** Open ranges belong to callers of the code that left, so they lie above `lo`. */
  predicate OpenAbove(open: seq<Range>, lo: int) {
    forall i | 0 <= i < |open| :: lo <= open[i].lo
  }

  /** From the saved stack pointer up, a stack holds what it held, except in the open ranges. */
  ghost predicate StackKept(lay: Layout, mem: Memory, mem': Memory, p: nat, sv: Saved)
    requires p < |lay.stack|
  {
    forall a | sv.snap.esp <= a < lay.stack[p] + 4096 && !InOpen(sv.open, a) :: Get(mem', a) == Get(mem, a)
  }

  ghost predicate PartyKept(lay: Layout, mem: Memory, mem': Memory, p: nat, sv: Saved)
    requires |lay.ctx| == |lay.stack| && p < |lay.ctx|
  {
    Same(mem, mem', lay.ctx[p], lay.ctx[p] + 20) && StackKept(lay, mem, mem', p, sv)
  }

  /** Code of the running party writes no context, and no suspended stack outside its open ranges. */
  ghost predicate OwnWrites(lay: Layout, mem: Memory, mem': Memory, saved: map<nat, Saved>)
    requires LayoutOk(lay)
  {
    && (forall p: nat | p < |lay.ctx| :: Same(mem, mem', lay.ctx[p], lay.ctx[p] + 20))
    && (forall p: nat | p < |lay.ctx| && p in saved :: StackKept(lay, mem, mem', p, saved[p]))
  }

  /** The running party is on its own stack, with room for the next call. */
  ghost predicate OnOwnStack(lay: Layout, p: nat, c: Cpu)
    requires |lay.ctx| == |lay.stack|
  {
    p < |lay.ctx| && lay.stack[p] + 12 <= c.r.esp <= lay.stack[p] + 4096
  }

  function SnapOf(r: Regs, ret: Word): Snapshot {
    Snapshot(r.esp - 12, r.ebp, r.esi, r.edi, r.ebx, ret)
  }

  // ---------------------------------------------------------------- acts

  datatype Act =
    | Local                                       // own code, disk interrupts included
    | SetCurrent(t: nat)                          // sched.c:85
    | Dispatch(ret: Word)                         // sched.c:86
    | ClearCurrent                                // sched.c:139-140
    | SwitchOut(ret: Word, open: seq<Range>)      // sched.c:141
    | Tick(k: Cpu, h: Cpu, back: Word, ret: Word, open: seq<Range>)
    | Create(t: nat, taskInit: Word, jumpUser: Word, eip: Word)

  /** Party `p` leaves with snapshot and open ranges, and party `q` runs. */
  function Handed(s: State, p: nat, sv: Saved, q: nat): map<nat, Saved> {
    (s.saved - {q})[p := sv]
  }

  /**
   The timer interrupt, which needs IF: its gate clears the flag and the frame
   goes onto the stack of the running party. If `current` is NULL the handler
   returns. Otherwise it ends in `reschedule`, at state `h`, which saves into the
   context `current` names and leaves for the scheduler's.
   */
  ghost predicate TickStep(lay: Layout, s: State, act: Act, s': State)
    requires LayoutOk(lay) && act.Tick?
  {
    s.running < |lay.ctx| && s.cur < |lay.ctx| && IfSet(s.c.r) && (s.running == 0 ==> !InUser(s.c.r)) &&
    var esp0 := lay.stack[s.running] + 4096;
    && 0 <= s.c.r.esp < 0x1_0000_0000 && lay.stack[s.running] + 8 <= FrameBase(s.c, esp0) && StackTop(s.c, esp0) <= esp0
    && FrameBase(s.c, esp0) >= 0 && FrameBase(s.c, esp0) < 0x1_0000_0000
    && if s.cur == 0 then
         s' == s.(c := s'.c) && s'.c.r == s.c.r && OwnWrites(lay, s.c.mem, s'.c.mem, s.saved)
       else
         && Entered(s.c, act.k, 0, esp0, act.back) && !IfSet(act.k.r) && !IfSet(act.h.r)
         && OnOwnStack(lay, s.running, act.h) && act.h.r.esp <= act.k.r.esp
         && OwnWrites(lay, act.k.mem, act.h.mem, s.saved) && Same(act.k.mem, act.h.mem, FrameBase(s.c, esp0), esp0)
         && Switched(act.h, s'.c, lay.ctx[s.cur], lay.ctx[0], act.ret)
         && s'.running == 0 && s'.cur == 0 && OpenAbove(act.open, StackTop(s.c, esp0))
         && s'.saved == if s.running == 0 then s.saved
            else Handed(s, s.running, Saved(SnapOf(act.h.r, act.ret), act.open), 0)
  }

  /**
   Scheduler code does not set IF for good: its idle branch clears the flag again
   after the halt. A task's way through user mode and a trap gate may set it.
   */
  ghost predicate FlagNotRaised(s: State, s': State) {
    s.running == 0 && IfSet(s'.c.r) ==> IfSet(s.c.r)
  }

  ghost predicate Step(lay: Layout, s: State, act: Act, s': State)
    requires LayoutOk(lay)
  {
    s.running < |lay.ctx| && s.cur < |lay.ctx| &&
    match act
    case Local => s' == s.(c := s'.c) && OwnWrites(lay, s.c.mem, s'.c.mem, s.saved) && FlagNotRaised(s, s')
    case SetCurrent(t) => s.running == 0 && s.cur == 0 && t != 0 && t in s.saved && s' == s.(cur := t)
    case Dispatch(ret) =>
      && s.running == 0 && s.cur != 0 && s.cur in s.saved && OnOwnStack(lay, 0, s.c)
      && Switched(s.c, s'.c, lay.ctx[0], lay.ctx[s.cur], ret)
      && s' == State(s'.c, s.cur, s.cur, Handed(s, 0, Saved(SnapOf(s.c.r, ret), []), s.cur))
    case ClearCurrent => s.running != 0 && s.cur == s.running && s' == s.(cur := 0)
    case SwitchOut(ret, open) =>
      && s.running != 0 && s.cur == 0 && OnOwnStack(lay, s.running, s.c) && OpenAbove(open, s.c.r.esp)
      && Switched(s.c, s'.c, lay.ctx[s.running], lay.ctx[0], ret)
      && s' == State(s'.c, 0, 0, Handed(s, s.running, Saved(SnapOf(s.c.r, ret), open), 0))
    case Tick(_, _, _, _, _) => TickStep(lay, s, act, s')
    case Create(t, taskInit, jumpUser, eip) =>
      && 0 < t < |lay.ctx| && t !in s.saved && t != s.running && t != s.cur && FlagNotRaised(s, s')
      && Fresh(s'.c.mem, lay, t, taskInit, jumpUser, eip)
      && (forall p: nat | p < |lay.ctx| && p != t :: SameParty(lay, s.c.mem, s'.c.mem, p))
      && s' == s.(c := s'.c, saved := s.saved[t := Saved(SnapAt(s'.c.mem, lay.ctx[t]), [])])
  }

  /** A tick that lands on scheduler code between `current = task` and the switch. */
  predicate BadTick(s: State, act: Act) {
    act.Tick? && s.running == 0 && s.cur != 0
  }

  ghost predicate IsRun(lay: Layout, trace: seq<State>, acts: seq<Act>)
    requires LayoutOk(lay)
  {
    |trace| == |acts| + 1 && forall i | 0 <= i < |acts| :: StepAt(lay, trace, acts, i)
  }

  ghost predicate StepAt(lay: Layout, trace: seq<State>, acts: seq<Act>, i: nat)
    requires LayoutOk(lay) && i < |acts| < |trace|
  {
    Step(lay, trace[i], acts[i], trace[i + 1])
  }

  // ---------------------------------------------------------------- the invariant

  ghost predicate SavedOk(lay: Layout, s: State, p: nat)
    requires LayoutOk(lay) && p in s.saved
  {
    p < |lay.ctx| && Suspended(s.c.mem, lay, p, s.saved[p].snap) && OpenAbove(s.saved[p].open, s.saved[p].snap.esp + 4)
  }

  ghost predicate Shape(lay: Layout, s: State)
    requires LayoutOk(lay)
  {
    && s.running < |lay.ctx| && s.running !in s.saved && (s.running != 0 ==> 0 in s.saved)
    && (s.cur == 0 || s.cur == s.running || (s.running == 0 && s.cur in s.saved))
  }

  ghost predicate Good(lay: Layout, s: State)
    requires LayoutOk(lay)
  {
    Shape(lay, s) && forall p {:trigger SavedOk(lay, s, p)} | p in s.saved :: SavedOk(lay, s, p)
  }

  /** The code a party has not left keeps every snapshot: its context, and the return address on its stack. */
  lemma KeptSuspended(lay: Layout, mem: Memory, mem': Memory, p: nat, sv: Saved)
    requires LayoutOk(lay) && p < |lay.ctx| && Suspended(mem, lay, p, sv.snap) && OpenAbove(sv.open, sv.snap.esp + 4)
    requires PartyKept(lay, mem, mem', p, sv)
    ensures Suspended(mem', lay, p, sv.snap)
  {
    SuspendedSame(mem, mem', lay, p, sv.snap);
  }

  lemma KeptTwice(lay: Layout, m0: Memory, m1: Memory, m2: Memory, p: nat, sv: Saved)
    requires LayoutOk(lay) && p < |lay.ctx| && PartyKept(lay, m0, m1, p, sv) && PartyKept(lay, m1, m2, p, sv)
    ensures PartyKept(lay, m0, m2, p, sv)
  {
    forall a | lay.ctx[p] <= a < lay.ctx[p] + 20 ensures Get(m2, a) == Get(m0, a) { assert Get(m1, a) == Get(m0, a); }
    forall a | sv.snap.esp <= a < lay.stack[p] + 4096 && !InOpen(sv.open, a) ensures Get(m2, a) == Get(m0, a) {
      assert Get(m1, a) == Get(m0, a);
    }
  }

  /** A call of `__switch_to` on the stack of `r` that saves into the context of `f` touches no other party. */
  lemma SwitchKeeps(lay: Layout, c: Cpu, k: Cpu, r: nat, f: nat, to: int, ret: Word, p: nat, sv: Saved)
    requires LayoutOk(lay) && p < |lay.ctx| && f < |lay.ctx| && OnOwnStack(lay, r, c) && p != r && p != f
    requires Switched(c, k, lay.ctx[f], to, ret) && sv.snap.esp >= lay.stack[p]
    ensures PartyKept(lay, c.mem, k.mem, p, sv)
  {
    assert PartiesApart(lay, p, r) && PartiesApart(lay, p, f) && PartiesApart(lay, f, p);
  }

  /** Pushing a frame on the stack of `r` touches no other party. */
  lemma PushKeeps(lay: Layout, mem: Memory, mem': Memory, r: nat, lo: int, hi: int, p: nat, sv: Saved)
    requires LayoutOk(lay) && p < |lay.ctx| && r < |lay.ctx| && p != r && sv.snap.esp >= lay.stack[p]
    requires Untouched(mem, mem', lo, hi) && lay.stack[r] <= lo && hi <= lay.stack[r] + 4096
    ensures PartyKept(lay, mem, mem', p, sv)
  {
    assert PartiesApart(lay, p, r);
  }

  lemma TickKeeps(lay: Layout, s: State, act: Act, s': State, p: nat)
    requires LayoutOk(lay) && Good(lay, s) && act.Tick? && TickStep(lay, s, act, s') && !BadTick(s, act)
             && p in s.saved && p < |lay.ctx|
    ensures PartyKept(lay, s.c.mem, s'.c.mem, p, s.saved[p])
  {
    var sv := s.saved[p];
    assert SavedOk(lay, s, p);
    if s.cur != 0 {
      PushKeeps(lay, s.c.mem, act.k.mem, s.running, act.k.r.esp, StackTop(s.c, lay.stack[s.running] + 4096), p, sv);
      KeptTwice(lay, s.c.mem, act.k.mem, act.h.mem, p, sv);
      SwitchKeeps(lay, act.h, s'.c, s.running, s.cur, lay.ctx[0], act.ret, p, sv);
      KeptTwice(lay, s.c.mem, act.h.mem, s'.c.mem, p, sv);
    }
  }

  /** Without a bad tick, no act writes the snapshot of a suspended party. */
  lemma StepKeeps(lay: Layout, s: State, act: Act, s': State, p: nat)
    requires LayoutOk(lay) && Good(lay, s) && Step(lay, s, act, s') && !BadTick(s, act) && p in s.saved && p < |lay.ctx|
    ensures PartyKept(lay, s.c.mem, s'.c.mem, p, s.saved[p])
    ensures p in s'.saved ==> s'.saved[p] == s.saved[p]
  {
    var sv := s.saved[p];
    assert SavedOk(lay, s, p);
    match act
    case Dispatch(ret) => SwitchKeeps(lay, s.c, s'.c, 0, 0, lay.ctx[s.cur], ret, p, sv);
    case SwitchOut(ret, _) => SwitchKeeps(lay, s.c, s'.c, s.running, s.running, lay.ctx[0], ret, p, sv);
    case Tick(_, _, _, _, _) => TickKeeps(lay, s, act, s', p);
    case Create(_, _, _, _) => assert SameParty(lay, s.c.mem, s'.c.mem, p);
    case _ =>
  }

  /** The party that leaves is suspended with what it had. */
  lemma SwitchSuspends(lay: Layout, c: Cpu, k: Cpu, p: nat, to: int, ret: Word)
    requires LayoutOk(lay) && OnOwnStack(lay, p, c) && Switched(c, k, lay.ctx[p], to, ret)
    ensures Suspended(k.mem, lay, p, SnapOf(c.r, ret))
  {
  }

  lemma StepShape(lay: Layout, s: State, act: Act, s': State)
    requires LayoutOk(lay) && Shape(lay, s) && Step(lay, s, act, s') && (forall p | p in s.saved :: p < |lay.ctx|)
    ensures Shape(lay, s') && forall p | p in s'.saved :: p < |lay.ctx|
  {
  }

  lemma StepSaved(lay: Layout, s: State, act: Act, s': State, p: nat)
    requires LayoutOk(lay) && Good(lay, s) && Step(lay, s, act, s') && !BadTick(s, act) && p in s'.saved
             && p < |lay.ctx|
    ensures SavedOk(lay, s', p)
  {
    if p in s.saved {
      assert SavedOk(lay, s, p);
      StepKeeps(lay, s, act, s', p);
      KeptSuspended(lay, s.c.mem, s'.c.mem, p, s.saved[p]);
    } else {
      match act
      case Dispatch(ret) => SwitchSuspends(lay, s.c, s'.c, 0, lay.ctx[s.cur], ret);
      case SwitchOut(ret, _) => SwitchSuspends(lay, s.c, s'.c, p, lay.ctx[0], ret);
      case Tick(_, h, _, ret, _) => SwitchSuspends(lay, h, s'.c, p, lay.ctx[0], ret);
      case _ =>
    }
  }

  lemma GoodStep(lay: Layout, s: State, act: Act, s': State)
    requires LayoutOk(lay) && Good(lay, s) && Step(lay, s, act, s') && !BadTick(s, act)
    ensures Good(lay, s')
  {
    forall p | p in s.saved ensures p < |lay.ctx| { assert SavedOk(lay, s, p); }
    StepShape(lay, s, act, s');
    forall p | p in s'.saved ensures SavedOk(lay, s', p) { StepSaved(lay, s, act, s', p); }
  }
}
