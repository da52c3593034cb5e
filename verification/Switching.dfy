/**
 `__switch_to`, what it saves, and the contexts and stacks it works on.
 */
module Switching {
  import opened Machine
  import opened Interrupts
  import opened TaskFrame

  // ---------------------------------------------------------------- contexts

  /** What `__switch_to` saves: five registers, and the return address on the stack. */
  datatype Snapshot = Snapshot(esp: int, ebp: Word, esi: Word, edi: Word, ebx: Word, ret: Word)

  /** Party 0 is the scheduler, the others are tasks: where their `struct context` and their stack page are. */
  datatype Layout = Layout(ctx: seq<int>, stack: seq<int>)

  predicate Apart(a: int, n: int, b: int, k: int) {
    a + n <= b || b + k <= a
  }

  ghost predicate PartiesApart(lay: Layout, p: nat, q: nat)
    requires |lay.ctx| == |lay.stack| && p < |lay.ctx| && q < |lay.ctx|
  {
    && Apart(lay.ctx[p], 20, lay.stack[q], 4096)
    && (p != q ==> Apart(lay.ctx[p], 20, lay.ctx[q], 20) && Apart(lay.stack[p], 4096, lay.stack[q], 4096))
  }

  ghost predicate AddressOk(lay: Layout, p: nat)
    requires |lay.ctx| == |lay.stack| && p < |lay.ctx|
  {
    0 <= lay.ctx[p] < 0xffff_ffec && 0 <= lay.stack[p] < 0xffff_f000
  }

  /** Contexts and stack pages do not overlap; for stacks this is the ownership of `kalloc` pages. */
  ghost predicate LayoutOk(lay: Layout) {
    && |lay.ctx| == |lay.stack|
    && (forall p | 0 <= p < |lay.ctx| :: AddressOk(lay, p))
    && (forall p, q {:trigger PartiesApart(lay, p, q)} | 0 <= p < |lay.ctx| && 0 <= q < |lay.ctx| ::
       PartiesApart(lay, p, q))
  }

  function SnapAt(mem: Memory, ctx: int): Snapshot {
    var esp := Load32(mem, ctx);
    Snapshot(esp, Load32(mem, ctx + 4), Load32(mem, ctx + 8), Load32(mem, ctx + 12), Load32(mem, ctx + 16),
      Load32(mem, esp))
  }

  /** Party `p` is suspended with snapshot `s`, on its own stack. */
  ghost predicate Suspended(mem: Memory, lay: Layout, p: nat, s: Snapshot)
    requires |lay.ctx| == |lay.stack| && p < |lay.ctx|
  {
    SnapAt(mem, lay.ctx[p]) == s && lay.stack[p] <= s.esp <= lay.stack[p] + 4092
  }

  lemma SuspendedSame(mem: Memory, mem': Memory, lay: Layout, p: nat, s: Snapshot)
    requires |lay.ctx| == |lay.stack| && p < |lay.ctx| && Suspended(mem, lay, p, s)
    requires Same(mem, mem', lay.ctx[p], lay.ctx[p] + 20) && Same(mem, mem', s.esp, s.esp + 4)
    ensures Suspended(mem', lay, p, s)
  {
    var c := lay.ctx[p];
    SameWord(mem, mem', c, c + 20, c);
    SameWord(mem, mem', c, c + 20, c + 4);
    SameWord(mem, mem', c, c + 20, c + 8);
    SameWord(mem, mem', c, c + 20, c + 12);
    SameWord(mem, mem', c, c + 20, c + 16);
    LoadSame(mem, mem', s.esp);
  }

  lemma SameWord(mem: Memory, mem': Memory, lo: int, hi: int, a: int)
    requires Same(mem, mem', lo, hi) && lo <= a && a + 4 <= hi
    ensures Load32(mem', a) == Load32(mem, a)
  {
    assert Same(mem, mem', a, a + 4) by {
      forall x | a <= x < a + 4 ensures Get(mem', x) == Get(mem, x) {}
    }
    LoadSame(mem, mem', a);
  }

  // ---------------------------------------------------------------- __switch_to

  method StoreWord(mem: Memory, a: int, w: Word) returns (mem': Memory)
    ensures Load32(mem', a) == w && Untouched(mem, mem', a, a + 4)
  {
    Stored32(mem, a, w);
    mem' := Store32(mem, a, w);
  }

  /** The context at `ctx` holds the stack pointer and the registers a call has to preserve. */
  ghost predicate ContextIs(mem: Memory, ctx: int, r: Regs) {
    && Load32(mem, ctx) == r.esp && Load32(mem, ctx + 4) == r.ebp && Load32(mem, ctx + 8) == r.esi
    && Load32(mem, ctx + 12) == r.edi && Load32(mem, ctx + 16) == r.ebx
  }

  /** The five stores into the context of the party that leaves. */
  method StoreContext(mem: Memory, ctx: int, r: Regs) returns (mem': Memory)
    requires 0 <= r.esp < 0x1_0000_0000
    ensures ContextIs(mem', ctx, r) && Untouched(mem, mem', ctx, ctx + 20)
  {
    var m1 := StoreWord(mem, ctx, r.esp);
    var m2 := StoreWord(m1, ctx + 4, r.ebp);
    var m3 := StoreWord(m2, ctx + 8, r.esi);
    var m4 := StoreWord(m3, ctx + 12, r.edi);
    mem' := StoreWord(m4, ctx + 16, r.ebx);
    LoadSame(m1, m2, ctx); LoadSame(m2, m3, ctx); LoadSame(m3, m4, ctx); LoadSame(m4, mem', ctx);
    LoadSame(m2, m3, ctx + 4); LoadSame(m3, m4, ctx + 4); LoadSame(m4, mem', ctx + 4);
    LoadSame(m3, m4, ctx + 8); LoadSame(m4, mem', ctx + 8);
    LoadSame(m4, mem', ctx + 12);
  }

  /** Registers after loading a snapshot and returning through it. */
  function Resumed(r: Regs, s: Snapshot): Regs {
    r.(esp := s.esp + 4, ebp := s.ebp, esi := s.esi, edi := s.edi, ebx := s.ebx, eip := s.ret)
  }

  /** The five loads from the context of the party that resumes, and the `ret`. */
  method LoadContext(c: Cpu, ctx: int) returns (k: Cpu)
    ensures k == Cpu(Resumed(c.r, SnapAt(c.mem, ctx)), c.mem)
  {
    k := c.(r := c.r.(esp := Load32(c.mem, ctx)));
    k := k.(r := k.r.(ebp := Load32(c.mem, ctx + 4)));
    k := k.(r := k.r.(esi := Load32(c.mem, ctx + 8)));
    k := k.(r := k.r.(edi := Load32(c.mem, ctx + 12)));
    k := k.(r := k.r.(ebx := Load32(c.mem, ctx + 16)));
    k := k.(r := k.r.(eip := Load32(c.mem, k.r.esp), esp := k.r.esp + 4));
  }

  /**
   `__switch_to`, from its first instruction to its `ret`; the two arguments are
   on the stack above the return address.
   */
  method SwitchTo(c: Cpu, ghost from: int, ghost to: int) returns (k: Cpu)
    requires 0 <= c.r.esp < 0x1_0000_0000
    requires Load32(c.mem, c.r.esp + 4) == from && Load32(c.mem, c.r.esp + 8) == to && Apart(from, 20, c.r.esp, 12)
    ensures ContextIs(k.mem, from, c.r) && Untouched(c.mem, k.mem, from, from + 20)
    ensures Load32(k.mem, c.r.esp) == Load32(c.mem, c.r.esp)
    ensures 0 <= to < 0x1_0000_0000 && k.r == Resumed(c.r, SnapAt(k.mem, to)).(eax := to)
  {
    var eax: int := Load32(c.mem, c.r.esp + 4);
    var mem := StoreContext(c.mem, eax, c.r);
    SameBelow(c.mem, mem, eax, c.r.esp);
    SameBelow(c.mem, mem, eax, c.r.esp + 8);
    eax := Load32(mem, c.r.esp + 8);
    k := LoadContext(Cpu(c.r.(eax := eax), mem), eax);
  }

  /**
   A call `__switch_to(from, to)` that will return to `ret`: the caller's
   context and return address are stored, nothing else is, and the processor
   continues with the snapshot found at `to`. The flags, IF among them, are
   carried over as they are.
   */
  ghost predicate Switched(c: Cpu, k: Cpu, from: int, to: int, ret: Word) {
    && ContextIs(k.mem, from, c.r.(esp := c.r.esp - 12))
    && Load32(k.mem, c.r.esp - 12) == ret
    && (forall a | !(from <= a < from + 20) && !(c.r.esp - 12 <= a < c.r.esp) :: Get(k.mem, a) == Get(c.mem, a))
    && k.r == Resumed(c.r, SnapAt(k.mem, to)).(eax := k.r.eax) && k.r.eax == to
  }

  method CallSwitchTo(c: Cpu, from: Word, to: Word, ret: Word) returns (k: Cpu)
    requires 12 <= c.r.esp < 0x1_0000_0000 && Apart(from, 20, c.r.esp - 12, 12)
    ensures Switched(c, k, from, to, ret)
  {
    var c1 := PushArgs(c, from, to, ret);
    k := SwitchTo(c1, from, to);
    TwoRanges(c.mem, c1.mem, k.mem, c.r.esp - 12, c.r.esp, from, (from as int) + 20);
  }

  lemma TwoRanges(mem: Memory, m1: Memory, m2: Memory, lo: int, hi: int, lo': int, hi': int)
    requires Untouched(mem, m1, lo, hi) && Untouched(m1, m2, lo', hi')
    ensures forall a | !(lo' <= a < hi') && !(lo <= a < hi) :: Get(m2, a) == Get(mem, a)
  {
    forall a | !(lo' <= a < hi') && !(lo <= a < hi) ensures Get(m2, a) == Get(mem, a) {
      assert Get(m2, a) == Get(m1, a);
    }
  }

  /** Both arguments and the return address go onto the caller's stack. */
  method PushArgs(c: Cpu, from: Word, to: Word, ret: Word) returns (k: Cpu)
    ensures k.r == c.r.(esp := c.r.esp - 12) && Untouched(c.mem, k.mem, c.r.esp - 12, c.r.esp)
    ensures Load32(k.mem, k.r.esp) == ret && Load32(k.mem, k.r.esp + 4) == from && Load32(k.mem, k.r.esp + 8) == to
  {
    var c1 := PushItem(c, W32(to), []);
    var c2 := PushItem(c1, W32(from), [W32(to)] + []);
    k := PushItem(c2, W32(ret), [W32(from)] + ([W32(to)] + []));
    ArgsOnStack(k, from, to, ret);
  }

  lemma ArgsOnStack(c: Cpu, from: Word, to: Word, ret: Word)
    requires Holds(c.mem, c.r.esp, [W32(ret)] + ([W32(from)] + ([W32(to)] + [])))
    ensures Load32(c.mem, c.r.esp) == ret && Load32(c.mem, c.r.esp + 4) == from && Load32(c.mem, c.r.esp + 8) == to
  {
    var st := [W32(ret)] + ([W32(from)] + ([W32(to)] + []));
    Popped(c, st);
    assert st[1..] == [W32(from)] + ([W32(to)] + []);
    var c1 := c.(r := c.r.(esp := c.r.esp + 4));
    Popped(c1, st[1..]);
    assert st[1..][1..] == [W32(to)] + [];
    var c2 := c.(r := c.r.(esp := c.r.esp + 8));
    Popped(c2, [W32(to)] + []);
  }

  lemma SameBelow(mem: Memory, mem': Memory, ctx: int, a: int)
    requires Untouched(mem, mem', ctx, ctx + 20) && Apart(ctx, 20, a, 4)
    ensures Load32(mem', a) == Load32(mem, a)
  {
    LoadSame(mem, mem', a);
  }

  ghost predicate SameParty(lay: Layout, mem: Memory, mem': Memory, q: nat)
    requires |lay.ctx| == |lay.stack| && q < |lay.ctx|
  {
    && Same(mem, mem', lay.ctx[q], lay.ctx[q] + 20)
    && Same(mem, mem', lay.stack[q], lay.stack[q] + 4096)
  }

  // ---------------------------------------------------------------- new tasks

  /** Where a new task's saved stack pointer points: two return addresses below its frame. */
  function FreshEsp(lay: Layout, t: nat): int
    requires t < |lay.stack|
  {
    lay.stack[t] + 4096 - 68
  }

  function FreshStack(taskInit: Word, jumpUser: Word, eip: Word): seq<Item> {
    [W32(taskInit), W32(jumpUser)] + FrameItems(FreshRegs(eip), 0)
  }

  /** Task `t` has never run: it is suspended as if about to return to `task_init`, with its frame above. */
  ghost predicate Fresh(mem: Memory, lay: Layout, t: nat, taskInit: Word, jumpUser: Word, eip: Word)
    requires LayoutOk(lay) && t < |lay.ctx|
  {
    && Load32(mem, lay.ctx[t]) == Load32(mem, lay.ctx[t] + 4) == FreshEsp(lay, t)
    && Suspended(mem, lay, t, SnapAt(mem, lay.ctx[t]))
    && SnapAt(mem, lay.ctx[t]).ret == taskInit
    && Load32(mem, lay.ctx[t] + 8) == Load32(mem, lay.ctx[t] + 12) == Load32(mem, lay.ctx[t] + 16) == 0
    && Holds(mem, FreshEsp(lay, t), FreshStack(taskInit, jumpUser, eip))
  }

  /** `task_setup` makes a fresh task and writes only its stack page and its context. */
  method NewTask(lay: Layout, mem: Memory, t: nat, taskInit: Word, jumpUser: Word, eip: Word) returns (mem': Memory)
    requires LayoutOk(lay) && t < |lay.ctx|
    ensures Fresh(mem', lay, t, taskInit, jumpUser, eip)
    ensures forall p | 0 <= p < |lay.ctx| && p != t :: SameParty(lay, mem, mem', p)
  {
    assert AddressOk(lay, t) && PartiesApart(lay, t, t);
    var m1, sp := TaskSetup(mem, lay.stack[t], taskInit, jumpUser, eip);
    mem' := StoreContext(m1, lay.ctx[t], FreshRegs(eip).(esp := sp, ebp := sp));
    FreshSize(taskInit, jumpUser, eip);
    HoldsSame(m1, mem', sp, FreshStack(taskInit, jumpUser, eip));
    Popped(Cpu(FreshRegs(eip).(esp := sp), mem'), FreshStack(taskInit, jumpUser, eip));
    forall p | 0 <= p < |lay.ctx| && p != t ensures SameParty(lay, mem, mem', p) {
      SetupElsewhere(lay, mem, m1, mem', t, p);
    }
  }

  lemma SetupElsewhere(lay: Layout, mem: Memory, m1: Memory, m2: Memory, t: nat, p: nat)
    requires LayoutOk(lay) && t < |lay.ctx| && p < |lay.ctx| && p != t
    requires Untouched(mem, m1, FreshEsp(lay, t), lay.stack[t] + 4096) && Untouched(m1, m2, lay.ctx[t], lay.ctx[t] + 20)
    ensures SameParty(lay, mem, m2, p)
  {
    assert PartiesApart(lay, p, t) && PartiesApart(lay, t, p);
    TwoRanges(mem, m1, m2, FreshEsp(lay, t), lay.stack[t] + 4096, lay.ctx[t], lay.ctx[t] + 20);
  }

  lemma FreshSize(taskInit: Word, jumpUser: Word, eip: Word)
    ensures SizeOf(FreshStack(taskInit, jumpUser, eip)) == 68
    ensures FreshStack(taskInit, jumpUser, eip)[1..] == AfterRet(jumpUser, eip)
  {
    var frame := FrameItems(FreshRegs(eip), 0);
    FrameSize(FreshRegs(eip), 0);
    assert ([W32(taskInit), W32(jumpUser)] + frame)[1..] == [W32(jumpUser)] + frame;
    assert ([W32(jumpUser)] + frame)[1..] == frame;
  }
}
