/**
 The stack `task_setup` fabricates for a new task, and what the first dispatch
 does with it.
 */
module TaskFrame {
  import opened Machine
  import opened Interrupts

  /** The registers a new task starts user mode with. */
  function FreshRegs(eip: Word): Regs {
    Regs(0, 0, 0, 0, 0, 0, 0, 0, eip, 512, 0x1b, 0x23, 0x23, 0x23, 0x23, 0x23)
  }

  /** The fields of `struct regs` at their offsets hold the registers. */
  ghost predicate FieldsAt(mem: Memory, a: int, r: Regs) {
    && Load32(mem, a) == r.ebp && Load32(mem, a + 4) == r.edi && Load32(mem, a + 8) == r.esi
    && Load32(mem, a + 12) == r.edx && Load32(mem, a + 16) == r.ecx && Load32(mem, a + 20) == r.ebx
    && Load32(mem, a + 24) == r.eax
    && Load16(mem, a + 28) == r.gs && Load16(mem, a + 30) == r.fs && Load16(mem, a + 32) == r.es
       && Load16(mem, a + 34) == r.ds
    && Load32(mem, a + 40) == r.eip && Load32(mem, a + 44) == r.cs && Load32(mem, a + 48) == r.eflags
    && Load32(mem, a + 52) == r.esp && Load32(mem, a + 56) == r.ss
  }

  lemma HoldsCons(mem: Memory, a: int, item: Item, items: seq<Item>)
    requires HoldsTop(mem, a, item) && Holds(mem, a + Size(item), items)
    ensures Holds(mem, a, [item] + items)
  {
    assert ([item] + items)[1..] == items;
  }

  lemma HoldsReturn(mem: Memory, a: int, r: Regs)
    requires InUser(r) && 0 <= r.esp < 0x1_0000_0000 && FieldsAt(mem, a, r)
    ensures Holds(mem, a + 40, ReturnItems(r))
  {
    HoldsCons(mem, a + 56, W32(r.ss), []);
    HoldsCons(mem, a + 52, W32(r.esp), [W32(r.ss)] + []);
    var st := [W32(r.esp)] + ([W32(r.ss)] + []);
    HoldsCons(mem, a + 48, W32(r.eflags), st);
    HoldsCons(mem, a + 44, W32(r.cs), [W32(r.eflags)] + st);
    HoldsCons(mem, a + 40, W32(r.eip), [W32(r.cs)] + ([W32(r.eflags)] + st));
    assert [W32(r.eip)] + ([W32(r.cs)] + ([W32(r.eflags)] + st)) == ReturnItems(r);
  }

  lemma HoldsSegments(mem: Memory, a: int, r: Regs, items: seq<Item>)
    requires FieldsAt(mem, a, r) && Holds(mem, a + 36, items)
    ensures Holds(mem, a + 28, [W16(r.gs), W16(r.fs), W16(r.es), W16(r.ds)] + items)
  {
    HoldsCons(mem, a + 34, W16(r.ds), items);
    HoldsCons(mem, a + 32, W16(r.es), [W16(r.ds)] + items);
    HoldsCons(mem, a + 30, W16(r.fs), [W16(r.es)] + ([W16(r.ds)] + items));
    HoldsCons(mem, a + 28, W16(r.gs), [W16(r.fs)] + ([W16(r.es)] + ([W16(r.ds)] + items)));
    assert [W16(r.gs)] + ([W16(r.fs)] + ([W16(r.es)] + ([W16(r.ds)] + items)))
           == [W16(r.gs), W16(r.fs), W16(r.es), W16(r.ds)] + items;
  }

  lemma HoldsGeneral(mem: Memory, a: int, r: Regs, items: seq<Item>)
    requires FieldsAt(mem, a, r) && Holds(mem, a + 28, items)
    ensures Holds(mem, a, [W32(r.ebp), W32(r.edi), W32(r.esi), W32(r.edx), W32(r.ecx), W32(r.ebx), W32(r.eax)] + items)
  {
    HoldsCons(mem, a + 24, W32(r.eax), items);
    var st := [W32(r.eax)] + items;
    HoldsCons(mem, a + 20, W32(r.ebx), st);
    st := [W32(r.ebx)] + st;
    HoldsCons(mem, a + 16, W32(r.ecx), st);
    st := [W32(r.ecx)] + st;
    HoldsCons(mem, a + 12, W32(r.edx), st);
    st := [W32(r.edx)] + st;
    HoldsCons(mem, a + 8, W32(r.esi), st);
    st := [W32(r.esi)] + st;
    HoldsCons(mem, a + 4, W32(r.edi), st);
    st := [W32(r.edi)] + st;
    HoldsCons(mem, a, W32(r.ebp), st);
    assert [W32(r.ebp)] + st == [W32(r.ebp), W32(r.edi), W32(r.esi), W32(r.edx), W32(r.ecx), W32(r.ebx),
           W32(r.eax)] + items;
  }

  /** The struct layout is the pop order: `struct regs` in memory is a frame the exit code can consume. */
  lemma LayoutIsFrame(mem: Memory, a: int, r: Regs)
    requires InUser(r) && 0 <= r.esp < 0x1_0000_0000 && FieldsAt(mem, a, r)
    ensures Holds(mem, a, FrameItems(r, Load32(mem, a + 36)))
  {
    var e := Load32(mem, a + 36);
    HoldsReturn(mem, a, r);
    HoldsCons(mem, a + 36, W32(e), ReturnItems(r));
    HoldsSegments(mem, a, r, [W32(e)] + ReturnItems(r));
    var seg := [W16(r.gs), W16(r.fs), W16(r.es), W16(r.ds)] + ([W32(e)] + ReturnItems(r));
    HoldsGeneral(mem, a, r, seg);
    assert [W32(r.ebp), W32(r.edi), W32(r.esi), W32(r.edx), W32(r.ecx), W32(r.ebx), W32(r.eax)] + seg
           == FrameItems(r, e);
  }

  // ---------------------------------------------------------------- task_setup

  method ClearBytes(mem: Memory, a: int, n: nat) returns (mem': Memory)
    ensures forall x | a <= x < a + n :: Get(mem', x) == 0
    ensures Untouched(mem, mem', a, a + n)
  {
    mem' := mem;
    for i := 0 to n
      invariant forall x | a <= x < a + i :: Get(mem', x) == 0
      invariant Untouched(mem, mem', a, a + i)
    {
      var before := mem';
      mem' := mem'[a + i := 0];
      assert forall x | x != a + i :: Get(mem', x) == Get(before, x);
    }
  }

  /** The segment fields, all the user data selector. */
  method StoreSegments(mem: Memory, a: int) returns (mem': Memory)
    ensures Load16(mem', a + 28) == 0x23 && Load16(mem', a + 30) == 0x23
    ensures Load16(mem', a + 32) == 0x23 && Load16(mem', a + 34) == 0x23
    ensures Untouched(mem, mem', a + 28, a + 36)
  {
    mem' := Store16(mem, a + 34, 0x23);
    mem' := Store16(mem', a + 32, 0x23);
    mem' := Store16(mem', a + 30, 0x23);
    mem' := Store16(mem', a + 28, 0x23);
  }

  /** The fields the exit code hands to `iret`. */
  method StoreReturn(mem: Memory, a: int, eip: Word) returns (mem': Memory)
    ensures Load32(mem', a + 40) == eip && Load32(mem', a + 44) == 0x1b
    ensures Load32(mem', a + 48) == 512 && Load32(mem', a + 56) == 0x23
    ensures forall x | x < a + 40 || a + 52 <= x < a + 56 || a + 60 <= x :: Get(mem', x) == Get(mem, x)
  {
    Stored32(mem, a + 44, 0x1b);
    var m1 := Store32(mem, a + 44, 0x1b);
    Stored32(m1, a + 56, 0x23);
    var m2 := Store32(m1, a + 56, 0x23);
    Stored32(m2, a + 48, 512);
    var m3 := Store32(m2, a + 48, 512);
    Stored32(m3, a + 40, eip);
    mem' := Store32(m3, a + 40, eip);
    LoadSame(m1, mem', a + 44);
    LoadSame(m2, mem', a + 56);
    LoadSame(m3, mem', a + 48);
  }

  lemma ZeroLoad(mem: Memory, a: int)
    requires forall x | a <= x < a + 4 :: Get(mem, x) == 0
    ensures Load32(mem, a) == 0
  {
  }

  /** The interrupt frame of a task that has never run. */
  method BuildFrame(mem: Memory, a: int, eip: Word) returns (mem': Memory)
    ensures FieldsAt(mem', a, FreshRegs(eip)) && Load32(mem', a + 36) == 0
    ensures Untouched(mem, mem', a, a + 60)
  {
    var m1 := ClearBytes(mem, a, 60);
    var m2 := StoreSegments(m1, a);
    mem' := StoreReturn(m2, a, eip);
    forall x | a <= x < a + 28 || a + 36 <= x < a + 40 || a + 52 <= x < a + 56 ensures Get(mem', x) == 0 {
      assert Get(mem', x) == Get(m2, x) == Get(m1, x);
    }
    ZeroLoad(mem', a); ZeroLoad(mem', a + 4); ZeroLoad(mem', a + 8); ZeroLoad(mem', a + 12);
    ZeroLoad(mem', a + 16); ZeroLoad(mem', a + 20); ZeroLoad(mem', a + 24);
    ZeroLoad(mem', a + 36); ZeroLoad(mem', a + 52);
    assert Get(mem', a + 28) == Get(m2, a + 28) && Get(mem', a + 29) == Get(m2, a + 29);
    assert Get(mem', a + 30) == Get(m2, a + 30) && Get(mem', a + 31) == Get(m2, a + 31);
    assert Get(mem', a + 32) == Get(m2, a + 32) && Get(mem', a + 33) == Get(m2, a + 33);
    assert Get(mem', a + 34) == Get(m2, a + 34) && Get(mem', a + 35) == Get(m2, a + 35);
  }

  /** Two words below the frame: the kernel context a new task resumes with. */
  method StoreContext(mem: Memory, esp: int, taskInit: Word, jumpUser: Word, ghost frame: seq<Item>)
    returns (mem': Memory)
    requires Holds(mem, esp, frame)
    ensures Holds(mem', esp - 8, [W32(taskInit), W32(jumpUser)] + frame)
    ensures Untouched(mem, mem', esp - 8, esp)
  {
    var c := Cpu(FreshRegs(0).(esp := esp), mem);
    c := PushItem(c, W32(jumpUser), frame);
    c := PushItem(c, W32(taskInit), [W32(jumpUser)] + frame);
    mem' := c.mem;
    assert [W32(taskInit)] + ([W32(jumpUser)] + frame) == [W32(taskInit), W32(jumpUser)] + frame;
  }

  /**
   `task_setup` after a successful `kalloc`: what the first switch to the task
   will pop, from the saved stack pointer up to the end of its stack page.
   */
  method TaskSetup(mem: Memory, kstack: int, taskInit: Word, jumpUser: Word, eip: Word) returns (mem': Memory, esp: int)
    ensures esp == kstack + 4096 - 68
    ensures Holds(mem', esp, [W32(taskInit), W32(jumpUser)] + FrameItems(FreshRegs(eip), 0))
    ensures Untouched(mem, mem', esp, kstack + 4096)
  {
    esp := kstack + 4096;
    esp := esp - 60;
    var m1 := BuildFrame(mem, esp, eip);
    LayoutIsFrame(m1, esp, FreshRegs(eip));
    mem' := StoreContext(m1, esp, taskInit, jumpUser, FrameItems(FreshRegs(eip), 0));
    esp := esp - 8;
  }

  /** What is on the stack of a new task once `ret` has taken it into `task_init`. */
  function AfterRet(jumpUser: Word, eip: Word): seq<Item> {
    [W32(jumpUser)] + FrameItems(FreshRegs(eip), 0)
  }

  /** A function about to return: its stack pointer is where it was, and so is the stack from there on. */
  ghost predicate KeepsStack(c: Cpu, c': Cpu, size: int) {
    c'.r.esp == c.r.esp && Same(c.mem, c'.mem, c.r.esp, c.r.esp + size)
  }

  /**
   `task_init` runs and returns into `__jump_userspace`, which leaves for user
   mode with exactly the fabricated registers: ring 3 selectors, IF set, the
   stored eip.
   */
  method EnterUser(c: Cpu, ghost jumpUser: Word, ghost eip: Word, taskInit: Cpu -> Cpu) returns (next: Word, k: Cpu)
    requires Holds(c.mem, c.r.esp, AfterRet(jumpUser, eip))
    requires KeepsStack(c, taskInit(c), 64)
    ensures next == jumpUser && k.r == FreshRegs(eip) && k.mem == taskInit(c).mem
    ensures InUser(k.r) && k.r.eip == eip && k.r.cs == 0x1b && k.r.ss == 0x23 && IfSet(k.r) && k.r.eflags == 512
    ensures k.r.ds == k.r.es == k.r.fs == k.r.gs == 0x23 && k.r.esp == 0 && k.r.ebp == 0
    ensures k.r.eax == k.r.ebx == k.r.ecx == k.r.edx == k.r.esi == k.r.edi == 0
  {
    ghost var frame := FrameItems(FreshRegs(eip), 0);
    FrameSize(FreshRegs(eip), 0);
    assert AfterRet(jumpUser, eip)[1..] == frame;
    assert SizeOf(AfterRet(jumpUser, eip)) == 64;
    k := taskInit(c);
    HoldsSame(c.mem, k.mem, c.r.esp, AfterRet(jumpUser, eip));
    next, k := PopWord(k, AfterRet(jumpUser, eip));
    k := LeaveInterrupt(k, FreshRegs(eip), 0);
  }
}
