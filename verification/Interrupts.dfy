/**
 Interrupt entry and exit (irq.S).
 */
module Interrupts {
  import opened Machine

  /** A push instruction: the stack gains one item. */
  method PushItem(c: Cpu, item: Item, ghost items: seq<Item>) returns (c': Cpu)
    requires Holds(c.mem, c.r.esp, items)
    ensures Holds(c'.mem, c'.r.esp, [item] + items)
    ensures c'.r == c.r.(esp := c.r.esp - Size(item)) && Untouched(c.mem, c'.mem, c'.r.esp, c.r.esp)
  {
    Pushed(c, item, items);
    c' := Push(c, item);
  }

  method PopWord(c: Cpu, ghost items: seq<Item>) returns (w: Word, c': Cpu)
    requires items != [] && items[0].W32? && Holds(c.mem, c.r.esp, items)
    ensures w == items[0].w && c' == c.(r := c.r.(esp := c.r.esp + 4)) && Holds(c'.mem, c'.r.esp, items[1..])
  {
    w := Load32(c.mem, c.r.esp);
    c' := c.(r := c.r.(esp := c.r.esp + 4));
  }

  method PopHalf(c: Cpu, ghost items: seq<Item>) returns (h: Half, c': Cpu)
    requires items != [] && items[0].W16? && Holds(c.mem, c.r.esp, items)
    ensures h == items[0].h && c' == c.(r := c.r.(esp := c.r.esp + 2)) && Holds(c'.mem, c'.r.esp, items[1..])
  {
    h := Load16(c.mem, c.r.esp);
    c' := c.(r := c.r.(esp := c.r.esp + 2));
  }

  // ---------------------------------------------------------------- frames

  predicate InUser(r: Regs) { r.cs % 4 == 3 }

  /** What the processor pushes: the return address and flags, and the stack of the interrupted user code. */
  function ReturnItems(r: Regs): seq<Item>
    requires 0 <= r.esp < 0x1_0000_0000
  {
    [W32(r.eip), W32(r.cs), W32(r.eflags)] + if InUser(r) then [W32(r.esp), W32(r.ss)] else []
  }

  /** What the entry code saves, as `struct regs` lists it from the lowest address up. */
  function SavedItems(r: Regs): seq<Item> {
    [W32(r.ebp), W32(r.edi), W32(r.esi), W32(r.edx), W32(r.ecx), W32(r.ebx), W32(r.eax),
     W16(r.gs), W16(r.fs), W16(r.es), W16(r.ds)]
  }

  // ---------------------------------------------------------------- entry

  /** Clear IF, as an interrupt gate does and a trap gate does not. */
  function WithoutIf(flags: Word): (r: Word)
    ensures r / 512 % 2 == 0 && r % 512 == flags % 512 && r / 1024 == flags / 1024
  {
    if flags / 512 % 2 == 1 then flags - 512 else flags
  }

  /** Interrupts can be delivered. */
  predicate IfSet(r: Regs) { r.eflags / 512 % 2 == 1 }

  /** Interrupted user code leaves its stack pointer on the stack named by the TSS. */
  method SwitchStack(c: Cpu, esp0: int, ghost items: seq<Item>) returns (k: Cpu)
    requires 0 <= c.r.esp < 0x1_0000_0000
    requires Holds(c.mem, if InUser(c.r) then esp0 else c.r.esp, items)
    ensures Holds(k.mem, k.r.esp, (if InUser(c.r) then [W32(c.r.esp), W32(c.r.ss)] else []) + items)
    ensures k.r == if InUser(c.r) then c.r.(esp := esp0 - 8, ss := 0x10) else c.r
    ensures Untouched(c.mem, k.mem, k.r.esp, if InUser(c.r) then esp0 else c.r.esp)
  {
    k := c;
    if InUser(c.r) {
      k := k.(r := k.r.(esp := esp0, ss := 0x10));
      k := PushItem(k, W32(c.r.ss), items);
      k := PushItem(k, W32(c.r.esp), [W32(c.r.ss)] + items);
      assert [W32(c.r.esp)] + ([W32(c.r.ss)] + items) == [W32(c.r.esp), W32(c.r.ss)] + items;
    } else {
      assert [] + items == items;
    }
  }

  /**
   Delivery of an interrupt by the processor: `esp0` is the stack of the TSS,
   `err` the error code if the vector has one.
   */
  method Deliver(c: Cpu, entry: Word, masking: bool, err: seq<Word>, esp0: int, ghost items: seq<Item>) returns (k: Cpu)
    requires 0 <= c.r.esp < 0x1_0000_0000 && |err| <= 1
    requires Holds(c.mem, if InUser(c.r) then esp0 else c.r.esp, items)
    ensures Holds(k.mem, k.r.esp, (if err == [] then [] else [W32(err[0])]) + (ReturnItems(c.r) + items))
    ensures k.r == c.r.(esp := k.r.esp, eip := entry, cs := 0x08, ss := if InUser(c.r) then 0x10 else c.r.ss,
                        eflags := if masking then WithoutIf(c.r.eflags) else c.r.eflags)
    ensures k.r.esp == (if InUser(c.r) then esp0 - 20 else c.r.esp - 12) - 4 * |err|
    ensures Untouched(c.mem, k.mem, k.r.esp, if InUser(c.r) then esp0 else c.r.esp)
  {
    k := SwitchStack(c, esp0, items);
    k := PushReturn(k, c.r, (if InUser(c.r) then [W32(c.r.esp), W32(c.r.ss)] else []) + items);
    assert [W32(c.r.eip), W32(c.r.cs), W32(c.r.eflags)]
           + ((if InUser(c.r) then [W32(c.r.esp), W32(c.r.ss)] else []) + items) == ReturnItems(c.r) + items;
    k := PushError(k, err, ReturnItems(c.r) + items);
    k := k.(r := k.r.(eip := entry, cs := 0x08, eflags := if masking then WithoutIf(c.r.eflags) else c.r.eflags));
  }

  /** The return address and the flags of the interrupted code. */
  method PushReturn(c: Cpu, r: Regs, ghost items: seq<Item>) returns (k: Cpu)
    requires Holds(c.mem, c.r.esp, items)
    ensures Holds(k.mem, k.r.esp, [W32(r.eip), W32(r.cs), W32(r.eflags)] + items)
    ensures k.r == c.r.(esp := c.r.esp - 12) && Untouched(c.mem, k.mem, k.r.esp, c.r.esp)
  {
    ghost var st := items;
    k := PushItem(c, W32(r.eflags), st); st := [W32(r.eflags)] + st;
    k := PushItem(k, W32(r.cs), st); st := [W32(r.cs)] + st;
    k := PushItem(k, W32(r.eip), st); st := [W32(r.eip)] + st;
    assert st == [W32(r.eip), W32(r.cs), W32(r.eflags)] + items;
  }

  /** The error code, if the vector has one. */
  method PushError(c: Cpu, err: seq<Word>, ghost items: seq<Item>) returns (k: Cpu)
    requires |err| <= 1 && Holds(c.mem, c.r.esp, items)
    ensures Holds(k.mem, k.r.esp, (if err == [] then [] else [W32(err[0])]) + items)
    ensures k.r == c.r.(esp := c.r.esp - 4 * |err|) && Untouched(c.mem, k.mem, k.r.esp, c.r.esp)
  {
    k := c;
    if err == [] { assert [] + items == items; } else { k := PushItem(c, W32(err[0]), items); }
  }

  method SaveSegments(c: Cpu, ghost items: seq<Item>) returns (k: Cpu)
    requires Holds(c.mem, c.r.esp, items)
    ensures Holds(k.mem, k.r.esp, [W16(c.r.gs), W16(c.r.fs), W16(c.r.es), W16(c.r.ds)] + items)
    ensures k.r == c.r.(esp := c.r.esp - 8) && Untouched(c.mem, k.mem, k.r.esp, c.r.esp)
  {
    ghost var st := items;
    k := PushItem(c, W16(c.r.ds), st); st := [W16(c.r.ds)] + st;
    k := PushItem(k, W16(c.r.es), st); st := [W16(c.r.es)] + st;
    k := PushItem(k, W16(c.r.fs), st); st := [W16(c.r.fs)] + st;
    k := PushItem(k, W16(c.r.gs), st); st := [W16(c.r.gs)] + st;
    assert st == [W16(c.r.gs), W16(c.r.fs), W16(c.r.es), W16(c.r.ds)] + items;
  }

  method SaveData(c: Cpu, ghost items: seq<Item>) returns (k: Cpu)
    requires Holds(c.mem, c.r.esp, items)
    ensures Holds(k.mem, k.r.esp, [W32(c.r.edx), W32(c.r.ecx), W32(c.r.ebx), W32(c.r.eax)] + items)
    ensures k.r == c.r.(esp := c.r.esp - 16) && Untouched(c.mem, k.mem, k.r.esp, c.r.esp)
  {
    ghost var st := items;
    k := PushItem(c, W32(c.r.eax), st); st := [W32(c.r.eax)] + st;
    k := PushItem(k, W32(c.r.ebx), st); st := [W32(c.r.ebx)] + st;
    k := PushItem(k, W32(c.r.ecx), st); st := [W32(c.r.ecx)] + st;
    k := PushItem(k, W32(c.r.edx), st); st := [W32(c.r.edx)] + st;
    assert st == [W32(c.r.edx), W32(c.r.ecx), W32(c.r.ebx), W32(c.r.eax)] + items;
  }

  method SavePointers(c: Cpu, ghost items: seq<Item>) returns (k: Cpu)
    requires Holds(c.mem, c.r.esp, items)
    ensures Holds(k.mem, k.r.esp, [W32(c.r.ebp), W32(c.r.edi), W32(c.r.esi)] + items)
    ensures k.r == c.r.(esp := c.r.esp - 12) && Untouched(c.mem, k.mem, k.r.esp, c.r.esp)
  {
    ghost var st := items;
    k := PushItem(c, W32(c.r.esi), st); st := [W32(c.r.esi)] + st;
    k := PushItem(k, W32(c.r.edi), st); st := [W32(c.r.edi)] + st;
    k := PushItem(k, W32(c.r.ebp), st); st := [W32(c.r.ebp)] + st;
    assert st == [W32(c.r.ebp), W32(c.r.edi), W32(c.r.esi)] + items;
  }

  /** A write to the low half of a register. */
  function WithAx(w: Word, h: Half): (r: Word)
    ensures r % 0x1_0000 == h && r / 0x1_0000 == w / 0x1_0000
  {
    w / 0x1_0000 * 0x1_0000 + h
  }

  /** The pushes of IRQ_ENTRY after the error-code slot, and the kernel's data segments. */
  method SaveRegisters(c: Cpu, ghost items: seq<Item>) returns (k: Cpu)
    requires Holds(c.mem, c.r.esp, items)
    ensures Holds(k.mem, k.r.esp, SavedItems(c.r) + items)
    ensures Untouched(c.mem, k.mem, k.r.esp, c.r.esp)
    ensures k.r == c.r.(esp := c.r.esp - 36, eax := WithAx(c.r.eax, 0x10), ds := 0x10, es := 0x10, fs := 0x10,
            gs := 0x10)
  {
    k := SaveSegments(c, items);
    ghost var st := [W16(c.r.gs), W16(c.r.fs), W16(c.r.es), W16(c.r.ds)] + items;
    k := SaveData(k, st);
    st := [W32(c.r.edx), W32(c.r.ecx), W32(c.r.ebx), W32(c.r.eax)] + st;
    k := SavePointers(k, st);
    st := [W32(c.r.ebp), W32(c.r.edi), W32(c.r.esi)] + st;
    assert st == SavedItems(c.r) + items;
    k := k.(r := k.r.(eax := WithAx(k.r.eax, 0x10)));
    k := k.(r := k.r.(ds := k.r.eax % 0x1_0000, es := k.r.eax % 0x1_0000, fs := k.r.eax % 0x1_0000,
      gs := k.r.eax % 0x1_0000));
  }

  // ---------------------------------------------------------------- exit

  /** The pops of RESTORE_CTX_AND_IRET up to the error code. */
  method RestoreRegisters(c: Cpu, ghost r: Regs, ghost items: seq<Item>) returns (k: Cpu)
    requires Holds(c.mem, c.r.esp, SavedItems(r) + items)
    ensures k.mem == c.mem && Holds(k.mem, k.r.esp, items)
    ensures k.r == c.r.(esp := c.r.esp + 36, ebp := r.ebp, edi := r.edi, esi := r.esi, edx := r.edx, ecx := r.ecx,
                        ebx := r.ebx, eax := r.eax, gs := r.gs, fs := r.fs, es := r.es, ds := r.ds)
  {
    k := c;
    ghost var st := SavedItems(r) + items;
    var w: Word, h: Half;
    w, k := PopWord(k, st); st := st[1..]; k := k.(r := k.r.(ebp := w));
    w, k := PopWord(k, st); st := st[1..]; k := k.(r := k.r.(edi := w));
    w, k := PopWord(k, st); st := st[1..]; k := k.(r := k.r.(esi := w));
    w, k := PopWord(k, st); st := st[1..]; k := k.(r := k.r.(edx := w));
    w, k := PopWord(k, st); st := st[1..]; k := k.(r := k.r.(ecx := w));
    w, k := PopWord(k, st); st := st[1..]; k := k.(r := k.r.(ebx := w));
    w, k := PopWord(k, st); st := st[1..]; k := k.(r := k.r.(eax := w));
    h, k := PopHalf(k, st); st := st[1..]; k := k.(r := k.r.(gs := h));
    h, k := PopHalf(k, st); st := st[1..]; k := k.(r := k.r.(fs := h));
    h, k := PopHalf(k, st); st := st[1..]; k := k.(r := k.r.(es := h));
    h, k := PopHalf(k, st); st := st[1..]; k := k.(r := k.r.(ds := h));
    assert st == items;
  }

  /** `iret` from ring 0: the stack is switched back exactly if it returns to user mode. */
  method Iret(c: Cpu, ghost r: Regs, ghost items: seq<Item>) returns (k: Cpu)
    requires 0 <= r.esp < 0x1_0000_0000 && Holds(c.mem, c.r.esp, ReturnItems(r) + items)
    ensures k.mem == c.mem
    ensures k.r == c.r.(eip := r.eip, cs := r.cs, eflags := r.eflags,
                        esp := if InUser(r) then r.esp else c.r.esp + 12, ss := if InUser(r) then r.ss else c.r.ss)
  {
    k := c;
    ghost var st := ReturnItems(r) + items;
    var w: Word;
    w, k := PopWord(k, st); st := st[1..]; k := k.(r := k.r.(eip := w));
    w, k := PopWord(k, st); st := st[1..]; k := k.(r := k.r.(cs := w));
    w, k := PopWord(k, st); st := st[1..]; k := k.(r := k.r.(eflags := w));
    if InUser(k.r) {
      var esp: Word, ss: Word;
      esp, k := PopWord(k, st); st := st[1..];
      ss, k := PopWord(k, st);
      k := k.(r := k.r.(esp := esp, ss := ss));
    }
  }

  // ---------------------------------------------------------------- round trip

  /** The whole frame below the interrupted stack: saved registers, error code, return items. */
  function FrameItems(r: Regs, err: Word): seq<Item>
    requires 0 <= r.esp < 0x1_0000_0000
  {
    SavedItems(r) + [W32(err)] + ReturnItems(r)
  }

  lemma FrameSize(r: Regs, err: Word)
    requires 0 <= r.esp < 0x1_0000_0000
    ensures SizeOf(FrameItems(r, err)) == if InUser(r) then 60 else 52
  {
    var s := FrameItems(r, err);
    assert SizeOf(s) == SizeOf(s[5..]) + 20 by { SizeDrop5(s); }
    assert SizeOf(s[5..]) == SizeOf(s[5..][5..]) + 14 by { SizeDrop5(s[5..]); }
    assert SizeOf(s[5..][5..]) == SizeOf(s[5..][5..][5..]) + 18 by { SizeDrop5(s[5..][5..]); }
    var t := s[5..][5..][5..];
    if InUser(r) { assert SizeOf(t) == 8 by { assert SizeOf(t[1..]) == 4; } }
  }

  lemma SizeDrop5(s: seq<Item>)
    requires |s| >= 5
    ensures SizeOf(s) == Size(s[0]) + Size(s[1]) + Size(s[2]) + Size(s[3]) + Size(s[4]) + SizeOf(s[5..])
  {
    assert s[1..][1..] == s[2..] && s[2..][1..] == s[3..] && s[3..][1..] == s[4..] && s[4..][1..] == s[5..];
    assert SizeOf(s) == Size(s[0]) + SizeOf(s[1..]);
    assert SizeOf(s[1..]) == Size(s[1]) + SizeOf(s[2..]);
    assert SizeOf(s[2..]) == Size(s[2]) + SizeOf(s[3..]);
    assert SizeOf(s[3..]) == Size(s[3]) + SizeOf(s[4..]);
  }

  /** The top of the kernel stack an interrupt of `c` uses. */
  function StackTop(c: Cpu, esp0: int): int {
    if InUser(c.r) then esp0 else c.r.esp
  }

  /** Where the frame of an interrupt of `c` starts: 60 bytes below the stack of the TSS, or 52 below its own. */
  function FrameBase(c: Cpu, esp0: int): int {
    if InUser(c.r) then esp0 - 60 else c.r.esp - 52
  }

  /** The handler is entered: kernel segments, the frame saved, its address as the argument and `ret` to return to. */
  ghost predicate Entered(c: Cpu, k: Cpu, err: Word, esp0: int, ret: Word)
    requires 0 <= c.r.esp < 0x1_0000_0000 && 0 <= FrameBase(c, esp0) < 0x1_0000_0000
  {
    && k.r.esp == FrameBase(c, esp0) - 8
    && Load32(k.mem, k.r.esp) == ret && Load32(k.mem, k.r.esp + 4) == FrameBase(c, esp0)
    && Holds(k.mem, FrameBase(c, esp0), FrameItems(c.r, err))
    && Untouched(c.mem, k.mem, k.r.esp, StackTop(c, esp0))
    && k.r.cs == 0x08 && k.r.ds == k.r.es == k.r.fs == k.r.gs == 0x10
       && k.r.ss == (if InUser(c.r) then 0x10 else c.r.ss)
    && k.r.esi == c.r.esi && k.r.edi == c.r.edi && k.r.ebx == c.r.ebx && k.r.ebp == c.r.ebp
  }

  /**
   A handler that returns: on the stack it was entered with, in ring 0 on the
   same stack segment, with the frame as it was.
   */
  ghost predicate HandlerReturns(k: Cpu, k': Cpu, size: int) {
    k'.r.esp == k.r.esp + 4 && k'.r.ss == k.r.ss && Same(k.mem, k'.mem, k.r.esp + 8, k.r.esp + 8 + size)
  }

  /** From the interrupted code to the first instruction of the handler. */
  method EnterInterrupt(c: Cpu, entry: Word, masking: bool, err: seq<Word>, esp0: int, handler: Word, ret: Word)
    returns (k: Cpu)
    requires 0 <= c.r.esp < 0x1_0000_0000 && 0 <= FrameBase(c, esp0) < 0x1_0000_0000 && |err| <= 1
    ensures Entered(c, k, if err == [] then 0 else err[0], esp0, ret) && k.r.eip == handler
    ensures k.r.eflags == if masking then WithoutIf(c.r.eflags) else c.r.eflags
  {
    k := SaveFrame(c, entry, masking, err, esp0);
    k := CallHandler(k, handler, ret, FrameItems(c.r, if err == [] then 0 else err[0]));
  }

  /** Up to the point where the frame is complete and the kernel's segments are loaded. */
  method SaveFrame(c: Cpu, entry: Word, masking: bool, err: seq<Word>, esp0: int) returns (k: Cpu)
    requires 0 <= c.r.esp < 0x1_0000_0000 && |err| <= 1
    ensures Holds(k.mem, k.r.esp, FrameItems(c.r, if err == [] then 0 else err[0]))
    ensures k.r.esp == FrameBase(c, esp0) && Untouched(c.mem, k.mem, k.r.esp, StackTop(c, esp0))
    ensures k.r.cs == 0x08 && k.r.ds == k.r.es == k.r.fs == k.r.gs == 0x10
    ensures k.r.ss == if InUser(c.r) then 0x10 else c.r.ss
    ensures k.r.esi == c.r.esi && k.r.edi == c.r.edi && k.r.ebx == c.r.ebx && k.r.ebp == c.r.ebp
    ensures k.r.eflags == if masking then WithoutIf(c.r.eflags) else c.r.eflags
  {
    k := EnterWithSlot(c, entry, masking, err, esp0);
    ghost var e := if err == [] then 0 else err[0];
    ghost var saved := k.r;
    k := SaveRegisters(k, [W32(e)] + ReturnItems(c.r));
    assert SavedItems(saved) + ([W32(e)] + ReturnItems(c.r)) == FrameItems(c.r, e);
  }

  /** `pushl %esp` and the call. */
  method CallHandler(c: Cpu, handler: Word, ret: Word, ghost items: seq<Item>) returns (k: Cpu)
    requires 0 <= c.r.esp < 0x1_0000_0000 && Holds(c.mem, c.r.esp, items)
    ensures k.r == c.r.(esp := c.r.esp - 8, eip := handler) && Untouched(c.mem, k.mem, k.r.esp, c.r.esp)
    ensures Load32(k.mem, k.r.esp) == ret && Load32(k.mem, k.r.esp + 4) == c.r.esp && Holds(k.mem, c.r.esp, items)
  {
    k := PushItem(c, W32(c.r.esp), items);
    ghost var st := [W32(c.r.esp)] + items;
    k := PushItem(k, W32(ret), st);
    k := k.(r := k.r.(eip := handler));
    Popped(k, [W32(ret)] + st);
    assert ([W32(ret)] + st)[1..] == st && st[1..] == items;
    Popped(k.(r := k.r.(esp := k.r.esp + 4)), st);
  }

  /** Delivery, and the zero that IRQ_ENTRY pushes where there is no error code. */
  method EnterWithSlot(c: Cpu, entry: Word, masking: bool, err: seq<Word>, esp0: int) returns (k: Cpu)
    requires 0 <= c.r.esp < 0x1_0000_0000 && |err| <= 1
    ensures Holds(k.mem, k.r.esp, [W32(if err == [] then 0 else err[0])] + ReturnItems(c.r))
    ensures k.r == c.r.(esp := k.r.esp, eip := entry, cs := 0x08, ss := if InUser(c.r) then 0x10 else c.r.ss,
                        eflags := if masking then WithoutIf(c.r.eflags) else c.r.eflags)
    ensures k.r.esp == if InUser(c.r) then esp0 - 24 else c.r.esp - 16
    ensures Untouched(c.mem, k.mem, k.r.esp, if InUser(c.r) then esp0 else c.r.esp)
  {
    k := Deliver(c, entry, masking, err, esp0, []);
    if err == [] {
      assert [] + (ReturnItems(c.r) + []) == ReturnItems(c.r);
      k := PushItem(k, W32(0), ReturnItems(c.r));
    } else {
      assert [W32(err[0])] + (ReturnItems(c.r) + []) == [W32(err[0])] + ReturnItems(c.r);
    }
  }

  /** RESTORE_CTX_AND_IRET on a frame: the registers of the frame are back. */
  method LeaveInterrupt(c: Cpu, ghost r: Regs, ghost e: Word) returns (k: Cpu)
    requires 0 <= r.esp < 0x1_0000_0000 && Holds(c.mem, c.r.esp, FrameItems(r, e))
    requires !InUser(r) ==> c.r.ss == r.ss && c.r.esp + 52 == r.esp
    ensures k.r == r && k.mem == c.mem
  {
    ghost var ret := [W32(e)] + ReturnItems(r);
    assert FrameItems(r, e) == SavedItems(r) + ret;
    k := RestoreRegisters(c, r, ret);
    var skipped: Word;
    skipped, k := PopWord(k, ret);
    assert ret[1..] == ReturnItems(r) + [];
    k := Iret(k, r, []);
  }

  /**
   An interrupt that is taken, handled and left: for any handler that leaves the
   frame alone, every register of the interrupted code has its old value again,
   in user mode and in the kernel, with and without an error code.
   */
  method InterruptReturns(c: Cpu, entry: Word, masking: bool, err: seq<Word>, esp0: int, ret: Word, handler: Cpu -> Cpu)
    returns (k: Cpu)
    requires 0 <= c.r.esp < 0x1_0000_0000 && 0 <= FrameBase(c, esp0) < 0x1_0000_0000 && |err| <= 1
    requires forall x: Cpu | Entered(c, x, if err == [] then 0 else err[0], esp0, ret) ::
               HandlerReturns(x, handler(x), if InUser(c.r) then 60 else 52)
    ensures k.r == c.r
  {
    ghost var e := if err == [] then 0 else err[0];
    var s := EnterInterrupt(c, entry, masking, err, esp0, 0, ret);
    k := handler(s);
    assert HandlerReturns(s, handler(s), if InUser(c.r) then 60 else 52);
    FrameSize(c.r, e);
    HoldsSame(s.mem, k.mem, FrameBase(c, esp0), FrameItems(c.r, e));
    k := k.(r := k.r.(esp := k.r.esp + 4));
    k := LeaveInterrupt(k, c.r, e);
  }
}
