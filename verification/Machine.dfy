/**
 Byte-addressed memory, the registers, and a stack with 16-bit and 32-bit items.
 */
module Machine {

  type Byte = b: int | 0 <= b < 256
  type Half = h: int | 0 <= h < 0x1_0000
  type Word = w: int | 0 <= w < 0x1_0000_0000

  type Memory = map<int, Byte>

  function Get(mem: Memory, a: int): Byte {
    if a in mem then mem[a] else 0
  }

  function Load16(mem: Memory, a: int): Half {
    Get(mem, a) + 0x100 * Get(mem, a + 1)
  }

  function Load32(mem: Memory, a: int): Word {
    Get(mem, a) + 0x100 * Get(mem, a + 1) + 0x1_0000 * Get(mem, a + 2) + 0x100_0000 * Get(mem, a + 3)
  }

  function Store16(mem: Memory, a: int, h: Half): Memory {
    mem[a := h % 256][a + 1 := h / 256]
  }

  function Store32(mem: Memory, a: int, w: Word): Memory {
    mem[a := w % 256][a + 1 := w / 0x100 % 256][a + 2 := w / 0x1_0000 % 256][a + 3 := w / 0x100_0000]
  }

  /** The bytes from `lo` up to `hi` are the same. */
  ghost predicate Same(mem: Memory, mem': Memory, lo: int, hi: int) {
    forall a | lo <= a < hi :: Get(mem', a) == Get(mem, a)
  }

  lemma SplitWord(w: Word)
    ensures w / 0x100_0000 < 256
    ensures w == w % 256 + 0x100 * (w / 0x100 % 256) + 0x1_0000 * (w / 0x1_0000 % 256) + 0x100_0000 * (w / 0x100_0000)
  {
    assert w / 0x1_0000 == (w / 0x100) / 256;
    assert w / 0x100_0000 == (w / 0x1_0000) / 256;
  }

  lemma Stored32(mem: Memory, a: int, w: Word)
    ensures Load32(Store32(mem, a, w), a) == w
    ensures forall x | x < a || x >= a + 4 :: Get(Store32(mem, a, w), x) == Get(mem, x)
  {
    SplitWord(w);
  }

  lemma Stored16(mem: Memory, a: int, h: Half)
    ensures Load16(Store16(mem, a, h), a) == h
    ensures forall x | x < a || x >= a + 2 :: Get(Store16(mem, a, h), x) == Get(mem, x)
  {
  }

  lemma LoadSame(mem: Memory, mem': Memory, a: int)
    requires Same(mem, mem', a, a + 4)
    ensures Load32(mem', a) == Load32(mem, a) && Load16(mem', a) == Load16(mem, a)
  {
    assert Get(mem', a) == Get(mem, a) && Get(mem', a + 1) == Get(mem, a + 1);
    assert Get(mem', a + 2) == Get(mem, a + 2) && Get(mem', a + 3) == Get(mem, a + 3);
  }

  // ---------------------------------------------------------------- stacks

  datatype Item = W32(w: Word) | W16(h: Half)

  function Size(item: Item): int { if item.W32? then 4 else 2 }

  function SizeOf(items: seq<Item>): int {
    if items == [] then 0 else Size(items[0]) + SizeOf(items[1..])
  }

  /** Popping from address `a` upwards yields these items. */
  ghost predicate Holds(mem: Memory, a: int, items: seq<Item>)
    decreases |items|
  {
    items == [] || (HoldsTop(mem, a, items[0]) && Holds(mem, a + Size(items[0]), items[1..]))
  }

  ghost predicate HoldsTop(mem: Memory, a: int, item: Item) {
    match item
    case W32(w) => Load32(mem, a) == w
    case W16(h) => Load16(mem, a) == h
  }

  lemma {:induction false} HoldsSame(mem: Memory, mem': Memory, a: int, items: seq<Item>)
    requires Holds(mem, a, items) && Same(mem, mem', a, a + SizeOf(items))
    ensures Holds(mem', a, items)
    decreases |items|
  {
    if items != [] {
      SizeNonNegative(items[1..]);
      if items[0].W32? {
        assert Same(mem, mem', a, a + 4);
        LoadSame(mem, mem', a);
      } else {
        assert Get(mem', a) == Get(mem, a) && Get(mem', a + 1) == Get(mem, a + 1);
      }
      HoldsSame(mem, mem', a + Size(items[0]), items[1..]);
    }
  }

  lemma {:induction false} SizeNonNegative(items: seq<Item>)
    ensures SizeOf(items) >= 0
  {
    if items != [] { SizeNonNegative(items[1..]); }
  }

  // ---------------------------------------------------------------- processor

  datatype Regs = Regs(
    eax: Word, ebx: Word, ecx: Word, edx: Word, esi: Word, edi: Word, ebp: Word, esp: int,
    eip: Word, eflags: Word, cs: Word, ss: Word, ds: Half, es: Half, fs: Half, gs: Half)

  datatype Cpu = Cpu(r: Regs, mem: Memory)

  function Push(c: Cpu, item: Item): Cpu {
    var a := c.r.esp - Size(item);
    Cpu(c.r.(esp := a), match item case W32(w) => Store32(c.mem, a, w) case W16(h) => Store16(c.mem, a, h))
  }

  /** A push adds one item below the stack and touches nothing at or above it. */
  lemma Pushed(c: Cpu, item: Item, items: seq<Item>)
    requires Holds(c.mem, c.r.esp, items)
    ensures var c' := Push(c, item);
            && Holds(c'.mem, c'.r.esp, [item] + items) && Untouched(c.mem, c'.mem, c'.r.esp, c.r.esp)
            && c'.r == c.r.(esp := c.r.esp - Size(item))
  {
    var c' := Push(c, item);
    match item { case W32(w) => Stored32(c.mem, c'.r.esp, w); case W16(h) => Stored16(c.mem, c'.r.esp, h); }
    SizeNonNegative(items);
    HoldsSame(c.mem, c'.mem, c.r.esp, items);
    assert ([item] + items)[1..] == items;
  }

  /** Only bytes from `lo` up to `hi` changed. */
  ghost predicate Untouched(mem: Memory, mem': Memory, lo: int, hi: int) {
    forall a | a < lo || hi <= a :: Get(mem', a) == Get(mem, a)
  }

  /** What a pop of the given size reads. */
  function Top(c: Cpu, wide: bool): Item {
    if wide then W32(Load32(c.mem, c.r.esp)) else W16(Load16(c.mem, c.r.esp))
  }

  lemma Popped(c: Cpu, items: seq<Item>)
    requires items != [] && Holds(c.mem, c.r.esp, items)
    ensures Top(c, items[0].W32?) == items[0]
    ensures Holds(c.mem, c.r.esp + Size(items[0]), items[1..])
  {
  }
}
