/**
 Two-level paging and the page allocator over one memory.

 Memory is a map from page frame numbers to pages of 1024 words. The free list
 lives inside the free pages, as the next pointer in word 0; the directory and
 the tables are pages of the same memory. Virtual and physical page numbers are
 addresses divided by 4096.
 */
module Paging {
  import opened Common

  type Page = p: seq<nat> | |p| == 1024 witness seq(1024, _ => 0)

  function ZeroPage(): (p: Page)
    ensures forall i | 0 <= i < 1024 :: p[i] == 0
  {
    seq(1024, _ => 0)
  }

  /** Number of the page at KERNEL_HIGH, of pages in the address space and in the 4 MiB window. */
  const HIGH_PAGE := 0xc_0000
  const SPACE_PAGES := 0x10_0000
  const WINDOW_PAGES := 1024

  // ---------------------------------------------------------------- paging.h

  const KERNEL_HIGH := 0xc000_0000
  const TWO32 := 0x1_0000_0000

  function RoundDown(a: nat): nat { a - a % 4096 }

  function RoundUp(a: nat): nat { RoundDown((a + 4096 - 1) % TWO32) }

  function PgdirIdx(a: nat): nat { a / 0x40_0000 % 1024 }

  function PtIdx(a: nat): nat { a / 0x1000 % 1024 }

  function Phys2Virt(pfn: nat): nat { (4096 * pfn + KERNEL_HIGH) % TWO32 }

  function Virt2Phys(v: nat): nat { (v - KERNEL_HIGH) % TWO32 / 4096 }

  predicate Present(e: nat) { e % 2 == 1 }

  predicate Writeable(e: nat) { e / 2 % 2 == 1 }

  predicate User(e: nat) { e / 4 % 2 == 1 }

  predicate Large(e: nat) { e / 128 % 2 == 1 }

  function Pfn(e: nat): nat { e / 4096 }

  /** `flags | PT_PRESENT` for flags in the low twelve bits */
  function WithPresent(flags: nat): nat { if flags % 2 == 1 then flags else flags + 1 }

  function DirEntry(table: nat, user: bool): nat { 4096 * table + (if user then 5 else 1) }

  function TableEntry(ppn: nat, flags: nat): nat { 4096 * ppn + WithPresent(flags) }

  // ---------------------------------------------------------------- allocator

  datatype Mm = Mm(mem: map<nat, Page>, head: nat)

  /** `kalloc`: the page taken, or None for NULL */
  function Kalloc(m: Mm): (Mm, Option<nat>) {
    var p := Virt2Phys(m.head);
    if m.head == 0 || p !in m.mem then (m, None)
    else (m.(head := m.mem[p][0]), Some(p))
  }

  /** The pointer to the top of a stack of free pages, NULL if it is empty. */
  function Top(fl: seq<nat>): nat {
    if fl == [] then 0 else Phys2Virt(fl[|fl| - 1])
  }

  /** `fl` is the free list, last pushed page last: the pages reached from the head along the words stored in them. */
  ghost predicate FreeList(m: Mm, fl: seq<nat>) {
    && m.head == Top(fl)
    && forall i | 0 <= i < |fl| :: LinkOk(m, fl, i)
  }

  /** Page number `i` of the list is a page of the window and stores the pointer to the one below it. */
  ghost predicate LinkOk(m: Mm, fl: seq<nat>, i: nat)
    requires i < |fl|
  {
    fl[i] in m.mem && fl[i] < WINDOW_PAGES && m.mem[fl[i]][0] == Top(fl[..i])
  }

  // ---------------------------------------------------------------- mapping

  /** `alloc_page` up to the entry it returns; None if no page was left for a table */
  function AllocTable(m: Mm, dir: nat, slot: nat, user: bool): (Mm, Option<nat>)
    requires dir in m.mem && slot < 1024
  {
    var e := m.mem[dir][slot];
    if Present(e) then
      (m.(mem := m.mem[dir := m.mem[dir][slot := DirEntry(Pfn(e), user)]]), Some(Pfn(e)))
    else
      var (m1, p) := Kalloc(m);
      if p.None? then (m1, None)
      else
        var m2 := m1.(mem := m1.mem[p.value := ZeroPage()]);
        (m2.(mem := m2.mem[dir := m2.mem[dir][slot := DirEntry(p.value, user)]]), p)
  }

  /** One round of the loop of `map_continous`; None stands for the write through NULL. */
  function MapPage(m: Mm, dir: nat, v: nat, ppn: nat, flags: nat): Option<Mm>
    requires dir in m.mem && v < SPACE_PAGES
  {
    var (m1, t) := AllocTable(m, dir, v / 1024, User(flags));
    if t.None? || t.value !in m1.mem then None
    else Some(m1.(mem := m1.mem[t.value := m1.mem[t.value][v % 1024 := TableEntry(ppn, flags)]]))
  }

  /** `map_continous` over `n` pages */
  function MapPages(m: Mm, dir: nat, v: nat, n: nat, ppn: nat, flags: nat): (r: Option<Mm>)
    requires dir in m.mem && v + n <= SPACE_PAGES
    ensures r.Some? ==> dir in r.value.mem
  {
    if n == 0 then Some(m)
    else
      match MapPages(m, dir, v, n - 1, ppn, flags)
      case None => None
      case Some(m1) => MapPage(m1, dir, v + n - 1, ppn + n - 1, flags)
  }

  // ---------------------------------------------------------------- translation

  datatype Leaf = Leaf(ppn: nat, flags: nat, user: bool)

  /** The walk of the processor (32-bit paging, with 4 MiB pages). */
  function Walk(mem: map<nat, Page>, dir: nat, v: nat): Option<Leaf>
    requires v < SPACE_PAGES
  {
    if dir !in mem then None
    else
      var e := mem[dir][v / 1024];
      if !Present(e) then None
      else if Large(e) then Some(Leaf(e / 0x40_0000 * 1024 + v % 1024, e % 4096, User(e)))
      else if Pfn(e) !in mem then None
      else
        var p := mem[Pfn(e)][v % 1024];
        if !Present(p) then None else Some(Leaf(Pfn(p), p % 4096, User(e) && User(p)))
  }

  /** User code may write to a page: every level of the walk has to grant both user access and writing. */
  predicate UserMayWrite(mem: map<nat, Page>, dir: nat, v: nat)
    requires v < SPACE_PAGES
  {
    Walk(mem, dir, v).Some? && Walk(mem, dir, v).value.user
    && Writeable(mem[dir][v / 1024]) && Writeable(Walk(mem, dir, v).value.flags)
  }

  /** The table entry for a page, 0 where there is no table. */
  function Entry(mem: map<nat, Page>, dir: nat, v: nat): nat
    requires v < SPACE_PAGES
  {
    if dir !in mem || !Present(mem[dir][v / 1024]) || Pfn(mem[dir][v / 1024]) !in mem then 0
    else mem[Pfn(mem[dir][v / 1024])][v % 1024]
  }

  // ---------------------------------------------------------------- ownership

  predicate HasTable(m: Mm, dir: nat, d: nat)
    requires dir in m.mem && d < 1024
  {
    Present(m.mem[dir][d])
  }

  function Table(m: Mm, dir: nat, d: nat): nat
    requires dir in m.mem && d < 1024
  {
    Pfn(m.mem[dir][d])
  }

  /**
   What a page of the pool is used for: the k-th page of the free list, the
   directory, the table of a slot, or a kernel stack or buffer.
   */
  datatype Owner = FreePage(k: nat) | Directory | TableOf(d: nat) | Lent

  ghost predicate TableOwned(m: Mm, dir: nat, own: map<nat, Owner>, d: nat)
    requires dir in m.mem && d < 1024
  {
    HasTable(m, dir, d) ==>
      && !Large(m.mem[dir][d]) && Table(m, dir, d) in m.mem && Table(m, dir, d) < WINDOW_PAGES
      && Table(m, dir, d) in own && own[Table(m, dir, d)] == TableOf(d)
  }

  ghost predicate FreeOwned(fl: seq<nat>, own: map<nat, Owner>, k: nat)
    requires k < |fl|
  {
    fl[k] in own && own[fl[k]] == FreePage(k)
  }

  /** The owner recorded for a page is the one that uses it. */
  ghost predicate OwnerTrue(m: Mm, dir: nat, fl: seq<nat>, own: map<nat, Owner>, p: nat)
    requires dir in m.mem && p in own
  {
    match own[p]
    case FreePage(k) => k < |fl| && fl[k] == p
    case Directory => p == dir
    case TableOf(d) => d < 1024 && HasTable(m, dir, d) && Table(m, dir, d) == p
    case Lent => true
  }

  /** Every page of the pool has exactly one use, and every use is of its own page. */
  ghost predicate Owned(m: Mm, dir: nat, fl: seq<nat>, own: map<nat, Owner>) {
    && dir in m.mem && dir < WINDOW_PAGES && dir in own && own[dir] == Directory
    && FreeList(m, fl)
    && (forall k | 0 <= k < |fl| :: FreeOwned(fl, own, k))
    && (forall d | 0 <= d < 1024 :: TableOwned(m, dir, own, d))
    && (forall p {:trigger OwnerTrue(m, dir, fl, own, p)} | p in own :: OwnerTrue(m, dir, fl, own, p))
  }
}
