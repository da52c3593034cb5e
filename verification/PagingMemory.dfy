/**
 The in-place code of the page allocator and of the mapping loop, proved against
 the functions of `Paging`.
 */
module PagingMemory {
  import opened Common
  import opened Paging
  import opened PagingProofs
  import opened PagingRuns
  import opened PagingWindow

  lemma PageIndices(w: nat)
    requires w < SPACE_PAGES
    ensures PgdirIdx(4096 * w) == w / 1024 && PtIdx(4096 * w) == w % 1024
  {
  }

  lemma RoundPages(a: nat)
    ensures RoundDown(a) == 4096 * (a / 4096)
    ensures RoundUp(a) % 4096 == 0 && RoundUp(a) == 4096 * (RoundUp(a) / 4096)
  {
  }

  /** Rounding goes to the next multiple of 4096, unless that wraps around. */
  lemma RoundUpBounds(a: nat)
    requires a + 4095 < TWO32
    ensures a <= RoundUp(a) < a + 4096 && RoundUp(a) % 4096 == 0
  {
  }

  /** Byte `x` lies in a page that `map_continous(addr, size)` maps. */
  ghost predicate Covered(addr: nat, size: nat, x: nat) {
    RoundDown(addr) <= x < RoundDown(addr) + RoundUp(size)
  }

  /**
   Start and length are rounded separately, so a range is mapped in full
   exactly if its offset into the first page still fits the rounded length.
   */
  lemma CoversIff(addr: nat, size: nat)
    requires 0 < size && addr + size <= TWO32
    ensures (forall x | addr <= x < addr + size :: Covered(addr, size, x)) <==> addr % 4096 + size <= RoundUp(size)
  {
    var last := addr + size - 1;
    if addr % 4096 + size > RoundUp(size) {
      assert !Covered(addr, size, last);
    }
  }

  class Memory {
    var mem: map<nat, Page>
    var head: nat

    ghost function View(): Mm
      reads this
    {
      Mm(mem, head)
    }

    method StoreWord(p: nat, i: nat, x: nat)
      requires p in mem && i < 1024
      modifies this`mem
      ensures mem == old(mem)[p := old(mem)[p][i := x]]
    {
      mem := mem[p := mem[p][i := x]];
    }

    /** One round of the loop of `init_kalloc_early`. */
    method PushPage(addr: nat, ghost fl: seq<nat>, ghost own: map<nat, Owner>, ghost p: nat)
      requires p < WINDOW_PAGES && p in mem && addr == KERNEL_HIGH + 4096 * p
      requires AllFree(View(), fl, own) && p !in own
      modifies this
      ensures mem.Keys == old(mem).Keys
      ensures AllFree(View(), fl + [p], own[p := FreePage(|fl|)])
    {
      ghost var m := View();
      var page := (addr - KERNEL_HIGH) / 4096;
      StoreWord(page, 0, head);
      head := addr;
      PushFree(m, fl, own, p);
    }

    /** `init_kalloc_early`: push every page from KERNEL_END to the end of the window */
    method InitKallocEarly(kernelEnd: nat) returns (ghost fl: seq<nat>, ghost own: map<nat, Owner>)
      requires KERNEL_HIGH <= kernelEnd <= KERNEL_HIGH + 0x40_0000
      requires forall p: nat | p < WINDOW_PAGES :: p in mem
      modifies this
      ensures mem.Keys == old(mem).Keys
      ensures var lo := (RoundUp(kernelEnd) - KERNEL_HIGH) / 4096;
              && AllFree(View(), fl, own)
              && |fl| == WINDOW_PAGES - lo && forall k | 0 <= k < |fl| :: fl[k] == lo + k
    {
      var addr := RoundUp(kernelEnd);
      head := 0;
      fl, own := [], map[];
      ghost var lo := (RoundUp(kernelEnd) - KERNEL_HIGH) / 4096;
      while addr < KERNEL_HIGH + 0x40_0000
        invariant addr == KERNEL_HIGH + 4096 * (lo + |fl|) && lo + |fl| <= WINDOW_PAGES
        invariant mem.Keys == old(mem).Keys
        invariant forall k | 0 <= k < |fl| :: fl[k] == lo + k
        invariant AllFree(View(), fl, own) && forall x | x in own :: x < lo + |fl|
      {
        ghost var p := lo + |fl|;
        PushPage(addr, fl, own, p);
        fl, own := fl + [p], own[p := FreePage(|fl|)];
        addr := addr + 4096;
      }
    }

    /** `kalloc` */
    method KallocPage() returns (p: Option<nat>)
      modifies this`head
      ensures (View(), p) == Kalloc(old(View()))
    {
      if head == 0 || Virt2Phys(head) !in mem { return None; }
      p := Some(Virt2Phys(head));
      head := mem[p.value][0];
    }

    method ClearPage(p: nat)
      requires p in mem
      modifies this`mem
      ensures mem == old(mem)[p := ZeroPage()]
    {
      for i := 0 to 1024
        invariant p in mem && mem == old(mem)[p := mem[p]]
        invariant forall j | 0 <= j < i :: mem[p][j] == 0
      {
        StoreWord(p, i, 0);
      }
      assert mem[p] == ZeroPage();
    }

    /** `alloc_page`: the table whose entry the caller fills */
    method AllocPage(dir: nat, addr: nat, user: bool) returns (t: Option<nat>)
      requires dir in mem
      modifies this
      ensures (View(), t) == AllocTable(old(View()), dir, PgdirIdx(addr), user)
    {
      var slot := PgdirIdx(addr);
      if Present(mem[dir][slot]) {
        t := Some(Pfn(mem[dir][slot]));
      } else {
        t := KallocPage();
        if t.None? { return; }
        ClearPage(t.value);
      }
      StoreWord(dir, slot, DirEntry(t.value, user));
    }

    /** One round of the loop of `map_continous`, the i-th of a call that started in `m`. */
    method MapNext(dir: nat, a: nat, f: nat, flags: nat, ghost m: Mm, ghost v: nat, ghost i: nat, ghost ppn: nat)
      returns (ok: bool)
      requires v + i < SPACE_PAGES && a == 4096 * (v + i) && f == 4096 * (ppn + i)
      requires Reached(m, dir, v, i, ppn, flags, true)
      modifies this
      ensures Reached(m, dir, v, i + 1, ppn, flags, ok)
    {
      PageIndices(v + i);
      var t := AllocPage(dir, a, User(flags));
      if t.None? || t.value !in mem { return false; }
      StoreWord(t.value, PtIdx(a), f + WithPresent(flags));
      return true;
    }

    /** `map_continous`; `ok` is false where the original writes through NULL */
    method MapContinous(dir: nat, addr: nat, size: nat, phys: nat, flags: nat) returns (ok: bool)
      requires dir in mem && addr < TWO32 && phys < TWO32 && flags < 4096
      requires RoundDown(addr) + RoundUp(size) <= TWO32 && RoundDown(phys) + RoundUp(size) <= TWO32
      modifies this
      ensures var r := MapPages(old(View()), dir, addr / 4096, RoundUp(size) / 4096, phys / 4096, flags);
              ok == r.Some? && (ok ==> View() == r.value)
    {
      RoundPages(addr);
      RoundPages(phys);
      RoundPages(size);
      ok := MapAligned(dir, RoundDown(addr), RoundUp(size), RoundDown(phys), flags,
                       addr / 4096, RoundUp(size) / 4096, phys / 4096);
    }

    /** The call on rounded arguments. */
    method MapAligned(dir: nat, addr: nat, size: nat, phys: nat, flags: nat, ghost v: nat, ghost n: nat, ghost ppn: nat)
      returns (ok: bool)
      requires dir in mem && v + n <= SPACE_PAGES
      requires addr == 4096 * v && size == 4096 * n && phys == 4096 * ppn
      modifies this
      ensures var r := MapPages(old(View()), dir, v, n, ppn, flags);
              ok == r.Some? && (ok ==> View() == r.value)
    {
      ghost var m := View();
      ghost var i;
      ok, i := MapLoop(dir, addr, size, phys, flags, v, n, ppn);
      if !ok { StaysNone(m, dir, v, i, n, ppn, flags); }
    }

    /** The loop of `map_continous`: `i` pages are done when it ends, all of them unless a table was missing. */
    method MapLoop(dir: nat, addr: nat, size: nat, phys: nat, flags: nat, ghost v: nat, ghost n: nat, ghost ppn: nat)
      returns (ok: bool, ghost i: nat)
      requires dir in mem && v + n <= SPACE_PAGES
      requires addr == 4096 * v && size == 4096 * n && phys == 4096 * ppn
      modifies this
      ensures i <= n && (ok ==> i == n)
      ensures MapPages(old(View()), dir, v, i, ppn, flags) == if ok then Some(View()) else None
    {
      ghost var m := View();
      var a, f, left := addr, phys, size;
      i := 0;
      ok := true;
      while left > 0 && ok
        invariant 0 <= i <= n && left == 4096 * (n - i)
        invariant a == 4096 * (v + i) && f == 4096 * (ppn + i)
        invariant Reached(m, dir, v, i, ppn, flags, ok)
        decreases n - i
      {
        ok := MapNext(dir, a, f, flags, m, v, i, ppn);
        i := i + 1;
        a, f, left := a + 4096, f + 4096, left - 4096;
      }
    }

    /** Memory is what the first `i` pages of a call that started in `m` leave, or one of them had no table. */
    ghost predicate Reached(m: Mm, dir: nat, v: nat, i: nat, ppn: nat, flags: nat, ok: bool)
      reads this
    {
      dir in m.mem && v + i <= SPACE_PAGES && MapPages(m, dir, v, i, ppn, flags) == if ok then Some(View()) else None
    }

    /** `init_kernel_paging`: an empty directory, the kernel window, and the page of USERSPACE_START */
    method InitKernelPaging(us: nat, ghost fl: seq<nat>, ghost own: map<nat, Owner>)
      returns (dir: nat, ghost fl': seq<nat>, ghost own': map<nat, Owner>)
      requires AllFree(View(), fl, own) && |fl| >= 3 && HIGH_PAGE + WINDOW_PAGES <= us < SPACE_PAGES
      modifies this
      ensures Owned(View(), dir, fl', own') && own'.Keys == own.Keys && |fl'| == |fl| - 3
      ensures KernelWindow(mem, dir, WINDOW_FLAGS)
      ensures Walk(mem, dir, us) == Some(Leaf(us - HIGH_PAGE, 7, true))
    {
      dir := AllocDirectory(fl, own);
      fl', own' := MapKernelWindow(dir, us, Pop(fl), own[dir := Directory]);
      fl', own' := MapUserPage(dir, us, fl', own');
    }

    method AllocDirectory(ghost fl: seq<nat>, ghost own: map<nat, Owner>) returns (dir: nat)
      requires AllFree(View(), fl, own) && fl != []
      modifies this
      ensures dir in own && Owned(View(), dir, Pop(fl), own[dir := Directory]) && Empty(View(), dir)
    {
      DirectoryOwned(View(), fl, own);
      var p := KallocPage();
      dir := p.value;
      ClearPage(dir);
    }

    method MapKernelWindow(dir: nat, ghost us: nat, ghost fl: seq<nat>, ghost own: map<nat, Owner>)
      returns (ghost fl': seq<nat>, ghost own': map<nat, Owner>)
      requires Owned(View(), dir, fl, own) && Empty(View(), dir) && |fl| >= 1
               && HIGH_PAGE + WINDOW_PAGES <= us < SPACE_PAGES
      modifies this
      ensures Owned(View(), dir, fl', own') && own'.Keys == own.Keys && |fl'| == |fl| - 1
      ensures KernelWindow(mem, dir, WINDOW_FLAGS) && !HasTable(View(), dir, Slot(us))
    {
      fl', own' := InitFirst(View(), dir, fl, own, us, HIGH_PAGE, WINDOW_PAGES, 0, PT_WRITEABLE);
      var ok := MapContinous(dir, KERNEL_HIGH, 0x40_0000, 0, PT_WRITEABLE);
    }

    method MapUserPage(dir: nat, us: nat, ghost fl: seq<nat>, ghost own: map<nat, Owner>)
      returns (ghost fl': seq<nat>, ghost own': map<nat, Owner>)
      requires Owned(View(), dir, fl, own) && |fl| >= 1 && HIGH_PAGE + WINDOW_PAGES <= us < SPACE_PAGES
      requires KernelWindow(mem, dir, WINDOW_FLAGS) && !HasTable(View(), dir, Slot(us))
      modifies this
      ensures Owned(View(), dir, fl', own') && own'.Keys == own.Keys && |fl'| == |fl| - 1
      ensures KernelWindow(mem, dir, WINDOW_FLAGS) && Walk(mem, dir, us) == Some(Leaf(us - HIGH_PAGE, 7, true))
    {
      fl', own' := InitSecond(View(), dir, fl, own, us, 1, us - HIGH_PAGE, PT_USER + PT_WRITEABLE);
      var ok := MapOnePage(dir, us, us - HIGH_PAGE, PT_USER + PT_WRITEABLE);
    }

    /** `map_continous` for the 4096 bytes of page `v` */
    method MapOnePage(dir: nat, v: nat, ppn: nat, flags: nat) returns (ok: bool)
      requires dir in mem && v < SPACE_PAGES && ppn < SPACE_PAGES && flags < 4096
      modifies this
      ensures var r := MapPages(old(View()), dir, v, 1, ppn, flags);
              ok == r.Some? && (ok ==> View() == r.value)
    {
      ok := MapContinous(dir, 4096 * v, 4096, 4096 * ppn, flags);
    }

    /** `identity_map`: the covered pages are mapped onto themselves, for the kernel, and no other page moves. */
    method IdentityMap(dir: nat, addr: nat, size: nat, ghost fl: seq<nat>, ghost own: map<nat, Owner>)
      returns (ok: bool)
      requires dir in mem && addr < TWO32 && RoundDown(addr) + RoundUp(size) <= TWO32
      modifies this
      ensures var r := MapPages(old(View()), dir, addr / 4096, RoundUp(size) / 4096, addr / 4096, PT_WRITEABLE);
              ok == r.Some? && (ok ==> View() == r.value)
      ensures ok && Owned(old(View()), dir, fl, own) ==>
              IdentityMapped(old(mem), mem, dir, addr / 4096, RoundUp(size) / 4096)
    {
      RoundPages(addr);
      RoundPages(size);
      ghost var m := View();
      ok := MapContinous(dir, addr, size, addr, PT_WRITEABLE);
      if ok && Owned(m, dir, fl, own) { IdentityRefines(m, dir, fl, own, addr / 4096, RoundUp(size) / 4096); }
    }
  }

  ghost predicate IdentityPage(mem: map<nat, Page>, mem': map<nat, Page>, dir: nat, v: nat, n: nat, w: nat)
    requires w < SPACE_PAGES
  {
    if v <= w < v + n then Walk(mem', dir, w) == Some(Leaf(w, WINDOW_FLAGS, false))
      else SameFrame(Walk(mem, dir, w), Walk(mem', dir, w))
  }

  /**
   Pages v .. v + n - 1 map onto themselves, all others as before; the kernel
   window stays unless the range meets it.
   */
  ghost predicate IdentityMapped(mem: map<nat, Page>, mem': map<nat, Page>, dir: nat, v: nat, n: nat) {
    && (forall w: nat | w < SPACE_PAGES :: IdentityPage(mem, mem', dir, v, n, w))
    && (KernelWindow(mem, dir, WINDOW_FLAGS) && AvoidsWindow(Map(v, n, v, PT_WRITEABLE)) ==>
       KernelWindow(mem', dir, WINDOW_FLAGS))
  }

  lemma IdentityRefines(m: Mm, dir: nat, fl: seq<nat>, own: map<nat, Owner>, v: nat, n: nat)
    requires Owned(m, dir, fl, own) && v + n <= SPACE_PAGES && MapPages(m, dir, v, n, v, PT_WRITEABLE).Some?
    ensures IdentityMapped(m.mem, MapPages(m, dir, v, n, v, PT_WRITEABLE).value.mem, dir, v, n)
  {
    var m' := MapPages(m, dir, v, n, v, PT_WRITEABLE).value;
    forall w: nat | w < SPACE_PAGES ensures IdentityPage(m.mem, m'.mem, dir, v, n, w) {
      MapRefines(m, dir, fl, own, v, n, v, PT_WRITEABLE, w);
    }
    if KernelWindow(m.mem, dir, WINDOW_FLAGS) && AvoidsWindow(Map(v, n, v, PT_WRITEABLE)) {
      WindowKept(m, dir, fl, own, v, n, v, PT_WRITEABLE);
    }
  }

  lemma {:induction false} StaysNone(m: Mm, dir: nat, v: nat, i: nat, n: nat, ppn: nat, flags: nat)
    requires dir in m.mem && i <= n && v + n <= SPACE_PAGES && MapPages(m, dir, v, i, ppn, flags).None?
    ensures MapPages(m, dir, v, n, ppn, flags).None?
  {
    if i < n { StaysNone(m, dir, v, i, n - 1, ppn, flags); }
  }

  lemma PushFree(m: Mm, fl: seq<nat>, own: map<nat, Owner>, p: nat)
    requires AllFree(m, fl, own) && p in m.mem && p < WINDOW_PAGES && p !in own
    ensures AllFree(Mm(m.mem[p := m.mem[p][0 := m.head]], Phys2Virt(p)), fl + [p], own[p := FreePage(|fl|)])
  {
    var m' := Mm(m.mem[p := m.mem[p][0 := m.head]], Phys2Virt(p));
    var fl': seq<nat> := fl + [p];
    var own' := own[p := FreePage(|fl|)];
    forall x | x in own' ensures FreeTrue(fl', own', x) { if x != p { assert FreeTrue(fl, own, x); } }
    forall k | 0 <= k < |fl'| ensures FreeOwned(fl', own', k) { if k < |fl| { assert FreeOwned(fl, own, k); } }
    forall k | 0 <= k < |fl'| ensures LinkOk(m', fl', k) {
      assert fl'[..k] == fl[..k];
      if k < |fl| { assert FreeOwned(fl, own, k) && LinkOk(m, fl, k); }
      else { assert fl[..k] == fl; }
    }
  }
}
