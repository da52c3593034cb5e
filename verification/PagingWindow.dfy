/**
 The kernel window [KERNEL_HIGH, KERNEL_HIGH + 4 MiB): its translation survives
 the move from the early directory to the kernel's own and every later call.
 */
module PagingWindow {
  import opened Common
  import opened Paging
  import opened PagingProofs
  import opened PagingRuns

  const PT_WRITEABLE := 2
  const PT_USER := 4

  ghost predicate WindowPage(mem: map<nat, Page>, dir: nat, p: nat, flags: nat)
    requires p < WINDOW_PAGES
  {
    Walk(mem, dir, HIGH_PAGE + p) == Some(Leaf(p, flags, false))
  }

  /** Page number p of the window is frame p, for the kernel only: what `phys2virt` relies on. */
  ghost predicate KernelWindow(mem: map<nat, Page>, dir: nat, flags: nat) {
    forall p: nat | p < WINDOW_PAGES :: WindowPage(mem, dir, p, flags)
  }

  /** Flags of the early large pages, and of the pages that replace them: present and writeable in both. */
  const EARLY_FLAGS := 131
  const WINDOW_FLAGS := 3

  /** `setup_paging_early`: two large pages, both on the first 4 MiB */
  function EarlyDirectory(): (d: Page)
    ensures forall i | 0 <= i < 1024 :: d[i] == if i == 0 || i == 768 then EARLY_FLAGS else 0
  {
    seq(1024, i => if i == 0 || i == 768 then EARLY_FLAGS else 0)
  }

  lemma EarlyWindow(mem: map<nat, Page>, dir: nat)
    requires dir in mem && mem[dir] == EarlyDirectory()
    ensures KernelWindow(mem, dir, EARLY_FLAGS) && Writeable(mem[dir][768])
    ensures forall p: nat | p < WINDOW_PAGES :: Walk(mem, dir, p) == Walk(mem, dir, HIGH_PAGE + p)
  {
    forall p: nat | p < WINDOW_PAGES
      ensures WindowPage(mem, dir, p, EARLY_FLAGS) && Walk(mem, dir, p) == Walk(mem, dir, HIGH_PAGE + p)
    {
      assert (HIGH_PAGE + p) / 1024 == 768 && (HIGH_PAGE + p) % 1024 == p;
    }
  }

  // ---------------------------------------------------------------- init_kernel_paging

  /** Nothing allocated yet: every page of the pool is on the free list. */
  ghost predicate AllFree(m: Mm, fl: seq<nat>, own: map<nat, Owner>) {
    && FreeList(m, fl)
    && (forall k | 0 <= k < |fl| :: FreeOwned(fl, own, k))
    && (forall p {:trigger FreeTrue(fl, own, p)} | p in own :: FreeTrue(fl, own, p))
  }

  ghost predicate FreeTrue(fl: seq<nat>, own: map<nat, Owner>, p: nat)
    requires p in own
  {
    own[p].FreePage? && own[p].k < |fl| && fl[own[p].k] == p
  }

  /** The first page becomes an empty directory. */
  ghost function NewDirectory(m: Mm, fl: seq<nat>): Mm
    requires fl != []
  {
    Mm(m.mem[fl[|fl| - 1] := ZeroPage()], Top(Pop(fl)))
  }

  lemma DirectoryOwned(m: Mm, fl: seq<nat>, own: map<nat, Owner>)
    requires AllFree(m, fl, own) && fl != []
    ensures var dir := fl[|fl| - 1];
            && Kalloc(m) == (m.(head := Top(Pop(fl))), Some(dir)) && dir in own
            && Owned(NewDirectory(m, fl), dir, Pop(fl), own[dir := Directory]) && Empty(NewDirectory(m, fl), dir)
  {
    var dir, m', own' := fl[|fl| - 1], NewDirectory(m, fl), own[fl[|fl| - 1] := Directory];
    KallocTakes(m, fl);
    assert FreeOwned(fl, own, |fl| - 1) && LinkOk(m, fl, |fl| - 1);
    forall k | 0 <= k < |fl| - 1 ensures fl[k] != dir && fl[k] in m.mem && FreeOwned(Pop(fl), own', k) {
      assert FreeOwned(fl, own, k) && LinkOk(m, fl, k);
    }
    FreeListKept(m, m', fl);
    forall d | 0 <= d < 1024 ensures TableOwned(m', dir, own', d) {}
    forall p | p in own' ensures OwnerTrue(m', dir, Pop(fl), own', p) { assert p in own && FreeTrue(fl, own, p); }
  }

  /** The first call of `init_kernel_paging`. */
  function WindowOp(): Op {
    Map(HIGH_PAGE, WINDOW_PAGES, 0, PT_WRITEABLE)
  }

  ghost predicate AvoidsWindow(op: Op) {
    op.Map? ==> op.v + op.n <= HIGH_PAGE || HIGH_PAGE + WINDOW_PAGES <= op.v || op.n == 0
  }

  lemma {:induction false} PlainWindow(ops: seq<Op>, i: nat, p: nat)
    requires 1 <= i <= |ops| && p < WINDOW_PAGES
    requires ops[0] == WindowOp() && forall k | 1 <= k < |ops| :: AvoidsWindow(ops[k])
    ensures Plain(ops, i, HIGH_PAGE + p) == Some((p, PT_WRITEABLE))
  {
    if i > 1 {
      assert AvoidsWindow(ops[i - 1]);
      PlainWindow(ops, i - 1, p);
    }
  }

  /**
   Once the first call has filled the empty directory, and after any later run
   of calls outside the window, the window translates as it did under the early
   directory, to the same frames, without user access and with writeable leaves.
   Its directory entry is not writeable as the early one was, which the kernel
   does not notice while CR0.WP is clear.
   */
  lemma WindowPersists(trace: seq<Mm>, dir: nat, ops: seq<Op>, fl: seq<nat>, own: map<nat, Owner>, i: nat)
    requires IsRun(trace, dir, ops) && Owned(trace[0], dir, fl, own) && Empty(trace[0], dir) && 1 <= i <= |ops|
    requires ops[0] == WindowOp() && forall k | 1 <= k < |ops| :: AvoidsWindow(ops[k])
    ensures KernelWindow(trace[i].mem, dir, WINDOW_FLAGS)
    ensures dir in trace[i].mem && !Writeable(trace[i].mem[dir][768])
  {
    RunEntries(trace, dir, ops, fl, own, i, HIGH_PAGE);
    forall p: nat | p < WINDOW_PAGES ensures WindowPage(trace[i].mem, dir, p, WINDOW_FLAGS) {
      PlainWindow(ops, i, p);
      RunRefinesPlainMap(trace, dir, ops, fl, own, i, HIGH_PAGE + p);
    }
  }

  /** Every table, and the directory, can be reached at its `phys2virt` address. */
  lemma TablesReachable(m: Mm, dir: nat, fl: seq<nat>, own: map<nat, Owner>, d: nat)
    requires Owned(m, dir, fl, own) && KernelWindow(m.mem, dir, WINDOW_FLAGS) && d < 1024 && HasTable(m, dir, d)
    ensures Table(m, dir, d) < WINDOW_PAGES && WindowPage(m.mem, dir, Table(m, dir, d), WINDOW_FLAGS)
            && WindowPage(m.mem, dir, dir, WINDOW_FLAGS)
  {
    assert TableOwned(m, dir, own, d);
  }

  lemma OneTableNeeded(m: Mm, dir: nat, v: nat, n: nat)
    requires dir in m.mem && n > 0 && v + n <= SPACE_PAGES && Slot(v + n - 1) == Slot(v) && !HasTable(m, dir, Slot(v))
    ensures Needed(m, dir, v, n) == 1
  {
    assert Missing(m, dir, Slot(v), Slot(v)) == 0;
  }

  /** The first call of `init_kernel_paging`. */
  lemma InitFirst(m: Mm, dir: nat, fl: seq<nat>, own: map<nat, Owner>, us: nat, v: nat, n: nat, ppn: nat, flags: nat)
    returns (fl': seq<nat>, own': map<nat, Owner>)
    requires Owned(m, dir, fl, own) && Empty(m, dir) && |fl| >= 1 && HIGH_PAGE + WINDOW_PAGES <= us < SPACE_PAGES
    requires v == HIGH_PAGE && n == WINDOW_PAGES && ppn == 0 && flags == PT_WRITEABLE
    ensures var r := MapPages(m, dir, v, n, ppn, flags);
            && r.Some? && Owned(r.value, dir, fl', own') && own'.Keys == own.Keys && |fl'| == |fl| - 1
            && KernelWindow(r.value.mem, dir, WINDOW_FLAGS) && !HasTable(r.value, dir, Slot(us))
  {
    OneTableNeeded(m, dir, v, n);
    fl', own' := MapPagesEffect(m, dir, fl, own, v, n, ppn, flags);
    var m' := MapPages(m, dir, v, n, ppn, flags).value;
    assert SlotMapped(m, m', dir, v, n, flags, Slot(us));
    forall p: nat | p < WINDOW_PAGES ensures WindowPage(m'.mem, dir, p, WINDOW_FLAGS) {
      WindowPageMapped(m, m', dir, fl, own, fl', own', v, n, ppn, flags, p);
    }
  }

  lemma WindowPageMapped(m: Mm, m': Mm, dir: nat, fl: seq<nat>, own: map<nat, Owner>, fl': seq<nat>,
                         own': map<nat, Owner>, v: nat, n: nat, ppn: nat, flags: nat, p: nat)
    requires Owned(m, dir, fl, own) && Owned(m', dir, fl', own') && RangeMapped(m, m', dir, v, n, ppn, flags)
    requires v == HIGH_PAGE && n == WINDOW_PAGES && ppn == 0 && flags == PT_WRITEABLE && p < WINDOW_PAGES
    ensures WindowPage(m'.mem, dir, p, WINDOW_FLAGS)
  {
    MappedWalk(m, m', dir, fl, own, fl', own', v, n, ppn, flags, HIGH_PAGE + p);
  }

  /** A call outside the window leaves it alone. */
  lemma WindowKept(m: Mm, dir: nat, fl: seq<nat>, own: map<nat, Owner>, v: nat, n: nat, ppn: nat, flags: nat)
    requires Owned(m, dir, fl, own) && v + n <= SPACE_PAGES && flags < 4096
    requires KernelWindow(m.mem, dir, WINDOW_FLAGS) && AvoidsWindow(Map(v, n, ppn, flags))
             && MapPages(m, dir, v, n, ppn, flags).Some?
    ensures KernelWindow(MapPages(m, dir, v, n, ppn, flags).value.mem, dir, WINDOW_FLAGS)
  {
    forall p: nat | p < WINDOW_PAGES
      ensures WindowPage(MapPages(m, dir, v, n, ppn, flags).value.mem, dir, p, WINDOW_FLAGS)
    {
      assert WindowPage(m.mem, dir, p, WINDOW_FLAGS);
      WindowSlot(v, n, p);
      MapRefines(m, dir, fl, own, v, n, ppn, flags, HIGH_PAGE + p);
    }
  }

  /** The window is one directory slot, which a range outside it does not touch. */
  lemma WindowSlot(v: nat, n: nat, p: nat)
    requires p < WINDOW_PAGES && (v + n <= HIGH_PAGE || HIGH_PAGE + WINDOW_PAGES <= v || n == 0)
    ensures !Touches(v, n, Slot(HIGH_PAGE + p))
  {
    assert Slot(HIGH_PAGE + p) == 768;
  }

  /** A call that needs one new table, on one page outside the window. */
  lemma InitSecond(m: Mm, dir: nat, fl: seq<nat>, own: map<nat, Owner>, v: nat, n: nat, ppn: nat, flags: nat)
    returns (fl': seq<nat>, own': map<nat, Owner>)
    requires Owned(m, dir, fl, own) && |fl| >= 1 && HIGH_PAGE + WINDOW_PAGES <= v < SPACE_PAGES && n == 1
             && flags < 4096
    requires KernelWindow(m.mem, dir, WINDOW_FLAGS) && !HasTable(m, dir, Slot(v))
    ensures var r := MapPages(m, dir, v, n, ppn, flags);
            && r.Some? && Owned(r.value, dir, fl', own') && own'.Keys == own.Keys && |fl'| == |fl| - 1
            && KernelWindow(r.value.mem, dir, WINDOW_FLAGS)
               && Walk(r.value.mem, dir, v) == Some(Leaf(ppn, WithPresent(flags), User(flags)))
  {
    OneTableNeeded(m, dir, v, n);
    fl', own' := MapPagesEffect(m, dir, fl, own, v, n, ppn, flags);
    WindowKept(m, dir, fl, own, v, n, ppn, flags);
    MapRefines(m, dir, fl, own, v, n, ppn, flags, v);
  }
}
