/**
 Translation and ownership over whole runs of mapping calls, allocations and
 uses of the allocated pages.
 */
module PagingRuns {
  import opened Common
  import opened Paging
  import opened PagingProofs

  // ---------------------------------------------------------------- walks

  /** On owned tables the processor sees the entry, with user access only if the directory grants it too. */
  lemma WalkEntry(m: Mm, dir: nat, fl: seq<nat>, own: map<nat, Owner>, v: nat)
    requires Owned(m, dir, fl, own) && v < SPACE_PAGES
    ensures var e := Entry(m.mem, dir, v);
            Walk(m.mem, dir, v) ==
              if Present(e) then Some(Leaf(Pfn(e), e % 4096, User(m.mem[dir][Slot(v)]) && User(e))) else None
  {
    assert TableOwned(m, dir, own, Slot(v));
  }

  /** Same frame and leaf flags; user access may differ. */
  predicate SameFrame(a: Option<Leaf>, b: Option<Leaf>) {
    a.Some? == b.Some? && (a.Some? ==> a.value.ppn == b.value.ppn && a.value.flags == b.value.flags)
  }

  /**
   `map_continous` refines the plain map: covered pages go to the matching
   frames with the requested flags and user access, all others keep frame and
   flags, and keep user access as well if their directory slot was not touched.
   */
  lemma MapRefines(m: Mm, dir: nat, fl: seq<nat>, own: map<nat, Owner>, v: nat, n: nat, ppn: nat, flags: nat, w: nat)
    requires Owned(m, dir, fl, own) && v + n <= SPACE_PAGES && flags < 4096 && w < SPACE_PAGES
    requires MapPages(m, dir, v, n, ppn, flags).Some?
    ensures var before, after := Walk(m.mem, dir, w), Walk(MapPages(m, dir, v, n, ppn, flags).value.mem, dir, w);
            && (v <= w < v + n ==> after == Some(Leaf(ppn + w - v, WithPresent(flags), User(flags))))
            && (!(v <= w < v + n) ==> SameFrame(before, after))
            && (!Touches(v, n, Slot(w)) ==> before == after)
  {
    var fl', own' := MapPagesEffect(m, dir, fl, own, v, n, ppn, flags);
    MappedWalk(m, MapPages(m, dir, v, n, ppn, flags).value, dir, fl, own, fl', own', v, n, ppn, flags, w);
  }

  lemma MappedWalk(m: Mm, m': Mm, dir: nat, fl: seq<nat>, own: map<nat, Owner>, fl': seq<nat>, own': map<nat, Owner>,
                   v: nat, n: nat, ppn: nat, flags: nat, w: nat)
    requires Owned(m, dir, fl, own) && Owned(m', dir, fl', own') && RangeMapped(m, m', dir, v, n, ppn, flags)
    requires v + n <= SPACE_PAGES && flags < 4096 && w < SPACE_PAGES
    ensures var before, after := Walk(m.mem, dir, w), Walk(m'.mem, dir, w);
            && (v <= w < v + n ==> after == Some(Leaf(ppn + w - v, WithPresent(flags), User(flags))))
            && (!(v <= w < v + n) ==> SameFrame(before, after))
            && (!Touches(v, n, Slot(w)) ==> before == after)
  {
    WalkEntry(m, dir, fl, own, w);
    WalkEntry(m', dir, fl', own', w);
    RangeWalk(m, m', dir, v, n, ppn, flags, w);
  }

  lemma RangeWalk(m: Mm, m': Mm, dir: nat, v: nat, n: nat, ppn: nat, flags: nat, w: nat)
    requires dir in m.mem && dir in m'.mem && RangeMapped(m, m', dir, v, n, ppn, flags)
    requires v + n <= SPACE_PAGES && flags < 4096 && w < SPACE_PAGES
    ensures v <= w < v + n ==> Touches(v, n, Slot(w)) && User(m'.mem[dir][Slot(w)]) == User(flags)
    ensures v <= w < v + n ==>
              var e := Entry(m'.mem, dir, w);
              Present(e) && Pfn(e) == ppn + w - v && e % 4096 == WithPresent(flags) && User(e) == User(flags)
    ensures !(v <= w < v + n) ==> Entry(m'.mem, dir, w) == Entry(m.mem, dir, w)
    ensures !Touches(v, n, Slot(w)) ==> m'.mem[dir][Slot(w)] == m.mem[dir][Slot(w)]
  {
    assert EntryMapped(m, m', dir, v, n, ppn, flags, w) && SlotMapped(m, m', dir, v, n, flags, Slot(w));
    if v <= w < v + n { TableEntryFields(ppn + w - v, flags); }
  }

  // ---------------------------------------------------------------- runs

  /** A mapping call, a page handed out as a kernel stack or buffer, or such a page written by its holder. */
  datatype Op = Map(v: nat, n: nat, ppn: nat, flags: nat) | Lend | Use(p: nat, page: Page)

  ghost predicate OpOk(op: Op) {
    op.Map? ==> op.v + op.n <= SPACE_PAGES && op.flags < 4096
  }

  /** One call; it did not write through NULL. */
  ghost predicate StepOp(m: Mm, dir: nat, op: Op, m': Mm) {
    && dir in m.mem && OpOk(op)
    && match op
       case Map(v, n, ppn, flags) => MapPages(m, dir, v, n, ppn, flags) == Some(m')
       case Lend => m' == Kalloc(m).0
       case Use(p, page) => m' == m.(mem := m.mem[p := page])
  }

  /** `trace[i + 1]` follows from `trace[i]` by call `ops[i]`. */
  ghost predicate IsRun(trace: seq<Mm>, dir: nat, ops: seq<Op>) {
    |trace| == |ops| + 1 && forall i | 0 <= i < |ops| :: StepAt(trace, dir, ops, i)
  }

  ghost predicate StepAt(trace: seq<Mm>, dir: nat, ops: seq<Op>, i: nat)
    requires i < |ops| < |trace|
  {
    && StepOp(trace[i], dir, ops[i], trace[i + 1])
    && (ops[i].Use? ==> TakenBefore(trace, ops, i, ops[i].p))
  }

  /** Call `k` handed out page `p`. */
  ghost predicate Taken(trace: seq<Mm>, ops: seq<Op>, k: nat, p: nat)
    requires k < |ops| < |trace|
  {
    ops[k] == Lend && Kalloc(trace[k]).1 == Some(p)
  }

  /** One of the first `i` calls handed out page `p`. */
  ghost predicate TakenBefore(trace: seq<Mm>, ops: seq<Op>, i: nat, p: nat)
    requires i <= |ops| < |trace|
  {
    exists k | 0 <= k < i :: Taken(trace, ops, k, p)
  }

  /** Every page handed out so far is recorded as lent. */
  ghost predicate LentUpTo(trace: seq<Mm>, ops: seq<Op>, own: map<nat, Owner>, i: nat)
    requires i <= |ops| < |trace|
  {
    forall k: nat, p: nat | k < i && Taken(trace, ops, k, p) :: p in own && own[p] == Lent
  }

  /** Pages handed out stay handed out. */
  ghost predicate LentKept(own: map<nat, Owner>, own': map<nat, Owner>) {
    forall p | p in own && own[p] == Lent :: p in own' && own'[p] == Lent
  }

  lemma StepOwned(m: Mm, dir: nat, op: Op, m': Mm, fl: seq<nat>, own: map<nat, Owner>)
    returns (fl': seq<nat>, own': map<nat, Owner>)
    requires Owned(m, dir, fl, own) && StepOp(m, dir, op, m') && (op.Use? ==> op.p in own && own[op.p] == Lent)
    ensures Owned(m', dir, fl', own') && own'.Keys == own.Keys && LentKept(own, own')
    ensures op.Lend? ==> fl != [] ==> fl[|fl| - 1] in own' && own'[fl[|fl| - 1]] == Lent
    ensures !op.Map? ==> SameTables(m, m', dir)
    ensures op.Map? ==> RangeMapped(m, m', dir, op.v, op.n, op.ppn, op.flags)
    ensures |fl| - |fl'| == match op
                            case Map(v, n, _, _) => Needed(m, dir, v, n)
                            case Lend => if fl == [] then 0 else 1
                            case Use(_, _) => 0
  {
    match op
    case Map(v, n, ppn, flags) => fl', own' := MapPagesEffect(m, dir, fl, own, v, n, ppn, flags);
    case Lend =>
      KallocTakes(m, fl);
      if fl == [] { fl', own' := fl, own; }
      else {
        KallocOwned(m, dir, fl, own);
        fl', own' := Pop(fl), own[fl[|fl| - 1] := Lent];
      }
    case Use(p, page) =>
      WriteLent(m, dir, fl, own, p, page);
      fl', own' := fl, own;
  }

  /** One call of a run, with the owners before it and after it. */
  lemma RunStepOwned(trace: seq<Mm>, dir: nat, ops: seq<Op>, fl: seq<nat>, own: map<nat, Owner>, i: nat)
    returns (fl': seq<nat>, own': map<nat, Owner>)
    requires IsRun(trace, dir, ops) && i < |ops| && Owned(trace[i], dir, fl, own) && LentUpTo(trace, ops, own, i)
    ensures Owned(trace[i + 1], dir, fl', own') && own'.Keys == own.Keys && LentKept(own, own')
    ensures LentUpTo(trace, ops, own', i + 1) && OpEffect(trace[i], trace[i + 1], dir, ops[i])
  {
    assert StepAt(trace, dir, ops, i);
    fl', own' := StepOwned(trace[i], dir, ops[i], trace[i + 1], fl, own);
    if ops[i] == Lend { KallocTakes(trace[i], fl); }
  }

  /** Over any run each page of the initial pool keeps exactly one owner. */
  lemma RunOwned(trace: seq<Mm>, dir: nat, ops: seq<Op>, fl: seq<nat>, own: map<nat, Owner>, i: nat)
    returns (fl': seq<nat>, own': map<nat, Owner>)
    requires IsRun(trace, dir, ops) && Owned(trace[0], dir, fl, own) && i <= |ops|
    ensures Owned(trace[i], dir, fl', own') && own'.Keys == own.Keys && LentUpTo(trace, ops, own', i)
  {
    fl', own' := RunOwnedFrom(trace, dir, ops, fl, own, 0, i);
  }

  lemma {:induction false} RunOwnedFrom(trace: seq<Mm>, dir: nat, ops: seq<Op>, fl: seq<nat>, own: map<nat, Owner>,
                                        i: nat, j: nat)
    returns (fl': seq<nat>, own': map<nat, Owner>)
    requires IsRun(trace, dir, ops) && i <= j <= |ops| && Owned(trace[i], dir, fl, own) && LentUpTo(trace, ops, own, i)
    ensures Owned(trace[j], dir, fl', own') && own'.Keys == own.Keys && LentKept(own, own')
            && LentUpTo(trace, ops, own', j)
  {
    fl', own' := fl, own;
    if i < j {
      fl', own' := RunOwnedFrom(trace, dir, ops, fl, own, i, j - 1);
      fl', own' := RunStepOwned(trace, dir, ops, fl', own', j - 1);
    }
  }

  /**
   Pages handed out by two calls of a run are different, so the 4096-byte
   stacks `task_setup` builds on them do not overlap.
   */
  lemma StacksNeverShared(trace: seq<Mm>, dir: nat, ops: seq<Op>, fl: seq<nat>, own: map<nat, Owner>, i: nat, j: nat,
                          p: nat, q: nat)
    requires IsRun(trace, dir, ops) && Owned(trace[0], dir, fl, own) && i < j < |ops|
    requires Taken(trace, ops, i, p) && Taken(trace, ops, j, q)
    ensures p != q && p != dir && q != dir
    ensures Phys2Virt(p) + 4096 <= Phys2Virt(q) || Phys2Virt(q) + 4096 <= Phys2Virt(p)
  {
    var fl1, own1 := RunOwned(trace, dir, ops, fl, own, i);
    LendTakes(trace[i], dir, fl1, own1, p);
    var fl3, own3 := RunOwnedFrom(trace, dir, ops, fl1, own1, i, j);
    LendTakes(trace[j], dir, fl3, own3, q);
    WindowApart(p, q);
  }

  lemma LendTakes(m: Mm, dir: nat, fl: seq<nat>, own: map<nat, Owner>, p: nat)
    requires Owned(m, dir, fl, own) && Kalloc(m).1 == Some(p)
    ensures fl != [] && p == fl[|fl| - 1] && p in own && own[p].FreePage? && p != dir && p < WINDOW_PAGES
  {
    KallocTakes(m, fl);
    assert FreeOwned(fl, own, |fl| - 1) && LinkOk(m, fl, |fl| - 1);
  }

  lemma WindowApart(p: nat, q: nat)
    requires p < WINDOW_PAGES && q < WINDOW_PAGES && p != q
    ensures Phys2Virt(p) + 4096 <= Phys2Virt(q) || Phys2Virt(q) + 4096 <= Phys2Virt(p)
  {
    assert Phys2Virt(p) == 4096 * p + KERNEL_HIGH && Phys2Virt(q) == 4096 * q + KERNEL_HIGH;
  }

  /** Two different uses never share a page. */
  lemma NoSharing(m: Mm, dir: nat, fl: seq<nat>, own: map<nat, Owner>)
    requires Owned(m, dir, fl, own)
    ensures forall d: nat, d': nat | d < d' < 1024 && HasTable(m, dir, d) && HasTable(m, dir, d') ::
            Table(m, dir, d) != Table(m, dir, d')
    ensures forall d: nat | d < 1024 && HasTable(m, dir, d) ::
              Table(m, dir, d) != dir && Table(m, dir, d) !in fl && !IsLent(own, Table(m, dir, d))
    ensures forall k: nat, k': nat | k < k' < |fl| :: fl[k] != fl[k']
    ensures forall k: nat | k < |fl| :: fl[k] != dir && !IsLent(own, fl[k])
    ensures !IsLent(own, dir)
  {
    forall d: nat, d': nat | d < d' < 1024 && HasTable(m, dir, d) && HasTable(m, dir, d')
      ensures Table(m, dir, d) != Table(m, dir, d')
    {
      assert TableOwned(m, dir, own, d) && TableOwned(m, dir, own, d');
    }
    forall d: nat | d < 1024 && HasTable(m, dir, d)
      ensures Table(m, dir, d) != dir && Table(m, dir, d) !in fl && !IsLent(own, Table(m, dir, d))
    {
      assert TableOwned(m, dir, own, d);
      forall k: nat | k < |fl| ensures fl[k] != Table(m, dir, d) { assert FreeOwned(fl, own, k); }
    }
    forall k: nat, k': nat | k < k' < |fl| ensures fl[k] != fl[k'] {
      assert FreeOwned(fl, own, k) && FreeOwned(fl, own, k');
    }
    forall k: nat | k < |fl| ensures fl[k] != dir && !IsLent(own, fl[k]) { assert FreeOwned(fl, own, k); }
  }

  /** A page that was handed out is written by its holder only: no later allocation or mapping changes it. */
  lemma LentPageKept(trace: seq<Mm>, dir: nat, ops: seq<Op>, fl: seq<nat>, own: map<nat, Owner>, i: nat, p: nat)
    requires IsRun(trace, dir, ops) && Owned(trace[0], dir, fl, own) && i < |ops| && TakenBefore(trace, ops, i, p)
    requires !(ops[i].Use? && ops[i].p == p) && p in trace[i].mem
    ensures p in trace[i + 1].mem && trace[i + 1].mem[p] == trace[i].mem[p]
  {
    var fl1, own1 := RunOwned(trace, dir, ops, fl, own, i);
    assert StepAt(trace, dir, ops, i);
    var k :| 0 <= k < i && Taken(trace, ops, k, p);
    match ops[i]
    case Map(v, n, ppn, flags) =>
      var fl2, own2 := MapPagesEffect(trace[i], dir, fl1, own1, v, n, ppn, flags);
      assert LentPage(trace[i], trace[i + 1], own1, p);
    case Lend => KallocTakes(trace[i], fl1);
    case Use(_, _) =>
  }

  // ---------------------------------------------------------------- the plain map

  /** What the last of the first `i` calls that covers a page asked for: frame and flags. */
  ghost function Plain(ops: seq<Op>, i: nat, w: nat): Option<(nat, nat)>
    requires i <= |ops|
  {
    if i == 0 then None
    else
      var op := ops[i - 1];
      if op.Map? && op.v <= w < op.v + op.n then Some((op.ppn + w - op.v, op.flags)) else Plain(ops, i - 1, w)
  }

  /** The flags of the last of the first `i` calls that touched a directory slot. */
  ghost function SlotFlags(ops: seq<Op>, i: nat, d: nat): nat
    requires i <= |ops|
  {
    if i == 0 then 0
    else
      var op := ops[i - 1];
      if op.Map? && Touches(op.v, op.n, d) then op.flags else SlotFlags(ops, i - 1, d)
  }

  ghost predicate Empty(m: Mm, dir: nat) {
    dir in m.mem && forall d | 0 <= d < 1024 :: m.mem[dir][d] == 0
  }

  ghost predicate EntryFor(e: nat, want: Option<(nat, nat)>) {
    match want
    case None => e == 0
    case Some((ppn, flags)) => Present(e) && Pfn(e) == ppn && e % 4096 == WithPresent(flags) && User(e) == User(flags)
  }

  lemma {:induction false} RunEntries(trace: seq<Mm>, dir: nat, ops: seq<Op>, fl: seq<nat>, own: map<nat, Owner>,
                                      i: nat, w: nat)
    requires IsRun(trace, dir, ops) && Owned(trace[0], dir, fl, own) && Empty(trace[0], dir) && i <= |ops|
             && w < SPACE_PAGES
    ensures dir in trace[i].mem && EntryFor(Entry(trace[i].mem, dir, w), Plain(ops, i, w))
    ensures User(trace[i].mem[dir][Slot(w)]) == User(SlotFlags(ops, i, Slot(w)))
            && !Writeable(trace[i].mem[dir][Slot(w)])
  {
    if i > 0 {
      RunEntries(trace, dir, ops, fl, own, i - 1, w);
      StepEffect(trace, dir, ops, fl, own, i - 1);
      OpEntry(trace[i - 1], trace[i], dir, ops[i - 1], w);
    }
  }

  ghost predicate OpEffect(m: Mm, m': Mm, dir: nat, op: Op) {
    && dir in m.mem && dir in m'.mem && OpOk(op)
    && match op
       case Map(v, n, ppn, flags) => RangeMapped(m, m', dir, v, n, ppn, flags)
       case _ => SameTables(m, m', dir)
  }

  lemma StepEffect(trace: seq<Mm>, dir: nat, ops: seq<Op>, fl: seq<nat>, own: map<nat, Owner>, i: nat)
    requires IsRun(trace, dir, ops) && Owned(trace[0], dir, fl, own) && i < |ops|
    ensures OpEffect(trace[i], trace[i + 1], dir, ops[i])
  {
    var fl1, own1 := RunOwned(trace, dir, ops, fl, own, i);
    var fl2, own2 := RunStepOwned(trace, dir, ops, fl1, own1, i);
  }

  /** What one call does to the entry and the slot of a page. */
  lemma OpEntry(m: Mm, m': Mm, dir: nat, op: Op, w: nat)
    requires OpEffect(m, m', dir, op) && w < SPACE_PAGES
    ensures if op.Map? && op.v <= w < op.v + op.n
            then EntryFor(Entry(m'.mem, dir, w), Some((op.ppn + w - op.v, op.flags)))
            else Entry(m'.mem, dir, w) == Entry(m.mem, dir, w)
    ensures if op.Map? && Touches(op.v, op.n, Slot(w))
            then User(m'.mem[dir][Slot(w)]) == User(op.flags) && !Writeable(m'.mem[dir][Slot(w)])
            else m'.mem[dir][Slot(w)] == m.mem[dir][Slot(w)]
  {
    if op.Map? {
      assert SlotMapped(m, m', dir, op.v, op.n, op.flags, Slot(w));
      RangeWalk(m, m', dir, op.v, op.n, op.ppn, op.flags, w);
    }
  }

  /**
   The translation after any run of calls from an empty directory: a page goes
   where the last call covering it sent it, and user code reaches it exactly if
   that call asked for PT_USER and so did the last call that touched its 4 MiB
   slot.
   */
  lemma RunRefinesPlainMap(trace: seq<Mm>, dir: nat, ops: seq<Op>, fl: seq<nat>, own: map<nat, Owner>, i: nat, w: nat)
    requires IsRun(trace, dir, ops) && Owned(trace[0], dir, fl, own) && Empty(trace[0], dir) && i <= |ops|
             && w < SPACE_PAGES
    ensures Walk(trace[i].mem, dir, w) ==
              match Plain(ops, i, w)
              case None => None
              case Some((ppn, flags)) =>
                Some(Leaf(ppn, WithPresent(flags), User(SlotFlags(ops, i, Slot(w))) && User(flags)))
  {
    RunEntries(trace, dir, ops, fl, own, i, w);
    var fl', own' := RunOwned(trace, dir, ops, fl, own, i);
    WalkEntry(trace[i], dir, fl', own', w);
  }

  /**
   `alloc_page` never puts the writeable bit into a directory entry, so no run of
   calls makes a page writeable for user code, whatever flags were asked for.
   */
  lemma UserNeverWrites(trace: seq<Mm>, dir: nat, ops: seq<Op>, fl: seq<nat>, own: map<nat, Owner>, i: nat, w: nat)
    requires IsRun(trace, dir, ops) && Owned(trace[0], dir, fl, own) && Empty(trace[0], dir) && i <= |ops|
             && w < SPACE_PAGES
    ensures !UserMayWrite(trace[i].mem, dir, w)
  {
    RunEntries(trace, dir, ops, fl, own, i, w);
  }

  /** The shared directory flags cost user access: mapping a kernel page takes it from every page of the same slot. */
  lemma NeighbourLosesUser(trace: seq<Mm>, dir: nat, ops: seq<Op>, fl: seq<nat>, own: map<nat, Owner>, i: nat, w: nat)
    requires IsRun(trace, dir, ops) && Owned(trace[0], dir, fl, own) && Empty(trace[0], dir) && i < |ops|
             && w < SPACE_PAGES
    requires ops[i].Map? && !User(ops[i].flags) && Touches(ops[i].v, ops[i].n, Slot(w))
    requires !(ops[i].v <= w < ops[i].v + ops[i].n)
    ensures SameFrame(Walk(trace[i].mem, dir, w), Walk(trace[i + 1].mem, dir, w))
    ensures Walk(trace[i + 1].mem, dir, w).Some? ==> !Walk(trace[i + 1].mem, dir, w).value.user
  {
    RunRefinesPlainMap(trace, dir, ops, fl, own, i, w);
    RunRefinesPlainMap(trace, dir, ops, fl, own, i + 1, w);
  }
}
