/**
 Mapping refines a plain map from pages to entries, and keeps the ownership of
 every page.
 */
module PagingProofs {
  import opened Common
  import opened Paging

  // ---------------------------------------------------------------- arithmetic

  lemma VirtRoundTrip(p: nat)
    requires p < WINDOW_PAGES
    ensures Phys2Virt(p) != 0 && Virt2Phys(Phys2Virt(p)) == p
  {
    assert Phys2Virt(p) == 4096 * p + KERNEL_HIGH;
  }

  lemma DirEntryFields(t: nat, user: bool)
    ensures var e := DirEntry(t, user);
            Present(e) && !Large(e) && !Writeable(e) && Pfn(e) == t && User(e) == user
  {
    var f := if user then 5 else 1;
    EntryPage(t, f);
    PresentBit(t, f);
    WriteableBit(t, f);
    UserBit(t, f);
    LargeBit(t, f);
  }

  lemma TableEntryFields(ppn: nat, flags: nat)
    requires flags < 4096
    ensures var e := TableEntry(ppn, flags);
            Present(e) && Pfn(e) == ppn && e % 4096 == WithPresent(flags) && User(e) == User(flags)
  {
    OddFlags(flags);
    FlagFields(ppn, WithPresent(flags));
  }

  lemma FlagFields(ppn: nat, f: nat)
    requires f < 4096
    ensures var e := 4096 * ppn + f;
            Present(e) == Present(f) && Pfn(e) == ppn && e % 4096 == f && User(e) == User(f)
  {
    EntryPage(ppn, f);
    PresentBit(ppn, f);
    UserBit(ppn, f);
  }

  lemma OddFlags(flags: nat)
    requires flags < 4096
    ensures Present(WithPresent(flags)) && WithPresent(flags) < 4096 && User(WithPresent(flags)) == User(flags)
  {
    var q, b := flags / 4, flags % 4;
    assert flags == 4 * q + b && (b == 0 || b == 1 || b == 2 || b == 3);
    assert flags % 2 == b % 2;
  }

  // The page number of an entry adds an even number of units at the place of every flag.

  lemma EntryPage(ppn: nat, f: nat)
    requires f < 4096
    ensures (4096 * ppn + f) / 4096 == ppn && (4096 * ppn + f) % 4096 == f
  {
  }

  lemma PresentBit(ppn: nat, f: nat)
    ensures Present(4096 * ppn + f) == Present(f)
  {
    assert 4096 * ppn + f == 2 * (2048 * ppn) + f;
  }

  lemma WriteableBit(ppn: nat, f: nat)
    ensures Writeable(4096 * ppn + f) == Writeable(f)
  {
    assert (4096 * ppn + f) / 2 == 2048 * ppn + f / 2;
  }

  lemma UserBit(ppn: nat, f: nat)
    ensures User(4096 * ppn + f) == User(f)
  {
    assert (4096 * ppn + f) / 4 == 1024 * ppn + f / 4;
  }

  lemma LargeBit(ppn: nat, f: nat)
    ensures Large(4096 * ppn + f) == Large(f)
  {
    assert (4096 * ppn + f) / 128 == 32 * ppn + f / 128;
  }

  // ---------------------------------------------------------------- allocator

  function Pop(fl: seq<nat>): seq<nat>
    requires fl != []
  {
    fl[..|fl| - 1]
  }

  /** `kalloc` hands out the last page pushed, and NULL exactly when there is none. */
  lemma KallocTakes(m: Mm, fl: seq<nat>)
    requires FreeList(m, fl)
    ensures fl == [] ==> Kalloc(m) == (m, None)
    ensures fl != [] ==> Kalloc(m) == (m.(head := Top(Pop(fl))), Some(fl[|fl| - 1]))
  {
    if fl != [] {
      assert LinkOk(m, fl, |fl| - 1);
      VirtRoundTrip(fl[|fl| - 1]);
    }
  }

  lemma PopPrefix(fl: seq<nat>, i: nat)
    requires fl != [] && i < |fl| - 1
    ensures Pop(fl)[i] == fl[i] && Pop(fl)[..i] == fl[..i]
  {
  }

  /** Memory changed only outside the free list. */
  lemma FreeListKept(m: Mm, m': Mm, fl: seq<nat>)
    requires FreeList(m, fl) && fl != [] && m'.head == Top(Pop(fl))
    requires forall i | 0 <= i < |fl| - 1 :: fl[i] in m.mem && fl[i] in m'.mem && m'.mem[fl[i]] == m.mem[fl[i]]
    ensures FreeList(m', Pop(fl))
  {
    forall i | 0 <= i < |Pop(fl)| ensures LinkOk(m', Pop(fl), i) {
      assert LinkOk(m, fl, i);
      PopPrefix(fl, i);
    }
  }

  /** A page given away leaves the free list and belongs to nobody else. */
  lemma KallocOwned(m: Mm, dir: nat, fl: seq<nat>, own: map<nat, Owner>)
    requires Owned(m, dir, fl, own) && fl != []
    ensures var p := fl[|fl| - 1];
            && Kalloc(m) == (m.(head := Top(Pop(fl))), Some(p))
            && p in own && own[p].FreePage?
            && Owned(m.(head := Top(Pop(fl))), dir, Pop(fl), own[p := Lent])
  {
    var p, m', own' := fl[|fl| - 1], m.(head := Top(Pop(fl))), own[fl[|fl| - 1] := Lent];
    KallocTakes(m, fl);
    forall i | 0 <= i < |fl| - 1 ensures fl[i] in m.mem { assert LinkOk(m, fl, i); }
    FreeListKept(m, m', fl);
    assert FreeOwned(fl, own, |fl| - 1);
    forall k | 0 <= k < |Pop(fl)| ensures FreeOwned(Pop(fl), own', k) { assert FreeOwned(fl, own, k); }
    forall d | 0 <= d < 1024 ensures TableOwned(m', dir, own', d) { assert TableOwned(m, dir, own, d); }
    forall x | x in own' ensures OwnerTrue(m', dir, Pop(fl), own', x) {
      assert x in own && OwnerTrue(m, dir, fl, own, x);
    }
  }

  /** The directory and every entry of its tables are the same. */
  ghost predicate SameTables(m: Mm, m': Mm, dir: nat) {
    && dir in m.mem && dir in m'.mem && m'.mem[dir] == m.mem[dir]
    && forall v: nat | v < SPACE_PAGES :: Entry(m'.mem, dir, v) == Entry(m.mem, dir, v)
  }

  /** The owner of a lent page may overwrite it: no table, no free-list link and no translation changes. */
  lemma WriteLent(m: Mm, dir: nat, fl: seq<nat>, own: map<nat, Owner>, p: nat, page: Page)
    requires Owned(m, dir, fl, own) && p in own && own[p] == Lent
    ensures Owned(m.(mem := m.mem[p := page]), dir, fl, own)
    ensures forall v: nat | v < SPACE_PAGES :: Walk(m.mem[p := page], dir, v) == Walk(m.mem, dir, v)
    ensures SameTables(m, m.(mem := m.mem[p := page]), dir)
  {
    var m' := m.(mem := m.mem[p := page]);
    forall k | 0 <= k < |fl| ensures fl[k] != p && LinkOk(m', fl, k) {
      assert FreeOwned(fl, own, k) && LinkOk(m, fl, k);
    }
    forall d | 0 <= d < 1024 ensures TableOwned(m', dir, own, d) { assert TableOwned(m, dir, own, d); }
    forall x | x in own ensures OwnerTrue(m', dir, fl, own, x) { assert OwnerTrue(m, dir, fl, own, x); }
    forall v: nat | v < SPACE_PAGES
      ensures Walk(m'.mem, dir, v) == Walk(m.mem, dir, v) && Entry(m'.mem, dir, v) == Entry(m.mem, dir, v)
    {
      assert TableOwned(m, dir, own, v / 1024);
    }
  }

  // ---------------------------------------------------------------- tables

  /** Entries and directory after `alloc_page`. */
  ghost predicate TableAdded(m: Mm, m': Mm, dir: nat, slot: nat, user: bool, t: nat)
    requires dir in m.mem && dir in m'.mem && slot < 1024
  {
    && m'.mem[dir] == m.mem[dir][slot := DirEntry(t, user)]
    && (forall v: nat | v < SPACE_PAGES :: Entry(m'.mem, dir, v) == Entry(m.mem, dir, v))
  }

  lemma ReuseTable(m: Mm, dir: nat, slot: nat, user: bool, fl: seq<nat>, own: map<nat, Owner>)
    requires Owned(m, dir, fl, own) && slot < 1024 && HasTable(m, dir, slot)
    ensures var (m', t) := AllocTable(m, dir, slot, user);
            && t == Some(Table(m, dir, slot)) && dir in m'.mem
            && Owned(m', dir, fl, own) && TableAdded(m, m', dir, slot, user, t.value)
  {
    var (m', t) := AllocTable(m, dir, slot, user);
    DirEntryFields(t.value, user);
    assert TableOwned(m, dir, own, slot);
    forall k | 0 <= k < |fl| ensures fl[k] != dir && LinkOk(m', fl, k) {
      assert FreeOwned(fl, own, k) && LinkOk(m, fl, k);
    }
    forall d | 0 <= d < 1024 ensures TableOwned(m', dir, own, d) { assert TableOwned(m, dir, own, d); }
    forall x | x in own ensures OwnerTrue(m', dir, fl, own, x) { assert OwnerTrue(m, dir, fl, own, x); }
    forall v: nat | v < SPACE_PAGES ensures Entry(m'.mem, dir, v) == Entry(m.mem, dir, v) {
      assert TableOwned(m, dir, own, v / 1024);
    }
  }

  lemma NewTable(m: Mm, dir: nat, slot: nat, user: bool, fl: seq<nat>, own: map<nat, Owner>)
    requires Owned(m, dir, fl, own) && slot < 1024 && !HasTable(m, dir, slot) && fl != []
    ensures var (m', t) := AllocTable(m, dir, slot, user);
            && t == Some(fl[|fl| - 1]) && dir in m'.mem
            && Owned(m', dir, Pop(fl), own[t.value := TableOf(slot)]) && TableAdded(m, m', dir, slot, user, t.value)
            && t.value in own
  {
    var p := fl[|fl| - 1];
    var m' := Mm(m.mem[p := ZeroPage()][dir := m.mem[dir][slot := DirEntry(p, user)]], Top(Pop(fl)));
    KallocTakes(m, fl);
    assert FreeOwned(fl, own, |fl| - 1);
    NewOwned(m, m', dir, slot, user, fl, own);
    DirEntryFields(p, user);
    forall v: nat | v < SPACE_PAGES ensures Entry(m'.mem, dir, v) == Entry(m.mem, dir, v) {
      assert TableOwned(m, dir, own, v / 1024);
    }
  }

  lemma NewOwned(m: Mm, m': Mm, dir: nat, slot: nat, user: bool, fl: seq<nat>, own: map<nat, Owner>)
    requires Owned(m, dir, fl, own) && slot < 1024 && !HasTable(m, dir, slot) && fl != []
    requires m' == Mm(m.mem[fl[|fl| - 1] := ZeroPage()][dir := m.mem[dir][slot := DirEntry(fl[|fl| - 1], user)]],
             Top(Pop(fl)))
    ensures Owned(m', dir, Pop(fl), own[fl[|fl| - 1] := TableOf(slot)])
  {
    var p, own' := fl[|fl| - 1], own[fl[|fl| - 1] := TableOf(slot)];
    DirEntryFields(p, user);
    assert FreeOwned(fl, own, |fl| - 1) && LinkOk(m, fl, |fl| - 1);
    forall k | 0 <= k < |fl| - 1 ensures fl[k] != dir && fl[k] != p && fl[k] in m.mem && FreeOwned(Pop(fl), own', k) {
      assert FreeOwned(fl, own, k) && LinkOk(m, fl, k);
    }
    FreeListKept(m, m', fl);
    forall d | 0 <= d < 1024 ensures TableOwned(m', dir, own', d) { assert TableOwned(m, dir, own, d); }
    forall x | x in own' ensures OwnerTrue(m', dir, Pop(fl), own', x) {
      assert x in own && OwnerTrue(m, dir, fl, own, x);
    }
  }

  lemma NoTable(m: Mm, dir: nat, slot: nat, user: bool, own: map<nat, Owner>)
    requires Owned(m, dir, [], own) && slot < 1024 && !HasTable(m, dir, slot)
    ensures AllocTable(m, dir, slot, user).1 == None
  {
    KallocTakes(m, []);
  }

  // ---------------------------------------------------------------- the plain map's effect

  function Slot(v: nat): nat { v / 1024 }

  predicate Touches(v: nat, n: nat, d: nat) {
    n > 0 && Slot(v) <= d <= Slot(v + n - 1)
  }

  /** Entry of page `w` after mapping `n` pages from `v` on. */
  ghost predicate EntryMapped(m: Mm, m': Mm, dir: nat, v: nat, n: nat, ppn: nat, flags: nat, w: nat)
    requires w < SPACE_PAGES
  {
    Entry(m'.mem, dir, w) == if v <= w < v + n then TableEntry(ppn + w - v, flags) else Entry(m.mem, dir, w)
  }

  /** Directory slot `d` after mapping `n` pages from `v` on. */
  ghost predicate SlotMapped(m: Mm, m': Mm, dir: nat, v: nat, n: nat, flags: nat, d: nat)
    requires dir in m.mem && dir in m'.mem && d < 1024
  {
    && (Touches(v, n, d) ==> HasTable(m', dir, d) && User(m'.mem[dir][d]) == User(flags) && !Writeable(m'.mem[dir][d]))
    && (!Touches(v, n, d) ==> m'.mem[dir][d] == m.mem[dir][d])
    && (HasTable(m, dir, d) ==> HasTable(m', dir, d) && Table(m', dir, d) == Table(m, dir, d))
  }

  /** What a call of `map_continous` does to entries and directory. */
  ghost predicate RangeMapped(m: Mm, m': Mm, dir: nat, v: nat, n: nat, ppn: nat, flags: nat)
    requires dir in m.mem && dir in m'.mem
  {
    && (forall w: nat | w < SPACE_PAGES :: EntryMapped(m, m', dir, v, n, ppn, flags, w))
    && (forall d: nat | d < 1024 :: SlotMapped(m, m', dir, v, n, flags, d))
  }

  // ---------------------------------------------------------------- one page

  /** Writing an entry into the table of a slot changes that entry only. */
  lemma WriteEntry(m: Mm, dir: nat, fl: seq<nat>, own: map<nat, Owner>, v: nat, x: nat)
    requires Owned(m, dir, fl, own) && v < SPACE_PAGES && HasTable(m, dir, Slot(v))
    ensures var t := Table(m, dir, Slot(v));
            && t in m.mem
            && var m' := m.(mem := m.mem[t := m.mem[t][v % 1024 := x]]);
               && Owned(m', dir, fl, own) && dir in m'.mem && m'.mem[dir] == m.mem[dir]
               && forall w: nat | w < SPACE_PAGES :: Entry(m'.mem, dir, w) == if w == v then x else Entry(m.mem, dir, w)
  {
    assert TableOwned(m, dir, own, Slot(v));
    var t := Table(m, dir, Slot(v));
    var m' := m.(mem := m.mem[t := m.mem[t][v % 1024 := x]]);
    forall k | 0 <= k < |fl| ensures fl[k] != t && LinkOk(m', fl, k) {
      assert FreeOwned(fl, own, k) && LinkOk(m, fl, k);
    }
    forall d | 0 <= d < 1024 ensures TableOwned(m', dir, own, d) { assert TableOwned(m, dir, own, d); }
    forall p | p in own ensures OwnerTrue(m', dir, fl, own, p) { assert OwnerTrue(m, dir, fl, own, p); }
    forall w: nat | w < SPACE_PAGES ensures Entry(m'.mem, dir, w) == if w == v then x else Entry(m.mem, dir, w) {
      assert TableOwned(m, dir, own, Slot(w));
      assert Slot(w) == Slot(v) && w % 1024 == v % 1024 ==> w == v;
    }
  }

  /** Free list and owners once the slot of a page has a table. */
  function FreeWith(m: Mm, dir: nat, d: nat, fl: seq<nat>): seq<nat>
    requires dir in m.mem && d < 1024
  {
    if HasTable(m, dir, d) || fl == [] then fl else Pop(fl)
  }

  function OwnWith(m: Mm, dir: nat, d: nat, fl: seq<nat>, own: map<nat, Owner>): map<nat, Owner>
    requires dir in m.mem && d < 1024
  {
    if HasTable(m, dir, d) || fl == [] then own else own[fl[|fl| - 1] := TableOf(d)]
  }

  lemma MapPageEffect(m: Mm, dir: nat, fl: seq<nat>, own: map<nat, Owner>, v: nat, ppn: nat, flags: nat)
    requires Owned(m, dir, fl, own) && v < SPACE_PAGES && (HasTable(m, dir, Slot(v)) || fl != [])
    ensures var r := MapPage(m, dir, v, ppn, flags);
            && r.Some? && dir in r.value.mem && RangeMapped(m, r.value, dir, v, 1, ppn, flags)
            && Owned(r.value, dir, FreeWith(m, dir, Slot(v), fl), OwnWith(m, dir, Slot(v), fl, own))
            && OwnWith(m, dir, Slot(v), fl, own).Keys == own.Keys
  {
    var (m1, t) := AllocTable(m, dir, Slot(v), User(flags));
    if HasTable(m, dir, Slot(v)) { ReuseTable(m, dir, Slot(v), User(flags), fl, own); }
    else { NewTable(m, dir, Slot(v), User(flags), fl, own); }
    DirEntryFields(t.value, User(flags));
    WriteEntry(m1, dir, FreeWith(m, dir, Slot(v), fl), OwnWith(m, dir, Slot(v), fl, own), v, TableEntry(ppn, flags));
    var m' := m1.(mem := m1.mem[t.value := m1.mem[t.value][v % 1024 := TableEntry(ppn, flags)]]);
    forall w: nat | w < SPACE_PAGES ensures EntryMapped(m, m', dir, v, 1, ppn, flags, w) {
      assert Entry(m1.mem, dir, w) == Entry(m.mem, dir, w);
    }
  }

  lemma MapPageFails(m: Mm, dir: nat, own: map<nat, Owner>, v: nat, ppn: nat, flags: nat)
    requires Owned(m, dir, [], own) && v < SPACE_PAGES && !HasTable(m, dir, Slot(v))
    ensures MapPage(m, dir, v, ppn, flags) == None
  {
    NoTable(m, dir, Slot(v), User(flags), own);
  }

  // ---------------------------------------------------------------- a range

  /** Slots lo .. hi - 1 without a table. */
  ghost function Missing(m: Mm, dir: nat, lo: nat, hi: nat): nat
    requires dir in m.mem && hi <= 1024
  {
    if lo >= hi then 0 else Missing(m, dir, lo, hi - 1) + if HasTable(m, dir, hi - 1) then 0 else 1
  }

  /** Tables the range `v .. v + n - 1` needs and does not have. */
  ghost function Needed(m: Mm, dir: nat, v: nat, n: nat): nat
    requires dir in m.mem && v + n <= SPACE_PAGES
  {
    if n == 0 then 0 else Missing(m, dir, Slot(v), Slot(v + n - 1) + 1)
  }

  lemma NeededGrows(m: Mm, m': Mm, dir: nat, v: nat, n: nat, ppn: nat, flags: nat)
    requires dir in m.mem && dir in m'.mem && n > 0 && v + n <= SPACE_PAGES
    requires RangeMapped(m, m', dir, v, n - 1, ppn, flags)
    ensures Needed(m, dir, v, n) == Needed(m, dir, v, n - 1) + if HasTable(m', dir, Slot(v + n - 1)) then 0 else 1
  {
    var d := Slot(v + n - 1);
    assert SlotMapped(m, m', dir, v, n - 1, flags, d);
    if Touches(v, n - 1, d) {
      assert Slot(v + n - 2) == d;
    } else {
      assert HasTable(m', dir, d) == HasTable(m, dir, d);
      assert Needed(m, dir, v, n) == Missing(m, dir, Slot(v), d) + if HasTable(m, dir, d) then 0 else 1;
      if n > 1 { assert Slot(v + n - 2) + 1 == d; } else { assert Missing(m, dir, Slot(v), d) == 0; }
    }
  }

  /** Mapping n - 1 pages and then one more maps n. */
  lemma RangeGrows(m: Mm, m1: Mm, m2: Mm, dir: nat, v: nat, n: nat, ppn: nat, flags: nat)
    requires dir in m.mem && dir in m1.mem && dir in m2.mem && n > 0 && v + n <= SPACE_PAGES
    requires RangeMapped(m, m1, dir, v, n - 1, ppn, flags)
    requires RangeMapped(m1, m2, dir, v + n - 1, 1, ppn + n - 1, flags)
    ensures RangeMapped(m, m2, dir, v, n, ppn, flags)
  {
    var d0 := Slot(v + n - 1);
    forall d: nat | d < 1024 ensures SlotMapped(m, m2, dir, v, n, flags, d) {
      assert SlotMapped(m, m1, dir, v, n - 1, flags, d) && SlotMapped(m1, m2, dir, v + n - 1, 1, flags, d);
      if n > 1 { assert Slot(v + n - 2) == d0 || Slot(v + n - 2) + 1 == d0; }
    }
    forall w: nat | w < SPACE_PAGES ensures EntryMapped(m, m2, dir, v, n, ppn, flags, w) {
      assert EntryMapped(m, m1, dir, v, n - 1, ppn, flags, w)
             && EntryMapped(m1, m2, dir, v + n - 1, 1, ppn + n - 1, flags, w);
    }
  }

  /** One more page of the range: `fl` and `own` are what the pages before it left. */
  lemma MapOneMore(m: Mm, m1: Mm, dir: nat, fl: seq<nat>, own: map<nat, Owner>, v: nat, n: nat, ppn: nat, flags: nat)
    requires dir in m.mem && n > 0 && v + n <= SPACE_PAGES
    requires Owned(m1, dir, fl, own) && RangeMapped(m, m1, dir, v, n - 1, ppn, flags)
    ensures var r, k, k1 := MapPage(m1, dir, v + n - 1, ppn + n - 1, flags), Needed(m, dir, v, n),
            Needed(m, dir, v, n - 1);
            && k - k1 == (if HasTable(m1, dir, Slot(v + n - 1)) then 0 else 1)
            && (r.Some? <==> k - k1 <= |fl|)
            && (r.Some? ==> dir in r.value.mem && RangeMapped(m, r.value, dir, v, n, ppn, flags))
  {
    var w := v + n - 1;
    NeededGrows(m, m1, dir, v, n, ppn, flags);
    if HasTable(m1, dir, Slot(w)) || fl != [] {
      MapPageEffect(m1, dir, fl, own, w, ppn + n - 1, flags);
      RangeGrows(m, m1, MapPage(m1, dir, w, ppn + n - 1, flags).value, dir, v, n, ppn, flags);
    } else {
      MapPageFails(m1, dir, own, w, ppn + n - 1, flags);
    }
  }

  lemma NeededMonotone(m: Mm, dir: nat, v: nat, n: nat)
    requires dir in m.mem && n > 0 && v + n <= SPACE_PAGES
    ensures Needed(m, dir, v, n - 1) <= Needed(m, dir, v, n)
  {
    if n > 1 && Slot(v + n - 2) != Slot(v + n - 1) { assert Slot(v + n - 2) + 1 == Slot(v + n - 1); }
  }

  predicate IsLent(own: map<nat, Owner>, p: nat) { p in own && own[p] == Lent }

  ghost predicate LentPage(m: Mm, m': Mm, own: map<nat, Owner>, p: nat) {
    IsLent(own, p) && p in m.mem ==> p in m'.mem && m'.mem[p] == m.mem[p]
  }

  /** Pages that were handed out hold what they held. */
  ghost predicate LentSame(m: Mm, m': Mm, own: map<nat, Owner>) {
    forall p: nat :: LentPage(m, m', own, p)
  }

  /** Mapping one page writes the directory, a table and nothing that was handed out. */
  lemma MapPageLeavesLent(m: Mm, dir: nat, fl: seq<nat>, own: map<nat, Owner>, v: nat, ppn: nat, flags: nat)
    requires Owned(m, dir, fl, own) && v < SPACE_PAGES && MapPage(m, dir, v, ppn, flags).Some?
    ensures LentSame(m, MapPage(m, dir, v, ppn, flags).value, own)
  {
    assert TableOwned(m, dir, own, Slot(v));
    KallocTakes(m, fl);
    if fl != [] { assert FreeOwned(fl, own, |fl| - 1); }
  }

  lemma LentChain(m: Mm, m1: Mm, m2: Mm, own: map<nat, Owner>, own1: map<nat, Owner>)
    requires LentSame(m, m1, own) && LentSame(m1, m2, own1)
    requires forall p | p in own && own[p] == Lent :: p in own1 && own1[p] == Lent
    ensures LentSame(m, m2, own)
  {
    forall p: nat ensures LentPage(m, m2, own, p) { assert LentPage(m, m1, own, p) && LentPage(m1, m2, own1, p); }
  }

  /** State after mapping `n` pages: the plain map's effect, and ownership with `k` pages gone from the free list. */
  ghost predicate Mapped(m: Mm, dir: nat, fl: seq<nat>, own: map<nat, Owner>, v: nat, n: nat, ppn: nat, flags: nat,
                         m': Mm, fl': seq<nat>, own': map<nat, Owner>)
    requires dir in m.mem && v + n <= SPACE_PAGES
  {
    && Owned(m', dir, fl', own') && RangeMapped(m, m', dir, v, n, ppn, flags)
    && own'.Keys == own.Keys && Needed(m, dir, v, n) <= |fl| && fl' == fl[..|fl| - Needed(m, dir, v, n)]
    && (forall p | p in own && own[p] == Lent :: own'[p] == Lent) && LentSame(m, m', own)
  }

  lemma MappedOneMore(m: Mm, dir: nat, fl: seq<nat>, own: map<nat, Owner>, v: nat, n: nat, ppn: nat, flags: nat,
                      m1: Mm, fl1: seq<nat>, own1: map<nat, Owner>)
    returns (fl': seq<nat>, own': map<nat, Owner>)
    requires dir in m.mem && n > 0 && v + n <= SPACE_PAGES
    requires Mapped(m, dir, fl, own, v, n - 1, ppn, flags, m1, fl1, own1)
    ensures MapPage(m1, dir, v + n - 1, ppn + n - 1, flags).Some? <==> Needed(m, dir, v, n) <= |fl|
    ensures MapPage(m1, dir, v + n - 1, ppn + n - 1, flags).Some? ==>
              Mapped(m, dir, fl, own, v, n, ppn, flags, MapPage(m1, dir, v + n - 1, ppn + n - 1, flags).value, fl',
                own')
  {
    MapOneMore(m, m1, dir, fl1, own1, v, n, ppn, flags);
    fl', own' := OwnOneMore(m1, dir, fl1, own1, v + n - 1, ppn + n - 1, flags);
    var r := MapPage(m1, dir, v + n - 1, ppn + n - 1, flags);
    if r.Some? {
      MapPageLeavesLent(m1, dir, fl1, own1, v + n - 1, ppn + n - 1, flags);
      LentChain(m, m1, r.value, own, own1);
    }
  }

  /**
   `map_continous` on an owned memory: it succeeds exactly when the missing
   tables fit into the free list, takes that many pages from it, has the
   effect of the plain map and keeps every page of the pool owned once.
   */
  lemma {:induction false} MapPagesEffect(m: Mm, dir: nat, fl: seq<nat>, own: map<nat, Owner>, v: nat, n: nat,
                                          ppn: nat, flags: nat)
    returns (fl': seq<nat>, own': map<nat, Owner>)
    requires Owned(m, dir, fl, own) && v + n <= SPACE_PAGES
    ensures MapPages(m, dir, v, n, ppn, flags).Some? <==> Needed(m, dir, v, n) <= |fl|
    ensures MapPages(m, dir, v, n, ppn, flags).Some? ==>
              Mapped(m, dir, fl, own, v, n, ppn, flags, MapPages(m, dir, v, n, ppn, flags).value, fl', own')
  {
    fl', own' := fl, own;
    if n > 0 {
      fl', own' := MapPagesEffect(m, dir, fl, own, v, n - 1, ppn, flags);
      var r1 := MapPages(m, dir, v, n - 1, ppn, flags);
      if r1.None? { NeededMonotone(m, dir, v, n); }
      else { fl', own' := MappedOneMore(m, dir, fl, own, v, n, ppn, flags, r1.value, fl', own'); }
    }
  }

  lemma OwnOneMore(m: Mm, dir: nat, fl: seq<nat>, own: map<nat, Owner>, v: nat, ppn: nat, flags: nat)
    returns (fl': seq<nat>, own': map<nat, Owner>)
    requires Owned(m, dir, fl, own) && v < SPACE_PAGES
    ensures MapPage(m, dir, v, ppn, flags).Some? ==> Owned(MapPage(m, dir, v, ppn, flags).value, dir, fl', own')
    ensures own'.Keys == own.Keys && fl' == fl[..if HasTable(m, dir, Slot(v)) || fl == [] then |fl| else |fl| - 1]
    ensures forall p | p in own && own[p] == Lent :: p in own' && own'[p] == Lent
  {
    if HasTable(m, dir, Slot(v)) || fl != [] {
      MapPageEffect(m, dir, fl, own, v, ppn, flags);
      if !HasTable(m, dir, Slot(v)) { assert FreeOwned(fl, own, |fl| - 1); }
      fl', own' := FreeWith(m, dir, Slot(v), fl), OwnWith(m, dir, Slot(v), fl, own);
    } else {
      MapPageFails(m, dir, own, v, ppn, flags);
      fl', own' := fl, own;
    }
  }
}
