/**
 What every step of the protocol keeps.
 */
module KernelInvariant {
  import opened Common
  import opened Kernel

  // ---------------------------------------------------------------- queue

  function At(q: seq<Addr>, i: nat): Addr {
    if i < |q| then q[i] else NULL
  }

  /** `q` lists the frames on the path from `head` along `next`, to its end. */
  ghost predicate Links(frames: map<Addr, Frame>, head: Addr, q: seq<Addr>) {
    && head == At(q, 0)
    && (forall i | 0 <= i < |q| :: q[i] != NULL && q[i] in frames)
    && (forall i {:trigger frames[q[i]]} | 0 <= i < |q| :: frames[q[i]].next == At(q, i + 1))
  }

  /** No frame is met twice on that path. */
  ghost predicate Chain(frames: map<Addr, Frame>, head: Addr, q: seq<Addr>) {
    Links(frames, head, q) && forall i, j | 0 <= i < j < |q| :: q[i] != q[j]
  }

  // ---------------------------------------------------------------- control

  /** The frame of the `ata_read` call a task is in, NULL outside one. */
  function FrameOf(pc: Pc): Addr {
    match pc
    case ReadBuilt(a) => a
    case Resched(FromRead(a)) => a
    case ReschedOld(FromRead(a), _) => a
    case ReschedOff(FromRead(a), _) => a
    case Back(FromRead(a)) => a
    case _ => NULL
  }

  predicate InWait(pc: Pc) {
    (pc.Resched? || pc.ReschedOld? || pc.ReschedOff? || pc.Back?) && pc.k == FromWait
  }

  predicate Queueable(pc: Pc) {
    FrameOf(pc) != NULL && !pc.ReadBuilt?
  }

  /** `current` names the task that is on the CPU or about to be, except after `reschedule` cleared it. */
  ghost predicate CpuOk(s: Sys) {
    && (Busy(s.cpu) ==> s.cpu.task < |s.tasks|)
    && s.current == (if Busy(s.cpu) && !s.tasks[s.cpu.task].pc.ReschedOff? then Some(s.cpu.task) else None)
  }

  ghost predicate TaskOk(s: Sys, t: nat)
    requires t < |s.tasks|
  {
    var task := s.tasks[t];
    var pc := task.pc;
    && (pc.ReschedOff? ==> s.cpu == OnTask(t))
    && (pc.ReschedOld? || pc.ReschedOff? ==> pc.prev == t)
    && (s.cpu == OnTask(t) ==> task.status != NotAllocated)
    && (s.cpu == Selected(t) ==> task.status == Running)
    && (s.cpu == OnTask(t) && pc.Back? ==> task.status == Running)
    && (task.status == NotAllocated ==> pc == User)
    && (task.status == Waiting ==> InWait(pc) && task.ticks > 0)
    && (task.status == DiskRead ==> Queueable(pc))
    && (pc == WaitArmed ==> task.ticks > 0)
    && (FrameOf(pc) != NULL ==> FrameOf(pc) in s.frames && s.frames[FrameOf(pc)].task == t)
    && (pc != User && !InWait(pc) && pc != WaitArmed ==> FrameOf(pc) != NULL)
  }

  // ---------------------------------------------------------------- data

  ghost predicate SectorLoaded(mem: map<int, Word>, disk: seq<Sector>, buf: int, lba: int, i: int) {
    SectorAt(mem, buf + SECTOR_WORDS * i, DiskSector(disk, lba + i))
  }

  ghost predicate SectorAt(mem: map<int, Word>, base: int, data: Sector) {
    forall j | 0 <= j < SECTOR_WORDS :: HasWord(mem, base, data, j)
  }

  ghost predicate HasWord(mem: map<int, Word>, base: int, data: Sector, j: nat)
    requires j < SECTOR_WORDS
  {
    base + j in mem && mem[base + j] == data[j]
  }

  /** The first `k` sectors of the buffer are disk sectors lba .. lba + k - 1. */
  ghost predicate Loaded(mem: map<int, Word>, disk: seq<Sector>, buf: int, lba: int, k: int) {
    forall i | 0 <= i < k :: SectorLoaded(mem, disk, buf, lba, i)
  }

  /** A request and the arguments of its call agree, and what was transferred so far is in the buffer. */
  ghost predicate FrameOk(s: Sys, a: Addr)
    requires a in s.frames
  {
    var f := s.frames[a];
    && f.task < |s.tasks| && FrameOf(s.tasks[f.task].pc) == a
    && 1 <= f.n <= 255 && 0 <= f.lba && f.lba + f.n <= LBA_LIMIT && f.buf0 > 0
    && 0 <= f.count <= f.n && f.buf == f.buf0 + SECTOR_WORDS * (f.n - f.count)
    && Loaded(s.mem, s.disk, f.buf0, f.lba, f.n - f.count)
    && (s.tasks[f.task].pc.ReadBuilt? ==> f.count == f.n && f.next == NULL)
  }

  /** A frame is queued exactly while its task sleeps on the disk, and is finished once it leaves the queue. */
  ghost predicate QueueOk(s: Sys, q: seq<Addr>, a: Addr)
    requires a in s.frames && s.frames[a].task < |s.tasks|
  {
    var f := s.frames[a];
    && (a in q <==> s.tasks[f.task].status == DiskRead)
    && (a in q ==> f.count > 0)
    && (a in q && a != q[0] ==> f.count == f.n)
    && (a !in q && Queueable(s.tasks[f.task].pc) ==> f.count == 0)
  }

  ghost predicate Disjoint(s: Sys, a: Addr, b: Addr)
    requires a in s.frames && b in s.frames
  {
    Outside(s.frames[a], s.frames[b].buf0, s.frames[b].buf0 + SECTOR_WORDS * s.frames[b].n)
  }

  /** The device works on the head of the queue, and only on it. */
  ghost predicate DeviceOk(s: Sys, q: seq<Addr>)
  {
    if q == [] then s.dev.left == 0
    else
      q[0] in s.frames &&
      var f := s.frames[q[0]];
      s.dev.left == f.count && s.dev.cur == f.lba + f.n - f.count
  }

  ghost predicate TasksOk(s: Sys) {
    forall t | 0 <= t < |s.tasks| :: TaskOk(s, t)
  }

  ghost predicate FramesOk(s: Sys, q: seq<Addr>) {
    && NULL !in s.frames
    && forall a {:trigger FrameOk(s, a)} | a in s.frames :: FrameOk(s, a) && QueueOk(s, q, a)
  }

  ghost predicate Apart(s: Sys) {
    forall a, b {:trigger Disjoint(s, a, b)} | a in s.frames && b in s.frames && a != b :: Disjoint(s, a, b)
  }

  ghost predicate Inv(s: Sys, q: seq<Addr>) {
    && s.fault == NoFault && s.cursor <= |s.tasks|
    && CpuOk(s) && TasksOk(s)
    && Chain(s.frames, s.head, q) && FramesOk(s, q) && Apart(s) && DeviceOk(s, q)
  }

  // ---------------------------------------------------------------- helpers

  lemma ChainUnique(frames: map<Addr, Frame>, head: Addr, q: seq<Addr>, r: seq<Addr>)
    requires Links(frames, head, q) && Links(frames, head, r)
    ensures q == r
  {
    var n := if |q| < |r| then |q| else |r|;
    ChainPrefix(frames, head, q, r, n);
    ChainEnds(frames, head, q, r, n);
  }

  /** Two chains that agree where the shorter one ends have the same length. */
  lemma ChainEnds(frames: map<Addr, Frame>, head: Addr, q: seq<Addr>, r: seq<Addr>, n: nat)
    requires Links(frames, head, q) && Links(frames, head, r) && n <= |q| && n <= |r| && (n == |q| || n == |r|)
    requires q[..n] == r[..n] && At(q, n) == At(r, n)
    ensures q == r
  {
    assert q == q[..n] && r == r[..n];
  }

  lemma {:induction false} ChainPrefix(frames: map<Addr, Frame>, head: Addr, q: seq<Addr>, r: seq<Addr>, n: nat)
    requires Links(frames, head, q) && Links(frames, head, r) && n <= |q| && n <= |r|
    ensures q[..n] == r[..n] && At(q, n) == At(r, n)
  {
    if n > 0 {
      ChainPrefix(frames, head, q, r, n - 1);
      NextInChain(frames, head, q, n - 1);
      NextInChain(frames, head, r, n - 1);
      PrefixGrows(q, r, n - 1);
    }
  }

  lemma NextInChain(frames: map<Addr, Frame>, head: Addr, q: seq<Addr>, i: nat)
    requires Links(frames, head, q) && i < |q|
    ensures q[i] in frames && frames[q[i]].next == At(q, i + 1)
  {
  }

  lemma PrefixGrows(q: seq<Addr>, r: seq<Addr>, n: nat)
    requires n < |q| && n < |r| && q[..n] == r[..n] && q[n] == r[n]
    ensures q[..n + 1] == r[..n + 1]
  {
    assert q[..n + 1] == q[..n] + [q[n]] && r[..n + 1] == r[..n] + [r[n]];
  }

  /** The tail walk of `ata_read` ends at the last request of the queue. */
  lemma {:induction false} TailIsLast(frames: map<Addr, Frame>, rest: map<Addr, Frame>, q: seq<Addr>, i: nat)
    requires NULL !in frames
    requires q != [] && Chain(frames, q[0], q) && i < |q|
    requires rest.Keys <= frames.Keys && forall a | a in rest :: rest[a] == frames[a]
    requires forall j | i <= j < |q| :: q[j] in rest
    requires forall j | 0 <= j < i :: q[j] !in rest
    ensures TailFrom(rest, q[i]) == q[|q| - 1]
    decreases |q| - i
  {
    if i + 1 < |q| {
      TailIsLast(frames, rest - {q[i]}, q, i + 1);
    }
  }

  /**
   The register writes select block addressing on the first drive; the address
   decodes back to lba exactly on the 28-bit range.
   */
  lemma IssueDecodes(d: Device, lba: int, count: int)
    ensures 0xe0 <= Issue(d, lba, count).drive < 0xf0 && AddressesBlocks(Issue(d, lba, count).drive)
    ensures Issue(d, lba, count).cur == lba <==> 0 <= lba < LBA_LIMIT
    ensures Issue(d, lba, count).left == count <==> 1 <= count <= 256
  {
    SelectsBlocks(lba / 0x100_0000 % 16);
    var b0, b1, b2, b3 := lba % 256, lba / 0x100 % 256, lba / 0x1_0000 % 256, lba / 0x100_0000 % 16;
    assert lba / 0x1_0000 == (lba / 0x100) / 0x100;
    assert lba / 0x100_0000 == (lba / 0x1_0000) / 0x100;
    assert Issue(d, lba, count).cur == lba - (lba / LBA_LIMIT) * LBA_LIMIT;
  }

  lemma SelectsBlocks(top: nat)
    requires top < 16
    ensures AddressesBlocks(0xa0 + 0x40 + top) && (0xa0 + 0x40 + top) % 16 == top
  {
  }

  lemma StoreKeeps(mem: map<int, Word>, buf: int, data: Sector, disk: seq<Sector>, buf0: int, lba: int, k: int)
    requires Loaded(mem, disk, buf0, lba, k)
    requires buf + SECTOR_WORDS <= buf0 || buf0 + SECTOR_WORDS * k <= buf
    ensures Loaded(StoreSector(mem, buf, data), disk, buf0, lba, k)
  {
    var mem' := StoreSector(mem, buf, data);
    forall i | 0 <= i < k ensures SectorLoaded(mem', disk, buf0, lba, i) {
      assert SectorLoaded(mem, disk, buf0, lba, i);
      var base, sector := buf0 + SECTOR_WORDS * i, DiskSector(disk, lba + i);
      forall j | 0 <= j < SECTOR_WORDS ensures HasWord(mem', base, sector, j) {
        assert HasWord(mem, base, sector, j);
      }
    }
  }

  lemma StoreLoads(mem: map<int, Word>, disk: seq<Sector>, buf0: int, lba: int, k: nat)
    requires Loaded(mem, disk, buf0, lba, k)
    ensures Loaded(StoreSector(mem, buf0 + SECTOR_WORDS * k, DiskSector(disk, lba + k)), disk, buf0, lba, k + 1)
  {
    var data := DiskSector(disk, lba + k);
    var base := buf0 + SECTOR_WORDS * k;
    var mem' := StoreSector(mem, base, data);
    StoreKeeps(mem, base, data, disk, buf0, lba, k);
    StoreHas(mem, base, data);
    assert SectorLoaded(mem', disk, buf0, lba, k);
  }

  lemma StoreHas(mem: map<int, Word>, base: int, data: Sector)
    ensures SectorAt(StoreSector(mem, base, data), base, data)
  {
    forall j | 0 <= j < SECTOR_WORDS ensures HasWord(StoreSector(mem, base, data), base, data, j) {
      assert WordFor(data, base, base + j) == data[j];
    }
  }
}
