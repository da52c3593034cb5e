/**
 Block reads of the file system as calls of the disk protocol: the words a call
 of `ata_read` leaves in its buffer are the bytes of the disk the file system
 reasons about.
 */
module Ext2Disk {
  import opened Kernel
  import opened KernelRuns
  import Ext2

  /** Low or high byte of a 16-bit word. */
  function ByteOf(w: Word, high: bool): Ext2.Byte {
    if high then w / 256 else w % 256
  }

  function DiskByte(disk: seq<Sector>, i: nat): Ext2.Byte
    requires i < 512 * |disk|
  {
    ByteOf(disk[i / 512][i % 512 / 2], i % 2 == 1)
  }

  /** The disk as a sequence of bytes. */
  function DiskBytes(disk: seq<Sector>): (bytes: seq<Ext2.Byte>)
    ensures |bytes| == 512 * |disk| && forall i | 0 <= i < |bytes| :: bytes[i] == DiskByte(disk, i)
  {
    seq(512 * |disk|, i requires 0 <= i < 512 * |disk| => DiskByte(disk, i))
  }

  /** Byte number `x` of the buffer that starts at word `buf`. */
  ghost predicate BufferByte(mem: map<int, Word>, buf: int, x: nat, b: Ext2.Byte) {
    buf + x / 2 in mem && ByteOf(mem[buf + x / 2], x % 2 == 1) == b
  }

  /** The buffer that starts at word `buf` holds these bytes. */
  ghost predicate BufferHolds(mem: map<int, Word>, buf: int, bytes: seq<Ext2.Byte>) {
    forall x | 0 <= x < |bytes| :: BufferByte(mem, buf, x, bytes[x])
  }

  lemma SplitIndex(lba: nat, x: nat)
    ensures (512 * lba + x) / 512 == lba + x / 512 && (512 * lba + x) % 512 == x % 512
    ensures (512 * lba + x) % 2 == x % 2 && x / 2 == 256 * (x / 512) + x % 512 / 2
  {
    var q, r := x / 512, x % 512;
    assert x == 512 * q + r && 512 * lba + x == 512 * (lba + q) + r;
    HalfIndex(q, r);
    HalfIndex(lba + q, r);
  }

  lemma HalfIndex(q: nat, r: nat)
    requires r < 512
    ensures (512 * q + r) / 2 == 256 * q + r / 2 && (512 * q + r) % 2 == r % 2
  {
    var h, b := r / 2, r % 2;
    assert r == 2 * h + b && 512 * q + r == 2 * (256 * q + h) + b;
  }

  lemma WordIsBytes(mem: map<int, Word>, disk: seq<Sector>, buf: int, lba: nat, n: nat, x: nat)
    requires x < 512 * n && lba + n <= |disk| && x / 512 < n
    requires WordRead(mem, disk, buf, lba, x / 512, x % 512 / 2)
    ensures 512 * lba + x < 512 * |disk| && BufferByte(mem, buf, x, DiskByte(disk, 512 * lba + x))
  {
    SplitIndex(lba, x);
  }

  /** When `ata_read(buf, lba, n)` returns, the buffer holds the bytes `Sectors` names, in order. */
  lemma ReadIsSectors(trace: seq<Sys>, steps: seq<Step>, i: nat, j: nat, t: nat, a: Addr, buf: int, lba: int, n: int)
    requires Started(trace, steps) && i < j < |steps|
    requires steps[i] == CallRead(a, buf, lba, n) && trace[i].cpu == OnTask(t)
    requires ReturnOf(trace, steps, t, j) && forall k | i < k < j :: !ReturnOf(trace, steps, t, k)
    ensures 0 <= lba && 0 <= n && 512 * (lba + n) <= |DiskBytes(trace[i].disk)|
    ensures BufferHolds(trace[j].mem, buf, Ext2.Sectors(DiskBytes(trace[i].disk), lba, n))
  {
    ReadReturnsSectors(trace, steps, i, j, t, a, buf, lba, n);
    assert Follows(trace, steps, i);
    forall x: nat | x < 512 * n
      ensures BufferByte(trace[j].mem, buf, x, Ext2.Sectors(DiskBytes(trace[i].disk), lba, n)[x])
    {
      WordIsBytes(trace[j].mem, trace[i].disk, buf, lba, n, x);
    }
  }

  /** `ext2_read_block`: when its `ata_read` returns, the buffer is the block. */
  lemma BlockReadIsBlock(trace: seq<Sys>, steps: seq<Step>, i: nat, j: nat, t: nat, a: Addr, buf: int, fs: Ext2.Fs,
                         block: nat)
    requires Started(trace, steps) && i < j < |steps| && fs.logBlock <= 2
    requires steps[i] == CallRead(a, buf, Ext2.BlockSize(fs) / 512 * block, Ext2.BlockSize(fs) / 512)
             && trace[i].cpu == OnTask(t)
    requires ReturnOf(trace, steps, t, j) && forall k | i < k < j :: !ReturnOf(trace, steps, t, k)
    ensures var bs, bytes := Ext2.BlockSize(fs), DiskBytes(trace[i].disk);
            bs * (block + 1) <= |bytes| && BufferHolds(trace[j].mem, buf, bytes[bs * block..bs * (block + 1)])
  {
    ReadIsSectors(trace, steps, i, j, t, a, buf, Ext2.BlockSize(fs) / 512 * block, Ext2.BlockSize(fs) / 512);
    BlockBytes(fs, block);
  }

  lemma BlockBytes(fs: Ext2.Fs, block: nat)
    requires fs.logBlock <= 2
    ensures var spb := Ext2.BlockSize(fs) / 512;
            && 512 * (spb * block) == Ext2.BlockSize(fs) * block
            && 512 * (spb * block + spb) == Ext2.BlockSize(fs) * (block + 1)
  {
    Ext2.BlockSizes(fs);
  }
}
