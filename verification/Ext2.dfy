/**
 Block, group and inode addressing (ext2.c) on top of sector reads.
 */
module Ext2 {
  import opened Common

  type Byte = b: int | 0 <= b < 256

  /** The fields of the superblock the addressing uses, and the descriptor page. */
  datatype Fs = Fs(logBlock: nat, inodesPerGroup: nat, rev: nat, inodeSizeField: nat, bgd: seq<Byte>)

  function Pow2(k: nat): nat { if k == 0 then 1 else 2 * Pow2(k - 1) }

  /** `ext2_block_size`, in 32 bits */
  function BlockSize(fs: Fs): (bs: nat)
    ensures fs.logBlock <= 2 ==> bs == 1024 || bs == 2048 || bs == 4096
  {
    assert Pow2(1) == 2 && Pow2(2) == 4;
    1024 * Pow2(fs.logBlock) % 0x1_0000_0000
  }

  function InodeSize(fs: Fs): nat { if fs.rev >= 1 then fs.inodeSizeField else 128 }

  /** The checks of `ext2_init` passed: a block fits the page it is read into. */
  predicate Mounted(fs: Fs) {
    fs.logBlock <= 2 && fs.inodesPerGroup > 0 && |fs.bgd| == BlockSize(fs)
  }

  lemma BlockSizes(fs: Fs)
    requires fs.logBlock <= 2
    ensures BlockSize(fs) == (if fs.logBlock == 0 then 1024 else if fs.logBlock == 1 then 2048 else 4096)
    ensures BlockSize(fs) == 512 * (BlockSize(fs) / 512)
  {
    assert Pow2(1) == 2 && Pow2(2) == 4;
  }

  function Le32(s: seq<Byte>, i: nat): nat
    requires i + 4 <= |s|
  {
    var b0: int, b1: int, b2: int, b3: int := s[i], s[i + 1], s[i + 2], s[i + 3];
    b0 + 0x100 * b1 + 0x1_0000 * b2 + 0x100_0000 * b3
  }

  /** Field `inode_table` of a block group descriptor of 32 bytes. */
  function InodeTable(bgd: seq<Byte>, group: nat): nat
    requires 32 * group + 32 <= |bgd|
  {
    Le32(bgd, 32 * group + 8)
  }

  // ---------------------------------------------------------------- reads

  /** What `ata_read` leaves in the buffer. */
  function Sectors(disk: seq<Byte>, lba: nat, n: nat): seq<Byte>
    requires 512 * (lba + n) <= |disk|
  {
    disk[512 * lba..512 * (lba + n)]
  }

  /** `ext2_read_block` */
  method ReadBlock(fs: Fs, disk: seq<Byte>, block: nat) returns (buf: seq<Byte>)
    requires fs.logBlock <= 2 && BlockSize(fs) * (block + 1) <= |disk| && |disk| <= 512 * 0x1000_0000
    ensures buf == disk[BlockSize(fs) * block..BlockSize(fs) * (block + 1)]
  {
    BlockSizes(fs);
    var sectorsPerBlock := BlockSize(fs) / 512;
    SectorRange(fs, block);
    var lba := sectorsPerBlock * block % 0x1_0000_0000;
    buf := Sectors(disk, lba, sectorsPerBlock);
  }

  lemma SectorRange(fs: Fs, block: nat)
    requires fs.logBlock <= 2 && BlockSize(fs) * (block + 1) <= 512 * 0x1000_0000
    ensures var spb := BlockSize(fs) / 512;
            && 2 <= spb <= 8 && spb * block < 0x1000_0000
            && 512 * (spb * block) == BlockSize(fs) * block && 512 * (spb * block + spb) == BlockSize(fs) * (block + 1)
  {
    BlockSizes(fs);
  }

  // ---------------------------------------------------------------- inodes

  function Group(fs: Fs, inode: nat): nat
    requires inode >= 1 && fs.inodesPerGroup > 0
  {
    (inode - 1) / fs.inodesPerGroup
  }

  function Index(fs: Fs, inode: nat): nat
    requires inode >= 1 && fs.inodesPerGroup > 0
  {
    (inode - 1) % fs.inodesPerGroup
  }

  /** Where an inode is on the disk: its place in the table of its group. */
  function InodeOffset(fs: Fs, inode: nat): nat
    requires Mounted(fs) && inode >= 1 && 32 * Group(fs, inode) + 32 <= |fs.bgd|
  {
    Place(InodeTable(fs.bgd, Group(fs, inode)), BlockSize(fs), Index(fs, inode), InodeSize(fs))
  }

  /** The place of a record, in bytes, from the block its table starts with. */
  function Place(table: nat, bs: nat, index: nat, size: nat): nat {
    table * bs + index * size
  }

  /** The block that holds the start of a record. */
  function BlockAt(table: nat, bs: nat, index: nat, size: nat): nat
    requires bs > 0
  {
    table + index * size / bs
  }

  /** The block that holds an inode. */
  function InodeBlock(fs: Fs, inode: nat): nat
    requires Mounted(fs) && inode >= 1 && 32 * Group(fs, inode) + 32 <= |fs.bgd|
  {
    BlockAt(InodeTable(fs.bgd, Group(fs, inode)), BlockSize(fs), Index(fs, inode), InodeSize(fs))
  }

  /** The inode exists: its descriptor is loaded, its block is on the disk, and 32 bits hold every product. */
  ghost predicate Addressable(fs: Fs, disk: seq<Byte>, inode: nat) {
    && Mounted(fs) && 1 <= inode < 0x1_0000_0000 && 32 * Group(fs, inode) + 32 <= |fs.bgd|
    && InodeSize(fs) >= 128 && BlockSize(fs) % InodeSize(fs) == 0
    && Index(fs, inode) * InodeSize(fs) < 0x1_0000_0000
    && BlockSize(fs) * (InodeBlock(fs, inode) + 1) <= |disk| <= 512 * 0x1000_0000
  }

  /** A record of a size that divides the block size does not cross a block boundary. */
  lemma NeverCrosses(index: nat, size: nat, bs: nat)
    requires size > 0 && bs > 0 && bs % size == 0
    ensures (index * size) % bs + size <= bs
  {
    var k := bs / size;
    SplitProduct(index / k, k, index % k, size, index, bs);
    ModUnique(index * size, bs, index / k, index % k * size);
  }

  lemma SplitProduct(q: nat, k: nat, r: nat, size: nat, index: nat, bs: nat)
    requires index == q * k + r && r < k && bs == k * size && size > 0
    ensures index * size == q * bs + r * size && r * size + size <= bs
  {
    assert q * k * size == q * bs;
    MulMonotone(r + 1, k, size);
  }

  lemma ModUnique(a: nat, b: nat, q: nat, r: nat)
    requires b > 0 && a == q * b + r && r < b
    ensures a % b == r && a / b == q
  {
    var p := a / b;
    assert a == p * b + a % b;
    if p < q { MulMonotone(p + 1, q, b); } else if p > q { MulMonotone(q + 1, p, b); }
  }

  /** Number `inode` is record `k` of group `g`, counting inodes from 1. */
  lemma Located(fs: Fs, inode: nat, g: nat, k: nat)
    requires fs.inodesPerGroup > 0 && inode == 1 + g * fs.inodesPerGroup + k && k < fs.inodesPerGroup
    ensures inode >= 1 && Group(fs, inode) == g && Index(fs, inode) == k
  {
    assert inode - 1 >= 0;
    ModUnique(inode - 1, fs.inodesPerGroup, g, k);
  }

  /**
   `ext2_read_inode`: the 128 bytes of record `k` in the table that the descriptor
   of group `g` names. Records have the size in the superblock from revision 1 on
   and 128 bytes before.
   */
  method ReadInode(fs: Fs, disk: seq<Byte>, inode: nat, ghost g: nat, ghost k: nat) returns (buf: seq<Byte>)
    requires Addressable(fs, disk, inode)
    requires inode == 1 + g * fs.inodesPerGroup + k && k < fs.inodesPerGroup
    ensures 32 * g + 12 <= |fs.bgd|
    ensures var size := if fs.rev >= 1 then fs.inodeSizeField else 128;
            var place := Le32(fs.bgd, 32 * g + 8) * BlockSize(fs) + k * size;
            place == InodeOffset(fs, inode) && 0 <= place && place + 128 <= |disk| && buf == disk[place..place + 128]
  {
    Located(fs, inode, g, k);
    var group := (inode - 1) / fs.inodesPerGroup;
    var index := (inode - 1) % fs.inodesPerGroup;
    var size := 128;
    if fs.rev >= 1 { size := fs.inodeSizeField; }
    BlockSizes(fs);
    buf := CopyRecord(fs, disk, InodeTable(fs.bgd, group), index, size);
  }

  /** The rest of `ext2_read_inode`, once group, index and size are known. */
  method CopyRecord(fs: Fs, disk: seq<Byte>, table: nat, index: nat, size: nat) returns (buf: seq<Byte>)
    requires fs.logBlock <= 2 && size >= 128 && BlockSize(fs) > 0 && BlockSize(fs) % size == 0
             && index * size < 0x1_0000_0000
    requires BlockSize(fs) * (table + index * size / BlockSize(fs) + 1) <= |disk| <= 512 * 0x1000_0000
    ensures table * BlockSize(fs) + index * size + 128 <= |disk|
    ensures buf == disk[table * BlockSize(fs) + index * size..table * BlockSize(fs) + index * size + 128]
  {
    var bs := BlockSize(fs);
    var offset := index * size % 0x1_0000_0000;
    NeverCrosses(index, size, bs);
    BlockAndPosition(table, offset, bs);
    var block := table + offset / bs;
    var tmp := ReadBlock(fs, disk, block);
    var pos := offset % bs;
    buf := tmp[pos..pos + 128];
    SliceOfSlice(disk, bs * block, bs * (block + 1), pos);
  }

  lemma SliceOfSlice(disk: seq<Byte>, lo: nat, hi: nat, pos: nat)
    requires lo <= hi <= |disk| && lo + pos + 128 <= hi
    ensures disk[lo..hi][pos..pos + 128] == disk[lo + pos..lo + pos + 128]
  {
    var a, b := disk[lo..hi][pos..pos + 128], disk[lo + pos..lo + pos + 128];
    forall k | 0 <= k < 128 ensures a[k] == b[k] { assert a[k] == disk[lo..hi][pos + k] == disk[lo + (pos + k)]; }
  }

  lemma BlockAndPosition(table: nat, offset: nat, bs: nat)
    requires bs > 0
    ensures var block := table + offset / bs;
            bs * block + offset % bs == table * bs + offset && bs * (block + 1) == bs * block + bs
  {
    assert offset == offset / bs * bs + offset % bs;
  }

  // ---------------------------------------------------------------- disjointness

  ghost predicate RangesApart(a: nat, n: nat, b: nat, k: nat) { a + n <= b || b + k <= a }

  /** The inode tables of two groups do not overlap. */
  ghost predicate TablesApart(fs: Fs, g: nat, h: nat)
    requires Mounted(fs) && 32 * g + 32 <= |fs.bgd| && 32 * h + 32 <= |fs.bgd|
  {
    var len := fs.inodesPerGroup * InodeSize(fs);
    RangesApart(InodeTable(fs.bgd, g) * BlockSize(fs), len, InodeTable(fs.bgd, h) * BlockSize(fs), len)
  }

  /** Distinct inodes have disjoint places on the disk when the tables of distinct groups are disjoint. */
  lemma InodesApart(fs: Fs, disk: seq<Byte>, i: nat, j: nat)
    requires Addressable(fs, disk, i) && Addressable(fs, disk, j) && i != j
    requires Group(fs, i) != Group(fs, j) ==> TablesApart(fs, Group(fs, i), Group(fs, j))
    ensures RangesApart(InodeOffset(fs, i), 128, InodeOffset(fs, j), 128)
  {
    if Group(fs, i) == Group(fs, j) { SameGroupApart(fs, i, j); } else { OtherGroupApart(fs, i, j); }
  }

  lemma SameGroupApart(fs: Fs, i: nat, j: nat)
    requires Mounted(fs) && i >= 1 && j >= 1 && i != j && InodeSize(fs) >= 128
    requires Group(fs, i) == Group(fs, j) && 32 * Group(fs, i) + 32 <= |fs.bgd|
    ensures RangesApart(InodeOffset(fs, i), 128, InodeOffset(fs, j), 128)
  {
    IndexDiffers(i - 1, j - 1, fs.inodesPerGroup);
    SlotsApart(InodeTable(fs.bgd, Group(fs, i)) * BlockSize(fs), Index(fs, i), Index(fs, j), InodeSize(fs));
  }

  lemma OtherGroupApart(fs: Fs, i: nat, j: nat)
    requires Mounted(fs) && i >= 1 && j >= 1 && InodeSize(fs) >= 128
    requires 32 * Group(fs, i) + 32 <= |fs.bgd| && 32 * Group(fs, j) + 32 <= |fs.bgd|
    requires TablesApart(fs, Group(fs, i), Group(fs, j))
    ensures RangesApart(InodeOffset(fs, i), 128, InodeOffset(fs, j), 128)
  {
    var size := InodeSize(fs);
    InTable(Index(fs, i), fs.inodesPerGroup, size);
    InTable(Index(fs, j), fs.inodesPerGroup, size);
    PlacesApart(InodeTable(fs.bgd, Group(fs, i)) * BlockSize(fs), Index(fs, i) * size,
                InodeTable(fs.bgd, Group(fs, j)) * BlockSize(fs), Index(fs, j) * size, fs.inodesPerGroup * size);
  }

  lemma PlacesApart(a: nat, i: nat, b: nat, j: nat, len: nat)
    requires RangesApart(a, len, b, len) && i + 128 <= len && j + 128 <= len
    ensures RangesApart(a + i, 128, b + j, 128)
  {
  }

  lemma IndexDiffers(a: nat, b: nat, n: nat)
    requires n > 0 && a != b && a / n == b / n
    ensures a % n != b % n
  {
    assert a == a / n * n + a % n && b == b / n * n + b % n;
  }

  lemma InTable(index: nat, n: nat, size: nat)
    requires index < n && size >= 128
    ensures index * size + 128 <= n * size
  {
    MulMonotone(index + 1, n, size);
  }

  lemma SlotsApart(a: nat, i: nat, j: nat, size: nat)
    requires i != j && size >= 128
    ensures RangesApart(a + i * size, 128, a + j * size, 128)
  {
    if i < j { MulMonotone(i + 1, j, size); } else { MulMonotone(j + 1, i, size); }
  }

  // ---------------------------------------------------------------- descriptors

  /** Where the descriptor table starts: in the block after the one that holds the superblock (byte 1024). */
  function DescriptorBlock(bs: nat): nat
    requires bs > 0
  {
    1024 / bs + 1
  }

  /** `ext2_init` reads the descriptors from block 1, which is right exactly for blocks larger than 1 KiB. */
  lemma DescriptorsFromBlockOne(fs: Fs)
    requires fs.logBlock <= 2
    ensures DescriptorBlock(BlockSize(fs)) == 1 <==> BlockSize(fs) > 1024
  {
    BlockSizes(fs);
  }

  // ---------------------------------------------------------------- mounting

  function Le16(s: seq<Byte>, i: nat): nat
    requires i + 2 <= |s|
  {
    var b0: int, b1: int := s[i], s[i + 1];
    b0 + 0x100 * b1
  }

  /**
   How `ext2_init` gets past its checks, or where it stops; division by zero and
   an overflowing shift are `Undefined`.
   */
  datatype Mount = Ready(fs: Fs) | Panic | BugOn | Undefined

  const SUPERBLOCK := 1024

  /** A disk of whole sectors that holds the first two blocks of any size. */
  predicate IsDisk(disk: seq<Byte>) {
    8192 <= |disk| <= 512 * 0x1000_0000
  }

  /** What `ext2_init` insists on, as fields of the superblock on the disk. */
  predicate Acceptable(disk: seq<Byte>)
    requires IsDisk(disk)
  {
    && Le16(disk, SUPERBLOCK + 56) == 0xef53
    && Le32(disk, SUPERBLOCK + 32) != 0 && Le32(disk, SUPERBLOCK + 4) / Le32(disk, SUPERBLOCK + 32) <= 128
    && Le32(disk, SUPERBLOCK + 24) <= 2
  }

  /** The mounted file system agrees with the disk: fields of the superblock, and block 1 as the descriptors. */
  ghost predicate FromDisk(fs: Fs, disk: seq<Byte>)
    requires IsDisk(disk)
  {
    && fs.logBlock == Le32(disk, SUPERBLOCK + 24) <= 2 && fs.inodesPerGroup == Le32(disk, SUPERBLOCK + 40)
    && fs.rev == Le32(disk, SUPERBLOCK + 76) && fs.inodeSizeField == Le16(disk, SUPERBLOCK + 88)
    && fs.bgd == disk[BlockSize(fs)..2 * BlockSize(fs)]
  }

  lemma FieldsOfSlice(disk: seq<Byte>, lo: nat, hi: nat, i: nat)
    requires lo <= hi <= |disk|
    ensures i + 4 <= hi - lo ==> Le32(disk[lo..hi], i) == Le32(disk, lo + i)
    ensures i + 2 <= hi - lo ==> Le16(disk[lo..hi], i) == Le16(disk, lo + i)
  {
  }

  lemma LargeBlocks(log: nat)
    requires 3 <= log <= 20
    ensures 4096 < 1024 * Pow2(log) <= 0x4000_0000
  {
    Pow2Grows(3, log);
    Pow2Grows(log, 20);
    assert Pow2(3) == 8;
    assert Pow2(10) == 1024;
    assert Pow2(15) == 0x8000;
    assert Pow2(20) == 0x10_0000;
  }

  lemma {:induction false} Pow2Grows(a: nat, b: nat)
    requires a <= b
    ensures Pow2(a) <= Pow2(b)
  {
    if a < b { Pow2Grows(a, b - 1); }
  }

  /** `ext2_init` up to the descriptors: it mounts exactly the acceptable disks, as they are. */
  method InitFs(disk: seq<Byte>) returns (r: Mount)
    requires IsDisk(disk)
    ensures r.Ready? <==> Acceptable(disk)
    ensures r.Ready? ==> FromDisk(r.fs, disk)
    ensures r == Panic <==> Le16(disk, SUPERBLOCK + 56) != 0xef53
  {
    var sb := Sectors(disk, 2, 2);
    FieldsOfSlice(disk, 1024, 2048, 56);
    FieldsOfSlice(disk, 1024, 2048, 4);
    FieldsOfSlice(disk, 1024, 2048, 24);
    FieldsOfSlice(disk, 1024, 2048, 32);
    if Le16(sb, 56) != 0xef53 { return Panic; }
    if Le32(sb, 24) > 20 || Le32(sb, 32) == 0 { return Undefined; }
    if 4096 / 32 < Le32(sb, 4) / Le32(sb, 32) { return BugOn; }
    r := ReadDescriptors(disk, sb);
  }

  method ReadDescriptors(disk: seq<Byte>, sb: seq<Byte>) returns (r: Mount)
    requires IsDisk(disk) && sb == disk[1024..2048] && Le32(sb, 24) <= 20
    ensures r == BugOn || r.Ready?
    ensures r.Ready? <==> Le32(disk, SUPERBLOCK + 24) <= 2
    ensures r.Ready? ==> FromDisk(r.fs, disk)
  {
    FieldsOfSlice(disk, 1024, 2048, 24);
    FieldsOfSlice(disk, 1024, 2048, 40);
    FieldsOfSlice(disk, 1024, 2048, 76);
    FieldsOfSlice(disk, 1024, 2048, 88);
    var fs := Fs(Le32(sb, 24), Le32(sb, 40), Le32(sb, 76), Le16(sb, 88), []);
    if fs.logBlock >= 3 { LargeBlocks(fs.logBlock); } else { BlockSizes(fs); }
    if 4096 < BlockSize(fs) { return BugOn; }
    var bgd := ReadBlock(fs, disk, 1);
    assert BlockSize(fs.(bgd := bgd)) == BlockSize(fs);
    r := Ready(fs.(bgd := bgd));
  }

  /**
   The place of an inode in terms of the bytes of the disk alone. The superblock
   starts at byte 1024 and has the block size at 24, the inodes of a group at 40,
   the revision at 76 and the inode size at 88; the descriptors, of 32 bytes with
   the table start at 8, are in block 1.
   */
  lemma OffsetOnDisk(fs: Fs, disk: seq<Byte>, inode: nat, g: nat, k: nat)
    requires IsDisk(disk) && FromDisk(fs, disk) && Mounted(fs) && 32 * g + 32 <= |fs.bgd|
    requires inode == 1 + g * Le32(disk, 1064) + k && k < Le32(disk, 1064)
    ensures inode >= 1 && 32 * Group(fs, inode) + 32 <= |fs.bgd|
    ensures var bs := BlockSizeOf(Le32(disk, 1048));
            var size := if Le32(disk, 1100) >= 1 then Le16(disk, 1112) else 128;
            && bs + 32 * g + 12 <= |disk| && BlockSize(fs) == bs
            && InodeOffset(fs, inode) == Le32(disk, bs + 32 * g + 8) * bs + k * size
  {
    BlockSizes(fs);
    Located(fs, inode, g, k);
    FieldsOfSlice(disk, BlockSize(fs), 2 * BlockSize(fs), 32 * g + 8);
  }

  /** With 1 KiB blocks, what is taken for the inode table of group 0 is the superblock's count of reserved blocks. */
  lemma SmallBlocksReadSuperblock(fs: Fs, disk: seq<Byte>)
    requires IsDisk(disk) && FromDisk(fs, disk) && fs.logBlock == 0
    ensures |fs.bgd| == 1024 && InodeTable(fs.bgd, 0) == Le32(disk, SUPERBLOCK + 8)
  {
    BlockSizes(fs);
    FieldsOfSlice(disk, 1024, 2048, 8);
  }

  /** One inode behind the start of the table that the first descriptor of block 1 names. */
  function RootPlace(disk: seq<Byte>): nat
    requires IsDisk(disk)
  {
    var bs := BlockSizeOf(Le32(disk, 1048));
    Le32(disk, bs + 8) * bs + (if Le32(disk, 1100) >= 1 then Le16(disk, 1112) else 128)
  }

  lemma RootOffset(fs: Fs, disk: seq<Byte>)
    requires IsDisk(disk) && FromDisk(fs, disk) && Mounted(fs) && Le32(disk, 1064) >= 2
    ensures Group(fs, 2) == 0 && Index(fs, 2) == 1 && 32 <= |fs.bgd| && InodeOffset(fs, 2) == RootPlace(disk)
  {
    BlockSizes(fs);
    Located(fs, 2, 0, 1);
    OffsetOnDisk(fs, disk, 2, 0, 1);
  }

  /** The root inode as `ext2_init` reads it. */
  method ReadRoot(disk: seq<Byte>, fs: Fs) returns (buf: seq<Byte>)
    requires IsDisk(disk) && FromDisk(fs, disk) && Mounted(fs) && Le32(disk, 1064) >= 2 && Addressable(fs, disk, 2)
    ensures RootPlace(disk) + 128 <= |disk| && buf == disk[RootPlace(disk)..RootPlace(disk) + 128]
  {
    RootOffset(fs, disk);
    buf := ReadInode(fs, disk, 2, 0, 1);
  }

  // ---------------------------------------------------------------- groups

  /** The number of groups `ext2_init` computes from the superblock. */
  function Groups(disk: seq<Byte>): nat
    requires IsDisk(disk) && Acceptable(disk)
  {
    Le32(disk, SUPERBLOCK + 4) / Le32(disk, SUPERBLOCK + 32)
  }

  /** The descriptor of group `g` is among the bytes that were loaded. */
  predicate DescriptorLoaded(fs: Fs, g: nat) {
    32 * g + 32 <= |fs.bgd|
  }

  /** The block size a superblock names, for the sizes that can be mounted. */
  function BlockSizeOf(log: nat): nat {
    if log == 0 then 1024 else if log == 1 then 2048 else 4096
  }

  /**
   `ext2_init` checks that the descriptors of all groups fit a page, but it loads
   one block: on the disks it accepts, every group has its descriptor exactly if
   they fit that block.
   */
  lemma GroupsLoadedIff(fs: Fs, disk: seq<Byte>)
    requires IsDisk(disk) && Acceptable(disk) && FromDisk(fs, disk)
    ensures (forall g: nat | g < Groups(disk) :: DescriptorLoaded(fs, g))
            <==> 32 * Groups(disk) <= BlockSizeOf(Le32(disk, SUPERBLOCK + 24))
    ensures 32 * Groups(disk) <= 4096
  {
    BlockSizes(fs);
    if Groups(disk) > 0 && 32 * Groups(disk) > |fs.bgd| { assert !DescriptorLoaded(fs, Groups(disk) - 1); }
  }

  /** A disk with blocks of 2 KiB and 128 groups of one block each, zero elsewhere. */
  function ManyGroups(): (disk: seq<Byte>)
    ensures |disk| == 8192 && forall i | 0 <= i < 8192 :: disk[i] == ManyGroupsByte(i)
  {
    seq(8192, i => ManyGroupsByte(i))
  }

  function ManyGroupsByte(i: int): Byte {
    if i == SUPERBLOCK + 4 then 128              // total_blocks
    else if i == SUPERBLOCK + 24 then 1          // block_size_log
    else if i == SUPERBLOCK + 32 then 1          // blocks_per_group
    else if i == SUPERBLOCK + 56 then 0x53       // signature
    else if i == SUPERBLOCK + 57 then 0xef
    else 0
  }

  /** It passes every check and is mounted without the descriptors of groups 64 to 127. */
  lemma GroupsMissing(fs: Fs)
    requires FromDisk(fs, ManyGroups())
    ensures IsDisk(ManyGroups()) && Acceptable(ManyGroups()) && Groups(ManyGroups()) == 128
    ensures forall g: nat | g < 128 :: DescriptorLoaded(fs, g) <==> g < 64
  {
    var disk := ManyGroups();
    assert Le32(disk, SUPERBLOCK + 4) == 128 && Le32(disk, SUPERBLOCK + 24) == 1 && Le32(disk, SUPERBLOCK + 32) == 1;
    assert Le16(disk, SUPERBLOCK + 56) == 0xef53;
    BlockSizes(fs);
  }
}
