/**
 The file-system image of tools/libfs.c as a value: bitmap, blocks and inodes, and the steps its
 operations are made of. Sizes follow the layout comment at the head of that file; an indirect block
 holds 32-bit block numbers, least significant byte first.
 */
module FsDisk {
  import CString

  /**
   How many direct blocks an inode of 64 bytes records, and how many inodes a block holds: 12 and 8 in the
   layout comment.
   */
  type DirectCount = n: nat | 1 <= n <= 16 witness 12
  type InodeCount = n: nat | 1 <= n witness 8

  const BSIZE := 512
  const NDIRECT: DirectCount
  const NINDIRECT := BSIZE / 4
  const MAXFILE := NDIRECT + NINDIRECT
  const IPB: InodeCount
  const T_DIR := 1
  const T_FILE := 2
  const T_DEV := 3
  const UINT_LIMIT := 0x1_0000_0000
  const USHORT := 0x1_0000

  type Byte = CString.Byte
  type Block = s: seq<Byte> | |s| == BSIZE witness seq(BSIZE, _ => 0)
  type Addrs = a: seq<nat> | |a| == NDIRECT + 1 witness seq(NDIRECT + 1, _ => 0)

  type Ushort = n: int | 0 <= n < 0x1_0000

  datatype Superblock = Superblock(size: nat, nblocks: nat, ninodes: nat)

  datatype Dinode = Dinode(typ: Ushort, major: Ushort, minor: Ushort, nlink: Ushort, size: nat, addrs: Addrs)

  /** Which block of which inode a data block is; slot `MAXFILE` is the indirect block. */
  datatype Ref = Ref(inum: nat, slot: nat)

  datatype Disk = Disk(sb: Superblock, used: seq<bool>, blocks: seq<Block>, inodes: seq<Dinode>, owner: map<nat, Ref>)

  function Zeros(): Block { seq(BSIZE, _ => 0) }

  function NoAddrs(): Addrs { seq(NDIRECT + 1, _ => 0) }

  /** Number of the first data block: after boot, super, inode and bitmap blocks. */
  function FirstData(sb: Superblock): nat {
    2 + (sb.ninodes / IPB + 1) + (sb.size / (BSIZE * 8) + 1)
  }

  predicate ValidDataBlock(sb: Superblock, b: nat) {
    FirstData(sb) <= b <= FirstData(sb) + sb.nblocks - 1
  }

  // ----- words of an indirect block

  function Word(blk: Block, k: nat): nat
    requires k < NINDIRECT
  {
    (blk[4 * k] as int) + 0x100 * (blk[4 * k + 1] as int)
    + 0x1_0000 * (blk[4 * k + 2] as int) + 0x100_0000 * (blk[4 * k + 3] as int)
  }

  function SetWord(blk: Block, k: nat, v: nat): Block
    requires k < NINDIRECT
  {
    blk[4 * k := v % 0x100][4 * k + 1 := v / 0x100 % 0x100][4 * k + 2 := v / 0x1_0000 % 0x100]
       [4 * k + 3 := v / 0x100_0000 % 0x100]
  }

  lemma BytesOfWord(v: nat)
    requires v < UINT_LIMIT
    ensures v == v % 0x100 + 0x100 * (v / 0x100 % 0x100) + 0x1_0000 * (v / 0x1_0000 % 0x100)
                 + 0x100_0000 * (v / 0x100_0000 % 0x100)
  {
  }

  lemma WordOfSetWord(blk: Block, k: nat, v: nat, j: nat)
    requires k < NINDIRECT && j < NINDIRECT && v < UINT_LIMIT
    ensures Word(SetWord(blk, k, v), j) == if j == k then v else Word(blk, j)
  {
    BytesOfWord(v);
  }

  lemma WordOfZeros(k: nat)
    requires k < NINDIRECT
    ensures Word(Zeros(), k) == 0
  {
  }

  // ----- which block holds what

  /** A live inode with data blocks: a file or a directory. */
  predicate HasData(ino: Dinode) {
    ino.typ != 0 && ino.typ != T_DEV
  }

  function IndirectWord(d: Disk, ia: nat, k: nat): nat
    requires k < NINDIRECT
  {
    if 0 < ia < |d.blocks| then Word(d.blocks[ia], k) else 0
  }

  /** The block number recorded for slot `k` of inode `i`, or 0. */
  function Slot(d: Disk, i: nat, k: nat): nat
    requires i < |d.inodes| && k <= MAXFILE
  {
    var a := d.inodes[i].addrs;
    if k < NDIRECT then a[k] else if k == MAXFILE then a[NDIRECT] else IndirectWord(d, a[NDIRECT], k - NDIRECT)
  }

  ghost predicate Shaped(d: Disk) {
    && |d.used| == |d.blocks| == d.sb.size < UINT_LIMIT
    && |d.inodes| == d.sb.ninodes
    && FirstData(d.sb) + d.sb.nblocks <= d.sb.size
  }

  ghost predicate OwnsRight(d: Disk, b: nat) {
    && b in d.owner && b < |d.used| && ValidDataBlock(d.sb, b) && d.used[b]
    && d.owner[b].inum < |d.inodes| && d.owner[b].slot <= MAXFILE
    && HasData(d.inodes[d.owner[b].inum])
    && Slot(d, d.owner[b].inum, d.owner[b].slot) == b
  }

  ghost predicate SlotOwned(d: Disk, i: nat, k: nat)
    requires i < |d.inodes| && k <= MAXFILE
  {
    Slot(d, i, k) != 0 ==> Slot(d, i, k) in d.owner && d.owner[Slot(d, i, k)] == Ref(i, k)
  }

  /** The bits of the blocks before the data area are set. */
  ghost predicate MetaUsed(d: Disk) {
    forall b: nat | b < |d.used| && b < FirstData(d.sb) :: d.used[b]
  }

  /**
   The data blocks marked used are exactly those in some slot of a live inode, each in one slot; all blocks
   before them are marked used.
   */
  ghost predicate Owned(d: Disk) {
    && Shaped(d) && MetaUsed(d)
    && (forall b | b in d.owner :: OwnsRight(d, b))
    && (forall i: nat, k: nat | i < |d.inodes| && HasData(d.inodes[i]) && k <= MAXFILE :: SlotOwned(d, i, k))
    && (forall b: nat | b < |d.used| && ValidDataBlock(d.sb, b) && d.used[b] :: b in d.owner)
  }

  /** The byte at offset `j` of inode `i`; zero where no block is recorded. */
  function ByteAt(d: Disk, i: nat, j: nat): Byte
    requires i < |d.inodes| && j < MAXFILE * BSIZE
  {
    var b := Slot(d, i, j / BSIZE);
    if 0 < b < |d.blocks| then d.blocks[b][j % BSIZE] else 0
  }

  /** The contents of file `i`. */
  function Content(d: Disk, i: nat): (c: seq<Byte>)
    requires i < |d.inodes| && d.inodes[i].size <= MAXFILE * BSIZE
    ensures |c| == d.inodes[i].size
  {
    seq(d.inodes[i].size, j requires 0 <= j < d.inodes[i].size => ByteAt(d, i, j))
  }

  lemma OwnedIsShaped(d: Disk)
    requires Owned(d)
    ensures Shaped(d) && MetaUsed(d)
  {
  }

  // ----- free blocks

  ghost function FreeIn(sb: Superblock, used: seq<bool>): set<nat> {
    set b: nat | b < |used| && ValidDataBlock(sb, b) && !used[b]
  }

  /** How many data blocks are free. */
  ghost function FreeBlocks(d: Disk): nat { |FreeIn(d.sb, d.used)| }

  ghost predicate FirstClear(used: seq<bool>, b: nat) {
    b < |used| && !used[b] && forall x: nat | x < b :: used[x]
  }

  ghost function LeastClear(used: seq<bool>, f: nat): (b: nat)
    requires f < |used| && !used[f]
    ensures b <= f && FirstClear(used, b)
    decreases f
  {
    if x: nat :| x < f && !used[x] then LeastClear(used, x) else f
  }

  /** The first clear bit is a data block's exactly if some data block is free. */
  lemma FirstClearIffFree(d: Disk)
    requires Shaped(d) && MetaUsed(d)
    ensures (exists b: nat :: FirstClear(d.used, b) && ValidDataBlock(d.sb, b)) <==> FreeBlocks(d) > 0
  {
    var free := FreeIn(d.sb, d.used);
    if b: nat :| FirstClear(d.used, b) && ValidDataBlock(d.sb, b) {
      assert b in free;
    }
    if free != {} {
      var f :| f in free;
      var b := LeastClear(d.used, f);
      assert FirstClear(d.used, b);
    }
  }

  lemma TakenFree(sb: Superblock, used: seq<bool>, b: nat)
    requires b < |used| && ValidDataBlock(sb, b) && !used[b]
    ensures |FreeIn(sb, used[b := true])| + 1 == |FreeIn(sb, used)|
  {
    assert b in FreeIn(sb, used);
    assert FreeIn(sb, used[b := true]) == FreeIn(sb, used) - {b};
  }

  lemma ReturnedFree(sb: Superblock, used: seq<bool>, b: nat)
    requires b < |used| && ValidDataBlock(sb, b) && used[b]
    ensures |FreeIn(sb, used[b := false])| == |FreeIn(sb, used)| + 1
  {
    TakenFree(sb, used[b := false], b);
    assert used[b := false][b := true] == used;
  }

  lemma StrayFree(sb: Superblock, used: seq<bool>, b: nat)
    requires b < |used| && !ValidDataBlock(sb, b)
    ensures |FreeIn(sb, used[b := true])| == |FreeIn(sb, used)|
  {
    assert FreeIn(sb, used[b := true]) == FreeIn(sb, used);
  }

  // ----- the steps

  function SetAddr(ino: Dinode, a: nat, v: nat): Dinode
    requires a <= NDIRECT
  {
    ino.(addrs := ino.addrs[a := v])
  }

  /** Recording block number `v` in slot `k` of inode `i`. */
  function SetSlot(d: Disk, i: nat, k: nat, v: nat): Disk
    requires i < |d.inodes| && k <= MAXFILE
    requires NDIRECT <= k < MAXFILE ==> 0 < d.inodes[i].addrs[NDIRECT] < |d.blocks|
  {
    if k < NDIRECT then d.(inodes := d.inodes[i := SetAddr(d.inodes[i], k, v)])
    else if k == MAXFILE then d.(inodes := d.inodes[i := SetAddr(d.inodes[i], NDIRECT, v)])
    else
      var ia := d.inodes[i].addrs[NDIRECT];
      d.(blocks := d.blocks[ia := SetWord(d.blocks[ia], k - NDIRECT, v)])
  }

  /** Marking block `b` used and clearing it. */
  function Marked(d: Disk, b: nat): Disk
    requires b < |d.used| && b < |d.blocks|
  {
    d.(used := d.used[b := true], blocks := d.blocks[b := Zeros()])
  }

  /** Allocating block `b` for slot `k` of inode `i`. */
  ghost function Grabbed(d: Disk, i: nat, k: nat, b: nat): Disk
    requires b < |d.used| && b < |d.blocks| && i < |d.inodes| && k <= MAXFILE
    requires NDIRECT <= k < MAXFILE ==> 0 < d.inodes[i].addrs[NDIRECT] < |d.blocks|
  {
    SetSlot(Marked(d, b).(owner := d.owner[b := Ref(i, k)]), i, k, b)
  }

  ghost predicate Grabbable(d: Disk, i: nat, k: nat, b: nat) {
    && i < |d.inodes| && HasData(d.inodes[i]) && k <= MAXFILE
    && ValidDataBlock(d.sb, b) && b < |d.used| && b < |d.blocks| && !d.used[b] && Slot(d, i, k) == 0
    && (NDIRECT <= k < MAXFILE ==> 0 < d.inodes[i].addrs[NDIRECT] < |d.blocks|)
  }

  /** The live inode `i`'s indirect block, if any, is a block nobody else uses. */
  lemma IndirectIsOwned(d: Disk, i: nat)
    requires Owned(d) && i < |d.inodes| && HasData(d.inodes[i])
    ensures var ia := d.inodes[i].addrs[NDIRECT];
            ia != 0 ==> ia < |d.blocks| && ia in d.owner && d.owner[ia] == Ref(i, MAXFILE) && d.used[ia]
  {
    assert SlotOwned(d, i, MAXFILE);
    assert Slot(d, i, MAXFILE) == d.inodes[i].addrs[NDIRECT];
  }

  /** Allocation changes no slot but its own. */
  lemma GrabbedSlots(d: Disk, i: nat, k: nat, b: nat, i': nat, k': nat)
    requires Owned(d) && Grabbable(d, i, k, b)
    requires i' < |d.inodes| && HasData(d.inodes[i']) && k' <= MAXFILE
    ensures Slot(Grabbed(d, i, k, b), i', k') == if i' == i && k' == k then b else Slot(d, i', k')
  {
    hide Owned, HasData, Word, SetWord, FirstData;
    OwnedIsShaped(d);
    IndirectIsOwned(d, i);
    IndirectIsOwned(d, i');
    if NDIRECT <= k' < MAXFILE {
      WordOfZeros(k' - NDIRECT);
      var ia := d.inodes[i].addrs[NDIRECT];
      if NDIRECT <= k < MAXFILE {
        WordOfSetWord(d.blocks[ia], k - NDIRECT, b, k' - NDIRECT);
      }
    }
  }

  /** The invariant, part by part. */
  lemma OwnerRight(d: Disk, b: nat)
    requires Owned(d) && b in d.owner
    ensures OwnsRight(d, b)
  {
  }

  lemma SlotRight(d: Disk, i: nat, k: nat)
    requires Owned(d) && i < |d.inodes| && HasData(d.inodes[i]) && k <= MAXFILE
    ensures SlotOwned(d, i, k)
  {
  }

  lemma UsedHasOwner(d: Disk, b: nat)
    requires Owned(d) && b < |d.used| && ValidDataBlock(d.sb, b) && d.used[b]
    ensures b in d.owner
  {
  }

  lemma GrabbedFields(d: Disk, i: nat, k: nat, b: nat)
    requires Grabbable(d, i, k, b)
    ensures var d' := Grabbed(d, i, k, b);
      && d'.sb == d.sb && d'.owner == d.owner[b := Ref(i, k)] && d'.used == d.used[b := true]
      && |d'.blocks| == |d.blocks|
      && |d'.inodes| == |d.inodes| && forall x | 0 <= x < |d.inodes| :: HasData(d'.inodes[x]) == HasData(d.inodes[x])
  {
  }

  lemma GrabbedOwned(d: Disk, i: nat, k: nat, b: nat)
    requires Owned(d) && Grabbable(d, i, k, b)
    ensures Owned(Grabbed(d, i, k, b))
  {
    hide Owned, Slot, Grabbed, HasData, FirstData;
    var d' := Grabbed(d, i, k, b);
    OwnedIsShaped(d);
    GrabbedFields(d, i, k, b);
    forall x | x in d'.owner ensures OwnsRight(d', x) {
      GrabbedOwner(d, i, k, b, x);
    }
    forall i': nat, k': nat | i' < |d'.inodes| && HasData(d'.inodes[i']) && k' <= MAXFILE
      ensures SlotOwned(d', i', k')
    {
      GrabbedSlotOwned(d, i, k, b, i', k');
    }
    forall x: nat | x < |d'.used| && ValidDataBlock(d'.sb, x) && d'.used[x] ensures x in d'.owner {
      if x != b {
        UsedHasOwner(d, x);
      }
    }
    OwnedFrom(d');
  }

  lemma GrabbedOwner(d: Disk, i: nat, k: nat, b: nat, x: nat)
    requires Owned(d) && Grabbable(d, i, k, b) && (x == b || x in d.owner)
    ensures OwnsRight(Grabbed(d, i, k, b), x)
  {
    hide Owned, Slot, Grabbed;
    GrabbedFields(d, i, k, b);
    if x != b {
      OwnerRight(d, x);
      GrabbedSlots(d, i, k, b, d.owner[x].inum, d.owner[x].slot);
    } else {
      GrabbedSlots(d, i, k, b, i, k);
      assert OwnsRight(Grabbed(d, i, k, b), x);
    }
  }

  lemma GrabbedSlotOwned(d: Disk, i: nat, k: nat, b: nat, i': nat, k': nat)
    requires Owned(d) && Grabbable(d, i, k, b)
    requires i' < |d.inodes| && HasData(d.inodes[i']) && k' <= MAXFILE
    ensures |Grabbed(d, i, k, b).inodes| == |d.inodes| && SlotOwned(Grabbed(d, i, k, b), i', k')
  {
    hide Owned, Slot, Grabbed, HasData, FirstData;
    GrabbedFields(d, i, k, b);
    SlotRight(d, i', k');
    GrabbedSlots(d, i, k, b, i', k');
    if b in d.owner {
      OwnerRight(d, b);
    }
  }

  lemma OwnedFrom(d: Disk)
    requires Shaped(d) && MetaUsed(d) && (forall b | b in d.owner :: OwnsRight(d, b))
    requires forall i: nat, k: nat | i < |d.inodes| && HasData(d.inodes[i]) && k <= MAXFILE :: SlotOwned(d, i, k)
    requires forall b: nat | b < |d.used| && ValidDataBlock(d.sb, b) && d.used[b] :: b in d.owner
    ensures Owned(d)
  {
    hide OwnsRight, SlotOwned, HasData;
  }

  /** Allocation changes no byte of any file. */
  lemma GrabbedBytes(d: Disk, i: nat, k: nat, b: nat, i': nat, j: nat)
    requires Owned(d) && Grabbable(d, i, k, b)
    requires i' < |d.inodes| && HasData(d.inodes[i']) && j < MAXFILE * BSIZE
    ensures ByteAt(Grabbed(d, i, k, b), i', j) == ByteAt(d, i', j)
  {
    IndirectIsOwned(d, i);
    assert SlotOwned(d, i', j / BSIZE);
    GrabbedSlots(d, i, k, b, i', j / BSIZE);
  }

  /** Freeing the block in slot `k` of inode `i`. */
  ghost function Dropped(d: Disk, i: nat, k: nat): Disk
    requires i < |d.inodes| && k <= MAXFILE && Slot(d, i, k) < |d.used|
    requires NDIRECT <= k < MAXFILE ==> 0 < d.inodes[i].addrs[NDIRECT] < |d.blocks|
  {
    var b := Slot(d, i, k);
    SetSlot(d.(used := d.used[b := false], owner := d.owner - {b}), i, k, 0)
  }

  ghost predicate Droppable(d: Disk, i: nat, k: nat) {
    && i < |d.inodes| && HasData(d.inodes[i]) && k <= MAXFILE && 0 < Slot(d, i, k) < |d.used|
    && (NDIRECT <= k < MAXFILE ==> 0 < d.inodes[i].addrs[NDIRECT] < |d.blocks|)
    && (k == MAXFILE ==> forall k' | NDIRECT <= k' < MAXFILE :: Slot(d, i, k') == 0)
  }

  lemma SlotIsOwned(d: Disk, i: nat, k: nat)
    requires Owned(d) && i < |d.inodes| && HasData(d.inodes[i]) && k <= MAXFILE && Slot(d, i, k) != 0
    ensures Slot(d, i, k) < |d.used| == |d.blocks| && ValidDataBlock(d.sb, Slot(d, i, k)) && d.used[Slot(d, i, k)]
    ensures Slot(d, i, k) in d.owner && d.owner[Slot(d, i, k)] == Ref(i, k)
    ensures NDIRECT <= k < MAXFILE ==> 0 < d.inodes[i].addrs[NDIRECT] < |d.blocks|
  {
    assert SlotOwned(d, i, k);
    assert OwnsRight(d, Slot(d, i, k));
  }

  lemma DroppedSlots(d: Disk, i: nat, k: nat, i': nat, k': nat)
    requires Owned(d) && Droppable(d, i, k)
    requires i' < |d.inodes| && HasData(d.inodes[i']) && k' <= MAXFILE
    ensures Slot(Dropped(d, i, k), i', k') == if i' == i && k' == k then 0 else Slot(d, i', k')
  {
    hide Owned, HasData, Word, SetWord, FirstData;
    OwnedIsShaped(d);
    SlotIsOwned(d, i, k);
    IndirectIsOwned(d, i');
    IndirectIsOwned(d, i);
    if NDIRECT <= k' < MAXFILE && NDIRECT <= k < MAXFILE {
      WordOfSetWord(d.blocks[d.inodes[i].addrs[NDIRECT]], k - NDIRECT, 0, k' - NDIRECT);
    }
  }

  lemma DroppedOwned(d: Disk, i: nat, k: nat)
    requires Owned(d) && Droppable(d, i, k)
    ensures Owned(Dropped(d, i, k))
  {
    SlotIsOwned(d, i, k);
    var d' := Dropped(d, i, k);
    forall x | x in d'.owner ensures OwnsRight(d', x) {
      assert OwnsRight(d, x);
      DroppedSlots(d, i, k, d.owner[x].inum, d.owner[x].slot);
    }
    forall i': nat, k': nat | i' < |d'.inodes| && HasData(d'.inodes[i']) && k' <= MAXFILE
      ensures SlotOwned(d', i', k')
    {
      assert SlotOwned(d, i', k');
      DroppedSlots(d, i, k, i', k');
    }
  }

  /** Freeing a block changes bytes only where it was. */
  lemma DroppedBytes(d: Disk, i: nat, k: nat, i': nat, j: nat)
    requires Owned(d) && Droppable(d, i, k)
    requires i' < |d.inodes| && HasData(d.inodes[i']) && j < MAXFILE * BSIZE
    requires i' != i || j / BSIZE != k
    ensures ByteAt(Dropped(d, i, k), i', j) == ByteAt(d, i', j)
  {
    SlotIsOwned(d, i, k);
    IndirectIsOwned(d, i);
    assert SlotOwned(d, i', j / BSIZE);
    DroppedSlots(d, i, k, i', j / BSIZE);
  }

  /** Overwriting `|bytes|` bytes of block `b` from offset `o`. */
  function Spliced(blk: Block, o: nat, bytes: seq<Byte>): Block
    requires o + |bytes| <= BSIZE
  {
    blk[..o] + bytes + blk[o + |bytes|..]
  }

  function Poked(d: Disk, b: nat, o: nat, bytes: seq<Byte>): Disk
    requires b < |d.blocks| && o + |bytes| <= BSIZE
  {
    d.(blocks := d.blocks[b := Spliced(d.blocks[b], o, bytes)])
  }

  /** A write of `bytes` at offset `off` of inode `i` that stays within one allocated block. */
  ghost predicate Pokeable(d: Disk, i: nat, off: nat, bytes: seq<Byte>) {
    && i < |d.inodes| && HasData(d.inodes[i]) && off < MAXFILE * BSIZE && off % BSIZE + |bytes| <= BSIZE
    && 0 < Slot(d, i, off / BSIZE) < |d.blocks|
  }

  ghost function PokedAt(d: Disk, i: nat, off: nat, bytes: seq<Byte>): Disk
    requires Pokeable(d, i, off, bytes)
  {
    Poked(d, Slot(d, i, off / BSIZE), off % BSIZE, bytes)
  }

  lemma PokedSlots(d: Disk, i: nat, off: nat, bytes: seq<Byte>, i': nat, k': nat)
    requires Owned(d) && Pokeable(d, i, off, bytes)
    requires i' < |d.inodes| && HasData(d.inodes[i']) && k' <= MAXFILE
    ensures Slot(PokedAt(d, i, off, bytes), i', k') == Slot(d, i', k')
  {
    SlotIsOwned(d, i, off / BSIZE);
    IndirectIsOwned(d, i');
  }

  lemma PokedOwned(d: Disk, i: nat, off: nat, bytes: seq<Byte>)
    requires Owned(d) && Pokeable(d, i, off, bytes)
    ensures Owned(PokedAt(d, i, off, bytes))
  {
    var d' := PokedAt(d, i, off, bytes);
    forall x | x in d'.owner ensures OwnsRight(d', x) {
      assert OwnsRight(d, x);
      PokedSlots(d, i, off, bytes, d.owner[x].inum, d.owner[x].slot);
    }
    forall i': nat, k': nat | i' < |d'.inodes| && HasData(d'.inodes[i']) && k' <= MAXFILE
      ensures SlotOwned(d', i', k')
    {
      assert SlotOwned(d, i', k');
      PokedSlots(d, i, off, bytes, i', k');
    }
  }

  /** The write changes exactly the bytes at `off` and on. */
  lemma PokedBytes(d: Disk, i: nat, off: nat, bytes: seq<Byte>, i': nat, j: nat)
    requires Owned(d) && Pokeable(d, i, off, bytes)
    requires i' < |d.inodes| && HasData(d.inodes[i']) && j < MAXFILE * BSIZE
    ensures ByteAt(PokedAt(d, i, off, bytes), i', j)
            == if i' == i && off <= j < off + |bytes| then bytes[j - off] else ByteAt(d, i', j)
  {
    hide Owned, Slot, HasData;
    SlotIsOwned(d, i, off / BSIZE);
    PokedSlots(d, i, off, bytes, i', j / BSIZE);
    SlotRight(d, i', j / BSIZE);
    WithinBlock(off, |bytes|, j);
  }

  /** Which offsets a write within one block reaches. */
  lemma WithinBlock(off: nat, n: nat, j: nat)
    requires off % BSIZE + n <= BSIZE
    ensures off <= j < off + n <==> j / BSIZE == off / BSIZE && off % BSIZE <= j % BSIZE < off % BSIZE + n
    ensures off <= j < off + n ==> j - off == j % BSIZE - off % BSIZE
  {
  }

  /** A bit set for a block outside the data area concerns nobody. */
  lemma StrayBitOwned(d: Disk, b: nat)
    requires Owned(d) && b < |d.used| && !ValidDataBlock(d.sb, b)
    ensures Owned(d.(used := d.used[b := true]))
    ensures AllUntouched(d, d.(used := d.used[b := true]))
  {
    var d' := d.(used := d.used[b := true]);
    forall x | x in d'.owner ensures OwnsRight(d', x) {
      assert OwnsRight(d, x);
    }
    forall i': nat, k': nat | i' < |d'.inodes| && HasData(d'.inodes[i']) && k' <= MAXFILE
      ensures SlotOwned(d', i', k')
    {
      assert SlotOwned(d, i', k');
    }
  }

  /** Changing an inode's other fields leaves its blocks alone. */
  lemma InodeFieldsOwned(d: Disk, i: nat, ino: Dinode)
    requires Owned(d) && i < |d.inodes| && ino.addrs == d.inodes[i].addrs
    requires HasData(ino) == HasData(d.inodes[i])
    ensures Owned(d.(inodes := d.inodes[i := ino]))
  {
    var d' := d.(inodes := d.inodes[i := ino]);
    forall x | x in d'.owner ensures OwnsRight(d', x) {
      assert OwnsRight(d, x);
    }
    forall i': nat, k': nat | i' < |d'.inodes| && HasData(d'.inodes[i']) && k' <= MAXFILE
      ensures SlotOwned(d', i', k')
    {
      assert SlotOwned(d, i', k');
    }
  }

  // ----- dense files, and what one operation may touch

  /** Blocks needed for `size` bytes: `divceil(size, BSIZE)`. */
  function NBlocks(size: nat): nat {
    if size == 0 then 0 else (size - 1) / BSIZE + 1
  }

  /**
   The data blocks of a file with `c` blocks of contents: an indirect block comes with the first one past the
   direct.
   */
  function WithIndirect(c: nat): nat {
    if c > NDIRECT then c + 1 else c
  }

  /** The data blocks of a dense file of `size` bytes. */
  function Footprint(size: nat): nat { WithIndirect(NBlocks(size)) }

  /** Inode `i` has blocks for exactly the indices below `c`, and an indirect block exactly if needed. */
  ghost predicate Dense(d: Disk, i: nat, c: nat) {
    && i < |d.inodes| && c <= MAXFILE
    && (forall k | 0 <= k < MAXFILE :: Slot(d, i, k) != 0 <==> k < c)
    && (Slot(d, i, MAXFILE) != 0 <==> c > NDIRECT)
  }

  /** Slot `n` has come to hold a block, with the indirect block if it needs one; every block held before is kept. */
  ghost predicate Mapped(d: Disk, d': Disk, i: nat, n: nat) {
    && i < |d.inodes| && i < |d'.inodes|
    && forall k | 0 <= k <= MAXFILE ::
         && (Slot(d', i, k) != 0 <==> Slot(d, i, k) != 0 || k == n || (k == MAXFILE && n >= NDIRECT))
         && (Slot(d, i, k) != 0 ==> Slot(d', i, k) == Slot(d, i, k))
  }

  /** A slot filled, or found filled, after the indirect block it needs. */
  lemma MappedNext(d: Disk, e: Disk, f: Disk, i: nat, n: nat)
    requires n <= MAXFILE && if NDIRECT <= n < MAXFILE then Mapped(d, e, i, MAXFILE) else e == d
    requires i < |e.inodes| == |f.inodes| && Slot(f, i, n) != 0
    requires forall k | 0 <= k <= MAXFILE && (k != n || Slot(e, i, n) != 0) :: Slot(f, i, k) == Slot(e, i, k)
    ensures Mapped(d, f, i, n)
  {
    hide Slot;
  }

  /** Where a slot is kept. */
  lemma SlotKept(d: Disk, i: nat, k: nat)
    requires i < |d.inodes| && k <= MAXFILE
    ensures k < NDIRECT ==> Slot(d, i, k) == d.inodes[i].addrs[k]
    ensures k == MAXFILE ==> Slot(d, i, k) == d.inodes[i].addrs[NDIRECT]
    ensures NDIRECT <= k < MAXFILE && 0 < d.inodes[i].addrs[NDIRECT] < |d.blocks| ==>
              Slot(d, i, k) == Word(d.blocks[d.inodes[i].addrs[NDIRECT]], k - NDIRECT)
    ensures NDIRECT <= k < MAXFILE && Slot(d, i, k) != 0 ==> Slot(d, i, MAXFILE) != 0
  {
  }

  /** How many blocks slot `n` lacks: its own, and the indirect block if it is kept there. */
  ghost function Missing(d: Disk, i: nat, n: nat): nat
    requires i < |d.inodes|
  {
    if n >= MAXFILE then 0
    else (if Slot(d, i, n) == 0 then 1 else 0) + if n >= NDIRECT && Slot(d, i, MAXFILE) == 0 then 1 else 0
  }

  lemma MissingOfDense(d: Disk, i: nat, n: nat, c: nat)
    requires Dense(d, i, c) && n <= c && n < MAXFILE
    ensures WithIndirect(c) + Missing(d, i, n) == WithIndirect(if n < c then c else n + 1)
  {
    hide Slot;
  }

  lemma DenseAfterMap(d: Disk, d': Disk, i: nat, n: nat, c: nat)
    requires Dense(d, i, c) && Mapped(d, d', i, n) && n <= c && n < MAXFILE
    ensures Dense(d', i, if n < c then c else n + 1)
  {
    hide Slot;
  }

  ghost predicate Neat(d: Disk, i: nat)
    requires i < |d.inodes|
  {
    HasData(d.inodes[i]) ==> d.inodes[i].size <= MAXFILE * BSIZE && Dense(d, i, NBlocks(d.inodes[i].size))
  }

  /** A sound image: ownership as above, and every file dense. */
  ghost predicate Sound(d: Disk) {
    Owned(d) && forall i: nat | i < |d.inodes| :: Neat(d, i)
  }

  /** Inode `i`, its block numbers and all its bytes are the same in both images. */
  ghost predicate Untouched(d: Disk, d': Disk, i: nat) {
    && i < |d.inodes| && i < |d'.inodes| && d'.inodes[i] == d.inodes[i]
    && (HasData(d.inodes[i]) ==>
          && (forall k | 0 <= k <= MAXFILE :: Slot(d', i, k) == Slot(d, i, k))
          && (forall j | 0 <= j < MAXFILE * BSIZE :: ByteAt(d', i, j) == ByteAt(d, i, j)))
  }

  ghost predicate AllUntouched(d: Disk, d': Disk) {
    d'.sb == d.sb && |d'.inodes| == |d.inodes| && forall i: nat | i < |d.inodes| :: Untouched(d, d', i)
  }

  ghost predicate OthersUntouched(d: Disk, d': Disk, i: nat) {
    && d'.sb == d.sb && |d'.inodes| == |d.inodes|
    && forall x: nat | x < |d.inodes| && x != i :: Untouched(d, d', x)
  }

  lemma OthersUntouchedTransitive(d: Disk, e: Disk, f: Disk, i: nat)
    requires OthersUntouched(d, e, i) && OthersUntouched(e, f, i)
    ensures OthersUntouched(d, f, i)
  {
    forall x: nat | x < |d.inodes| && x != i ensures Untouched(d, f, x) {
      assert Untouched(d, e, x) && Untouched(e, f, x);
    }
  }

  lemma UntouchedStaysNeat(d: Disk, d': Disk, i: nat)
    requires i < |d.inodes| && Untouched(d, d', i) && Neat(d, i)
    ensures Neat(d', i) && d'.inodes[i] == d.inodes[i]
    ensures HasData(d.inodes[i]) ==> Content(d', i) == Content(d, i)
  {
  }

  lemma GrabbedTouches(d: Disk, i: nat, k: nat, b: nat)
    requires Owned(d) && Grabbable(d, i, k, b)
    ensures OthersUntouched(d, Grabbed(d, i, k, b), i)
  {
    IndirectIsOwned(d, i);
    var d' := Grabbed(d, i, k, b);
    hide Owned;
    forall x: nat | x < |d.inodes| && x != i ensures Untouched(d, d', x) {
      if HasData(d.inodes[x]) {
        forall k' | 0 <= k' <= MAXFILE ensures Slot(d', x, k') == Slot(d, x, k') {
          GrabbedSlots(d, i, k, b, x, k');
        }
        forall j | 0 <= j < MAXFILE * BSIZE ensures ByteAt(d', x, j) == ByteAt(d, x, j) {
          GrabbedBytes(d, i, k, b, x, j);
        }
      }
    }
  }

  lemma DroppedTouches(d: Disk, i: nat, k: nat)
    requires Owned(d) && Droppable(d, i, k)
    ensures OthersUntouched(d, Dropped(d, i, k), i)
  {
    SlotIsOwned(d, i, k);
    var d' := Dropped(d, i, k);
    hide Owned;
    forall x: nat | x < |d.inodes| && x != i ensures Untouched(d, d', x) {
      if HasData(d.inodes[x]) {
        forall k' | 0 <= k' <= MAXFILE ensures Slot(d', x, k') == Slot(d, x, k') {
          DroppedSlots(d, i, k, x, k');
        }
        forall j | 0 <= j < MAXFILE * BSIZE ensures ByteAt(d', x, j) == ByteAt(d, x, j) {
          DroppedBytes(d, i, k, x, j);
        }
      }
    }
  }

  lemma PokedTouches(d: Disk, i: nat, off: nat, bytes: seq<Byte>)
    requires Owned(d) && Pokeable(d, i, off, bytes)
    ensures OthersUntouched(d, PokedAt(d, i, off, bytes), i)
  {
    hide Owned;
    var d' := PokedAt(d, i, off, bytes);
    forall x: nat | x < |d.inodes| && x != i ensures Untouched(d, d', x) {
      if HasData(d.inodes[x]) {
        forall k' | 0 <= k' <= MAXFILE ensures Slot(d', x, k') == Slot(d, x, k') {
          PokedSlots(d, i, off, bytes, x, k');
        }
        forall j | 0 <= j < MAXFILE * BSIZE ensures ByteAt(d', x, j) == ByteAt(d, x, j) {
          PokedBytes(d, i, off, bytes, x, j);
        }
      }
    }
  }

  ghost predicate SameBytes(d: Disk, d': Disk, i: nat) {
    && i < |d.inodes| && i < |d'.inodes|
    && forall j | 0 <= j < MAXFILE * BSIZE :: ByteAt(d', i, j) == ByteAt(d, i, j)
  }

  lemma SameBytesTransitive(d: Disk, e: Disk, f: Disk, i: nat)
    requires SameBytes(d, e, i) && SameBytes(e, f, i)
    ensures SameBytes(d, f, i)
  {
    hide ByteAt;
  }

  /** Inode `i` may have other block numbers; everything else about it and all other inodes are the same. */
  ghost predicate OnlyBlocksOf(d: Disk, d': Disk, i: nat) {
    && OthersUntouched(d, d', i)
    && i < |d.inodes| == |d'.inodes| && d'.inodes[i] == d.inodes[i].(addrs := d'.inodes[i].addrs)
  }

  lemma OnlyBlocksKeepsData(d: Disk, d': Disk, i: nat)
    requires OnlyBlocksOf(d, d', i)
    ensures i < |d.inodes| == |d'.inodes| && HasData(d'.inodes[i]) == HasData(d.inodes[i])
  {
  }

  lemma OnlyBlocksOfTransitive(d: Disk, e: Disk, f: Disk, i: nat)
    requires OnlyBlocksOf(d, e, i) && OnlyBlocksOf(e, f, i)
    ensures OnlyBlocksOf(d, f, i)
  {
    OthersUntouchedTransitive(d, e, f, i);
  }

  lemma GrabEffect(d: Disk, i: nat, k: nat, b: nat)
    requires Owned(d) && Grabbable(d, i, k, b)
    ensures var d' := Grabbed(d, i, k, b);
            && OnlyBlocksOf(d, d', i) && SameBytes(d, d', i)
            && forall k' | 0 <= k' <= MAXFILE :: Slot(d', i, k') == if k' == k then b else Slot(d, i, k')
  {
    var d' := Grabbed(d, i, k, b);
    GrabbedTouches(d, i, k, b);
    hide Owned;
    forall k' | 0 <= k' <= MAXFILE ensures Slot(d', i, k') == if k' == k then b else Slot(d, i, k') {
      GrabbedSlots(d, i, k, b, i, k');
    }
    forall j | 0 <= j < MAXFILE * BSIZE ensures ByteAt(d', i, j) == ByteAt(d, i, j) {
      GrabbedBytes(d, i, k, b, i, j);
    }
  }

  /** `c` with `bytes` written over it from `off` on, growing if need be. */
  function Overwritten(c: seq<Byte>, off: nat, bytes: seq<Byte>): seq<Byte>
    requires off <= |c|
  {
    c[..off] + bytes + if off + |bytes| < |c| then c[off + |bytes|..] else []
  }

  /** `c` cut to `size` bytes, or extended with zeros. */
  function Resized(c: seq<Byte>, size: nat): seq<Byte> {
    if size <= |c| then c[..size] else c + seq(size - |c|, _ => 0)
  }

  /** Byte by byte: what was there up to the new size, then zeros. */
  lemma ResizedBytes(c: seq<Byte>, size: nat, k: nat)
    requires k < size
    ensures |Resized(c, size)| == size && Resized(c, size)[k] == if k < |c| then c[k] else 0
  {
  }

  /** Byte by byte: the new ones where they were written, the old ones elsewhere; never shorter than before. */
  lemma OverwrittenBytes(c: seq<Byte>, off: nat, bytes: seq<Byte>, k: nat)
    requires off <= |c| && (k < |c| || k < off + |bytes|)
    ensures |Overwritten(c, off, bytes)| == if off + |bytes| < |c| then |c| else off + |bytes|
    ensures Overwritten(c, off, bytes)[k] == if off <= k < off + |bytes| then bytes[k - off] else c[k]
  {
  }

  /** All bytes of inode `i` are as before, except that those from `off` on read `bytes`. */
  ghost predicate BytesPatched(d: Disk, d': Disk, i: nat, off: nat, bytes: seq<Byte>) {
    && i < |d.inodes| && i < |d'.inodes|
    && forall j | 0 <= j < MAXFILE * BSIZE ::
         ByteAt(d', i, j) == if off <= j < off + |bytes| then bytes[j - off] else ByteAt(d, i, j)
  }

  lemma PokeEffect(d: Disk, i: nat, off: nat, bytes: seq<Byte>, c: nat)
    requires Owned(d) && Pokeable(d, i, off, bytes) && Dense(d, i, c)
    ensures var d' := PokedAt(d, i, off, bytes);
            && Owned(d') && OnlyBlocksOf(d, d', i) && BytesPatched(d, d', i, off, bytes) && Dense(d', i, c)
  {
    var d' := PokedAt(d, i, off, bytes);
    PokedTouches(d, i, off, bytes);
    PokedOwned(d, i, off, bytes);
    hide Owned;
    forall k' | 0 <= k' <= MAXFILE ensures Slot(d', i, k') == Slot(d, i, k') {
      PokedSlots(d, i, off, bytes, i, k');
    }
    forall j | 0 <= j < MAXFILE * BSIZE
      ensures ByteAt(d', i, j) == if off <= j < off + |bytes| then bytes[j - off] else ByteAt(d, i, j)
    {
      PokedBytes(d, i, off, bytes, i, j);
    }
  }

  /** Two patches, one after the other where the first ends, are one. */
  lemma PatchesJoin(d: Disk, e: Disk, f: Disk, i: nat, off: nat, bytes: seq<Byte>, t: nat, m: nat)
    requires t + m <= |bytes|
    requires BytesPatched(d, e, i, off, bytes[..t]) && BytesPatched(e, f, i, off + t, bytes[t..t + m])
    ensures BytesPatched(d, f, i, off, bytes[..t + m])
  {
  }

  lemma SameThenPatched(d: Disk, e: Disk, f: Disk, i: nat, off: nat, bytes: seq<Byte>)
    requires BytesPatched(d, e, i, off, bytes) && SameBytes(e, f, i)
    ensures BytesPatched(d, f, i, off, bytes)
  {
  }

  /** Bytes `off..off+m` of a file that lie in one block are that block's bytes. */
  lemma ChunkIsContent(d: Disk, i: nat, off: nat, m: nat)
    requires i < |d.inodes| && d.inodes[i].size <= MAXFILE * BSIZE && off + m <= d.inodes[i].size
    requires off % BSIZE + m <= BSIZE && m >= 1 && 0 < Slot(d, i, off / BSIZE) < |d.blocks|
    ensures d.blocks[Slot(d, i, off / BSIZE)][off % BSIZE..off % BSIZE + m] == Content(d, i)[off..off + m]
  {
    var chunk := d.blocks[Slot(d, i, off / BSIZE)][off % BSIZE..off % BSIZE + m];
    forall x | 0 <= x < m ensures chunk[x] == Content(d, i)[off..off + m][x] {
      assert (off + x) / BSIZE == off / BSIZE && (off + x) % BSIZE == off % BSIZE + x;
    }
  }

  /** A patch that starts within the file or at its end, read as file contents. */
  lemma PatchedContent(d: Disk, d': Disk, i: nat, off: nat, bytes: seq<Byte>)
    requires BytesPatched(d, d', i, off, bytes) && off <= d.inodes[i].size <= MAXFILE * BSIZE
    requires off + |bytes| <= MAXFILE * BSIZE
    requires d'.inodes[i].size == if off + |bytes| > d.inodes[i].size then off + |bytes| else d.inodes[i].size
    ensures Content(d', i) == Overwritten(Content(d, i), off, bytes)
  {
  }

  lemma SoundFile(d: Disk, i: nat)
    requires Sound(d) && i < |d.inodes| && HasData(d.inodes[i])
    ensures d.inodes[i].size <= MAXFILE * BSIZE && Dense(d, i, NBlocks(d.inodes[i].size)) && Owned(d)
  {
    assert Neat(d, i);
  }

  /** After an operation on inode `i`: sound again if `i` is dense again. */
  lemma SoundAgain(d: Disk, d': Disk, i: nat)
    requires Sound(d) && Owned(d') && OthersUntouched(d, d', i) && i < |d'.inodes| && Neat(d', i)
    ensures Sound(d')
  {
    forall x: nat | x < |d'.inodes| ensures Neat(d', x) {
      if x != i {
        UntouchedStaysNeat(d, d', x);
      }
    }
  }

  ghost function WithSize(d: Disk, i: nat, size: nat): Disk
    requires i < |d.inodes|
  {
    d.(inodes := d.inodes[i := d.inodes[i].(size := size)])
  }

  /** Setting a size moves no block. */
  lemma SizeEffect(d: Disk, i: nat, size: nat, c: nat)
    requires Owned(d) && i < |d.inodes| && Dense(d, i, c)
    ensures var d' := WithSize(d, i, size);
            Owned(d') && OthersUntouched(d, d', i) && SameBytes(d, d', i) && Dense(d', i, c)
  {
    InodeFieldsOwned(d, i, d.inodes[i].(size := size));
    hide Owned;
    var d' := WithSize(d, i, size);
    forall x: nat | x < |d.inodes| && x != i ensures Untouched(d, d', x) {
      SlotsDependOnAddrs(d, d', x);
    }
    SlotsDependOnAddrs(d, d', i);
  }

  lemma SlotsDependOnAddrs(d: Disk, d': Disk, i: nat)
    requires i < |d.inodes| && i < |d'.inodes| && d'.inodes[i].addrs == d.inodes[i].addrs && d'.blocks == d.blocks
    ensures forall k | 0 <= k <= MAXFILE :: Slot(d', i, k) == Slot(d, i, k)
    ensures SameBytes(d, d', i)
  {
  }

  lemma NothingDone(d: Disk, i: nat, off: nat)
    requires i < |d.inodes|
    ensures OnlyBlocksOf(d, d, i) && SameBytes(d, d, i) && BytesPatched(d, d, i, off, []) && AllUntouched(d, d)
    ensures Sound(d) ==> Owned(d)
  {
  }

  // ----- giving blocks back

  /** The slots in `gone` are empty; all others, and the bytes of all other blocks, are as before. */
  ghost predicate SlotsGone(d: Disk, d': Disk, i: nat, gone: set<nat>) {
    && i < |d.inodes| && i < |d'.inodes|
    && (forall k: nat | k <= MAXFILE :: Slot(d', i, k) == if k in gone then 0 else Slot(d, i, k))
    && (forall j: nat | j < MAXFILE * BSIZE && j / BSIZE !in gone :: ByteAt(d', i, j) == ByteAt(d, i, j))
  }

  lemma NothingGone(d: Disk, i: nat)
    requires i < |d.inodes|
    ensures SlotsGone(d, d, i, {})
  {
  }

  lemma DroppedFree(d: Disk, i: nat, k: nat)
    requires Owned(d) && Droppable(d, i, k)
    ensures FreeBlocks(Dropped(d, i, k)) == FreeBlocks(d) + 1
  {
    hide Owned, Slot;
    SlotIsOwned(d, i, k);
    ReturnedFree(d.sb, d.used, Slot(d, i, k));
  }

  lemma DropEffect(d: Disk, e: Disk, i: nat, gone: set<nat>, k: nat)
    requires OnlyBlocksOf(d, e, i) && SlotsGone(d, e, i, gone)
    requires Owned(e) && Droppable(e, i, k)
    ensures var f := Dropped(e, i, k);
            && Owned(f) && OnlyBlocksOf(d, f, i) && SlotsGone(d, f, i, gone + {k})
            && FreeBlocks(f) == FreeBlocks(e) + 1
  {
    DroppedFree(e, i, k);
    var f := Dropped(e, i, k);
    DroppedOwned(e, i, k);
    DroppedTouches(e, i, k);
    OnlyBlocksOfTransitive(d, e, f, i);
    hide Owned, OthersUntouched, Dropped;
    forall k': nat | k' <= MAXFILE ensures Slot(f, i, k') == if k' in gone + {k} then 0 else Slot(d, i, k') {
      DroppedSlots(e, i, k, i, k');
    }
    forall j: nat | j < MAXFILE * BSIZE && j / BSIZE !in gone + {k} ensures ByteAt(f, i, j) == ByteAt(d, i, j) {
      DroppedBytes(e, i, k, i, j);
    }
  }

  /** Emptying exactly the slots past block `keep` leaves a dense file of `keep` blocks. */
  lemma DenseAfterCut(d: Disk, e: Disk, i: nat, gone: set<nat>, n: nat, keep: nat)
    requires Dense(d, i, n) && keep <= n && SlotsGone(d, e, i, gone)
    requires forall k: nat | k < MAXFILE :: k in gone <==> keep <= k < n
    requires MAXFILE in gone <==> n > NDIRECT && keep <= NDIRECT
    ensures Dense(e, i, keep)
  {
  }

  lemma CutContent(d: Disk, e: Disk, i: nat, gone: set<nat>, size: nat)
    requires SlotsGone(d, e, i, gone) && size <= d.inodes[i].size <= MAXFILE * BSIZE && e.inodes[i].size == size
    requires forall k: nat | k < NBlocks(size) :: k !in gone
    ensures Content(e, i) == Resized(Content(d, i), size)
  {
    forall j: nat | j < size ensures ByteAt(e, i, j) == ByteAt(d, i, j) {
      assert j / BSIZE < NBlocks(size);
    }
  }

  lemma GoneThenSame(d: Disk, e: Disk, f: Disk, i: nat, gone: set<nat>)
    requires SlotsGone(d, e, i, gone) && i < |f.inodes| && f.inodes[i].addrs == e.inodes[i].addrs
    requires f.blocks == e.blocks
    ensures SlotsGone(d, f, i, gone)
  {
    SlotsDependOnAddrs(e, f, i);
  }

  // ----- inodes coming and going

  /** Setting the type of an inode without blocks. */
  lemma TypeOwned(d: Disk, i: nat, ino: Dinode)
    requires Owned(d) && i < |d.inodes|
    requires HasData(d.inodes[i]) ==> Dense(d, i, 0)
    requires HasData(ino) ==> ino.addrs == NoAddrs()
    ensures Owned(d.(inodes := d.inodes[i := ino]))
  {
    hide Owned, Slot, HasData;
    var d' := d.(inodes := d.inodes[i := ino]);
    OwnedIsShaped(d);
    forall x | x in d'.owner ensures OwnsRight(d', x) {
      OwnerRight(d, x);
      TypeSlot(d, i, ino, d.owner[x].inum, d.owner[x].slot);
    }
    forall i': nat, k': nat | i' < |d'.inodes| && HasData(d'.inodes[i']) && k' <= MAXFILE
      ensures SlotOwned(d', i', k')
    {
      TypeSlot(d, i, ino, i', k');
      if i' != i {
        SlotRight(d, i', k');
      }
    }
    forall x: nat | x < |d'.used| && ValidDataBlock(d'.sb, x) && d'.used[x] ensures x in d'.owner {
      UsedHasOwner(d, x);
    }
    OwnedFrom(d');
  }

  lemma TypeSlot(d: Disk, i: nat, ino: Dinode, i': nat, k: nat)
    requires i < |d.inodes| && i' < |d.inodes| && k <= MAXFILE
    ensures var d' := d.(inodes := d.inodes[i := ino]);
      if i' != i then Slot(d', i', k) == Slot(d, i', k) else ino.addrs == NoAddrs() ==> Slot(d', i', k) == 0
  {
  }

  lemma TypeSound(d: Disk, i: nat, ino: Dinode)
    requires Sound(d) && i < |d.inodes|
    requires HasData(d.inodes[i]) ==> d.inodes[i].size == 0
    requires HasData(ino) ==> ino.addrs == NoAddrs() && ino.size == 0
    ensures Sound(d.(inodes := d.inodes[i := ino])) && OthersUntouched(d, d.(inodes := d.inodes[i := ino]), i)
  {
    assert Neat(d, i);
    TypeOwned(d, i, ino);
    var d' := d.(inodes := d.inodes[i := ino]);
    hide Owned;
    forall x: nat | x < |d.inodes| ensures Neat(d', x) && (x != i ==> Untouched(d, d', x)) {
      if x != i {
        assert Neat(d, x);
        SlotsDependOnAddrs(d, d', x);
      }
    }
  }

  /** A data block is marked used exactly if some slot of a live inode holds it. */
  lemma UsedMeansHeld(d: Disk, b: nat)
    requires Owned(d) && b < |d.used| && ValidDataBlock(d.sb, b)
    ensures d.used[b] <==> exists i: nat, k: nat ::
              i < |d.inodes| && k <= MAXFILE && HasData(d.inodes[i]) && Slot(d, i, k) == b
  {
    hide Owned, Slot;
    if d.used[b] {
      UsedHasOwner(d, b);
      OwnerRight(d, b);
      var r := d.owner[b];
      assert Slot(d, r.inum, r.slot) == b;
    }
    if i: nat, k: nat :| i < |d.inodes| && k <= MAXFILE && HasData(d.inodes[i]) && Slot(d, i, k) == b {
      SlotIsOwned(d, i, k);
    }
  }

  /** When inode `x` lets go of all its blocks, exactly its blocks are returned. */
  lemma BlocksReturned(d: Disk, d': Disk, x: nat, b: nat)
    requires Owned(d) && Owned(d') && OthersUntouched(d, d', x) && x < |d.inodes|
    requires HasData(d'.inodes[x]) ==> Dense(d', x, 0)
    requires b < |d.used| && ValidDataBlock(d.sb, b)
    ensures b < |d'.used| && (d'.used[b] <==> d.used[b] && b in d.owner && d.owner[b].inum != x)
  {
    hide Owned, Slot, HasData, Dense, Untouched;
    OwnedIsShaped(d');
    OwnedIsShaped(d);
    if d.used[b] {
      UsedHasOwner(d, b);
      OwnerRight(d, b);
      if d.owner[b].inum != x {
        OwnerKept(d, d', b);
      }
    }
    if d'.used[b] {
      UsedHasOwner(d', b);
      OwnerRight(d', b);
      NotOwnedByEmpty(d', b, x);
      assert Untouched(d, d', d'.owner[b].inum);
      UntouchedBack(d, d', d'.owner[b].inum);
      OwnerKept(d', d, b);
    }
  }

  lemma UntouchedBack(d: Disk, d': Disk, i: nat)
    requires Untouched(d, d', i)
    ensures Untouched(d', d, i)
  {
  }

  /** A block's owner keeps it while the owner is untouched. */
  lemma OwnerKept(d: Disk, d': Disk, b: nat)
    requires Owned(d') && OwnsRight(d, b) && Untouched(d, d', d.owner[b].inum) && ValidDataBlock(d.sb, b)
    ensures b < |d'.used| && d'.used[b] && b in d'.owner && d'.owner[b] == d.owner[b]
  {
    hide Owned, ByteAt;
    var r := d.owner[b];
    assert Slot(d', r.inum, r.slot) == b;
    SlotIsOwned(d', r.inum, r.slot);
  }

  lemma NotOwnedByEmpty(d: Disk, b: nat, x: nat)
    requires OwnsRight(d, b) && x < |d.inodes| && (HasData(d.inodes[x]) ==> Dense(d, x, 0))
    ensures d.owner[b].inum != x
  {
  }

  lemma StrayBitTouches(d: Disk, b: nat, i: nat)
    requires b < |d.used| && i < |d.inodes|
    ensures var d' := d.(used := d.used[b := true]); OnlyBlocksOf(d, d', i) && SameBytes(d, d', i)
  {
    var d' := d.(used := d.used[b := true]);
    forall x: nat | x < |d.inodes| ensures Untouched(d, d', x) {
      SlotsDependOnAddrs(d, d', x);
    }
  }

  lemma SoundIsOwned(d: Disk)
    requires Sound(d)
    ensures Owned(d)
  {
  }
}
