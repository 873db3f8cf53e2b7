/**
 Blocks and files of tools/libfs.c, updated in place. `fatal` (a longjmp out of the tool) is the
 outcome `Fatal`; -1 results are ordinary results.
 */
module FsImage {
  import opened FsDisk

  datatype Outcome<+T> = Ok(value: T) | Fatal

  const BPB := BSIZE * 8

  class Image {
    const sb: Superblock
    var used: seq<bool>
    var blocks: seq<Block>
    var inodes: seq<Dinode>
    ghost var owner: map<nat, Ref>

    ghost function Disk(): FsDisk.Disk
      reads this
    {
      FsDisk.Disk(sb, used, blocks, inodes, owner)
    }

    /** An image with no files: the inodes are free, and no data block is marked used. */
    constructor (sb: Superblock)
      requires FirstData(sb) + sb.nblocks <= sb.size < UINT_LIMIT
      ensures this.sb == sb && Sound(Disk())
    {
      this.sb := sb;
      used := seq(sb.size, b => b < FirstData(sb));
      blocks := seq(sb.size, _ => Zeros());
      inodes := seq(sb.ninodes, _ => Dinode(0, 0, 0, 0, 0, NoAddrs()));
      owner := map[];
    }

    /** The first block whose bit is clear; an error if there is none or it lies outside the data area. */
    method BAlloc() returns (r: Outcome<nat>)
      requires |used| == |blocks| == sb.size
      modifies this`used, this`blocks
      ensures r.Ok? ==>
        && r.value < sb.size && ValidDataBlock(sb, r.value) && !old(used)[r.value]
        && (forall x | 0 <= x < r.value :: old(used)[x])
        && used == old(used)[r.value := true] && blocks == old(blocks)[r.value := Zeros()]
      ensures r.Fatal? ==>
        && blocks == old(blocks)
        && (used == old(used) || exists b: nat :: b < sb.size && !ValidDataBlock(sb, b) && used == old(used)[b := true])
      ensures r.Ok? <==> exists b: nat :: FirstClear(old(used), b) && ValidDataBlock(sb, b)
    {
      var b := 0;
      while b < sb.size
        invariant b <= sb.size + BPB
        invariant used == old(used) && blocks == old(blocks)
        invariant forall x | 0 <= x < b && x < sb.size :: used[x]
      {
        var bi := 0;
        while bi < BPB && b + bi < sb.size
          invariant bi <= BPB
          invariant used == old(used) && blocks == old(blocks)
          invariant forall x | 0 <= x < b + bi && x < sb.size :: used[x]
        {
          if !used[b + bi] {
            assert FirstClear(used, b + bi);
            used := used[b + bi := true];
            if !ValidDataBlock(sb, b + bi) {
              return Fatal;
            }
            blocks := blocks[b + bi := Zeros()];
            return Ok(b + bi);
          }
          bi := bi + 1;
        }
        b := b + BPB;
      }
      return Fatal;
    }

    method BFree(b: nat) returns (r: int)
      requires |used| == sb.size && FirstData(sb) + sb.nblocks <= sb.size
      modifies this`used
      ensures r == if ValidDataBlock(sb, b) then 0 else -1
      ensures used == if ValidDataBlock(sb, b) then old(used)[b := false] else old(used)
    {
      if !ValidDataBlock(sb, b) {
        return -1;
      }
      used := used[b := false];
      return 0;
    }

    /** Allocating a block for an empty slot. */
    method AllocSlot(i: nat, k: nat) returns (r: Outcome<nat>)
      requires Owned(Disk()) && i < |inodes| && HasData(inodes[i]) && k <= MAXFILE && Slot(Disk(), i, k) == 0
      requires NDIRECT <= k < MAXFILE ==> inodes[i].addrs[NDIRECT] != 0
      modifies this
      ensures Owned(Disk())
      ensures r.Ok? ==> Grabbable(old(Disk()), i, k, r.value) && Disk() == Grabbed(old(Disk()), i, k, r.value)
      ensures r.Fatal? ==> AllUntouched(old(Disk()), Disk())
      ensures r.Fatal? <==> FreeBlocks(old(Disk())) == 0
      ensures FreeBlocks(Disk()) == FreeBlocks(old(Disk())) - if r.Ok? then 1 else 0
      ensures OnlyBlocksOf(old(Disk()), Disk(), i) && SameBytes(old(Disk()), Disk(), i)
      ensures r.Ok? ==> forall k' | 0 <= k' <= MAXFILE ::
        Slot(Disk(), i, k') == if k' == k then r.value else Slot(old(Disk()), i, k')
    {
      hide Owned, Untouched, OthersUntouched, MetaUsed, FreeIn, FirstClear;
      ghost var d := Disk();
      OwnedIsShaped(d);
      IndirectIsOwned(d, i);
      NothingDone(d, i, 0);
      FirstClearIffFree(d);
      r := BAlloc();
      if r.Ok? {
        var b := r.value;
        TakenFree(sb, d.used, b);
        GrabbedOwned(d, i, k, b);
        GrabEffect(d, i, k, b);
        owner := owner[b := Ref(i, k)];
        if k < NDIRECT {
          inodes := inodes[i := SetAddr(inodes[i], k, b)];
        } else if k == MAXFILE {
          inodes := inodes[i := SetAddr(inodes[i], NDIRECT, b)];
        } else {
          var ia := inodes[i].addrs[NDIRECT];
          blocks := blocks[ia := SetWord(blocks[ia], k - NDIRECT, b)];
        }
      } else if used != d.used {
        ghost var b: nat :| b < sb.size && !ValidDataBlock(sb, b) && used == d.used[b := true];
        StrayFree(sb, d.used, b);
        StrayBitOwned(d, b);
        StrayBitTouches(d, b, i);
      }
    }

    /** The block in slot `k`, allocated if there is none. */
    method FillSlot(i: nat, k: nat) returns (r: Outcome<nat>)
      requires Owned(Disk()) && i < |inodes| && HasData(inodes[i]) && k <= MAXFILE
      requires NDIRECT <= k < MAXFILE ==> inodes[i].addrs[NDIRECT] != 0
      modifies this
      ensures Owned(Disk()) && OnlyBlocksOf(old(Disk()), Disk(), i) && SameBytes(old(Disk()), Disk(), i)
      ensures r.Ok? && k < MAXFILE ==> inodes[i].addrs[NDIRECT] == old(inodes)[i].addrs[NDIRECT]
      ensures Slot(old(Disk()), i, k) != 0 ==> r.Ok? && Disk() == old(Disk())
      ensures Slot(old(Disk()), i, k) == 0 ==> (r.Fatal? <==> FreeBlocks(old(Disk())) == 0)
      ensures Slot(old(Disk()), i, k) == 0 ==> FreeBlocks(Disk()) == FreeBlocks(old(Disk())) - if r.Ok? then 1 else 0
      ensures r.Ok? ==> r.value == Slot(Disk(), i, k) && ValidDataBlock(sb, r.value) && r.value < |blocks|
      ensures r.Ok? ==> forall k' | 0 <= k' <= MAXFILE && k' != k :: Slot(Disk(), i, k') == Slot(old(Disk()), i, k')
    {
      hide Owned, OthersUntouched, Grabbed, Word, Slot, FreeBlocks;
      ghost var d := Disk();
      NothingDone(d, i, 0);
      IndirectIsOwned(d, i);
      SlotKept(d, i, k);
      var ia := inodes[i].addrs[NDIRECT];
      var addr := if k < NDIRECT then inodes[i].addrs[k]
                  else if k == MAXFILE then ia else Word(blocks[ia], k - NDIRECT);
      if addr == 0 {
        r := AllocSlot(i, k);
        if r.Fatal? {
          return;
        }
        SlotKept(d, i, MAXFILE);
        SlotKept(Disk(), i, MAXFILE);
        addr := r.value;
      }
      SlotIsOwned(Disk(), i, k);
      r := Ok(addr);
    }

    /** The `n`-th data block of file `i`, allocated if there is none; the index is not checked against the size. */
    method BMap(i: nat, n: nat) returns (r: Outcome<nat>)
      requires Owned(Disk()) && i < |inodes| && HasData(inodes[i])
      modifies this
      ensures Owned(Disk()) && OnlyBlocksOf(old(Disk()), Disk(), i) && SameBytes(old(Disk()), Disk(), i)
      ensures n < MAXFILE && Slot(old(Disk()), i, n) != 0 ==> r.Ok? && Disk() == old(Disk())
      ensures r.Ok? && n < MAXFILE ==>
        && Mapped(old(Disk()), Disk(), i, n)
        && r.value == Slot(Disk(), i, n) && ValidDataBlock(sb, r.value) && r.value < |blocks|
      ensures n >= MAXFILE ==> r == Ok(0) && Disk() == old(Disk())
      ensures r.Fatal? <==> FreeBlocks(old(Disk())) < Missing(old(Disk()), i, n)
      ensures r.Ok? ==> FreeBlocks(Disk()) == FreeBlocks(old(Disk())) - Missing(old(Disk()), i, n)
    {
      hide Owned, OthersUntouched, SameBytes, Mapped, Slot, FreeBlocks;
      ghost var d := Disk();
      NothingDone(d, i, 0);
      if n < NDIRECT {
        r := FillSlot(i, n);
        if r.Ok? {
          MappedNext(d, d, Disk(), i, n);
        }
        return;
      }
      if n - NDIRECT >= NINDIRECT {
        return Ok(0);
      }
      SlotKept(d, i, n);
      r := FillSlot(i, MAXFILE);
      if r.Fatal? {
        return;
      }
      ghost var e := Disk();
      SlotKept(e, i, MAXFILE);
      MappedNext(d, d, e, i, MAXFILE);
      r := FillSlot(i, n);
      OnlyBlocksOfTransitive(d, e, Disk(), i);
      SameBytesTransitive(d, e, Disk(), i);
      if r.Ok? {
        MappedNext(d, e, Disk(), i, n);
      }
    }

    /** One round of a copy loop: the block for offset `off`, then the bytes into it. */
    method WriteChunk(i: nat, off: nat, bytes: seq<Byte>, ghost c: nat) returns (r: Outcome<nat>)
      requires Owned(Disk()) && i < |inodes| && HasData(inodes[i]) && Dense(Disk(), i, c)
      requires off / BSIZE <= c && off < MAXFILE * BSIZE && off % BSIZE + |bytes| <= BSIZE
      modifies this
      ensures Owned(Disk()) && OnlyBlocksOf(old(Disk()), Disk(), i)
      ensures r.Ok? ==> ValidDataBlock(sb, r.value)
      ensures r.Ok? ==> BytesPatched(old(Disk()), Disk(), i, off, bytes)
      ensures r.Ok? ==> Dense(Disk(), i, if off / BSIZE < c then c else off / BSIZE + 1)
      ensures r.Fatal? ==> SameBytes(old(Disk()), Disk(), i)
      ensures var c' := if off / BSIZE < c then c else off / BSIZE + 1;
        && (r.Fatal? <==> FreeBlocks(old(Disk())) + WithIndirect(c) < WithIndirect(c'))
        && (r.Ok? ==> FreeBlocks(Disk()) + WithIndirect(c') == FreeBlocks(old(Disk())) + WithIndirect(c))
      ensures off / BSIZE < c ==> r.Ok? && used == old(used) && owner == old(owner) && inodes == old(inodes)
    {
      hide Owned, Mapped, OthersUntouched, FreeIn, WithIndirect, Missing;
      ghost var d := Disk();
      MissingOfDense(d, i, off / BSIZE, c);
      r := BMap(i, off / BSIZE);
      if r.Fatal? {
        return;
      }
      ghost var e := Disk();
      DenseAfterMap(d, e, i, off / BSIZE, c);
      var b := r.value;
      blocks := blocks[b := Spliced(blocks[b], off % BSIZE, bytes)];
      PokeEffect(e, i, off, bytes, if off / BSIZE < c then c else off / BSIZE + 1);
      assert Disk() == PokedAt(e, i, off, bytes);
      OnlyBlocksOfTransitive(d, e, Disk(), i);
    }

    /** One round of iread: the block for offset `off`, then `m` bytes from it. */
    method ReadChunk(i: nat, off: nat, m: nat) returns (bytes: seq<Byte>)
      requires Owned(Disk()) && i < |inodes| && HasData(inodes[i]) && inodes[i].size <= MAXFILE * BSIZE
      requires Dense(Disk(), i, NBlocks(inodes[i].size))
      requires 1 <= m && off + m <= inodes[i].size && off % BSIZE + m <= BSIZE
      modifies this
      ensures Disk() == old(Disk())
      ensures bytes == Content(Disk(), i)[off..off + m]
    {
      hide Owned, Content;
      var b := BMap(i, off / BSIZE);
      ChunkIsContent(Disk(), i, off, m);
      bytes := blocks[b.value][off % BSIZE..off % BSIZE + m];
    }

    method IRead(i: nat, n: nat, off: nat) returns (r: int, data: seq<Byte>)
      requires Sound(Disk()) && i < |inodes| && inodes[i].typ != 0 && n < UINT_LIMIT && off < UINT_LIMIT
      modifies this
      ensures Disk() == old(Disk())
      ensures inodes[i].typ == T_DEV || off > inodes[i].size || off + n >= UINT_LIMIT ==> r == -1 && data == []
      ensures inodes[i].typ != T_DEV && off <= inodes[i].size && off + n < UINT_LIMIT ==>
        && inodes[i].size <= MAXFILE * BSIZE
        && r == Min(n, inodes[i].size - off)
        && data == Content(Disk(), i)[off..off + r]
    {
      hide Sound, Owned, Content, Dense;
      data := [];
      if inodes[i].typ == T_DEV {
        return -1, [];
      }
      if off > inodes[i].size || (off + n) % UINT_LIMIT < off {
        return -1, [];
      }
      SoundFile(Disk(), i);
      var n' := if off + n > inodes[i].size then inodes[i].size - off else n;
      var t := 0;
      while t < n'
        invariant Disk() == old(Disk()) && t <= n' && off + n' <= inodes[i].size
        invariant data == Content(Disk(), i)[off..off + t]
      {
        var at := off + t;
        var m := Min(n' - t, BSIZE - at % BSIZE);
        var chunk := ReadChunk(i, at, m);
        data := data + chunk;
        t := t + m;
      }
      r := t;
    }

    /** The copy loop of iwrite, and of itruncate when it grows a file. */
    method WriteAll(i: nat, buf: seq<Byte>, off: nat) returns (r: Outcome<nat>)
      requires Owned(Disk()) && i < |inodes| && HasData(inodes[i])
      requires off <= inodes[i].size <= MAXFILE * BSIZE && off + |buf| <= MAXFILE * BSIZE
      requires Dense(Disk(), i, NBlocks(inodes[i].size))
      modifies this
      ensures Owned(Disk()) && OnlyBlocksOf(old(Disk()), Disk(), i)
      ensures r.Ok? ==> r.value == |buf| && BytesPatched(old(Disk()), Disk(), i, off, buf)
      ensures r.Ok? ==> Dense(Disk(), i, NBlocks(Max(inodes[i].size, off + |buf|)))
      ensures Grows(old(Disk()), Disk(), old(inodes)[i].size, Max(old(inodes)[i].size, off + |buf|), r.Ok?)
      ensures off + |buf| <= inodes[i].size ==>
        r.Ok? && used == old(used) && owner == old(owner) && inodes == old(inodes)
    {
      hide Owned, Dense, OthersUntouched, BytesPatched, NBlocks, FreeBlocks, WithIndirect;
      ghost var d := Disk();
      NothingDone(d, i, off);
      var n, t, at := |buf|, 0, off;
      ghost var c := NBlocks(inodes[i].size);
      assert buf[..0] == [];
      while t < n
        invariant t <= n && at == off + t && Owned(Disk())
        invariant OnlyBlocksOf(d, Disk(), i) && BytesPatched(d, Disk(), i, off, buf[..t])
        invariant c == NBlocks(Max(d.inodes[i].size, at)) && Dense(Disk(), i, c)
        invariant FreeBlocks(Disk()) + WithIndirect(c) == FreeBlocks(d) + Footprint(d.inodes[i].size)
        invariant off + n <= d.inodes[i].size ==> used == d.used && owner == d.owner && inodes == d.inodes
      {
        var m := Min(n - t, BSIZE - at % BSIZE);
        ghost var e := Disk();
        BlocksAfter(d.inodes[i].size, at, m);
        var b := WriteChunk(i, at, buf[t..t + m], c);
        OnlyBlocksOfTransitive(d, e, Disk(), i);
        if b.Fatal? {
          FootprintGrows(Max(d.inodes[i].size, at + m), Max(d.inodes[i].size, off + n));
          return Fatal;
        }
        PatchesJoin(d, e, Disk(), i, off, buf, t, m);
        t, at := t + m, at + m;
        c := NBlocks(Max(d.inodes[i].size, at));
      }
      assert buf[..t] == buf;
      r := Ok(t);
    }

    method IWrite(i: nat, buf: seq<Byte>, off: nat) returns (r: Outcome<int>)
      requires Sound(Disk()) && i < |inodes| && inodes[i].typ != 0 && |buf| < UINT_LIMIT && off < UINT_LIMIT
      modifies this
      ensures Owned(Disk()) && OthersUntouched(old(Disk()), Disk(), i)
      ensures r.Ok? ==> Sound(Disk())
      ensures inodes[i] == old(inodes)[i].(addrs := inodes[i].addrs, size := inodes[i].size)
      ensures !Writable(old(inodes)[i], off, |buf|) ==> r == Ok(-1) && Disk() == old(Disk())
      ensures Writable(old(inodes)[i], off, |buf|) && r.Ok? ==>
        && r.value == |buf| && old(inodes)[i].size <= MAXFILE * BSIZE && inodes[i].size <= MAXFILE * BSIZE
        && Content(Disk(), i) == Overwritten(Content(old(Disk()), i), off, buf)
        && inodes[i].size == Max(old(inodes)[i].size, off + |buf|)
      ensures Writable(old(inodes)[i], off, |buf|) ==>
        Grows(old(Disk()), Disk(), old(inodes)[i].size, Max(old(inodes)[i].size, off + |buf|), r.Ok?)
      ensures off + |buf| <= old(inodes)[i].size ==>
        r.Ok? && used == old(used) && owner == old(owner) && inodes == old(inodes)
    {
      hide Sound, Owned, Content, Dense, OthersUntouched, BytesPatched, Footprint, FreeIn;
      ghost var d := Disk();
      NothingDone(d, i, off);
      if inodes[i].typ == T_DEV {
        return Ok(-1);
      }
      if off > inodes[i].size || (off + |buf|) % UINT_LIMIT < off || (off + |buf|) % UINT_LIMIT > MAXFILE * BSIZE {
        return Ok(-1);
      }
      SoundFile(d, i);
      var t := WriteAll(i, buf, off);
      if t.Fatal? {
        return Fatal;
      }
      var at := off + t.value;
      Resize(i, if t.value > 0 && at > inodes[i].size then at else inodes[i].size, d, off, buf);
      PatchedContent(d, Disk(), i, off, buf);
      r := Ok(t.value);
    }

    /** The new size, after the bytes up to it are in place. */
    method Resize(i: nat, size: nat, ghost d: FsDisk.Disk, ghost off: nat, ghost bytes: seq<Byte>)
      requires Owned(Disk()) && i < |inodes| && size <= MAXFILE * BSIZE && Dense(Disk(), i, NBlocks(size))
      requires Sound(d) && OnlyBlocksOf(d, Disk(), i) && BytesPatched(d, Disk(), i, off, bytes)
      modifies this
      ensures Sound(Disk()) && Owned(Disk()) && OthersUntouched(d, Disk(), i) && BytesPatched(d, Disk(), i, off, bytes)
      ensures inodes == old(inodes)[i := old(inodes)[i].(size := size)]
      ensures used == old(used) && owner == old(owner)
    {
      hide Sound, Owned, Dense, OthersUntouched, BytesPatched;
      ghost var e := Disk();
      SizeEffect(e, i, size, NBlocks(size));
      inodes := inodes[i := inodes[i].(size := size)];
      assert Disk() == WithSize(e, i, size);
      OthersUntouchedTransitive(d, e, Disk(), i);
      SameThenPatched(d, e, Disk(), i, off, bytes);
      SoundAgain(d, Disk(), i);
    }

    /** Returning the block in a slot. */
    method FreeSlot(i: nat, k: nat)
      requires Owned(Disk()) && Droppable(Disk(), i, k)
      modifies this
      ensures Disk() == Dropped(old(Disk()), i, k)
    {
      hide Owned;
      ghost var d := Disk();
      OwnedIsShaped(d);
      SlotIsOwned(d, i, k);
      var ia := inodes[i].addrs[NDIRECT];
      var b := if k < NDIRECT then inodes[i].addrs[k] else if k == MAXFILE then ia else Word(blocks[ia], k - NDIRECT);
      var freed := BFree(b);
      owner := owner - {b};
      if k < NDIRECT {
        inodes := inodes[i := SetAddr(inodes[i], k, 0)];
      } else if k == MAXFILE {
        inodes := inodes[i := SetAddr(inodes[i], NDIRECT, 0)];
      } else {
        blocks := blocks[ia := SetWord(blocks[ia], k - NDIRECT, 0)];
      }
    }

    /** One round of itruncate's loops: a slot of the file as it was in `d`, with those in `gone` given back already. */
    method DropSlot(i: nat, k: nat, ghost d: FsDisk.Disk, ghost gone: set<nat>)
      requires Owned(Disk()) && i < |inodes| && HasData(inodes[i]) && k <= MAXFILE
      requires OnlyBlocksOf(d, Disk(), i) && SlotsGone(d, Disk(), i, gone)
      requires k !in gone && Slot(d, i, k) != 0
      requires k == MAXFILE ==> forall k' | NDIRECT <= k' < MAXFILE :: k' in gone || Slot(d, i, k') == 0
      modifies this
      ensures Owned(Disk()) && OnlyBlocksOf(d, Disk(), i) && SlotsGone(d, Disk(), i, gone + {k})
      ensures FreeBlocks(Disk()) == FreeBlocks(old(Disk())) + 1
    {
      hide Owned, OthersUntouched, Dropped, Slot, FreeBlocks;
      SlotIsOwned(Disk(), i, k);
      DropEffect(d, Disk(), i, gone, k);
      FreeSlot(i, k);
    }

    /** itruncate gives back the direct blocks from `kd` to `nd`. */
    method CutDirect(i: nat, kd: nat, nd: nat) returns (ghost gone: set<nat>)
      requires Owned(Disk()) && i < |inodes| && HasData(inodes[i]) && kd <= nd <= NDIRECT
      requires forall k | kd <= k < nd :: Slot(Disk(), i, k) != 0
      modifies this
      ensures Owned(Disk()) && OnlyBlocksOf(old(Disk()), Disk(), i) && SlotsGone(old(Disk()), Disk(), i, gone)
      ensures forall s: nat :: s in gone <==> kd <= s < nd
      ensures FreeBlocks(Disk()) == FreeBlocks(old(Disk())) + nd - kd
    {
      hide Owned, OnlyBlocksOf, SlotsGone, Slot, FreeBlocks;
      ghost var d := Disk();
      NothingDone(d, i, 0);
      NothingGone(d, i);
      gone := {};
      for x := kd to nd
        invariant Owned(Disk()) && OnlyBlocksOf(d, Disk(), i) && SlotsGone(d, Disk(), i, gone)
        invariant forall s: nat :: s in gone <==> kd <= s < x
        invariant FreeBlocks(Disk()) == FreeBlocks(d) + x - kd
      {
        OnlyBlocksKeepsData(d, Disk(), i);
        DropSlot(i, x, d, gone);
        gone := gone + {x};
      }
    }

    /** itruncate gives back the indirect blocks from `ki` to `ni`, and the indirect block itself if none is kept. */
    method CutIndirect(i: nat, ki: nat, ni: nat, ghost d: FsDisk.Disk, ghost before: set<nat>)
      returns (ghost gone: set<nat>)
      requires Owned(Disk()) && i < |inodes| && HasData(inodes[i]) && ki <= ni <= NINDIRECT
      requires OnlyBlocksOf(d, Disk(), i) && SlotsGone(d, Disk(), i, before)
      requires forall s: nat | s in before :: s < NDIRECT
      requires forall k | NDIRECT <= k < MAXFILE :: Slot(d, i, k) != 0 <==> k < NDIRECT + ni
      requires Slot(d, i, MAXFILE) != 0
      modifies this
      ensures Owned(Disk()) && OnlyBlocksOf(d, Disk(), i) && SlotsGone(d, Disk(), i, gone)
      ensures forall s: nat ::
        s in gone <==> s in before || NDIRECT + ki <= s < NDIRECT + ni || (s == MAXFILE && ki == 0)
      ensures FreeBlocks(Disk()) == FreeBlocks(old(Disk())) + ni - ki + if ki == 0 then 1 else 0
    {
      hide Owned, OnlyBlocksOf, SlotsGone, Slot, FreeBlocks;
      OnlyBlocksKeepsData(d, Disk(), i);
      gone := before;
      for x := ki to ni
        invariant Owned(Disk()) && OnlyBlocksOf(d, Disk(), i) && SlotsGone(d, Disk(), i, gone)
        invariant forall s: nat :: s in gone <==> s in before || NDIRECT + ki <= s < NDIRECT + x
        invariant FreeBlocks(Disk()) == FreeBlocks(old(Disk())) + x - ki
      {
        OnlyBlocksKeepsData(d, Disk(), i);
        DropSlot(i, NDIRECT + x, d, gone);
        gone := gone + {NDIRECT + x};
      }
      if ki == 0 {
        OnlyBlocksKeepsData(d, Disk(), i);
        DropSlot(i, MAXFILE, d, gone);
        gone := gone + {MAXFILE};
      }
    }

    /** The branch of itruncate that cuts a file to `size` bytes. */
    method CutBlocks(i: nat, size: nat) returns (ghost gone: set<nat>)
      requires Sound(Disk()) && i < |inodes| && HasData(inodes[i]) && size < inodes[i].size
      modifies this
      ensures Owned(Disk()) && OnlyBlocksOf(old(Disk()), Disk(), i) && SlotsGone(old(Disk()), Disk(), i, gone)
      ensures Dense(Disk(), i, NBlocks(size))
      ensures forall k: nat | k < NBlocks(size) :: k !in gone
      ensures FreeBlocks(Disk()) + Footprint(size) == FreeBlocks(old(Disk())) + Footprint(old(inodes)[i].size)
    {
      hide Sound, Owned, OthersUntouched, SlotsGone, FreeBlocks;
      ghost var d := Disk();
      SoundFile(d, i);
      var n, k := NBlocks(inodes[i].size), NBlocks(size);
      var nd, kd := Min(n, NDIRECT), Min(k, NDIRECT);
      gone := CutDirect(i, kd, nd);
      if n > NDIRECT {
        gone := CutIndirect(i, Max(k - NDIRECT, 0), n - NDIRECT, d, gone);
      }
      DenseAfterCut(d, Disk(), i, gone, n, k);
    }

    /** Cutting or extending a file. A free inode may be named too, as long as its size is not to change. */
    method ITruncate(i: nat, size: nat) returns (r: Outcome<int>)
      requires Sound(Disk()) && i < |inodes| && (inodes[i].typ != 0 || size == inodes[i].size) && size < UINT_LIMIT
      modifies this
      ensures Owned(Disk()) && OthersUntouched(old(Disk()), Disk(), i)
      ensures r.Ok? ==> Sound(Disk())
      ensures old(inodes)[i].typ == T_DEV || size > MAXFILE * BSIZE ==> r == Ok(-1) && Disk() == old(Disk())
      ensures old(inodes)[i].typ != T_DEV && size <= MAXFILE * BSIZE && r.Ok? ==>
        && r.value == 0 && old(inodes)[i].size <= MAXFILE * BSIZE
        && inodes[i] == old(inodes)[i].(addrs := inodes[i].addrs, size := size)
        && Content(Disk(), i) == Resized(Content(old(Disk()), i), size)
      ensures old(inodes)[i].typ != T_DEV && size <= MAXFILE * BSIZE ==>
        Grows(old(Disk()), Disk(), old(inodes)[i].size, size, r.Ok?)
      ensures size <= old(inodes)[i].size ==> r.Ok?
      ensures size == old(inodes)[i].size ==> Disk() == old(Disk())
    {
      hide Sound, Owned, Content, Dense, OthersUntouched, BytesPatched, SlotsGone, Footprint, FreeIn;
      ghost var d := Disk();
      NothingDone(d, i, 0);
      if inodes[i].typ == T_DEV {
        return Ok(-1);
      }
      if size > MAXFILE * BSIZE {
        return Ok(-1);
      }
      if size < inodes[i].size {
        SoundFile(d, i);
        FootprintGrows(size, inodes[i].size);
        ghost var gone := CutBlocks(i, size);
        ghost var e := Disk();
        SizeEffect(e, i, size, NBlocks(size));
        inodes := inodes[i := inodes[i].(size := size)];
        assert Disk() == WithSize(e, i, size);
        OthersUntouchedTransitive(d, e, Disk(), i);
        SoundAgain(d, Disk(), i);
        GoneThenSame(d, e, Disk(), i, gone);
        CutContent(d, Disk(), i, gone, size);
      } else if inodes[i].size < size {
        SoundFile(d, i);
        var zeros := seq(size - inodes[i].size, _ => 0);
        var t := WriteAll(i, zeros, inodes[i].size);
        if t.Fatal? {
          return Fatal;
        }
        Resize(i, size, d, d.inodes[i].size, zeros);
        PatchedContent(d, Disk(), i, d.inodes[i].size, zeros);
        assert Overwritten(Content(d, i), d.inodes[i].size, zeros) == Resized(Content(d, i), size);
      } else {
        SoundIsOwned(d);
        SameLength(d, i);
        assert inodes[i := inodes[i].(size := size)] == inodes;
      }
      r := Ok(0);
    }
  }

  /**
   A file goes from `size` to `size'` bytes: no data block is lost, and it fails exactly if too few are
   free for the blocks it gains.
   */
  ghost predicate Grows(d: FsDisk.Disk, d': FsDisk.Disk, size: nat, size': nat, ok: bool) {
    && (ok <==> Footprint(size') <= FreeBlocks(d) + Footprint(size))
    && (ok ==> FreeBlocks(d') + Footprint(size') == FreeBlocks(d) + Footprint(size))
  }

  lemma SameLength(d: FsDisk.Disk, i: nat)
    requires i < |d.inodes| && d.inodes[i].size <= MAXFILE * BSIZE
    ensures Resized(Content(d, i), d.inodes[i].size) == Content(d, i)
  {
    hide ByteAt;
  }

  lemma FootprintGrows(size: nat, size': nat)
    requires size <= size'
    ensures Footprint(size) <= Footprint(size')
  {
  }

  function Min(x: int, y: int): int { if x < y then x else y }

  function Max(x: int, y: int): int { if x > y then x else y }

  /** The blocks a file of `size` bytes has once `m` bytes more are written from `at` on, within one block. */
  lemma BlocksAfter(size: nat, at: nat, m: nat)
    requires 1 <= m <= BSIZE - at % BSIZE
    ensures var c := NBlocks(Max(size, at));
            && at / BSIZE <= c && NBlocks(Max(size, at + m)) == (if at / BSIZE < c then c else at / BSIZE + 1)
            && (at + m <= size ==> at / BSIZE < c)
  {
  }

  /** The requests `iwrite` accepts. */
  predicate Writable(ino: Dinode, off: nat, n: nat) {
    ino.typ != T_DEV && off <= ino.size && off + n < UINT_LIMIT && off + n <= MAXFILE * BSIZE
  }
}
