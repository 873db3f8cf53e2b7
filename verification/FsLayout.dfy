/**
 Images written out as values. A layout gives the inodes and, for every directory, the inode numbers its
 entries name behind "." and ".."; no other inode has data. The parent of every directory is the root.
 */
module FsLayout {
  import opened FsDisk
  import opened FsLinks
  import opened FsImage
  import opened FsDir
  import opened FsUnlink
  import opened FsTree
  import opened FsCommands
  import opened FsReach
  import opened FsNames
  import opened FsGood

  // ----- the blocks of one file

  /** How many blocks are set aside for each directory: all data blocks and the indirect block. */
  const SPAN := MAXFILE + 1

  /** Whether a file with contents `c` has a block in slot `k`. */
  predicate Holds(c: seq<Byte>, k: nat) {
    if k == MAXFILE then NBlocks(|c|) > NDIRECT else k < NBlocks(|c|)
  }

  function SlotFor(base: nat, c: seq<Byte>, k: nat): nat { if Holds(c, k) then base + k else 0 }

  function AddrsFor(base: nat, c: seq<Byte>): Addrs {
    var addrs: seq<nat> :=
      seq(NDIRECT + 1, k => if 0 <= k < NDIRECT then SlotFor(base, c, k) else SlotFor(base, c, MAXFILE));
    addrs
  }

  /** Byte `o` of the number `v`. */
  function ByteOf(v: nat, o: nat): Byte {
    if o == 0 then v % 0x100
    else if o == 1 then v / 0x100 % 0x100
    else if o == 2 then v / 0x1_0000 % 0x100
    else v / 0x100_0000 % 0x100
  }

  function BlockFor(base: nat, c: seq<Byte>, k: nat): Block {
    if k == MAXFILE then seq(BSIZE, o requires 0 <= o < BSIZE => ByteOf(SlotFor(base, c, NDIRECT + o / 4), o % 4))
    else seq(BSIZE, o requires 0 <= o < BSIZE => if BSIZE * k + o < |c| then c[BSIZE * k + o] else 0)
  }

  lemma WordOfTable(base: nat, c: seq<Byte>, k: nat)
    requires k < NINDIRECT && base + MAXFILE < UINT_LIMIT
    ensures Word(BlockFor(base, c, MAXFILE), k) == SlotFor(base, c, NDIRECT + k)
  {
    hide SlotFor, BlockFor;
    var v := SlotFor(base, c, NDIRECT + k);
    SlotBound(base, c, NDIRECT + k);
    BytesOfWord(v);
    TableByte(base, c, k, 0);
    TableByte(base, c, k, 1);
    TableByte(base, c, k, 2);
    TableByte(base, c, k, 3);
  }

  lemma TableByte(base: nat, c: seq<Byte>, k: nat, o: nat)
    requires k < NINDIRECT && o < 4
    ensures BlockFor(base, c, MAXFILE)[4 * k + o] == ByteOf(SlotFor(base, c, NDIRECT + k), o)
  {
    hide SlotFor, ByteOf;
  }

  lemma SlotBound(base: nat, c: seq<Byte>, k: nat)
    ensures k <= MAXFILE ==> SlotFor(base, c, k) <= base + MAXFILE
  {
  }

  // ----- the entries of one directory

  datatype Layout = Layout(sb: Superblock, heads: seq<Dinode>, rows: seq<seq<nat>>)

  /** A name for entry `e`, different for all entries a directory can have. */
  function NameFor(e: nat): seq<Byte> {
    [65 + e / 100 % 100, 65 + e % 100]
  }

  function Tag(inum: nat, name: seq<Byte>): (bytes: seq<Byte>)
    ensures |bytes| == ENTRY
  {
    if 0 < inum < USHORT && |name| <= DIRSIZ then Encode(inum, name) else NoEntry()
  }

  /** The inode number in entry `e` of directory `i`, and the name. */
  function Number(i: nat, row: seq<nat>, e: nat): nat {
    if e == 0 then i else if e == 1 then ROOT else if e < |row| + 2 then row[e - 2] else 0
  }

  function Title(row: seq<nat>, e: nat): seq<Byte> {
    if e == 0 then DOT else if e == 1 then DOTDOT else if e < |row| + 2 && row[e - 2] != 0 then NameFor(e) else []
  }

  function Listing(i: nat, row: seq<nat>): (c: seq<Byte>)
    ensures |c| == ENTRY * (|row| + 2)
  {
    seq(ENTRY * (|row| + 2), j requires 0 <= j => Tag(Number(i, row, j / ENTRY), Title(row, j / ENTRY))[j % ENTRY])
  }

  lemma ListingEntry(i: nat, row: seq<nat>, e: nat)
    requires e < |row| + 2
    ensures EntryBytes(Listing(i, row), e) == Tag(Number(i, row, e), Title(row, e))
  {
    hide Tag, Number, Title;
    var bytes := Tag(Number(i, row, e), Title(row, e));
    forall o: nat | o < ENTRY ensures EntryBytes(Listing(i, row), e)[o] == bytes[o] {
      assert (ENTRY * e + o) / ENTRY == e && (ENTRY * e + o) % ENTRY == o;
    }
  }

  lemma TagDecodes(i: nat, row: seq<nat>, e: nat)
    requires 0 < i < USHORT && forall k: nat | k < |row| :: row[k] < USHORT
    ensures var bytes := Tag(Number(i, row, e), Title(row, e));
            DecodeInum(bytes) == Number(i, row, e) && DecodeName(bytes) == Title(row, e)
  {
    hide DecodeInum, DecodeName, Encode, NoEntry;
    NoEntryIsEmpty();
    EncodeDecode(Number(i, row, e), Title(row, e));
  }

  // ----- the image

  function Data(l: Layout, i: nat): seq<Byte> {
    if i < |l.heads| && i < |l.rows| && IsDir(l.heads[i]) then Listing(i, l.rows[i]) else []
  }

  /** Where the blocks of inode `i` begin. */
  function Base(l: Layout, i: nat): nat { FirstData(l.sb) + if i == 0 then 0 else Product(i - 1, SPAN) }

  function Product(q: nat, s: nat): (r: nat)
    ensures q == 0 ==> r == 0
  {
    if q == 0 then 0 else Product(q - 1, s) + s
  }

  lemma {:induction false} ProductIs(q: nat, s: nat)
    ensures Product(q, s) == q * s
  {
    if q > 0 {
      ProductIs(q - 1, s);
    }
  }

  function Inode(l: Layout, i: nat): Dinode
    requires i < |l.heads|
  {
    l.heads[i].(size := |Data(l, i)|, addrs := AddrsFor(Base(l, i), Data(l, i)))
  }

  /** The slot a data block is set aside for. */
  function Place(l: Layout, b: nat): Ref
    requires FirstData(l.sb) <= b
  {
    var x: nat := b - FirstData(l.sb);
    DivBack(x, SPAN);
    Ref(x / SPAN + 1, x % SPAN)
  }

  /** Whether block `b` is in use. */
  predicate InUse(l: Layout, b: nat) {
    FirstData(l.sb) <= b && Holds(Data(l, Place(l, b).inum), Place(l, b).slot)
  }

  function Stored(l: Layout, b: nat): Block {
    if InUse(l, b) then BlockFor(Base(l, Place(l, b).inum), Data(l, Place(l, b).inum), Place(l, b).slot) else Zeros()
  }

  function Built(l: Layout): Disk {
    Disk(l.sb,
         seq(l.sb.size, b requires 0 <= b < l.sb.size => b < FirstData(l.sb) || InUse(l, b)),
         seq(l.sb.size, b requires 0 <= b < l.sb.size => Stored(l, b)),
         seq(|l.heads|, i requires 0 <= i < |l.heads| => Inode(l, i)),
         map b: nat | b < l.sb.size && InUse(l, b) :: Place(l, b))
  }

  /** The blocks of every directory fit, and inode 0 is free. */
  ghost predicate Feasible(l: Layout) {
    && FirstData(l.sb) + l.sb.nblocks <= l.sb.size < UINT_LIMIT
    && |l.heads| == |l.rows| == l.sb.ninodes <= USHORT && 2 <= |l.heads| && l.heads[0].typ == 0 && IsDir(l.heads[1])
    && (forall i: nat :: |Data(l, i)| <= MAXFILE * BSIZE)
    && forall i: nat, k: nat | k <= MAXFILE && Holds(Data(l, i), k) ::
         Base(l, i) + k < FirstData(l.sb) + l.sb.nblocks
  }

  lemma DivMod(q: nat, s: nat, k: nat)
    requires k < s
    ensures (Product(q, s) + k) / s == q && (Product(q, s) + k) % s == k
  {
    var x := Product(q, s) + k;
    var a := x / s;
    DivBack(x, s);
    ProductIs(q, s);
    ProductIs(a, s);
    if a < q {
      ProductStep(a + 1, q, s);
    } else if q < a {
      ProductStep(q + 1, a, s);
    }
  }

  lemma {:induction false} ProductStep(a: nat, b: nat, s: nat)
    requires a <= b
    ensures Product(a, s) <= Product(b, s)
  {
    if a < b {
      ProductStep(a, b - 1, s);
    }
  }

  lemma PlaceOf(l: Layout, i: nat, k: nat)
    requires 1 <= i && k <= MAXFILE
    ensures FirstData(l.sb) <= Base(l, i) + k && Place(l, Base(l, i) + k) == Ref(i, k)
  {
    DivMod(i - 1, SPAN, k);
  }

  lemma PlaceBack(l: Layout, b: nat)
    requires FirstData(l.sb) <= b
    ensures var r := Place(l, b); 1 <= r.inum && r.slot <= MAXFILE && Base(l, r.inum) + r.slot == b
  {
    hide FirstData;
    DivBack(b - FirstData(l.sb), SPAN);
    ProductIs((b - FirstData(l.sb)) / SPAN, SPAN);
  }

  lemma DivBack(x: nat, s: nat)
    requires s > 0
    ensures x / s * s + x % s == x && x % s < s && x / s >= 0
  {
  }

  lemma DataOfDir(l: Layout, i: nat)
    requires Feasible(l) && Data(l, i) != []
    ensures 1 <= i < |l.heads| && HasData(l.heads[i])
  {
    hide Listing;
  }

  lemma HoldsSome(c: seq<Byte>, k: nat)
    requires Holds(c, k)
    ensures c != []
  {
  }

  /** A block in use is the one laid out for its slot. */
  lemma HoldsWhere(l: Layout, i: nat, k: nat)
    requires Feasible(l) && k <= MAXFILE && Holds(Data(l, i), k)
    ensures 1 <= i < |l.heads| && HasData(l.heads[i])
    ensures var b := Base(l, i) + k;
            && 0 < b < l.sb.size < UINT_LIMIT && ValidDataBlock(l.sb, b) && InUse(l, b) && Place(l, b) == Ref(i, k)
            && Stored(l, b) == BlockFor(Base(l, i), Data(l, i), k)
  {
    hide Holds, Data, Place, Base, BlockFor;
    HoldsSome(Data(l, i), k);
    DataOfDir(l, i);
    PlaceOf(l, i, k);
  }

  lemma BuiltBlock(l: Layout, b: nat)
    requires b < l.sb.size
    ensures |Built(l).blocks| == l.sb.size && Built(l).blocks[b] == Stored(l, b)
  {
    hide Stored, InUse;
  }

  lemma BuiltInode(l: Layout, i: nat)
    requires i < |l.heads|
    ensures |Built(l).inodes| == |l.heads| && Built(l).inodes[i] == Inode(l, i)
  {
    hide Inode, InUse, Stored;
  }

  /** Every slot of every inode is what the layout says. */
  lemma BuiltSlot(l: Layout, i: nat, k: nat)
    requires Feasible(l) && i < |l.heads| && k <= MAXFILE
    ensures |Built(l).inodes| == |l.heads| && Slot(Built(l), i, k) == SlotFor(Base(l, i), Data(l, i), k)
  {
    hide Holds, FirstData, Word, Slot, Built, Feasible, Data, Base;
    BuiltInode(l, i);
    SlotKept(Built(l), i, k);
    SlotKept(Built(l), i, MAXFILE);
    if NDIRECT <= k < MAXFILE {
      NoIndirect(Data(l, i), k);
      if Holds(Data(l, i), MAXFILE) {
        BuiltWord(l, i, k);
      }
    }
  }

  lemma BuiltWord(l: Layout, i: nat, k: nat)
    requires Feasible(l) && i < |l.heads| && NDIRECT <= k < MAXFILE && Holds(Data(l, i), MAXFILE)
    ensures 0 < Base(l, i) + MAXFILE < |Built(l).blocks|
    ensures Word(Built(l).blocks[Base(l, i) + MAXFILE], k - NDIRECT) == SlotFor(Base(l, i), Data(l, i), k)
  {
    hide Holds, Word, Stored, BlockFor, InUse, Place, Data, Built, Feasible, SlotFor, Base;
    HoldsWhere(l, i, MAXFILE);
    BuiltBlock(l, Base(l, i) + MAXFILE);
    WordOfTable(Base(l, i), Data(l, i), k - NDIRECT);
  }

  lemma NoIndirect(c: seq<Byte>, k: nat)
    requires NDIRECT <= k < MAXFILE
    ensures Holds(c, k) ==> Holds(c, MAXFILE)
  {
  }

  lemma BuiltOwned(l: Layout)
    requires Feasible(l)
    ensures Owned(Built(l))
  {
    hide Owned, Slot, Feasible, Built, InUse, Place;
    var d := Built(l);
    BuiltShaped(l);
    forall b | b in d.owner ensures OwnsRight(d, b) {
      BuiltOwner(l, b);
    }
    forall i: nat, k: nat | i < |d.inodes| && HasData(d.inodes[i]) && k <= MAXFILE ensures SlotOwned(d, i, k) {
      BuiltSlotOwned(l, i, k);
    }
    OwnedFrom(d);
  }

  lemma BuiltShaped(l: Layout)
    requires Feasible(l)
    ensures Shaped(Built(l)) && MetaUsed(Built(l)) && |Built(l).inodes| == |l.heads|
    ensures forall b: nat | b < |Built(l).used| && ValidDataBlock(l.sb, b) && Built(l).used[b] :: b in Built(l).owner
    ensures Built(l).sb == l.sb
  {
    hide InUse, Stored, Inode, Data, Base, Holds, Place;
  }

  lemma BuiltOwner(l: Layout, b: nat)
    requires Feasible(l) && b in Built(l).owner
    ensures OwnsRight(Built(l), b)
  {
    hide Slot, Holds, Data, Base, Feasible, Place, Stored;
    OwnerIn(l, b);
    PlaceBack(l, b);
    var r := Place(l, b);
    HoldsWhere(l, r.inum, r.slot);
    BuiltSlot(l, r.inum, r.slot);
    BuiltInode(l, r.inum);
    UsedBit(l, b);
  }

  lemma OwnerIn(l: Layout, b: nat)
    requires b in Built(l).owner
    ensures b < l.sb.size && InUse(l, b) && FirstData(l.sb) <= b && Built(l).owner[b] == Place(l, b)
  {
    hide Holds, Data, Place, Stored, Inode;
  }

  lemma UsedBit(l: Layout, b: nat)
    requires b < l.sb.size && InUse(l, b)
    ensures |Built(l).used| == l.sb.size && Built(l).used[b]
  {
    hide InUse, Stored, Inode;
  }

  lemma BuiltSlotOwned(l: Layout, i: nat, k: nat)
    requires Feasible(l) && i < |l.heads| && k <= MAXFILE
    ensures |Built(l).inodes| == |l.heads| && SlotOwned(Built(l), i, k)
  {
    hide Slot, Holds, Data, Base, Feasible, Built, InUse, Place, Stored;
    BuiltSlot(l, i, k);
    if Holds(Data(l, i), k) {
      HoldsWhere(l, i, k);
      OwnerOf(l, Base(l, i) + k);
    }
  }

  lemma OwnerOf(l: Layout, b: nat)
    requires b < l.sb.size && InUse(l, b)
    ensures FirstData(l.sb) <= b && b in Built(l).owner && Built(l).owner[b] == Place(l, b)
  {
    hide Holds, Data, Place, Stored, Inode;
  }

  /** Directories read back as planned. */
  lemma BuiltContent(l: Layout, i: nat)
    requires Feasible(l) && i < |l.heads|
    ensures |Built(l).inodes| == |l.heads| && Built(l).inodes[i] == Inode(l, i) && |Data(l, i)| <= MAXFILE * BSIZE
    ensures Content(Built(l), i) == Data(l, i)
  {
    hide Slot, Holds, BlockFor, Feasible, Built, Data, ByteAt;
    var d := Built(l);
    FeasibleSizes(l, i);
    BuiltInode(l, i);
    forall j: nat | j < |Data(l, i)| ensures ByteAt(d, i, j) == Data(l, i)[j] {
      BuiltByte(l, i, j);
    }
  }

  lemma FeasibleSizes(l: Layout, i: nat)
    requires Feasible(l)
    ensures |Data(l, i)| <= MAXFILE * BSIZE
  {
    hide Data, Holds, Base;
  }

  lemma BuiltByte(l: Layout, i: nat, j: nat)
    requires Feasible(l) && i < |l.heads| && j < |Data(l, i)| <= MAXFILE * BSIZE
    ensures |Built(l).inodes| == |l.heads| && ByteAt(Built(l), i, j) == Data(l, i)[j]
  {
    hide Slot, Stored, FirstData, InUse, Place, Data, Base, Holds, Built, Feasible;
    var k := j / BSIZE;
    ByteHeld(Data(l, i), j);
    BuiltInode(l, i);
    HoldsWhere(l, i, k);
    BuiltBlock(l, Base(l, i) + k);
    BuiltSlot(l, i, k);
  }

  lemma ByteHeld(c: seq<Byte>, j: nat)
    requires j < |c| <= MAXFILE * BSIZE
    ensures j / BSIZE < MAXFILE && Holds(c, j / BSIZE) && BSIZE * (j / BSIZE) + j % BSIZE == j
  {
  }

  lemma BuiltSound(l: Layout)
    requires Feasible(l)
    ensures Sound(Built(l))
  {
    hide Owned, Neat, Feasible, Built;
    BuiltOwned(l);
    BuiltShaped(l);
    forall i: nat | i < |Built(l).inodes| ensures Neat(Built(l), i) {
      BuiltNeat(l, i);
    }
  }

  lemma BuiltNeat(l: Layout, i: nat)
    requires Feasible(l) && i < |l.heads|
    ensures |Built(l).inodes| == |l.heads| && Neat(Built(l), i)
  {
    hide Slot, Feasible, Built, FirstData, NBlocks, Data, Base;
    var d := Built(l);
    FeasibleSizes(l, i);
    BuiltInode(l, i);
    BlocksBound(|Data(l, i)|);
    BaseIsPositive(l, i);
    forall k: nat | k <= MAXFILE ensures Slot(d, i, k) != 0 <==> Holds(Data(l, i), k) {
      BuiltSlot(l, i, k);
    }
  }

  lemma BlocksBound(size: nat)
    requires size <= MAXFILE * BSIZE
    ensures NBlocks(size) <= MAXFILE
  {
  }

  lemma BaseIsPositive(l: Layout, i: nat)
    ensures Base(l, i) > 0
  {
  }

  // ----- what makes a layout a good image

  /** How many of the first `n` numbers are `x`. */
  function CountRow(row: seq<nat>, x: nat, n: nat): nat
    requires n <= |row|
  {
    if n == 0 then 0 else CountRow(row, x, n - 1) + One(row[n - 1] == x)
  }

  /** The links to `x` from the directories among the first `n` inodes. */
  function Tally(l: Layout, x: nat, n: nat): nat
    requires n <= |l.heads| == |l.rows|
  {
    if n == 0 then 0
    else Tally(l, x, n - 1)
         + if IsDir(l.heads[n - 1]) then One(x == ROOT) + CountRow(l.rows[n - 1], x, |l.rows[n - 1]|) else 0
  }

  /** An entry of directory `i` may name inode `v`: none, or a live one, and directories from the root only. */
  predicate MayName(l: Layout, i: nat, v: nat) {
    && v < |l.heads| && v != ROOT
    && (v != 0 ==> l.heads[v].typ != 0 && (IsDir(l.heads[v]) ==> i == ROOT))
  }

  ghost predicate ListedAt(row: seq<nat>, x: nat, k: nat) {
    k < |row| && row[k] == x && forall m: nat | m < |row| && row[m] == x :: m == k
  }

  ghost predicate Laid(l: Layout) {
    && Feasible(l)
    && (forall i: nat, k: nat | i < |l.rows| && IsDir(l.heads[i]) && k < |l.rows[i]| :: MayName(l, i, l.rows[i][k]))
    && (forall x: nat | ROOT < x < |l.heads| && IsDir(l.heads[x]) :: exists k: nat :: ListedAt(l.rows[ROOT], x, k))
    && forall x: nat | x < |l.heads| && l.heads[x].typ != 0 :: l.heads[x].nlink == Tally(l, x, |l.heads|)
  }

  ghost predicate LaidDir(l: Layout, i: nat) {
    i < |l.heads| && IsDir(l.heads[i])
  }

  function Row(l: Layout, i: nat): seq<nat> { if i < |l.rows| then l.rows[i] else [] }

  lemma LaidRow(l: Layout, i: nat)
    requires Laid(l) && LaidDir(l, i)
    ensures 0 < i < |l.heads| == |l.rows| && i < USHORT && Data(l, i) == Listing(i, Row(l, i))
    ensures |Row(l, i)| + 2 <= MAXFILE * BSIZE / ENTRY
    ensures forall k: nat | k < |Row(l, i)| :: MayName(l, i, Row(l, i)[k]) && Row(l, i)[k] < USHORT
  {
    hide Listing, Tally, ListedAt, Base, Holds;
    FeasibleSizes(l, i);
    assert |Data(l, i)| == ENTRY * (|Row(l, i)| + 2);
  }

  lemma LaidInode(l: Layout, i: nat)
    requires Laid(l)
    ensures |Built(l).inodes| == |l.heads| <= USHORT && 2 <= |l.heads| == |l.rows| && LaidDir(l, ROOT) && !LaidDir(l, 0)
    ensures l.heads[0].typ == 0 && (Dir(Built(l), i) <==> LaidDir(l, i))
    ensures LaidDir(l, i) ==>
      && DirBytes(Built(l), i) == Listing(i, Row(l, i))
      && Built(l).inodes[i].size == ENTRY * (|Row(l, i)| + 2) <= MAXFILE * BSIZE
    ensures i < |l.heads| ==>
      Built(l).inodes[i].typ == l.heads[i].typ && Built(l).inodes[i].nlink == l.heads[i].nlink
    ensures i < |l.heads| && !LaidDir(l, i) ==> DirBytes(Built(l), i) == []
  {
    hide Listing, Tally, ListedAt, Built, Data, Base, Holds, AddrsFor;
    BuiltInode(l, 0);
    if i < |l.heads| {
      BuiltContent(l, i);
      if LaidDir(l, i) {
        LaidRow(l, i);
      }
    }
  }

  lemma LaidTarget(l: Layout, i: nat, e: nat)
    requires Laid(l)
    ensures Target(Built(l), i, e) == if LaidDir(l, i) then Number(i, Row(l, i), e) else 0
    ensures Label(Built(l), i, e) == if LaidDir(l, i) then Title(Row(l, i), e) else []
  {
    hide Laid, Listing, Built, Tag, NoEntry, EntryBytes, DecodeInum, DecodeName, NameFor, MayName;
    LaidInode(l, i);
    NoEntryIsEmpty();
    if LaidDir(l, i) {
      LaidRow(l, i);
      TagDecodes(i, Row(l, i), e);
      if e < |Row(l, i)| + 2 {
        ListingEntry(i, Row(l, i), e);
      }
    } else {
      NoCells(Built(l), i, e);
      NoLabel(Built(l), i, e);
    }
  }

  lemma {:induction false} ListingCount(i: nat, row: seq<nat>, x: nat, n: nat)
    requires 0 < i < USHORT && 0 < x && n <= |row| + 2 && forall k: nat | k < |row| :: row[k] < USHORT
    ensures CountTo(Listing(i, row), x, n) == One(n > 1 && x == ROOT) + if n > 2 then CountRow(row, x, n - 2) else 0
  {
    hide Listing, EntryBytes, DecodeInum, DecodeName, Tag;
    if n > 0 {
      ListingCount(i, row, x, n - 1);
      ListingEntry(i, row, n - 1);
      TagDecodes(i, row, n - 1);
    }
  }

  lemma ListingTotal(i: nat, row: seq<nat>, x: nat)
    requires 0 < i < USHORT && 0 < x && forall k: nat | k < |row| :: row[k] < USHORT
    ensures Count(Listing(i, row), x) == One(x == ROOT) + CountRow(row, x, |row|)
  {
    hide Listing, CountTo;
    ListingLength(i, row);
    ListingCount(i, row, x, |row| + 2);
  }

  lemma ListingLength(i: nat, row: seq<nat>)
    ensures |Listing(i, row)| == ENTRY * (|row| + 2) && |Listing(i, row)| / ENTRY == |row| + 2
  {
  }

  lemma {:induction false} LaidLinks(l: Layout, x: nat, n: nat)
    requires Laid(l) && 0 < x && n <= |l.heads| == |l.rows| == |Built(l).inodes|
    ensures LinksUpTo(Built(l), x, n) == Tally(l, x, n)
  {
    hide Laid, Listing, Built, Count, CountRow, DirBytes, LinksUpTo, MayName;
    LinksUpToStep(Built(l), x, n);
    if n > 0 {
      LaidLinks(l, x, n - 1);
      LaidInode(l, n - 1);
      if LaidDir(l, n - 1) {
        LaidRow(l, n - 1);
        ListingTotal(n - 1, Row(l, n - 1), x);
      } else {
        CountNone(x);
      }
    }
  }

  lemma CountNone(x: nat)
    ensures Count([], x) == 0
  {
  }

  lemma LaidIsTree(l: Layout)
    requires Laid(l)
    ensures Tree(Built(l), 0)
  {
    hide Feasible, Built, Sound, DirsOk, LinksUpTo, Tally, ListedAt, MayName;
    var d := Built(l);
    BuiltSound(l);
    LaidDirs(l);
    LaidInode(l, 0);
    forall x: nat | x < |d.inodes| ensures LinkCountOk(d, x, 0) {
      LaidInode(l, x);
      if x > 0 {
        LaidLinks(l, x, |l.heads|);
      }
    }
    TreeFromCounts(d, 0);
  }

  lemma LaidDirs(l: Layout)
    requires Laid(l)
    ensures DirsOk(Built(l))
  {
    hide Laid, Built, DirOk;
    var d := Built(l);
    LaidInode(l, 0);
    forall i: nat | i < |d.inodes| && IsDir(d.inodes[i]) ensures DirOk(d, i) {
      LaidInode(l, i);
      LaidDirOk(l, i);
    }
  }

  lemma LaidDirOk(l: Layout, i: nat)
    requires Laid(l) && LaidDir(l, i) && i < |Built(l).inodes|
    ensures DirOk(Built(l), i)
  {
    hide Laid, Built, Listing, EntryBytes, EntryOk;
    var d := Built(l);
    LaidInode(l, i);
    forall e: nat | ENTRY * e + ENTRY <= d.inodes[i].size ensures EntryOk(d, i, EntryBytes(Content(d, i), e)) {
      LaidEntryOk(l, i, e);
      ListingEntry(i, Row(l, i), e);
    }
  }

  lemma LaidEntryOk(l: Layout, i: nat, e: nat)
    requires Laid(l) && LaidDir(l, i) && e < |Row(l, i)| + 2
    ensures EntryOk(Built(l), i, Tag(Number(i, Row(l, i), e), Title(Row(l, i), e)))
  {
    hide Laid, Built, Tag, DecodeInum, DecodeName;
    LaidRow(l, i);
    TagDecodes(i, Row(l, i), e);
    LaidInode(l, ROOT);
    LaidInode(l, Number(i, Row(l, i), e));
  }

  lemma LaidIsRooted(l: Layout)
    requires Laid(l)
    ensures Rooted(Built(l)) && Connected(Built(l))
  {
    hide Laid, Built, Dir, LaidDir, Dotted, NamedOnce, Names, Parent, Reached;
    var d := Built(l);
    LaidInode(l, 0);
    forall i: nat ensures Dir(d, i) <==> LaidDir(l, i) {
      LaidInode(l, i);
    }
    forall x: nat | Dir(d, x) ensures Dotted(d, x) && Parent(d, x) == ROOT && Reached(d, x) {
      LaidDotted(l, x);
    }
    forall j: nat, y: nat ensures !Names(d, j, y, ROOT) {
      LaidNames(l, j, y, ROOT);
    }
    forall x: nat | Dir(d, x) && x != ROOT ensures NamedOnce(d, x) {
      LaidNamed(l, x);
    }
    RootedFrom(d);
  }

  lemma LaidDotted(l: Layout, x: nat)
    requires Laid(l) && LaidDir(l, x)
    ensures Dotted(Built(l), x) && Parent(Built(l), x) == ROOT && Reached(Built(l), x)
  {
    hide Laid, Built, Target, Label, LaidDir, Dir;
    var d := Built(l);
    LaidInode(l, ROOT);
    LaidTarget(l, x, 0);
    LaidTarget(l, x, 1);
    forall e: nat | e >= 2 ensures Label(d, x, e) != DOT && Label(d, x, e) != DOTDOT {
      LaidTarget(l, x, e);
    }
    assert Up(d, ROOT, 0) == ROOT;
    assert Up(d, x, 1) == ROOT;
  }

  /** Which entries name a directory. */
  lemma LaidNames(l: Layout, j: nat, y: nat, x: nat)
    requires Laid(l) && LaidDir(l, x)
    ensures Names(Built(l), j, y, x) ==> x != ROOT && j == ROOT && y - 2 < |Row(l, ROOT)| && Row(l, ROOT)[y - 2] == x
  {
    hide Laid, Built, Target;
    LaidInode(l, 0);
    LaidTarget(l, j, y);
    if Names(Built(l), j, y, x) && LaidDir(l, j) {
      LaidRow(l, j);
    }
  }

  lemma LaidNamed(l: Layout, x: nat)
    requires Laid(l) && LaidDir(l, x) && x != ROOT
    ensures NamedOnce(Built(l), x)
  {
    hide Laid, Built, Target, Dotted, Reached, Dir, LaidDir, Number, Title, Row, Parent;
    var d := Built(l);
    LaidDotted(l, x);
    var k := LaidListed(l, x);
    LaidName(l, x, k);
    forall j: nat, y: nat | Names(d, j, y, x) ensures j == ROOT && y == k + 2 {
      LaidNames(l, j, y, x);
    }
    assert NamedAt(d, x, k + 2);
  }

  lemma LaidName(l: Layout, x: nat, k: nat)
    requires Laid(l) && ListedAt(Row(l, ROOT), x, k)
    ensures Names(Built(l), ROOT, k + 2, x)
  {
    hide Laid, Built, Target, Title, Row;
    LaidInode(l, ROOT);
    LaidTarget(l, ROOT, k + 2);
  }

  lemma LaidListed(l: Layout, x: nat) returns (k: nat)
    requires Laid(l) && LaidDir(l, x) && x != ROOT
    ensures ListedAt(Row(l, ROOT), x, k)
  {
    hide Feasible, MayName, Tally, ListedAt;
    LaidInode(l, x);
    k :| ListedAt(l.rows[ROOT], x, k);
  }

  lemma NamesDiffer(e: nat, f: nat)
    requires e < 10000 && f < 10000 && NameFor(e) == NameFor(f)
    ensures e == f
  {
    assert NameFor(e)[0] == NameFor(f)[0] && NameFor(e)[1] == NameFor(f)[1];
  }

  lemma LaidIsUnique(l: Layout)
    requires Laid(l)
    ensures Unique(Built(l))
  {
    hide Laid, Built, Label, NameFor;
    var d := Built(l);
    forall i: nat, e: nat, f: nat | Label(d, i, e) != [] && Label(d, i, e) == Label(d, i, f) ensures e == f {
      LaidTarget(l, i, e);
      LaidTarget(l, i, f);
      LaidRow(l, i);
      TitlesDiffer(Row(l, i), e, f);
    }
  }

  lemma TitlesDiffer(row: seq<nat>, e: nat, f: nat)
    requires |row| + 2 <= MAXFILE * BSIZE / ENTRY && Title(row, e) == Title(row, f) != []
    ensures e == f
  {
    if e >= 2 && f >= 2 {
      NamesDiffer(e, f);
    }
  }

  /** A layout whose counts agree is a good image. */
  lemma LaidIsGood(l: Layout)
    requires Laid(l)
    ensures Good(Built(l))
  {
    hide Laid, Built, Tree, Rooted, Connected, Unique;
    LaidIsTree(l);
    LaidIsRooted(l);
    LaidIsUnique(l);
  }
}
