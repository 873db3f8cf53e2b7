/**
 The image tools/mkfs.c starts from, and images on which the tools go wrong, each with the run that shows
 it. Entry `e` of a directory goes by the name `NameFor(e)`.
 */
module FsStart {
  import opened FsDisk
  import opened FsLinks
  import opened FsImage
  import opened FsDir
  import opened FsUnlink
  import opened FsTree
  import opened FsCommands
  import opened FsReach
  import opened FsNames
  import opened FsGood
  import opened FsReplace
  import opened FsSession
  import opened FsLayout
  import opened Options

  function Node(typ: Ushort, nlink: Ushort): Dinode { FreshInode(typ).(nlink := nlink) }

  function FreeInode(): Dinode { FreshInode(0) }

  lemma {:induction false} CountSame(row: seq<nat>, v: nat, x: nat, n: nat)
    requires n <= |row| && forall k: nat | k < n :: row[k] == v
    ensures CountRow(row, x, n) == if x == v then n else 0
  {
    if n > 0 {
      CountSame(row, v, x, n - 1);
    }
  }

  // ----- a new image

  /** The root directory of a new image: "." and "..", and room up to the end of the block. */
  function NewRow(): seq<nat> { seq(BSIZE / ENTRY - 2, _ => 0) }

  function NewImage(sb: Superblock): Layout {
    Layout(sb, seq(sb.ninodes, i => if i == 1 then Node(T_DIR, 1) else FreeInode()),
           seq(sb.ninodes, i => if i == 1 then NewRow() else []))
  }

  ghost predicate NewSuperblock(sb: Superblock) {
    2 <= sb.ninodes <= USHORT && 1 <= sb.nblocks && FirstData(sb) + sb.nblocks <= sb.size < UINT_LIMIT
  }

  lemma NewFields(sb: Superblock, i: nat)
    requires i < sb.ninodes
    ensures var l := NewImage(sb);
            && |l.heads| == |l.rows| == sb.ninodes && l.sb == sb
            && l.heads[i] == (if i == 1 then Node(T_DIR, 1) else FreeInode())
            && l.rows[i] == if i == 1 then NewRow() else []
  {
  }

  lemma NewFeasible(sb: Superblock)
    requires NewSuperblock(sb)
    ensures Feasible(NewImage(sb))
  {
    hide NewImage, Listing;
    var l := NewImage(sb);
    NewFields(sb, 0);
    NewFields(sb, 1);
    forall i: nat ensures |Data(l, i)| == if i == 1 then BSIZE else 0 {
      if i < sb.ninodes {
        NewFields(sb, i);
        ListingLength(i, NewRow());
      }
    }
    forall i: nat, k: nat | k <= MAXFILE && Holds(Data(l, i), k)
      ensures Base(l, i) + k < FirstData(l.sb) + l.sb.nblocks
    {
    }
  }

  lemma {:induction false} NewTally(sb: Superblock, n: nat)
    requires n <= sb.ninodes == |NewImage(sb).heads| == |NewImage(sb).rows|
    ensures Tally(NewImage(sb), 1, n) == One(n > 1)
  {
    hide NewImage;
    if n > 0 {
      NewTally(sb, n - 1);
      NewFields(sb, n - 1);
      CountSame(NewRow(), 0, 1, |NewRow()|);
    }
  }

  /** The image that tools/mkfs.c makes of no files is good. */
  lemma NewImageIsGood(sb: Superblock)
    requires NewSuperblock(sb)
    ensures Good(Built(NewImage(sb)))
  {
    hide NewImage, Feasible, Built, Tally, Good;
    var l := NewImage(sb);
    NewFeasible(sb);
    NewFields(sb, 1);
    NewTally(sb, sb.ninodes);
    forall i: nat | i < |l.heads| ensures l.heads[i] == if i == 1 then Node(T_DIR, 1) else FreeInode() {
      NewFields(sb, i);
    }
    forall i: nat, k: nat | i < |l.rows| && IsDir(l.heads[i]) && k < |l.rows[i]| ensures MayName(l, i, l.rows[i][k]) {
      NewFields(sb, i);
    }
    LaidIsGood(l);
  }

  /** Every image of a session of safe commands on a new image is good. */
  lemma NewSessionStaysGood(sb: Superblock, states: seq<Disk>, cs: seq<Command>)
    requires NewSuperblock(sb) && Session(states, cs) && states[0] == Built(NewImage(sb))
    requires forall k: nat | k < |cs| :: Safe(states[k], cs[k])
    ensures forall n: nat | n <= |cs| :: Good(states[n])
  {
    hide Good, Safe, Built, NewImage, RanSomehow;
    NewImageIsGood(sb);
    forall n: nat | n <= |cs| ensures Good(states[n]) {
      SessionStaysGood(states, cs, n);
    }
  }

  // ----- a directory with no room

  const SMALL := Superblock(4000, 20 * SPAN, 20)

  /** Every directory may be of the largest size: all their blocks fit. */
  lemma SmallFits(l: Layout)
    requires l.sb == SMALL && |l.heads| == |l.rows| == 20 && l.heads[0].typ == 0 && IsDir(l.heads[1])
    requires forall i: nat | i < 20 :: |l.rows[i]| + 2 <= MAXFILE * BSIZE / ENTRY
    ensures Feasible(l)
  {
    hide Listing, Base;
    forall i: nat ensures |Data(l, i)| <= MAXFILE * BSIZE && (i >= 20 || i == 0 ==> Data(l, i) == []) {
      if i < 20 {
        ListingLength(i, l.rows[i]);
      }
    }
    forall i: nat, k: nat | k <= MAXFILE && Holds(Data(l, i), k)
      ensures Base(l, i) + k < FirstData(l.sb) + l.sb.nblocks
    {
      HoldsSome(Data(l, i), k);
      SmallBase(l, i);
    }
  }

  lemma SmallBase(l: Layout, i: nat)
    requires 1 <= i < 20
    ensures Base(l, i) + MAXFILE < FirstData(l.sb) + 20 * SPAN
  {
    ProductStep(i - 1, 18, SPAN);
    ProductIs(18, SPAN);
  }

  /** How many entries a directory can have behind its first two. */
  const MOST := MAXFILE * BSIZE / ENTRY - 2

  /** Entry 2 of a full root directory names inode 3, and every later one inode 2. */
  function FullRow(): seq<nat> { seq(MOST, k => if k == 0 then 3 else 2) }

  /** The layout with these rows for inodes 1 and 2 and the given inodes 1, 2 and 3; all others are free. */
  function Few(n1: Dinode, n2: Dinode, n3: Dinode, row1: seq<nat>, row2: seq<nat>): Layout {
    Layout(SMALL, seq(20, i => if i == 1 then n1 else if i == 2 then n2 else if i == 3 then n3 else FreeInode()),
           seq(20, i => if i == 1 then row1 else if i == 2 then row2 else []))
  }

  lemma FewFields(n1: Dinode, n2: Dinode, n3: Dinode, row1: seq<nat>, row2: seq<nat>, i: nat)
    requires i < 20
    ensures var l := Few(n1, n2, n3, row1, row2);
            && |l.heads| == |l.rows| == 20 && l.sb == SMALL
            && l.heads[i] == (if i == 1 then n1 else if i == 2 then n2 else if i == 3 then n3 else FreeInode())
            && l.rows[i] == if i == 1 then row1 else if i == 2 then row2 else []
  {
  }

  /** The links to `x` come from inode 1 and, if it is a directory, inode 2. */
  lemma {:induction false} FewTally(n1: Dinode, n2: Dinode, n3: Dinode, row1: seq<nat>, row2: seq<nat>, x: nat, n: nat)
    requires n <= 20 == |Few(n1, n2, n3, row1, row2).heads| == |Few(n1, n2, n3, row1, row2).rows|
    requires IsDir(n1) && !IsDir(n3)
    ensures Tally(Few(n1, n2, n3, row1, row2), x, n)
            == (if n > 1 then One(x == ROOT) + CountRow(row1, x, |row1|) else 0)
               + if n > 2 && IsDir(n2) then One(x == ROOT) + CountRow(row2, x, |row2|) else 0
  {
    hide Few, CountRow;
    if n > 0 {
      FewTally(n1, n2, n3, row1, row2, x, n - 1);
      FewFields(n1, n2, n3, row1, row2, n - 1);
    }
  }

  function FullImage(): Layout {
    Few(Node(T_DIR, 1), Node(T_FILE, MOST - 1), Node(T_FILE, 1), FullRow(), [])
  }

  lemma {:induction false} FullCounts(x: nat, n: nat)
    requires n <= |FullRow()|
    ensures CountRow(FullRow(), x, n)
            == if x == 3 then One(n > 0) else if x == 2 && n > 0 then n - 1 else 0
  {
    if n > 0 {
      FullCounts(x, n - 1);
    }
  }

  lemma FullLaid()
    ensures Laid(FullImage())
  {
    hide Feasible, Tally, Few, CountRow;
    var l := FullImage();
    forall i: nat | i < 20
      ensures |l.heads| == |l.rows| == 20 && l.sb == SMALL
      ensures l.heads[i] == (if i == 1 then Node(T_DIR, 1) else if i == 2 then Node(T_FILE, MOST - 1)
                             else if i == 3 then Node(T_FILE, 1) else FreeInode())
      ensures l.rows[i] == if i == 1 then FullRow() else []
    {
      FewFields(Node(T_DIR, 1), Node(T_FILE, MOST - 1), Node(T_FILE, 1), FullRow(), [], i);
    }
    FullHeads(0);
    SmallFits(l);
    forall x: nat | x < 20 && l.heads[x].typ != 0 ensures l.heads[x].nlink == Tally(l, x, 20) {
      FewTally(Node(T_DIR, 1), Node(T_FILE, MOST - 1), Node(T_FILE, 1), FullRow(), [], x, 20);
      FullCounts(x, MOST);
    }
  }

  /** The image is good, and its root is full. */
  lemma FullImageIsFull()
    ensures Good(Built(FullImage())) && Full(Built(FullImage()), ROOT)
    ensures |Built(FullImage()).inodes| == 20 && IsDir(Built(FullImage()).inodes[1])
    ensures FirstFree(Built(FullImage()).inodes, 4)
    ensures Built(FullImage()).inodes[3].typ == T_FILE && Built(FullImage()).inodes[3].nlink == 1
    ensures Target(Built(FullImage()), ROOT, 2) == 3 && !HasName(Built(FullImage()), ROOT, [121])
    ensures Finds(Built(FullImage()), ROOT, NameFor(2), 2)
  {
    hide Built, Good, Laid, Target, Label, FullImage, Full;
    var l := FullImage();
    FullLaid();
    LaidIsGood(l);
    forall i: nat | i < 5
      ensures |Built(l).inodes| == 20
      ensures Built(l).inodes[i].typ == if i == 1 then T_DIR else if i == 2 || i == 3 then T_FILE else 0
      ensures i == 3 ==> Built(l).inodes[i].nlink == 1
      ensures LaidDir(l, i) <==> i == 1
    {
      FullHeads(i);
      LaidInode(l, i);
    }
    FullHeads(1);
    LaidTarget(l, ROOT, 0);
    LaidTarget(l, ROOT, 1);
    LaidTarget(l, ROOT, 2);
    forall e: nat ensures Label(Built(l), ROOT, e) != [121] {
      LaidTarget(l, ROOT, e);
    }
    FullIsFull();
  }

  lemma FullHeads(i: nat)
    requires i < 20
    ensures var l := FullImage();
            && |l.heads| == |l.rows| == 20 && l.sb == SMALL && Row(l, 1) == FullRow()
            && l.heads[i] == (if i == 1 then Node(T_DIR, 1) else if i == 2 then Node(T_FILE, MOST - 1)
                              else if i == 3 then Node(T_FILE, 1) else FreeInode())
  {
    hide Few, FullRow;
    FewFields(Node(T_DIR, 1), Node(T_FILE, MOST - 1), Node(T_FILE, 1), FullRow(), [], i);
    FewFields(Node(T_DIR, 1), Node(T_FILE, MOST - 1), Node(T_FILE, 1), FullRow(), [], 1);
  }

  lemma FullIsFull()
    ensures Full(Built(FullImage()), ROOT)
  {
    hide Built, Laid, Target, Label, FullImage, Inum, Content;
    var l := FullImage();
    FullLaid();
    FullHeads(1);
    LaidInode(l, 1);
    forall x: nat | ENTRY * x + ENTRY <= MAXFILE * BSIZE ensures Inum(Content(Built(l), 1), x) != 0 {
      LaidTarget(l, 1, x);
      CellOfContent(Built(l), 1, x);
    }
  }

  /** On that image, icreat reports a new file that no directory names. */
  method CreateWhenFull(img: Image) returns (r: Outcome<Option<nat>>)
    requires img.Disk() == Built(FullImage())
    modifies img
    ensures r == Ok(Some(4)) && 4 < |img.inodes| && img.inodes[4].typ == T_FILE && img.inodes[4].nlink == 0
    ensures forall j: nat, e: nat :: Target(img.Disk(), j, e) != 4
  {
    hide Built, Tree, Rooted, Connected, Unique, Full, Finds, Label, FullImage, Cell, NotNamed, DirOk, Sound, Owned,
         Frame, DirsOk, EntryCost, FreeBlocks;
    ghost var d := img.Disk();
    FullImageIsFull();
    TreeIsSound(d, 0);
    DirSize(d, ROOT);
    NotNamedMeans(d, ROOT, [121]);
    ghost var ip, at;
    r, ip, at := ICreat(img, 1, [121], T_FILE);
    FirstFreeUnique(d.inodes, ip, 4);
    UnnamedAfter(d, img.Disk(), 4, at);
  }

  lemma FirstFreeUnique(inodes: seq<Dinode>, x: nat, y: nat)
    requires FirstFree(inodes, y)
    ensures FirstFree(inodes, x) ==> x == y
    ensures y < |inodes| && inodes[y].typ == 0 && !NoFreeInode(inodes)
  {
  }

  lemma UnnamedAfter(d: Disk, d': Disk, ip: nat, at: nat)
    requires Tree(d, 0) && Full(d, ROOT) && 0 < ip < |d.inodes| && d.inodes[ip].typ == 0
    requires Created(d, d', ROOT, [121], T_FILE, ip, at)
    ensures forall j: nat, e: nat :: Target(d', j, e) != ip
  {
    hide Tree, Full, Rooted, Cell, DecodeInum, Sound, DirsOk;
    TreeIsSound(d, 0);
    forall j: nat, e: nat ensures Target(d', j, e) != ip {
      CellOk(d, j, e);
    }
  }

  /** On that image, renaming entry 2 destroys the file. */
  method RenameWhenFull(img: Image) returns (r: Outcome<int>)
    requires img.Disk() == Built(FullImage())
    modifies img
    ensures r == Ok(0) && 3 < |img.inodes| && img.inodes[3].typ == 0
  {
    hide Built, Tree, Rooted, Connected, Unique, Full, FullImage, Cell, Owned, Frame, Finds, Label, Target, EntryCost,
         FreeBlocks;
    FullImageIsFull();
    ghost var e;
    r, e := Rename(img, 1, NameFor(2), 1, [121], 3, 2);
  }

  // ----- a directory that is not empty

  /** Entry 2 of the root names directory 2, whose entry 2 names file 3. */
  function NestedImage(): Layout {
    Few(Node(T_DIR, 2), Node(T_DIR, 1), Node(T_FILE, 1), [2], [3])
  }

  lemma NestedFields(i: nat)
    requires i < 20
    ensures var l := NestedImage();
            && |l.heads| == |l.rows| == 20 && l.sb == SMALL
            && l.heads[i] == (if i == 1 then Node(T_DIR, 2) else if i == 2 then Node(T_DIR, 1)
                              else if i == 3 then Node(T_FILE, 1) else FreeInode())
            && l.rows[i] == if i == 1 then [2] else if i == 2 then [3] else []
  {
    hide Few;
    FewFields(Node(T_DIR, 2), Node(T_DIR, 1), Node(T_FILE, 1), [2], [3], i);
  }

  lemma NestedLaid()
    ensures Laid(NestedImage())
  {
    hide Feasible, Tally, Few, CountRow, NestedImage;
    var l := NestedImage();
    forall i: nat | i < 20
      ensures |l.heads| == |l.rows| == 20 && l.sb == SMALL
      ensures l.heads[i] == (if i == 1 then Node(T_DIR, 2) else if i == 2 then Node(T_DIR, 1)
                             else if i == 3 then Node(T_FILE, 1) else FreeInode())
      ensures l.rows[i] == if i == 1 then [2] else if i == 2 then [3] else []
    {
      NestedFields(i);
    }
    NestedFields(0);
    SmallFits(l);
    assert ListedAt(l.rows[ROOT], 2, 0);
    forall x: nat | x < 20 && l.heads[x].typ != 0 ensures l.heads[x].nlink == Tally(l, x, 20) {
      NestedTally(x);
    }
  }

  lemma NestedTally(x: nat)
    requires 0 < x
    ensures |NestedImage().heads| == |NestedImage().rows| == 20
    ensures Tally(NestedImage(), x, 20) == if x == 1 then 2 else One(x == 2 || x == 3)
  {
    hide Few, Tally;
    NestedFields(0);
    FewTally(Node(T_DIR, 2), Node(T_DIR, 1), Node(T_FILE, 1), [2], [3], x, 20);
    CountSame([2], 2, x, 1);
    CountSame([3], 3, x, 1);
  }

  /** The image is good, and these are its entries. */
  lemma NestedIsGood()
    ensures Good(Built(NestedImage())) && |Built(NestedImage()).inodes| == 20
    ensures forall i: nat :: Dir(Built(NestedImage()), i) <==> i == 1 || i == 2
    ensures Built(NestedImage()).inodes[2].nlink == Built(NestedImage()).inodes[3].nlink == 1
    ensures Built(NestedImage()).inodes[3].typ == T_FILE
    ensures Built(NestedImage()).inodes[2].size == 3 * ENTRY
    ensures forall i: nat, e: nat ::
      && Target(Built(NestedImage()), i, e)
         == (if i == 1 && e < 2 then 1 else if i == 1 && e == 2 then 2 else if i == 2 && e == 0 then 2
             else if i == 2 && e == 1 then 1 else if i == 2 && e == 2 then 3 else 0)
      && Label(Built(NestedImage()), i, e)
         == (if i != 1 && i != 2 then [] else if e == 0 then DOT else if e == 1 then DOTDOT
             else if e == 2 then NameFor(2) else [])
  {
    hide Built, Good, Laid, Target, Label, NestedImage, Dir;
    var l := NestedImage();
    NestedLaid();
    LaidIsGood(l);
    forall i: nat
      ensures Dir(Built(l), i) <==> i == 1 || i == 2
      ensures LaidDir(l, i) <==> i == 1 || i == 2
      ensures Row(l, i) == if i == 1 then [2] else if i == 2 then [3] else []
    {
      NestedFields(0);
      if i < 20 {
        NestedFields(i);
      }
      LaidInode(l, i);
    }
    NestedFields(2);
    NestedFields(3);
    LaidInode(l, 2);
    LaidInode(l, 3);
    forall i: nat, e: nat
      ensures Target(Built(l), i, e)
         == (if i == 1 && e < 2 then 1 else if i == 1 && e == 2 then 2 else if i == 2 && e == 0 then 2
             else if i == 2 && e == 1 then 1 else if i == 2 && e == 2 then 3 else 0)
      ensures Label(Built(l), i, e)
         == (if i != 1 && i != 2 then [] else if e == 0 then DOT else if e == 1 then DOTDOT
             else if e == 2 then NameFor(2) else [])
    {
      LaidTarget(l, i, e);
    }
  }

  /** Directory 2 links to more than its parent. */
  lemma NestedOwesMore()
    ensures 2 < |Built(NestedImage()).inodes| && !OnlyOwes(Built(NestedImage()), 2, 1)
  {
    hide Built, Laid, Count, CountRow, Good, Tree, Rooted;
    var d := Built(NestedImage());
    NestedLaid();
    NestedIsGood();
    NestedFields(2);
    LaidInode(NestedImage(), 2);
    ListingTotal(2, [3], 3);
    CountSame([3], 3, 3, 1);
    assert Count(DirBytes(d, 2), 3) == 1;
  }

  /** Unlinking directory 2, whose one name that was, frees it; file 3 stays, with a count of 1 and no name. */
  method UnlinkNested(img: Image) returns (r: int)
    requires img.Disk() == Built(NestedImage())
    modifies img
    ensures r == 0 && |img.inodes| == 20 && img.inodes[2].typ == 0 && img.inodes[3].typ == T_FILE
    ensures (forall j: nat, e: nat :: Target(img.Disk(), j, e) != 3) && !Tree(img.Disk(), 0)
  {
    hide Built, Tree, Rooted, Connected, Unique, Cell, NotNamed, DirOk, Sound, Owned, Frame, DirsOk, UnlinkDone,
         NestedImage, Label, Target, FirstNamed, Content;
    ghost var d := img.Disk();
    NestedIsGood();
    TreeIsSound(d, 0);
    StillFound(d, 1, NameFor(2), 2);
    ghost var ip, e, d1;
    r, ip, e, d1 := IUnlink(img, 1, NameFor(2));
    NestedUnlinked(d, img.Disk(), d1);
  }

  lemma NestedUnlinked(d: Disk, d': Disk, d1: Disk)
    requires d == Built(NestedImage()) && UnlinkDone(d, d', 1, 2, 2, d1)
    ensures |d'.inodes| == 20 && d'.inodes[2].typ == 0 && d'.inodes[3].typ == T_FILE
    ensures (forall j: nat, e: nat :: Target(d', j, e) != 3) && !Tree(d', 0)
  {
    hide Built, Tree, Rooted, Connected, Unique, NestedImage, Orphans, OnlyOwes, UnlinkDone, NoEntry, Cell, DecodeInum,
         Frame, Sound, Label, DirsOk, Dotted;
    NestedIsGood();
    TreeIsSound(d, 0);
    DirFacts(d, 2);
    ParentMeans(d, 2, 1);
    NestedOwesMore();
    UnlinkedIsOwned(d, d', 1, 2, 2, d1);
    FreedCounts(d, d', 1, 2, 2, d1);
    UnlinkCells(d, d', 1, 2, 2, d1);
    NoEntryIsEmpty();
    forall j: nat, e: nat ensures Target(d', j, e) != 3 {
      assert Target(d, j, e) == 3 ==> j == 2;
    }
  }

  // ----- a directory moved into itself

  /** Moving directory 2 into itself, as mv lets one, leaves it out of reach of the root. */
  method MoveIntoItself(img: Image) returns (r: Outcome<int>)
    requires img.Disk() == Built(NestedImage())
    modifies img
    ensures r == Ok(0) && Dir(img.Disk(), 2) && !Reached(img.Disk(), 2)
    ensures Connected(old(img.Disk())) && !Connected(img.Disk())
  {
    hide Built, Tree, Rooted, Unique, Cell, Owned, Frame, NestedImage, Label, Target, EntryCost, FreeBlocks, Full,
         Moved, Grown, Untouched, Dir, DirsOk, Up;
    ghost var d := img.Disk();
    NestedIsGood();
    NestedHasRoom();
    ghost var e;
    r, e := Rename(img, 1, NameFor(2), 2, [121], 2, 2);
    SelfBelow(d, img.Disk(), e);
  }

  lemma NestedHasRoom()
    ensures var d := Built(NestedImage());
            && 2 < |d.inodes| && d.inodes[2].size <= MAXFILE * BSIZE && !Full(d, 2) && EntryCost(d, 2) <= 0
  {
    hide Built, Good, NestedImage, Content;
    NestedIsGood();
  }

  lemma SelfBelow(d: Disk, d': Disk, e: nat)
    requires d == Built(NestedImage()) && Rooted(d') && Target(d, 2, e) == 0
    requires Moved(d, d', 1, 2, 2, e, 2, [121])
    ensures Dir(d', 2) && !Reached(d', 2)
  {
    hide Built, Tree, Rooted, Connected, Unique, Cell, NestedImage, Label, Target, Moved, Dir, Up, Parent, Reached,
         NamedAt;
    NestedIsGood();
    RootFacts(d);
    SecondPlace(d, 2, e);
    MovedFacts(d, d', 1, 2, 2, e, 2, [121]);
    MovedParents(d, d', 1, 2, 2, e, 2, [121]);
    UpNone(d, 2);
    CycleCutsOff(d, d', 2, 2);
  }

  lemma UpNone(d: Disk, x: nat)
    ensures Up(d, x, 0) == x
  {
  }

  // ----- a file moved onto itself, and a directory moved by its "."

  /** Moving the one name of file 3 onto itself, as mv lets one, destroys the file. */
  method MoveFileOntoItself(img: Image) returns (r: Outcome<int>)
    requires img.Disk() == Built(NestedImage())
    modifies img
    ensures r == Ok(0) && 3 < |img.inodes| && img.inodes[3].typ == 0 && !HasName(img.Disk(), 2, NameFor(2))
  {
    hide Built, Tree, Rooted, Connected, Unique, Frame, NestedImage, Label, Target, HasName, EmptyDirAt;
    NestedIsGood();
    r := MoveOntoItself(img, 2, NameFor(2), 3, 2);
  }

  /** Moving directory 2 by the name "." it has in itself leaves a link count wrong. */
  method MoveDirByDot(img: Image) returns (r: Outcome<int>)
    requires img.Disk() == Built(NestedImage())
    modifies img
    ensures r == Ok(0) && !Tree(img.Disk(), 0)
  {
    hide Built, Tree, Rooted, Connected, Unique, NestedImage, Label, Target, EntryCost, FreeBlocks, Full;
    NestedIsGood();
    NestedHasRoom();
    r := MoveDots(img, 2, DOT, 2, [121], 2);
  }

  // ----- a name used behind an empty entry

  /** The root names directory 2 and file 3; entry 2 of directory 2 is empty, and entry 3 names file 3. */
  function GapImage(): Layout {
    Few(Node(T_DIR, 2), Node(T_DIR, 1), Node(T_FILE, 2), [2, 3], [0, 3])
  }

  lemma GapFields(i: nat)
    requires i < 20
    ensures var l := GapImage();
            && |l.heads| == |l.rows| == 20 && l.sb == SMALL
            && l.heads[i] == (if i == 1 then Node(T_DIR, 2) else if i == 2 then Node(T_DIR, 1)
                              else if i == 3 then Node(T_FILE, 2) else FreeInode())
            && l.rows[i] == if i == 1 then [2, 3] else if i == 2 then [0, 3] else []
  {
    hide Few;
    FewFields(Node(T_DIR, 2), Node(T_DIR, 1), Node(T_FILE, 2), [2, 3], [0, 3], i);
  }

  lemma PairCount(a: nat, b: nat, x: nat)
    ensures CountRow([a, b], x, 2) == One(x == a) + One(x == b)
  {
    assert CountRow([a, b], x, 1) == One(x == a);
  }

  lemma GapTally(x: nat)
    requires 0 < x
    ensures |GapImage().heads| == |GapImage().rows| == 20
    ensures Tally(GapImage(), x, 20) == if x == 1 || x == 3 then 2 else One(x == 2)
  {
    hide Few, Tally, CountRow;
    GapFields(0);
    FewTally(Node(T_DIR, 2), Node(T_DIR, 1), Node(T_FILE, 2), [2, 3], [0, 3], x, 20);
    PairCount(2, 3, x);
    PairCount(0, 3, x);
  }

  lemma GapLaid()
    ensures Laid(GapImage())
  {
    hide Feasible, Tally, Few, CountRow, GapImage;
    var l := GapImage();
    forall i: nat | i < 20
      ensures |l.heads| == |l.rows| == 20 && l.sb == SMALL
      ensures l.heads[i] == (if i == 1 then Node(T_DIR, 2) else if i == 2 then Node(T_DIR, 1)
                             else if i == 3 then Node(T_FILE, 2) else FreeInode())
      ensures l.rows[i] == if i == 1 then [2, 3] else if i == 2 then [0, 3] else []
    {
      GapFields(i);
    }
    GapFields(0);
    SmallFits(l);
    assert ListedAt(l.rows[ROOT], 2, 0);
    forall x: nat | x < 20 && l.heads[x].typ != 0 ensures l.heads[x].nlink == Tally(l, x, 20) {
      GapTally(x);
    }
  }

  /** The image is good; the name of file 3 is in use in directory 2, where the search for a place stops before it. */
  lemma GapIsGood()
    ensures var d := Built(GapImage());
            && Good(d) && |d.inodes| == 20 && Dir(d, 2) && d.inodes[3].typ == T_FILE && d.inodes[3].nlink == 2
            && d.inodes[2].size <= MAXFILE * BSIZE && !Full(d, 2) && EntryCost(d, 2) == 0
            && HasName(d, 2, NameFor(3)) && !Noticed(d, 2, NameFor(3))
  {
    hide Built, Good, Laid, Target, Label, GapImage, Dir, Content, Footprint, EntryBytes, DecodeInum, NameFor;
    var l := GapImage();
    GapLaid();
    LaidIsGood(l);
    GapFields(2);
    GapFields(3);
    LaidInode(l, 2);
    LaidInode(l, 3);
    forall e: nat ensures Label(Built(l), 2, e) == Title([0, 3], e) && Target(Built(l), 2, e) == Number(2, [0, 3], e) {
      LaidTarget(l, 2, e);
    }
    NamesDiffer();
    assert Label(Built(l), 2, 3) == NameFor(3);
    CellOfContent(Built(l), 2, 2);
    assert Inum(Content(Built(l), 2), 2) == 0;
  }

  lemma NamesDiffer()
    ensures NameFor(3) != DOT && NameFor(3) != DOTDOT && IsName(NameFor(3))
  {
  }

  /** On that image, ln of file 3 into directory 2 gives the directory a second entry of that name. */
  method LinkIntoGap(img: Image) returns (r: Outcome<bool>)
    requires img.Disk() == Built(GapImage())
    modifies img
    ensures r == Ok(true) && !Unique(img.Disk())
  {
    hide Built, Good, GapImage, Full, HasName, Noticed, EntryCost, FreeBlocks, Effect, NameFor, IsName, Unique, Owned;
    GapIsGood();
    NamesDiffer();
    r := DoLinkInto(img, 2, NameFor(3), 3);
  }

  // ----- a file with as many links as its count can hold

  const MANY := 4096

  /** The root names the directories 2 to 17 and has an empty entry. */
  function WideRoot(): seq<nat> { seq(17, k requires 0 <= k => if k < 16 then k + 2 else 0) }

  /** Directory `i` has 4096 links to file 18, the last one less. */
  function WideRow(i: nat): seq<nat> {
    if i == 1 then WideRoot() else if 2 <= i <= 17 then seq(if i == 17 then MANY - 1 else MANY, _ => 18) else []
  }

  function WideHead(i: nat): Dinode {
    if i == 1 then Node(T_DIR, 17) else if 2 <= i <= 17 then Node(T_DIR, 1)
    else if i == 18 then Node(T_FILE, USHORT - 1) else FreeInode()
  }

  function WideImage(): Layout {
    Layout(SMALL, seq(20, i requires 0 <= i => WideHead(i)), seq(20, i requires 0 <= i => WideRow(i)))
  }

  lemma WideFields(i: nat)
    requires i < 20
    ensures var l := WideImage();
            && |l.heads| == |l.rows| == 20 && l.sb == SMALL && l.heads[i] == WideHead(i) && l.rows[i] == WideRow(i)
  {
    hide WideHead, WideRow;
  }

  lemma {:induction false} WideRootCount(x: nat, n: nat)
    requires n <= 17 == |WideRoot()|
    ensures 0 < x ==> CountRow(WideRoot(), x, n) == One(2 <= x < n + 2 && x < 18)
  {
    if n > 0 {
      WideRootCount(x, n - 1);
    }
  }

  lemma WideCount(i: nat, x: nat)
    requires 0 < x && 1 <= i <= 17
    ensures CountRow(WideRow(i), x, |WideRow(i)|)
            == if i == 1 then One(2 <= x <= 17) else if x != 18 then 0 else if i == 17 then MANY - 1 else MANY
  {
    hide CountRow;
    if i == 1 {
      WideRootCount(x, 17);
    } else {
      CountSame(WideRow(i), 18, x, |WideRow(i)|);
    }
  }

  lemma {:induction false} WideTally(x: nat, n: nat)
    requires 0 < x && n <= 20 == |WideImage().heads| == |WideImage().rows|
    ensures Tally(WideImage(), x, n)
            == (if x == 1 then (if n == 0 then 0 else if n <= 18 then n - 1 else 17)
                else if x <= 17 then One(n > 1)
                else if x == 18 && n >= 2 then (if n <= 17 then (n - 2) * MANY else USHORT - 1) else 0)
  {
    hide WideImage, WideRow, CountRow;
    if n > 0 {
      WideTally(x, n - 1);
      WideFields(n - 1);
      if 1 <= n - 1 <= 17 {
        WideCount(n - 1, x);
      }
    }
  }

  lemma WideRowOk(i: nat, k: nat)
    requires 1 <= i <= 17 && k < |WideRow(i)|
    ensures var v := WideRow(i)[k];
            v < 20 && v != ROOT && (v != 0 ==> WideHead(v).typ != 0 && (IsDir(WideHead(v)) ==> i == ROOT))
  {
  }

  lemma WideRowLength(i: nat)
    ensures |WideRow(i)| + 2 <= MAXFILE * BSIZE / ENTRY
  {
  }

  lemma WideListed(x: nat)
    requires 2 <= x <= 17
    ensures ListedAt(WideRow(ROOT), x, x - 2)
  {
  }

  lemma WideLaid()
    ensures Laid(WideImage())
  {
    hide Feasible, Tally, WideImage, WideRow, CountRow, ListedAt;
    var l := WideImage();
    WideFields(0);
    WideFields(1);
    forall i: nat | i < 20 ensures |l.rows[i]| + 2 <= MAXFILE * BSIZE / ENTRY {
      WideFields(i);
      WideRowLength(i);
    }
    SmallFits(l);
    forall i: nat, k: nat | i < |l.rows| && IsDir(l.heads[i]) && k < |l.rows[i]| ensures MayName(l, i, l.rows[i][k]) {
      WideFields(i);
      WideRowOk(i, k);
      WideFields(WideRow(i)[k]);
    }
    forall x: nat | ROOT < x < |l.heads| && IsDir(l.heads[x]) ensures exists k: nat :: ListedAt(l.rows[ROOT], x, k) {
      WideFields(x);
      WideListed(x);
    }
    forall x: nat | x < 20 && l.heads[x].typ != 0 ensures l.heads[x].nlink == Tally(l, x, 20) {
      WideFields(x);
      WideTally(x, 20);
    }
  }

  /** The image is good, file 18 has 65535 links, and the root has an empty entry. */
  lemma WideIsGood()
    ensures var d := Built(WideImage());
            && Good(d) && |d.inodes| == 20 && Dir(d, ROOT) && DirOk(d, ROOT) && !Full(d, ROOT)
            && EntryCost(d, ROOT) == 0
            && d.inodes[18].typ == T_FILE && d.inodes[18].nlink == USHORT - 1 && !Taken(Content(d, ROOT), [121])
  {
    hide Built, Laid, Tree, Rooted, Connected, Unique, WideImage, DirOk, Full, EntryCost, Taken, Content, WideRow;
    var l := WideImage();
    WideLaid();
    LaidIsGood(l);
    WideFields(1);
    WideFields(18);
    LaidInode(l, 1);
    LaidInode(l, 18);
    TreeIsSound(Built(l), 0);
    DirSize(Built(l), ROOT);
    forall e: nat ensures Label(Built(l), ROOT, e) != [121] {
      LaidTarget(l, ROOT, e);
    }
    UnusedName(Built(l), ROOT, [121]);
    WideHasRoom();
  }

  lemma WideHasRoom()
    ensures var d := Built(WideImage());
            && 1 < |d.inodes| && d.inodes[1].size <= MAXFILE * BSIZE && !Full(d, 1) && EntryCost(d, 1) == 0
  {
    hide Built, Laid, WideImage, Content, Target, Label, Footprint, EntryBytes, DecodeInum;
    var l := WideImage();
    WideLaid();
    WideFields(1);
    LaidInode(l, 1);
    LaidTarget(l, 1, 18);
    CellOfContent(Built(l), 1, 18);
    assert Inum(Content(Built(l), 1), 18) == 0;
  }

  /** On that image, one more link makes the count 0. */
  method LinkWhenWide(img: Image) returns (r: Outcome<int>)
    requires img.Disk() == Built(WideImage())
    modifies img
    ensures r == Ok(0) && |img.inodes| == 20 && img.inodes[18].nlink == 0 && !Tree(img.Disk(), 0)
  {
    hide Built, Tree, Rooted, Connected, Unique, WideImage, DirOk, Full, EntryCost, Taken, Content, Linked, Frame,
         Owned;
    ghost var d := img.Disk();
    WideIsGood();
    ghost var e, mid;
    r, e, mid := DAddEnt(img, 1, [121], 18, 0);
    LinkedEffect(d, img.Disk(), 1, [121], 18, e, mid);
    FrameLength(d, img.Disk(), {1, 18});
  }
}
