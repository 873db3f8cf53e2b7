/** Unlinking, redirecting a parent link and the test for an empty directory, from tools/libfs.c. */
module FsUnlink {
  import opened FsDisk
  import opened FsLinks
  import opened FsImage
  import opened FsDir

  /** The ".." entry found in directory contents `c` names `rp`. */
  ghost predicate NamesUp(c: seq<Byte>, rp: nat) {
    exists e: nat :: FirstNamed(c, DOTDOT, e) && Inum(c, e) == rp
  }

  /** Inode `ip` is a directory whose parent is `rp`: what makes unlink lower the parent's count. */
  ghost predicate Orphans(d: Disk, ip: nat, rp: nat) {
    ip < |d.inodes| && NamesUp(DirBytes(d, ip), rp)
  }

  /** One link less, in 16 bits. */
  function Lowered(d: Disk, x: nat): Disk
    requires x < |d.inodes|
  {
    WithNlink(d, x, (d.inodes[x].nlink + USHORT - 1) % USHORT)
  }

  /** The decrements of unlink: the parent's count if a directory loses it, then the inode's own. */
  function Unlinked(d: Disk, rp: nat, ip: nat, parent: bool): Disk
    requires rp < |d.inodes| && ip < |d.inodes|
  {
    Lowered(if parent then Lowered(d, rp) else d, ip)
  }

  lemma NlinkDirBytes(d: Disk, x: nat, v: Ushort, i: nat)
    requires x < |d.inodes| && i < |d.inodes|
    ensures DirBytes(WithNlink(d, x, v), i) == DirBytes(d, i)
  {
    SlotsDependOnAddrs(d, WithNlink(d, x, v), i);
  }

  lemma UnlinkedDirBytes(d: Disk, rp: nat, ip: nat, parent: bool, i: nat)
    requires rp < |d.inodes| && ip < |d.inodes| && i < |d.inodes|
    ensures DirBytes(Unlinked(d, rp, ip, parent), i) == DirBytes(d, i)
  {
    hide DirBytes, WithNlink;
    var d2 := if parent then Lowered(d, rp) else d;
    if parent {
      LoweredFields(d, rp, i);
    }
    LoweredFields(d2, ip, i);
  }

  lemma LoweredFields(d: Disk, x: nat, i: nat)
    requires x < |d.inodes| && i < |d.inodes|
    ensures |Lowered(d, x).inodes| == |d.inodes| && DirBytes(Lowered(d, x), i) == DirBytes(d, i)
  {
    NlinkDirBytes(d, x, (d.inodes[x].nlink + USHORT - 1) % USHORT, i);
  }

  // ----- counts after an entry is erased

  /** Entry `e` of `rp` links to `ip` and is not its "..". */
  ghost predicate Erasable(d: Disk, rp: nat, e: nat, ip: nat) {
    && rp < |d.inodes| && IsDir(d.inodes[rp]) && d.inodes[rp].size <= MAXFILE * BSIZE
    && ENTRY * e + ENTRY <= d.inodes[rp].size && 0 < ip
    && LinksTo(EntryBytes(Content(d, rp), e), ip) && Name(Content(d, rp), e) != DOTDOT
  }

  /** Lowering the count of a linked inode leaves it one short. */
  lemma CountLowered(d: Disk, x: nat)
    requires Tree(d, 0) && 0 < x < |d.inodes| && d.inodes[x].typ != 0 && d.inodes[x].nlink >= 1
    ensures Tree(Lowered(d, x), x)
  {
    hide Tree, Sound, DirsOk, Links, WithNlink, LinkCountOk;
    var v := d.inodes[x].nlink - 1;
    TreeIsSound(d, 0);
    NlinkKeepsFiles(d, x, v);
    NlinkKeepsDirs(d, x, v);
    var d' := WithNlink(d, x, v);
    NlinkLength(d, x, v);
    forall y: nat | y < |d'.inodes| ensures LinkCountOk(d', y, x) {
      OneShort(d, x, y);
    }
    TreeFromCounts(d', x);
  }

  lemma NlinkLength(d: Disk, x: nat, v: Ushort)
    requires x < |d.inodes|
    ensures |WithNlink(d, x, v).inodes| == |d.inodes|
  {
  }

  lemma OneShort(d: Disk, x: nat, y: nat)
    requires Tree(d, 0) && 0 < x < |d.inodes| && d.inodes[x].nlink >= 1 && y < |d.inodes|
    ensures LinkCountOk(WithNlink(d, x, d.inodes[x].nlink - 1), y, x)
  {
    hide Sound, DirsOk, Links;
    TreeIsSound(d, 0);
    assert LinkCountOk(d, y, 0);
    CountsAfterNlink(d, x, d.inodes[x].nlink - 1, y);
  }

  lemma ErasedCounts(d: Disk, d1: Disk, rp: nat, e: nat, ip: nat)
    requires Tree(d, 0) && EntryWritten(d, d1, rp, e, NoEntry()) && Erasable(d, rp, e, ip)
    ensures 0 < rp < |d1.inodes| == |d.inodes| && ip < |d1.inodes| && d1.inodes[ip].typ == d.inodes[ip].typ != 0
    ensures d1.inodes[ip].nlink == d.inodes[ip].nlink >= 1
    ensures Tree(Lowered(d1, ip), 0)
  {
    hide Tree, EntryWritten, LinksTo, Content, EntryBytes, Links, NoEntry;
    EntryWrittenIsSound(d, d1, rp, e, NoEntry());
    TreeIsSound(d, 0);
    TreeDir(d, 0, rp);
    LinkErased(d, d1, rp, e, ip, 0);
    LinkedHasCount(d, rp, e, ip, 0);
    CountsAfterWrite(d, d1, rp, e, NoEntry(), ip);
  }

  lemma ParentHasCount(d: Disk, ip: nat, rp: nat)
    requires Tree(d, 0) && Orphans(d, ip, rp) && rp != 0
    ensures rp < |d.inodes| && d.inodes[rp].nlink >= 1 && d.inodes[rp].typ != 0
  {
    hide Tree, EntryBytes, CName;
    var e: nat :| FirstNamed(DirBytes(d, ip), DOTDOT, e) && Inum(DirBytes(d, ip), e) == rp;
    TreeDir(d, 0, ip);
    LinkedHasCount(d, ip, e, rp, 0);
  }

  /** Erasing an entry by another name leaves ".." what it was. */
  lemma ErasedKeepsUp(c: seq<Byte>, e: nat, rp: nat)
    requires |c| % ENTRY == 0 && ENTRY * e + ENTRY <= |c| && Name(c, e) != DOTDOT
    ensures NamesUp(Overwritten(c, ENTRY * e, NoEntry()), rp) == NamesUp(c, rp)
  {
    hide EntryBytes, CName, NoEntry, Overwritten, DecodeInum;
    var c' := Overwritten(c, ENTRY * e, NoEntry());
    NoEntryIsEmpty();
    OverwrittenLength(c, e);
    forall x: nat | ENTRY * x + ENTRY <= |c|
      ensures Name(c', x) == (if x == e then [] else Name(c, x)) && (x != e ==> Inum(c', x) == Inum(c, x))
    {
      EntriesAfterWrite(c, e, NoEntry(), x);
    }
    if x: nat :| FirstNamed(c, DOTDOT, x) && Inum(c, x) == rp {
      assert FirstNamed(c', DOTDOT, x);
    }
    if x: nat :| FirstNamed(c', DOTDOT, x) && Inum(c', x) == rp {
      assert FirstNamed(c, DOTDOT, x) by {
        forall y: nat | y < x ensures Name(c, y) != DOTDOT {
          assert Name(c', y) != DOTDOT;
        }
      }
    }
  }

  lemma OverwrittenLength(c: seq<Byte>, e: nat)
    requires ENTRY * e + ENTRY <= |c|
    ensures |Overwritten(c, ENTRY * e, NoEntry())| == |c|
  {
  }

  lemma SameParent(d: Disk, d1: Disk, rp: nat, e: nat, ip: nat)
    requires EntryWritten(d, d1, rp, e, NoEntry()) && Erasable(d, rp, e, ip) && ip < |d.inodes|
    ensures Orphans(d1, ip, rp) == Orphans(d, ip, rp)
  {
    hide Sound, NamesUp, LinksTo, Content, EntryBytes, NoEntry;
    if ip == rp {
      ErasedKeepsUp(Content(d, rp), e, rp);
    } else {
      assert Untouched(d, d1, ip);
      UntouchedDirBytes(d, d1, ip);
    }
  }

  /** The tree, or almost-tree, after an entry for `ip` in `rp` is erased and the counts are lowered. */
  lemma UnlinkEffect(d: Disk, d1: Disk, rp: nat, e: nat, ip: nat)
    requires Tree(d, 0) && EntryWritten(d, d1, rp, e, NoEntry()) && Erasable(d, rp, e, ip)
    ensures 0 < rp < |d1.inodes| == |d.inodes| && ip < |d1.inodes| && d1.inodes[ip].typ == d.inodes[ip].typ != 0
    ensures Orphans(d1, ip, rp) == Orphans(d, ip, rp)
    ensures var parent := Orphans(d, ip, rp);
            var d2 := Unlinked(d1, rp, ip, parent);
            && Tree(d2, if parent then rp else 0) && (parent ==> Orphans(d2, ip, rp))
            && d2.inodes[ip].nlink == d.inodes[ip].nlink - 1 - One(parent && ip == rp)
  {
    hide Tree, EntryWritten, Erasable, NamesUp, DirBytes, NoEntry;
    ErasedCounts(d, d1, rp, e, ip);
    SameParent(d, d1, rp, e, ip);
    if Orphans(d, ip, rp) {
      LoweredFields(d1, ip, ip);
      ParentHasCount(Lowered(d1, ip), ip, rp);
      CountLowered(Lowered(d1, ip), rp);
      LoweredCommute(d1, rp, ip);
      UnlinkedDirBytes(d1, rp, ip, true, ip);
    }
  }

  lemma LoweredCommute(d: Disk, x: nat, y: nat)
    requires x < |d.inodes| && y < |d.inodes|
    ensures Lowered(Lowered(d, x), y) == Lowered(Lowered(d, y), x)
  {
  }

  // ----- when the last link goes

  /** An inode with no links left is linked at most from itself, by the ".." that is owed. */
  lemma ZeroCountNoLinks(d: Disk, x: nat, owed: nat)
    requires Tree(d, owed) && x < |d.inodes| && d.inodes[x].typ != 0 && d.inodes[x].nlink == 0 && x != 0
    requires owed == x ==> Orphans(d, x, x)
    ensures NoOtherLinks(d, x)
  {
    hide Sound, DirsOk, LinksUpTo, EntryBytes, CName, DirBytes;
    assert LinkCountOk(d, x, owed);
    LinksCoverDir(d, x, x, |d.inodes|);
    if owed == x {
      var c := DirBytes(d, x);
      var e: nat :| FirstNamed(c, DOTDOT, e) && Inum(c, e) == x;
      CountZero(c, x, |c| / ENTRY);
      assert LinksTo(EntryBytes(c, e), x);
    }
  }

  /** What the inode's entries owe to others is what they owed before. */
  lemma OnlyOwesBefore(d: Disk, d1: Disk, rp: nat, e: nat, ip: nat, parent: bool, owed: nat)
    requires EntryWritten(d, d1, rp, e, NoEntry()) && Erasable(d, rp, e, ip)
    requires rp < |d1.inodes| == |d.inodes| && ip < |d1.inodes|
    ensures OnlyOwes(Unlinked(d1, rp, ip, parent), ip, owed) <==> OnlyOwes(d, ip, owed)
  {
    hide EntryWritten, DirBytes, Count, NoEntry, Erasable;
    var d2 := Unlinked(d1, rp, ip, parent);
    UnlinkedDirBytes(d1, rp, ip, parent, ip);
    WriteEffect(d, d1, rp, e, NoEntry());
    assert forall y: nat | y < |d.inodes| :: d2.inodes[y].typ == d.inodes[y].typ;
    forall y: nat | 0 < y && y != ip ensures Count(DirBytes(d2, ip), y) == Count(DirBytes(d, ip), y) {
      ErasedOwes(d, d1, rp, e, ip, y);
    }
  }

  lemma ErasedOwes(d: Disk, d1: Disk, rp: nat, e: nat, ip: nat, y: nat)
    requires EntryWritten(d, d1, rp, e, NoEntry()) && Erasable(d, rp, e, ip) && 0 < y && y != ip
    requires ip < |d.inodes| == |d1.inodes|
    ensures Count(DirBytes(d1, ip), y) == Count(DirBytes(d, ip), y)
  {
    hide Sound, Content, EntryBytes, CName, NoEntry, Overwritten, DecodeInum;
    if ip == rp {
      NoEntryIsEmpty();
      CountAfterWrite(Content(d, rp), e, NoEntry(), y);
    } else {
      assert Untouched(d, d1, ip);
      UntouchedDirBytes(d, d1, ip);
    }
  }

  lemma DataSize(d: Disk, i: nat)
    requires Sound(d) && i < |d.inodes|
    ensures HasData(d.inodes[i]) ==> d.inodes[i].size <= MAXFILE * BSIZE
  {
    assert Neat(d, i);
  }

  lemma ErasedKeepsDirs(d: Disk, d1: Disk, rp: nat, e: nat)
    requires Tree(d, 0) && EntryWritten(d, d1, rp, e, NoEntry())
    ensures DirsOk(d1)
  {
    NoEntryIsEmpty();
    DirsOkAfterWrite(d, d1, rp, e, NoEntry());
  }

  lemma FirstNamedUnique(c: seq<Byte>, name: seq<Byte>, e: nat)
    requires FirstNamed(c, name, e)
    ensures forall x: nat | FirstNamed(c, name, x) :: x == e
  {
  }

  lemma FoundIsNamed(c: seq<Byte>, name: seq<Byte>, e: nat)
    requires FirstNamed(c, name, e)
    ensures !NotNamed(c, name)
  {
  }

  /** Whether directory `ip`'s ".." names `rp`: the test unlink makes. */
  method NamesParent(img: Image, ip: nat, rp: nat) returns (b: bool)
    requires Sound(img.Disk()) && DirsOk(img.Disk()) && ip < |img.inodes| && rp < |img.inodes|
    requires HasData(img.inodes[ip]) ==> img.inodes[ip].size <= MAXFILE * BSIZE
    modifies img
    ensures img.Disk() == old(img.Disk())
    ensures b <==> Orphans(img.Disk(), ip, rp)
  {
    hide Sound, Content, DirOk, CName, EntryBytes;
    b := false;
    if img.inodes[ip].typ == T_DIR {
      var found, inum, off := DLookup(img, ip, DOTDOT);
      b := found && inum == rp;
      if found {
        FirstNamedUnique(Content(img.Disk(), ip), DOTDOT, off / ENTRY);
      }
    }
  }

  method Lower(img: Image, x: nat)
    requires x < |img.inodes| && Sound(img.Disk())
    modifies img
    ensures img.Disk() == Lowered(old(img.Disk()), x) && Sound(img.Disk())
  {
    hide Sound;
    NlinkKeepsFiles(img.Disk(), x, (img.inodes[x].nlink + USHORT - 1) % USHORT);
    SetNlink(img, x, (img.inodes[x].nlink + USHORT - 1) % USHORT);
  }

  /** An entry of `rp` for `ip` was erased, counts were lowered, and `ip` is freed if that was its last link. */
  ghost predicate UnlinkDone(d: Disk, d': Disk, rp: nat, e: nat, ip: nat, d1: Disk) {
    && EntryWritten(d, d1, rp, e, NoEntry()) && rp < |d1.inodes| == |d.inodes| && 0 < ip < |d1.inodes|
    && d.inodes[ip].typ != 0
    && var parent := Orphans(d, ip, rp);
       var d2 := Unlinked(d1, rp, ip, parent);
       var owed := if parent then rp else 0;
       && d2.inodes[ip].nlink == d.inodes[ip].nlink - 1 - One(parent && ip == rp)
       && if d2.inodes[ip].nlink > 0 then d' == d2 && Tree(d', owed)
          else InodeFreed(d2, d', ip) && BlocksBack(d, d', ip) && (Tree(d', 0) <==> OnlyOwes(d, ip, owed))
  }

  lemma BlocksBackFrom(d: Disk, d2: Disk, d': Disk, x: nat)
    requires BlocksBack(d2, d', x) && d2.used == d.used && d2.owner == d.owner && d2.sb == d.sb
    ensures BlocksBack(d, d', x)
  {
  }

  /** What unlink does once the entry is erased: `d` is the image before, `e` the entry. */
  method FinishUnlink(img: Image, rp: nat, ip: nat, ghost d: Disk, ghost e: nat)
    requires Tree(d, 0) && EntryWritten(d, img.Disk(), rp, e, NoEntry()) && Erasable(d, rp, e, ip)
    requires rp < |img.inodes| == |d.inodes| && ip < |d.inodes|
    requires img.used == d.used && img.owner == d.owner && img.sb == d.sb
    modifies img
    ensures UnlinkDone(d, img.Disk(), rp, e, ip, old(img.Disk()))
  {
    hide Tree, Sound, DirsOk, Erasable, EntryWritten, Orphans, OnlyOwes, WithNlink, InodeFreed, Links, BlocksBack,
         NoEntry, NoOtherLinks;
    ghost var d1 := img.Disk();
    EntryWrittenIsSound(d, d1, rp, e, NoEntry());
    ErasedKeepsDirs(d, d1, rp, e);
    UnlinkEffect(d, d1, rp, e, ip);
    DataSize(d1, ip);
    var parent := NamesParent(img, ip, rp);
    ghost var owed := if parent then rp else 0;
    if parent {
      LoweredFields(d1, rp, ip);
      Lower(img, rp);
    }
    Lower(img, ip);
    ghost var d2 := img.Disk();
    UnlinkedFields(d1, rp, ip, parent);
    if img.inodes[ip].nlink == 0 {
      Destroy(img, ip);
      ZeroCountNoLinks(d2, ip, owed);
      FreedKeepsCountsIff(d2, img.Disk(), ip, owed);
      OnlyOwesBefore(d, d1, rp, e, ip, parent, owed);
      BlocksBackFrom(d, d2, img.Disk(), ip);
    }
  }

  lemma UnlinkedFields(d: Disk, rp: nat, ip: nat, parent: bool)
    requires rp < |d.inodes| && ip < |d.inodes|
    ensures var d2 := Unlinked(d, rp, ip, parent);
            && d2.sb == d.sb && d2.used == d.used && d2.owner == d.owner && |d2.inodes| == |d.inodes|
            && d2.inodes[ip].typ == d.inodes[ip].typ
  {
  }

  /** The first entry by the name is erased and its inode has a link less; "." and ".." are refused. */
  method IUnlink(img: Image, rp: nat, name: seq<Byte>) returns (r: int, ghost ip: nat, ghost e: nat, ghost d1: Disk)
    requires Tree(img.Disk(), 0) && rp < |img.inodes| && IsDir(img.inodes[rp]) && IsName(name)
    modifies img
    ensures DirOk(old(img.Disk()), rp)
    ensures r == 0 || r == -1
    ensures r == -1 <==> NotNamed(Content(old(img.Disk()), rp), name) || name == DOT || name == DOTDOT
    ensures r == -1 ==> img.Disk() == old(img.Disk())
    ensures r == 0 ==>
      && FirstNamed(Content(old(img.Disk()), rp), name, e) && ip == Inum(Content(old(img.Disk()), rp), e)
      && UnlinkDone(old(img.Disk()), img.Disk(), rp, e, ip, d1)
  {
    hide Tree, Sound, DirsOk, DirOk, Content, EntryBytes, CName, EntryWritten, NotNamed, EntryOk, Orphans, UnlinkDone,
         NoEntry, Erasable;
    ghost var d := img.Disk();
    TreeDir(d, 0, rp);
    TreeIsSound(d, 0);
    DataSize(d, rp);
    ip, e, d1 := 0, 0, d;
    var found, inum, off := DLookup(img, rp, name);
    if !found {
      return -1, 0, 0, d;
    }
    FoundIsNamed(Content(d, rp), name, off / ENTRY);
    if name == DOT || name == DOTDOT {
      return -1, 0, 0, d;
    }
    ip, e := inum, off / ENTRY;
    FoundIsErasable(d, rp, name, e, ip);
    var w := WriteEntry(img, rp, off, NoEntry());
    d1 := img.Disk();
    EntryWrittenIsSound(d, d1, rp, e, NoEntry());
    FinishUnlink(img, rp, inum, d, e);
    r := 0;
  }

  lemma FoundIsErasable(d: Disk, rp: nat, name: seq<Byte>, e: nat, ip: nat)
    requires rp < |d.inodes| && IsDir(d.inodes[rp]) && d.inodes[rp].size <= MAXFILE * BSIZE
    requires FirstNamed(Content(d, rp), name, e) && ip == Inum(Content(d, rp), e) && 0 < ip
    requires name != DOT && name != DOTDOT
    ensures Erasable(d, rp, e, ip) && ENTRY * e + ENTRY <= d.inodes[rp].size
  {
  }

  /** Unlinking, seen from the whole image. */
  lemma UnlinkCells(d: Disk, d': Disk, rp: nat, e: nat, ip: nat, d1: Disk)
    requires UnlinkDone(d, d', rp, e, ip, d1)
    ensures Frame(d, d', {rp, ip})
    ensures d'.inodes[ip].typ != 0 ==> CellWritten(d, d', rp, e, NoEntry())
    ensures d'.inodes[ip].typ == 0 ==>
      && (forall x: nat | x < |d.inodes| && x != ip :: d'.inodes[x].typ == d.inodes[x].typ)
      && forall j: nat, x: nat :: Cell(d', j, x) == if j == ip || (j == rp && x == e) then NoEntry() else Cell(d, j, x)
    ensures forall y: nat | y < |d.inodes| && y != ip ::
              d'.inodes[y].nlink
              == (d.inodes[y].nlink + if Orphans(d, ip, rp) && y == rp then USHORT - 1 else 0) % USHORT
    ensures forall j: nat | Dir(d, j) && j != ip ::
              d'.inodes[j].size == if j == rp then GrownTo(d.inodes[rp].size, e) else d.inodes[j].size
    ensures d'.inodes[ip].typ != 0 ==>
      d'.inodes[ip].nlink == d.inodes[ip].nlink - 1 - One(Orphans(d, ip, rp) && ip == rp)
  {
    hide EntryWritten, Frame, Cell, Tree, Sound, OnlyOwes, BlocksBack, Orphans, NoEntry, DirBytes;
    var parent := Orphans(d, ip, rp);
    var d2 := Unlinked(d1, rp, ip, parent);
    ErasedAndLowered(d, d1, rp, e, ip, parent);
    if d2.inodes[ip].nlink == 0 {
      FreedCells(d2, d', ip);
      FrameTransitive(d, d2, d', {rp, ip}, {ip});
      assert {rp, ip} + {ip} == {rp, ip};
    }
  }

  lemma FreedCells(d: Disk, d': Disk, x: nat)
    requires InodeFreed(d, d', x)
    ensures Frame(d, d', {x}) && d'.inodes[x].typ == 0
    ensures forall j: nat, e: nat :: Cell(d', j, e) == if j == x then NoEntry() else Cell(d, j, e)
    ensures forall y: nat | y < |d.inodes| && y != x :: d'.inodes[y] == d.inodes[y]
  {
    hide Cell, NoEntry, Sound;
    OtherCells(d, d', x);
    FrameOfOne(d, d', x);
    forall y: nat | y < |d.inodes| && y != x ensures d'.inodes[y] == d.inodes[y] {
      assert Untouched(d, d', y);
    }
  }

  lemma ErasedAndLowered(d: Disk, d1: Disk, rp: nat, e: nat, ip: nat, parent: bool)
    requires EntryWritten(d, d1, rp, e, NoEntry()) && rp < |d1.inodes| == |d.inodes| && ip < |d1.inodes|
    ensures var d2 := Unlinked(d1, rp, ip, parent);
            && CellWritten(d, d2, rp, e, NoEntry()) && Frame(d, d2, {rp, ip})
            && forall y: nat | y < |d.inodes| && y != ip ::
                 d2.inodes[y].nlink == (d.inodes[y].nlink + if parent && y == rp then USHORT - 1 else 0) % USHORT
  {
    hide EntryWritten, Frame, Cell, NoEntry;
    var d2 := Unlinked(d1, rp, ip, parent);
    WriteEffect(d, d1, rp, e, NoEntry());
    var m := if parent then Lowered(d1, rp) else d1;
    if parent {
      NlinkEffect(d1, rp, (d1.inodes[rp].nlink + USHORT - 1) % USHORT);
      FrameTransitive(d, d1, m, {rp}, {rp});
      assert {rp} + {rp} == {rp};
    }
    NlinkEffect(m, ip, (m.inodes[ip].nlink + USHORT - 1) % USHORT);
    FrameTransitive(d, m, d2, {rp}, {ip});
    assert {rp} + {ip} == {rp, ip};
  }

  // ----- moving a directory's parent link

  /** ".." of `cip` now names `pip` instead of `q`, and `pip`'s count is raised: what was owed at `q` is settled. */
  lemma ParentMoved(d: Disk, d': Disk, cip: nat, e: nat, pip: nat, q: nat)
    requires pip < USHORT && Tree(d, q) && EntryWritten(d, d', cip, e, Encode(pip, DOTDOT))
    requires ENTRY * e + ENTRY <= d.inodes[cip].size && LinksTo(EntryBytes(Content(d, cip), e), q)
    requires 0 < pip < |d.inodes| && d.inodes[pip].typ != 0 && d.inodes[pip].nlink + 1 < USHORT && 0 < q
    ensures pip < |d'.inodes| && Tree(WithNlink(d', pip, d.inodes[pip].nlink + 1), 0)
  {
    hide Tree, EntryWritten, Content, CName, Encode, EntryBytes;
    EncodeDecode(pip, DOTDOT);
    EntryWrittenIsSound(d, d', cip, e, Encode(pip, DOTDOT));
    WriteThenCount(d, d', cip, e, Encode(pip, DOTDOT), pip, d.inodes[pip].nlink + 1, q, 0);
  }

  /** The first ".." of directory `cip` made to name `pip`, and `pip`'s count raised. */
  ghost predicate ParentSet(d: Disk, d': Disk, pip: nat, cip: nat, e: nat, mid: Disk) {
    && pip < USHORT && cip < |d.inodes| && DirOk(d, cip) && FirstNamed(Content(d, cip), DOTDOT, e)
    && EntryWritten(d, mid, cip, e, Encode(pip, DOTDOT)) && pip < |mid.inodes| && pip < |d.inodes|
    && d' == WithNlink(mid, pip, (d.inodes[pip].nlink + 1) % USHORT)
  }

  /** Redirecting ".."; the source reads an unset offset if there is none, so there must be one. */
  method DMkParLink(img: Image, pip: nat, cip: nat) returns (r: int, ghost e: nat, ghost mid: Disk)
    requires Sound(img.Disk()) && DirsOk(img.Disk()) && pip < |img.inodes| && cip < |img.inodes|
    requires IsDir(img.inodes[pip]) && IsDir(img.inodes[cip]) ==> exists q :: Orphans(img.Disk(), cip, q)
    modifies img
    ensures r == if IsDir(old(img.inodes)[pip]) && IsDir(old(img.inodes)[cip]) then 0 else -1
    ensures r == -1 ==> img.Disk() == old(img.Disk())
    ensures Sound(img.Disk())
    ensures r == 0 ==> ParentSet(old(img.Disk()), img.Disk(), pip, cip, e, mid)
    ensures r == 0 ==> forall q: nat | Tree(old(img.Disk()), q) && Orphans(old(img.Disk()), cip, q) && 0 < q ::
      old(img.inodes)[pip].nlink + 1 < USHORT ==> Tree(img.Disk(), 0)
  {
    hide Tree, Sound, Content, CName, Encode, EntryBytes, EntryWritten, EntryOk, Orphans, DirOk, Grows,
         OthersUntouched, CellWritten, Frame, Owned;
    ghost var d := img.Disk();
    e, mid := 0, d;
    if img.inodes[pip].typ != T_DIR {
      return -1, e, mid;
    }
    if img.inodes[cip].typ != T_DIR {
      return -1, e, mid;
    }
    DataSize(d, cip);
    var found, inum, off := DLookup(img, cip, DOTDOT);
    e := off / ENTRY;
    ParentFound(d, cip, found, e);
    var w := WriteEntry(img, cip, off, Encode(pip, DOTDOT));
    mid := img.Disk();
    WriteEffect(d, mid, cip, e, Encode(pip, DOTDOT));
    EntryWrittenIsSound(d, mid, cip, e, Encode(pip, DOTDOT));
    NlinkKeepsFiles(mid, pip, (img.inodes[pip].nlink + 1) % USHORT);
    forall q: nat | Tree(d, q) && Orphans(d, cip, q) && 0 < q && d.inodes[pip].nlink + 1 < USHORT
      ensures Tree(WithNlink(mid, pip, d.inodes[pip].nlink + 1), 0)
    {
      ParentLinks(d, cip, e, q);
      ParentMoved(d, mid, cip, e, pip, q);
    }
    SetNlink(img, pip, (img.inodes[pip].nlink + 1) % USHORT);
    r := 0;
  }

  lemma ParentFound(d: Disk, cip: nat, found: bool, e: nat)
    requires cip < |d.inodes| && IsDir(d.inodes[cip]) && d.inodes[cip].size <= MAXFILE * BSIZE
    requires exists q :: Orphans(d, cip, q)
    requires if found then FirstNamed(Content(d, cip), DOTDOT, e) else NotNamed(Content(d, cip), DOTDOT)
    ensures found && ENTRY * e + ENTRY <= d.inodes[cip].size
  {
    hide EntryBytes, CName;
    var q :| Orphans(d, cip, q);
    var x: nat :| FirstNamed(DirBytes(d, cip), DOTDOT, x) && Inum(DirBytes(d, cip), x) == q;
    assert Name(Content(d, cip), x) == DOTDOT;
  }

  lemma ParentLinks(d: Disk, cip: nat, e: nat, q: nat)
    requires Orphans(d, cip, q) && IsDir(d.inodes[cip]) && d.inodes[cip].size <= MAXFILE * BSIZE
    requires FirstNamed(Content(d, cip), DOTDOT, e)
    ensures LinksTo(EntryBytes(Content(d, cip), e), q)
  {
    hide EntryBytes, CName;
    FirstNamedUnique(Content(d, cip), DOTDOT, e);
  }

  // ----- the test for an empty directory

  predicate Occupied(bytes: seq<Byte>)
    requires |bytes| == ENTRY
  {
    DecodeInum(bytes) != 0
  }

  /** How many of the first `n` entries are in use. */
  function OccupiedTo(c: seq<Byte>, n: nat): nat
    requires ENTRY * n <= |c|
  {
    if n == 0 then 0 else OccupiedTo(c, n - 1) + One(Occupied(EntryBytes(c, n - 1)))
  }

  /** Two entries in use: what `emptydir` takes for an empty directory. */
  ghost predicate Bare(c: seq<Byte>) {
    OccupiedTo(c, |c| / ENTRY) == 2
  }

  lemma {:induction false} ThreeOccupied(c: seq<Byte>, n: nat, x: nat, y: nat, z: nat)
    requires ENTRY * n <= |c| && x != y && y != z && x != z
    ensures OccupiedTo(c, n) >= One(x < n && Occupied(EntryBytes(c, x))) + One(y < n && Occupied(EntryBytes(c, y)))
                                + One(z < n && Occupied(EntryBytes(c, z)))
  {
    hide EntryBytes, Occupied;
    if n > 0 {
      ThreeOccupied(c, n - 1, x, y, z);
    }
  }

  /** If only entry `e` can link to `y`, the count is that entry's weight. */
  lemma {:induction false} CountOfOne(c: seq<Byte>, y: nat, e: nat, n: nat)
    requires ENTRY * n <= |c|
    requires forall x: nat | x < n && x != e :: !LinksTo(EntryBytes(c, x), y)
    ensures CountTo(c, y, n) == if e < n then Weight(EntryBytes(c, e), y) else 0
  {
    hide EntryBytes, LinksTo;
    if n > 0 {
      CountOfOne(c, y, e, n - 1);
    }
  }

  /** A directory with just its "." and ".." entries links to its parent once and to nothing else. */
  lemma EmptyDirOnlyOwes(d: Disk, x: nat, rp: nat, dot: nat, dotdot: nat)
    requires x < |d.inodes| && IsDir(d.inodes[x]) && DirOk(d, x) && Bare(Content(d, x))
    requires FirstNamed(Content(d, x), DOT, dot) && Inum(Content(d, x), dot) != 0
    requires FirstNamed(Content(d, x), DOTDOT, dotdot) && Inum(Content(d, x), dotdot) == rp && rp != 0
    ensures OnlyOwes(d, x, rp)
  {
    hide Content, CName, EntryBytes;
    var c := Content(d, x);
    var n := |c| / ENTRY;
    forall y: nat | 0 < y < |d.inodes| && y != x && d.inodes[y].typ != 0
      ensures Count(c, y) == if y == rp then 1 else 0
    {
      forall z: nat | z < n && z != dotdot ensures !LinksTo(EntryBytes(c, z), y) {
        if z != dot {
          ThreeOccupied(c, n, z, dot, dotdot);
        }
      }
      CountOfOne(c, y, dotdot, n);
    }
  }

  method EmptyDir(img: Image, dp: nat) returns (b: bool)
    requires Sound(img.Disk()) && dp < |img.inodes| && IsDir(img.inodes[dp]) && DirOk(img.Disk(), dp)
    modifies img
    ensures img.Disk() == old(img.Disk())
    ensures b <==> Bare(Content(img.Disk(), dp))
  {
    hide Sound, Content, CName, EntryBytes, EntryOk;
    ghost var c := Content(img.Disk(), dp);
    var nent, off := 0, 0;
    while off < img.inodes[dp].size
      invariant img.Disk() == old(img.Disk()) && off % ENTRY == 0 && off <= |c|
      invariant nent == OccupiedTo(c, off / ENTRY)
    {
      EntryFits(off, img.inodes[dp].size);
      var bytes := ReadEntry(img, dp, off);
      if DecodeInum(bytes) != 0 {
        nent := nent + 1;
      }
      off := off + ENTRY;
    }
    b := nent == 2;
  }
}
