/** Moving onto a name that is in use, as the mv command of tools/opfs.c does it: unlink the target, then rename. */
module FsReplace {
  import opened FsDisk
  import opened FsLinks
  import opened FsImage
  import opened FsDir
  import opened FsUnlink
  import opened FsTree
  import opened FsCommands
  import opened FsReach
  import opened FsNames
  import opened FsGood

  /** What the command has checked: a file for a file, or a directory for an empty one, and not for itself. */
  ghost predicate Replaceable(d: Disk, oldp: nat, sname: seq<Byte>, newp: nat, dname: seq<Byte>, sip: nat, tip: nat,
                              es: nat, et: nat) {
    && Good(d) && Dir(d, oldp) && Dir(d, newp) && IsName(sname) && IsName(dname) && {sname, dname} !! {DOT, DOTDOT}
    && Finds(d, oldp, sname, es) && Target(d, oldp, es) == sip && Finds(d, newp, dname, et)
    && Target(d, newp, et) == tip
    && (oldp != newp || es != et)
    && (if Dir(d, tip) then Dir(d, sip) && EmptyDirAt(d, tip) else !Dir(d, sip))
  }

  lemma TargetPlace(d: Disk, oldp: nat, sname: seq<Byte>, newp: nat, dname: seq<Byte>, sip: nat, tip: nat, es: nat,
                    et: nat)
    requires Replaceable(d, oldp, sname, newp, dname, sip, tip, es, et)
    ensures es >= 2 && et >= 2 && 0 < sip < |d.inodes| && 0 < tip < |d.inodes|
    ensures Dir(d, tip) ==> tip != oldp && tip != newp && tip != sip && tip != ROOT
    ensures Dir(d, tip) ==> Names(d, newp, et, tip) && forall f: nat | f >= 2 :: Target(d, tip, f) == 0
  {
    hide Tree, Rooted, Connected, Unique, Label, Target, IsName, DirsOk, Sound, Content, Bare, OnlyOwes, Orphans,
         NamedAt;
    TreeIsSound(d, 0);
    DirFacts(d, oldp);
    DirFacts(d, newp);
    NameLength(sname);
    NameLength(dname);
    CellOk(d, oldp, es);
    CellOk(d, newp, et);
    if Dir(d, tip) {
      DirSize(d, tip);
      EmptyIsRemovable(d, newp, dname, et, tip);
      OneEntry(d, newp, et, oldp, es, tip, sip);
    }
  }

  /** A directory is named by one entry, so what another names is another. */
  lemma OneEntry(d: Disk, i: nat, e: nat, j: nat, f: nat, x: nat, y: nat)
    requires Rooted(d) && Dir(d, x) && Names(d, i, e, x) && Names(d, j, f, y) && (i != j || e != f)
    ensures x != y
  {
    hide Rooted, Parent, Names, Dir;
    OnlyName(d, i, e, x);
    if x == y {
      OnlyName(d, j, f, x);
    }
  }

  /** Without the target, the image is good, the name is free and there is an empty entry for it. */
  lemma TargetGone(d: Disk, d1: Disk, oldp: nat, sname: seq<Byte>, newp: nat, dname: seq<Byte>, sip: nat, tip: nat,
                   es: nat, et: nat, m: Disk)
    requires Replaceable(d, oldp, sname, newp, dname, sip, tip, es, et) && UnlinkDone(d, d1, newp, et, tip, m)
    ensures Good(d1) && !HasName(d1, newp, dname) && Frame(d, d1, {newp, tip})
    ensures |d1.inodes| == |d.inodes| && (forall x: nat :: Dir(d1, x) <==> Dir(d, x) && !(x == tip && Dir(d, tip)))
  {
    hide Tree, Rooted, Connected, Unique, Label, Target, IsName, UnlinkDone, Content, Frame, HasName, Finds;
    TargetPlace(d, oldp, sname, newp, dname, sip, tip, es, et);
    NameUnlinked(d, d1, newp, dname, et, tip, m);
  }

  /** A file or an empty directory unlinked: the image stays good, and the name is free. */
  lemma NameUnlinked(d: Disk, d1: Disk, rp: nat, name: seq<Byte>, e: nat, x: nat, m: Disk)
    requires Good(d) && Dir(d, rp) && IsName(name) && name != DOT && name != DOTDOT
    requires Finds(d, rp, name, e) && Target(d, rp, e) == x && (Dir(d, x) ==> EmptyDirAt(d, x))
    requires UnlinkDone(d, d1, rp, e, x, m)
    ensures Good(d1) && !HasName(d1, rp, name) && Frame(d, d1, {rp, x})
    ensures |d1.inodes| == |d.inodes| && (forall y: nat :: Dir(d1, y) <==> Dir(d, y) && !(y == x && Dir(d, x)))
  {
    hide Tree, Rooted, Connected, Unique, Label, Target, IsName, UnlinkDone, Content, Frame, Cell, CellWritten, HasName,
         Sound, DirsOk, Orphans, Removed, Finds, DirOk, OnlyOwes, Bare, Names;
    UnlinkCells(d, d1, rp, e, x, m);
    UnlinkRange(d, d1, rp, e, x, m);
    FrameLength(d, d1, {rp, x});
    NameLength(name);
    FindsLabel(d, rp, name, e);
    UnlinkKeepsUnique(d, d1, rp, e, x, m);
    if Dir(d, x) {
      TreeIsSound(d, 0);
      DirSize(d, x);
      EmptyIsRemovable(d, rp, name, e, x);
      RemovalDone(d, d1, rp, name, e, x, m);
      RemovalKeepsConnected(d, d1, rp, e, x);
      RemovedDirs(d, d1, rp, e, x);
    } else {
      UnlinkedIsGood(d, d1, rp, name, e, x, m);
      UnlinkedDirs(d, d1, rp, e, x, m);
    }
  }

  lemma FindsLabel(d: Disk, i: nat, name: seq<Byte>, e: nat)
    requires Finds(d, i, name, e)
    ensures Label(d, i, e) == name
  {
  }

  lemma RemovedDirs(d: Disk, d': Disk, rp: nat, e: nat, x: nat)
    requires Removed(d, d', rp, e, x)
    ensures forall y: nat :: Dir(d', y) <==> Dir(d, y) && y != x
  {
  }

  lemma UnlinkedDirs(d: Disk, d': Disk, rp: nat, e: nat, ip: nat, d1: Disk)
    requires UnlinkDone(d, d', rp, e, ip, d1) && !Dir(d, ip) && ip < |d.inodes| == |d'.inodes|
    ensures forall y: nat :: Dir(d', y) <==> Dir(d, y)
  {
    hide UnlinkDone, Frame, Cell, Orphans;
    UnlinkCells(d, d', rp, e, ip, d1);
  }

  /** So the rename that follows is one to a new name. */
  lemma SourceMovable(d: Disk, d1: Disk, oldp: nat, sname: seq<Byte>, newp: nat, dname: seq<Byte>, sip: nat, tip: nat,
                      es: nat, et: nat, m: Disk)
    requires Replaceable(d, oldp, sname, newp, dname, sip, tip, es, et) && UnlinkDone(d, d1, newp, et, tip, m)
    ensures Movable(d1, oldp, sname, newp, dname, sip, es) && (Dir(d1, sip) <==> Dir(d, sip))
  {
    hide Tree, Rooted, Connected, Unique, IsName, UnlinkDone, Content, Frame, Cell, Sound, DirsOk, Finds, Label,
         Target, Dir, HasName, EmptyDirAt;
    TargetPlace(d, oldp, sname, newp, dname, sip, tip, es, et);
    TargetGone(d, d1, oldp, sname, newp, dname, sip, tip, es, et, m);
    SourceStillThere(d, d1, oldp, sname, newp, dname, sip, tip, es, et, m);
    FreeLabel(d1, newp, dname);
    TreeIsSound(d1, 0);
    CellOk(d1, oldp, es);
  }

  lemma FreeLabel(d: Disk, i: nat, name: seq<Byte>)
    requires !HasName(d, i, name)
    ensures forall y: nat :: Label(d, i, y) != name
  {
  }

  lemma SourceStillThere(d: Disk, d1: Disk, oldp: nat, sname: seq<Byte>, newp: nat, dname: seq<Byte>, sip: nat,
                         tip: nat, es: nat, et: nat, m: Disk)
    requires Replaceable(d, oldp, sname, newp, dname, sip, tip, es, et) && UnlinkDone(d, d1, newp, et, tip, m)
    ensures Finds(d1, oldp, sname, es) && Target(d1, oldp, es) == sip
  {
    hide Tree, Rooted, Connected, Unique, IsName, UnlinkDone, Content, Frame, Cell, Orphans, DecodeInum, DecodeName,
         NoEntry, EmptyDirAt, Dir;
    TargetPlace(d, oldp, sname, newp, dname, sip, tip, es, et);
    UnlinkCells(d, d1, newp, et, tip, m);
    NoEntryIsEmpty();
    NameLength(sname);
    assert tip != oldp;
    forall y: nat | y < es ensures Label(d1, oldp, y) != sname {
      assert Label(d, oldp, y) != sname;
    }
  }

  /** The entry just emptied is room for the new one. */
  lemma TargetLeavesRoom(d: Disk, d1: Disk, oldp: nat, sname: seq<Byte>, newp: nat, dname: seq<Byte>, sip: nat,
                         tip: nat, es: nat, et: nat, m: Disk)
    requires Replaceable(d, oldp, sname, newp, dname, sip, tip, es, et) && UnlinkDone(d, d1, newp, et, tip, m)
    ensures Dir(d1, newp) && d1.inodes[newp].size <= MAXFILE * BSIZE && !Full(d1, newp) && EntryCost(d1, newp) == 0
  {
    hide Tree, Rooted, Connected, Unique, IsName, UnlinkDone, Content, Frame, Label, Target, Full, EntryCost, HasName,
         Finds, EmptyDirAt;
    TargetPlace(d, oldp, sname, newp, dname, sip, tip, es, et);
    TargetGone(d, d1, oldp, sname, newp, dname, sip, tip, es, et, m);
    UnlinkLeavesRoom(d, d1, newp, et, tip, m);
  }

  lemma UnlinkLeavesRoom(d: Disk, d1: Disk, rp: nat, e: nat, x: nat, m: Disk)
    requires UnlinkDone(d, d1, rp, e, x, m) && Dir(d, rp) && rp != x && Tree(d1, 0) && Dir(d1, rp)
    ensures DirOk(d1, rp) && d1.inodes[rp].size <= MAXFILE * BSIZE && !Full(d1, rp) && EntryCost(d1, rp) == 0
    ensures ENTRY * e + ENTRY <= d1.inodes[rp].size && Inum(Content(d1, rp), e) == 0
  {
    hide Tree, UnlinkDone, Content, Cell, Sound, DirsOk, Label, Target, EntryBytes, DecodeInum, Footprint;
    TreeIsSound(d1, 0);
    DirSize(d1, rp);
    EmptiedTarget(d, d1, rp, e, x, m);
    CellOfContent(d1, rp, e);
    assert Inum(Content(d1, rp), e) == 0;
  }

  lemma EmptiedTarget(d: Disk, d1: Disk, newp: nat, et: nat, tip: nat, m: Disk)
    requires UnlinkDone(d, d1, newp, et, tip, m) && Dir(d, newp) && (newp == tip ==> !Dir(d, tip))
    ensures Target(d1, newp, et) == 0
    ensures newp < |d1.inodes| && ENTRY * et + ENTRY <= d1.inodes[newp].size
  {
    hide UnlinkDone, Frame, Cell, Orphans, NoEntry, DecodeInum, Dir;
    UnlinkCells(d, d1, newp, et, tip, m);
    UnlinkRange(d, d1, newp, et, tip, m);
    NoEntryIsEmpty();
    FrameLength(d, d1, {newp, tip});
  }

  /** Nothing that is left goes up another way. */
  lemma BelowBefore(d: Disk, d1: Disk, oldp: nat, sname: seq<Byte>, newp: nat, dname: seq<Byte>, sip: nat, tip: nat,
                    es: nat, et: nat, m: Disk)
    requires Replaceable(d, oldp, sname, newp, dname, sip, tip, es, et) && UnlinkDone(d, d1, newp, et, tip, m)
    requires Dir(d, tip)
    ensures Below(d1, newp, sip) ==> Below(d, newp, sip)
  {
    hide Tree, Rooted, Connected, Unique, IsName, UnlinkDone, Content, Frame, Cell, Orphans, Label, DecodeInum,
         NoEntry, Up, NamedAt, Dir;
    if Below(d1, newp, sip) {
      TargetPlace(d, oldp, sname, newp, dname, sip, tip, es, et);
      UnlinkCells(d, d1, newp, et, tip, m);
      forall z: nat | Dir(d, z) && z != tip ensures Parent(d1, z) == Parent(d, z) {
        assert Cell(d1, z, 1) == Cell(d, z, 1);
      }
      var n: nat :| Up(d1, newp, n) == sip;
      NotThrough(d, newp, n, tip);
      UpSame(d, d1, newp, n, tip);
    }
  }

  /**
   The target's name goes, and with it the target if that was its last link; then the source takes the name.
   That needs no block, so it always succeeds; all is good again unless a directory goes below itself.
   */
  method Replace(img: Image, oldp: nat, sname: seq<Byte>, newp: nat, dname: seq<Byte>, sip: nat, ghost tip: nat,
                 ghost es: nat, ghost et: nat)
    returns (r: Outcome<int>, ghost d1: Disk, ghost m: Disk, ghost e: nat)
    requires Replaceable(img.Disk(), oldp, sname, newp, dname, sip, tip, es, et)
    modifies img
    ensures r == Ok(0) && Owned(img.Disk()) && Frame(old(img.Disk()), img.Disk(), {oldp, newp, sip, tip})
    ensures UnlinkDone(old(img.Disk()), d1, newp, et, tip, m)
    ensures Target(d1, newp, e) == 0 && Moved(d1, img.Disk(), oldp, es, newp, e, sip, dname)
    ensures Tree(img.Disk(), 0) && Rooted(img.Disk()) && Unique(img.Disk())
    ensures Connected(img.Disk()) <==> !(Dir(d1, sip) && Below(d1, newp, sip))
    ensures !HasName(img.Disk(), oldp, sname) && Label(img.Disk(), newp, e) == dname
  {
    hide Tree, Rooted, Connected, Unique, IsName, UnlinkDone, Content, Frame, Cell, Sound, DirsOk, DirOk, Label,
         Target, Finds, HasName, Full, EntryCost, FreeBlocks, Moved, Grown, Owned, FirstNamed, NotNamed, Untouched,
         EntryBytes, CName, EmptyDirAt, Below;
    ghost var d := img.Disk();
    TargetPlace(d, oldp, sname, newp, dname, sip, tip, es, et);
    StillFound(d, newp, dname, et);
    var u;
    ghost var ip, e1;
    u, ip, e1, m := IUnlink(img, newp, dname);
    d1 := img.Disk();
    TargetGone(d, d1, oldp, sname, newp, dname, sip, tip, es, et, m);
    SourceMovable(d, d1, oldp, sname, newp, dname, sip, tip, es, et, m);
    TargetLeavesRoom(d, d1, oldp, sname, newp, dname, sip, tip, es, et, m);
    r, e := Rename(img, oldp, sname, newp, dname, sip, es);
    RenameConnectedIff(d1, img.Disk(), oldp, sname, newp, dname, sip, es, e);
    MoveKeepsUnique(d1, img.Disk(), oldp, sname, newp, dname, sip, es, e);
    FrameTransitive(d, d1, img.Disk(), {newp, tip}, {oldp, newp, sip});
    assert {newp, tip} + {oldp, newp, sip} == {oldp, newp, sip, tip};
  }

  // ----- a name moved onto itself

  lemma OverwrittenTwice(c: seq<Byte>, o: nat, a: seq<Byte>, b: seq<Byte>)
    requires o <= |c| && |a| == |b|
    ensures Overwritten(Overwritten(c, o, a), o, b) == Overwritten(c, o, b)
  {
  }

  /** A name that was nowhere is found where it was written. */
  lemma WrittenIsFirst(c: seq<Byte>, e: nat, x: nat, name: seq<Byte>)
    requires |c| % ENTRY == 0 && ENTRY * e + ENTRY <= |c| && x < USHORT && IsName(name) && NotNamed(c, name)
    ensures var c' := Overwritten(c, ENTRY * e, Encode(x, name));
            |c'| == |c| && FirstNamed(c', name, e) && Inum(c', e) == x
  {
    hide EntryBytes, CName, DecodeInum, Encode;
    var c' := Overwritten(c, ENTRY * e, Encode(x, name));
    EncodeName(x, name);
    forall y: nat | y <= e ensures EntryBytes(c', y) == if y == e then Encode(x, name) else EntryBytes(c, y) {
      EntriesAfterWrite(c, e, Encode(x, name), y);
    }
    forall y: nat | y < e ensures Name(c', y) != name {
      assert Name(c, y) != name;
    }
  }

  /** An empty entry written and erased again. */
  lemma ErasedAgainIsGood(d: Disk, d': Disk, dp: nat, e: nat)
    requires Good(d) && EntryWritten(d, d', dp, e, NoEntry()) && Vacant(d, dp, e)
    ensures Good(d') && Frame(d, d', {dp}) && (forall y: nat :: Dir(d', y) <==> Dir(d, y))
    ensures forall j: nat, y: nat :: Label(d', j, y) == Label(d, j, y) || Label(d', j, y) == []
  {
    hide Tree, Rooted, Connected, Unique, EntryWritten, Cell, Frame, NoEntry, DecodeInum, CName, Content, Sound, DirsOk,
         OldWeight, EntryBytes;
    NoEntryIsEmpty();
    TreeIsSound(d, 0);
    EntryWrittenIsSound(d, d', dp, e, NoEntry());
    VacantWeight(d, dp, e);
    WriteEffect(d, d', dp, e, NoEntry());
    WriteThenCount(d, d', dp, e, NoEntry(), dp, d.inodes[dp].nlink, 0, 0);
    assert WithNlink(d', dp, d.inodes[dp].nlink) == d';
    WrittenIsDir(d, d', dp, e, NoEntry());
    VacantTarget(d, dp, e);
    RootFacts(d);
    SecondPlace(d, dp, e);
    OtherEntryKeepsShape(d, d', dp, e);
    SameUpsConnected(d, d');
    FewerNames(d, d');
  }

  lemma WrittenIsDir(d: Disk, d': Disk, dp: nat, e: nat, bytes: seq<Byte>)
    requires EntryWritten(d, d', dp, e, bytes)
    ensures Dir(d, dp) && DirOk(d, dp)
  {
  }

  lemma VacantTarget(d: Disk, dp: nat, e: nat)
    requires Vacant(d, dp, e) && Dir(d, dp)
    ensures Target(d, dp, e) == 0
  {
    hide Content, EntryBytes, Cell, DecodeInum, Target, Label;
    CellOfContent(d, dp, e);
  }

  /**
   What adding the name and unlinking it do to inode `x` when it is free already: `daddent` and `iunlink`
   as they are written, since their contracts speak of live inodes.
   */
  method RelinkFree(img: Image, dp: nat, name: seq<Byte>, x: nat, ghost et: nat) returns (ghost e: nat)
    requires Good(img.Disk()) && dp < |img.inodes| && IsDir(img.inodes[dp]) && DirOk(img.Disk(), dp)
    requires IsName(name) && name != DOT && NotNamed(Content(img.Disk(), dp), name)
    requires ENTRY * et + ENTRY <= img.inodes[dp].size && Inum(Content(img.Disk(), dp), et) == 0
    requires 0 < x < |img.inodes| && img.inodes[x].typ == 0 && img.inodes[x].size == 0 && img.inodes[x].nlink == 0
    modifies img
    ensures EntryWritten(old(img.Disk()), img.Disk(), dp, e, NoEntry()) && Vacant(old(img.Disk()), dp, e)
  {
    hide Tree, Rooted, Connected, Unique, Sound, Owned, DirsOk, Content, EntryBytes, CName, EntryOk, EntryWritten,
         Encode, NoEntry, OthersUntouched, Grows, Overwritten, FirstNamed, NotNamed, DecodeInum;
    ghost var d := img.Disk();
    TreeIsSound(d, 0);
    DirBound(d, dp);
    var off, dup := FindRoom(img, dp, name);
    e := off / ENTRY;
    PlaceBefore(Content(d, dp), name, off, dup, et);
    var w := WriteEntry(img, dp, off, Encode(x, name));
    ghost var mid := img.Disk();
    CountLink(img, name, x);
    ghost var d2 := img.Disk();
    RelinkedFound(d, mid, d2, dp, e, name, x);
    var found, inum, again := FindName(img, dp, name);
    FirstNamedUnique(Content(d2, dp), name, e);
    FoundIsNamed(Content(d2, dp), name, e);
    w := img.IWrite(dp, NoEntry(), again);
    ghost var d3 := img.Disk();
    NlinkKeepsFiles(d3, x, 0);
    SetNlink(img, x, (img.inodes[x].nlink + USHORT - 1) % USHORT);
    if img.inodes[x].nlink == 0 {
      if img.inodes[x].typ != T_DEV {
        w := img.ITruncate(x, 0);
      }
      var f := IFree(img, x);
    }
    assert img.Disk() == WithNlink(d3, x, 0);
    ErasedAgain(d, mid, d2, d3, dp, e, name, x);
  }

  /** The place found is no later than a known empty entry. */
  lemma PlaceBefore(c: seq<Byte>, name: seq<Byte>, off: nat, dup: bool, et: nat)
    requires Room(c, name, off, dup) && ENTRY * et + ENTRY <= |c| && Inum(c, et) == 0 && NotNamed(c, name)
    ensures !dup && off + ENTRY <= |c| && ENTRY * (off / ENTRY) == off && Inum(c, off / ENTRY) == 0
  {
    hide EntryBytes, CName, DecodeInum;
    var there := Inum(c, et);
    EntryFits(off, |c|);
  }

  lemma RelinkedFound(d: Disk, mid: Disk, d2: Disk, dp: nat, e: nat, name: seq<Byte>, x: nat)
    requires DirsOk(d) && dp < |d.inodes| && DirOk(d, dp) && x < |mid.inodes| && x < USHORT && IsName(name)
    requires EntryWritten(d, mid, dp, e, Encode(x, name)) && d2 == WithNlink(mid, x, Counted(mid.inodes[x].nlink, name))
    requires NotNamed(Content(d, dp), name) && ENTRY * e + ENTRY <= d.inodes[dp].size
    ensures Sound(d2) && dp < |d2.inodes| && d2.inodes[dp].size == d.inodes[dp].size <= MAXFILE * BSIZE
    ensures d2.inodes[dp].typ == d.inodes[dp].typ && d.inodes[dp].size % ENTRY == 0
    ensures Content(d2, dp) == Overwritten(Content(d, dp), ENTRY * e, Encode(x, name))
    ensures FirstNamed(Content(d2, dp), name, e) && Inum(Content(d2, dp), e) == x
  {
    hide Sound, OthersUntouched, EntryBytes, CName, DecodeInum, Encode, Overwritten, FirstNamed, NotNamed, EntryOk,
         DirsOk;
    EntryWrittenIsSound(d, mid, dp, e, Encode(x, name));
    NlinkKeepsFiles(mid, x, Counted(mid.inodes[x].nlink, name));
    WrittenIsFirst(Content(d, dp), e, x, name);
    SlotsDependOnAddrs(mid, d2, dp);
    assert Content(d2, dp) == Content(mid, dp);
  }

  /** Writing the entry and erasing it comes to erasing it. */
  lemma ErasedAgain(d: Disk, mid: Disk, d2: Disk, d3: Disk, dp: nat, e: nat, name: seq<Byte>, x: nat)
    requires dp < |d.inodes| && IsDir(d.inodes[dp]) && DirOk(d, dp) && x < |d.inodes| && x != dp && x < USHORT
    requires |name| <= DIRSIZ && d.inodes[x].typ == 0 && d.inodes[x].nlink == 0
    requires EntryWritten(d, mid, dp, e, Encode(x, name)) && x < |mid.inodes|
    requires d2 == WithNlink(mid, x, Counted(mid.inodes[x].nlink, name)) && mid.inodes == d.inodes
    requires ENTRY * e + ENTRY <= d.inodes[dp].size && Inum(Content(d, dp), e) == 0
    requires Sound(d3) && OthersUntouched(d2, d3, dp) && d3.inodes == d2.inodes && dp < |d2.inodes|
    requires Content(d2, dp) == Overwritten(Content(d, dp), ENTRY * e, Encode(x, name))
    requires |Content(d2, dp)| == |Content(d, dp)|
    requires Content(d3, dp) == Overwritten(Content(d2, dp), ENTRY * e, NoEntry())
    ensures EntryWritten(d, WithNlink(d3, x, 0), dp, e, NoEntry()) && Vacant(d, dp, e)
  {
    hide Sound, EntryBytes, CName, DecodeInum, Encode, Overwritten, EntryOk, NoEntry, Untouched;
    var d4 := WithNlink(d3, x, 0);
    NlinkKeepsFiles(d3, x, 0);
    OverwrittenTwice(Content(d, dp), ENTRY * e, Encode(x, name), NoEntry());
    SlotsDependOnAddrs(d3, d4, dp);
    assert Content(d4, dp) == Content(d3, dp);
    EntryWrittenIsSound(d, mid, dp, e, Encode(x, name));
    NlinkKeepsOthers(mid, x, Counted(mid.inodes[x].nlink, name));
    forall y: nat | y < |d.inodes| && y != dp ensures Untouched(d, d4, y) {
      if y == x {
        FreeUntouched(d, d4, x);
      } else {
        assert Untouched(d, mid, y) && Untouched(mid, d2, y) && Untouched(d2, d3, y) && Untouched(d3, d4, y);
        FourUntouched(d, mid, d2, d3, d4, y);
      }
    }
  }

  lemma NlinkKeepsOthers(d: Disk, x: nat, v: Ushort)
    requires Sound(d) && x < |d.inodes|
    ensures OthersUntouched(d, WithNlink(d, x, v), x)
  {
    NlinkKeepsFiles(d, x, v);
  }

  lemma FreeUntouched(d: Disk, d': Disk, x: nat)
    requires x < |d.inodes| && x < |d'.inodes| && d'.inodes[x] == d.inodes[x] && d.inodes[x].typ == 0
    ensures Untouched(d, d', x)
  {
  }

  lemma FourUntouched(a: Disk, b: Disk, c: Disk, d: Disk, e: Disk, y: nat)
    requires Untouched(a, b, y) && Untouched(b, c, y) && Untouched(c, d, y) && Untouched(d, e, y)
    ensures Untouched(a, e, y)
  {
    hide Slot, ByteAt;
  }

  lemma FreedFields(d: Disk, d1: Disk, rp: nat, e: nat, x: nat, m: Disk)
    requires UnlinkDone(d, d1, rp, e, x, m) && x < |d1.inodes| && d1.inodes[x].typ == 0 && d.inodes[x].typ != T_DEV
    ensures d1.inodes[x].size == 0 && d1.inodes[x].nlink == 0
  {
    hide Tree, EntryWritten, NoEntry, Orphans, OnlyOwes, BlocksBack, WithNlink;
    UnlinkedFields(m, rp, x, Orphans(d, x, rp));
    ErasedTypes(d, m, rp, e, x);
  }

  /** Moving a name onto itself: what the command has checked. */
  ghost predicate SelfMove(d: Disk, dp: nat, name: seq<Byte>, x: nat, es: nat) {
    && Good(d) && Dir(d, dp) && IsName(name) && name != DOT && name != DOTDOT
    && Finds(d, dp, name, es) && Target(d, dp, es) == x && x < |d.inodes|
    && (if Dir(d, x) then EmptyDirAt(d, x) else d.inodes[x].typ == T_FILE)
  }

  lemma SelfMoveStarts(d: Disk, dp: nat, name: seq<Byte>, x: nat, es: nat)
    requires SelfMove(d, dp, name, x, es)
    ensures x != dp && 0 < x && 1 <= d.inodes[x].nlink && (Dir(d, x) ==> d.inodes[x].nlink == 1)
    ensures Dir(d, x) <==> Orphans(d, x, dp)
  {
    hide Tree, Rooted, Connected, Unique, Label, Target, IsName, DirsOk, Sound, Content, Bare, OnlyOwes, Orphans, Names,
         Finds, FirstNamed, Dotted, Parent;
    TreeIsSound(d, 0);
    RootFacts(d);
    NameLength(name);
    FindsLabel(d, dp, name, es);
    CellOk(d, dp, es);
    if Dir(d, x) {
      DirSize(d, x);
      EmptyIsRemovable(d, dp, name, es, x);
    } else {
      ParentMeans(d, x, dp);
      NamedHasCount(d, dp, name, es, x);
    }
  }

  lemma NamedHasCount(d: Disk, dp: nat, name: seq<Byte>, e: nat, x: nat)
    requires Tree(d, 0) && Dir(d, dp) && IsName(name) && name != DOT
    requires Finds(d, dp, name, e) && Target(d, dp, e) == x && 0 < x
    ensures x < |d.inodes| && d.inodes[x].nlink >= 1
  {
    hide Tree, DirsOk, Sound, Content, EntryBytes, CName, DecodeInum, DirOk, Finds, Target, IsName;
    TreeDir(d, 0, dp);
    StillFound(d, dp, name, e);
    LinkedHasCount(d, dp, e, x, 0);
  }

  /**
   The mv command on a name and itself: unlink it, add it, unlink it. The name is lost, and what it named is
   gone if that was its last link. The image stays good.
   */
  method MoveOntoItself(img: Image, dp: nat, name: seq<Byte>, x: nat, ghost es: nat) returns (r: Outcome<int>)
    requires SelfMove(img.Disk(), dp, name, x, es)
    modifies img
    ensures r == Ok(0) && Good(img.Disk()) && !HasName(img.Disk(), dp, name)
    ensures Frame(old(img.Disk()), img.Disk(), {dp, x}) && x < |img.inodes|
    ensures img.inodes[x].typ == if old(img.inodes)[x].nlink == 1 then 0 else old(img.inodes)[x].typ
    ensures old(img.inodes)[x].nlink > 1 ==> img.inodes[x].nlink == old(img.inodes)[x].nlink - 1
    ensures NamesKept(old(img.Disk()), img.Disk(), {(dp, name)}, if Dir(old(img.Disk()), x) then {x} else {})
  {
    hide NamesKept, Tree, Rooted, Connected, Unique, IsName, UnlinkDone, Content, Frame, Sound, DirsOk, DirOk, Label,
         Target, Finds, HasName, Full, EntryCost, Owned, FirstNamed, NotNamed, EntryBytes, CName, EmptyDirAt, Orphans,
         EntryWritten, NoEntry, DecodeInum, ParentSet, Vacant;
    ghost var d := img.Disk();
    SelfMoveStarts(d, dp, name, x, es);
    var wasDir := img.inodes[x].typ == T_DIR;
    StillFound(d, dp, name, es);
    var u;
    ghost var ip, e1, m;
    u, ip, e1, m := IUnlink(img, dp, name);
    ghost var d1 := img.Disk();
    NameUnlinked(d, d1, dp, name, es, x, m);
    UnlinkLeavesRoom(d, d1, dp, es, x, m);
    UnlinkedIsOwned(d, d1, dp, es, x, m);
    FindsLabel(d, dp, name, es);
    UnlinkNames(d, d1, dp, es, x, m);
    if img.inodes[x].typ == 0 {
      FreedFields(d, d1, dp, es, x, m);
      FreeName(d1, dp, name);
      ghost var e := RelinkFree(img, dp, name, x, es);
      SelfMoveFreed(d, d1, img.Disk(), dp, name, e, x);
      if wasDir {
        ghost var up, mid;
        u, up, mid := DMkParLink(img, dp, x);
      }
    } else {
      LinksRemain(d, d1, dp, es, x, m);
      Relink(img, dp, name, x, d);
    }
    NamesKeptWider(d1, img.Disk(), {(dp, name)}, {}, {(dp, name)}, if Dir(d, x) then {x} else {});
    NamesKeptTrans(d, d1, img.Disk(), {(dp, name)}, if Dir(d, x) then {x} else {});
    r := Ok(0);
  }

  lemma FreeName(d: Disk, i: nat, name: seq<Byte>)
    requires Dir(d, i) && d.inodes[i].size <= MAXFILE * BSIZE && IsName(name) && !HasName(d, i, name)
    ensures NotNamed(Content(d, i), name) && !Taken(Content(d, i), name)
  {
    hide Content, EntryBytes, CName, DecodeInum, Label, IsName;
    NameLength(name);
    FreeLabel(d, i, name);
    NotNamedMeans(d, i, name);
  }

  lemma SelfMoveFreed(d: Disk, d1: Disk, d': Disk, dp: nat, name: seq<Byte>, e: nat, x: nat)
    requires Good(d1) && !HasName(d1, dp, name) && Frame(d, d1, {dp, x}) && x < |d1.inodes| && d1.inodes[x].typ == 0
    requires EntryWritten(d1, d', dp, e, NoEntry()) && Vacant(d1, dp, e) && IsName(name) && x != dp
    ensures Good(d') && !HasName(d', dp, name) && Frame(d, d', {dp, x}) && x < |d'.inodes| && d'.inodes[x].typ == 0
    ensures Sound(d') && DirsOk(d') && |d'.inodes| == |d1.inodes| && NamesKept(d1, d', {(dp, name)}, {})
  {
    hide Tree, Rooted, Connected, Unique, IsName, Frame, Label, EntryWritten, NoEntry, Vacant, Dir, Sound, DirsOk,
         Owned, NamesKept;
    TreeIsSound(d1, 0);
    ErasedNames(d1, d', dp, e, {(dp, name)});
    ErasedAgainIsGood(d1, d', dp, e);
    TreeIsSound(d', 0);
    NameLength(name);
    FrameTransitive(d, d1, d', {dp, x}, {dp});
    assert {dp, x} + {dp} == {dp, x};
    CountsAfterWrite(d1, d', dp, e, NoEntry(), x);
  }

  /** Emptying an empty entry changes no name. */
  lemma ErasedNames(d: Disk, d': Disk, dp: nat, e: nat, named: set<(nat, seq<Byte>)>)
    requires DirsOk(d) && EntryWritten(d, d', dp, e, NoEntry()) && Vacant(d, dp, e)
    ensures NamesKept(d, d', named, {})
  {
    hide DirsOk, Cell, DecodeInum, DecodeName, EntryWritten, NoEntry, Vacant, NamesKept, Frame;
    WriteEffect(d, d', dp, e, NoEntry());
    WrittenIsDir(d, d', dp, e, NoEntry());
    VacantTarget(d, dp, e);
    CellOk(d, dp, e);
    NoEntryIsEmpty();
    forall i: nat, y: nat ensures EntryKept(d, d', named, {}, i, y) {
    }
    EntriesKeepNames(d, d', named, {});
  }

  /** Adding the name again and unlinking it, while other links are left. */
  method Relink(img: Image, dp: nat, name: seq<Byte>, x: nat, ghost d: Disk)
    requires Good(img.Disk()) && Dir(img.Disk(), dp) && IsName(name) && name != DOT && name != DOTDOT
    requires !HasName(img.Disk(), dp, name) && x < |img.inodes| && img.inodes[x].typ == T_FILE
    requires DirOk(img.Disk(), dp) && !Full(img.Disk(), dp) && EntryCost(img.Disk(), dp) == 0
    requires 0 < x && 1 <= img.inodes[x].nlink && img.inodes[x].nlink + 1 < USHORT && Frame(d, img.Disk(), {dp, x})
    modifies img
    ensures Good(img.Disk()) && !HasName(img.Disk(), dp, name) && Frame(d, img.Disk(), {dp, x})
    ensures x < |img.inodes| && img.inodes[x].typ == T_FILE && img.inodes[x].nlink == old(img.inodes)[x].nlink
    ensures NamesKept(old(img.Disk()), img.Disk(), {(dp, name)}, {})
  {
    hide NamesKept, Leads, Tree, Rooted, Connected, Unique, IsName, UnlinkDone, Content, Frame, Sound, DirsOk, DirOk,
         Label, Target, Finds, HasName, Full, EntryCost, Owned, FirstNamed, NotNamed, Taken, Linked, Orphans,
         CellWritten;
    ghost var d1 := img.Disk();
    TreeIsSound(d1, 0);
    DirSize(d1, dp);
    FreeName(d1, dp, name);
    var w;
    ghost var e, mid;
    w, e, mid := DAddEnt(img, dp, name, x, 0);
    ghost var d2 := img.Disk();
    LinkKeepsShape(d1, d2, dp, name, x, e, mid);
    LinkKeepsConnected(d1, d2, dp, name, x, e, mid);
    LinkUniqueIff(d1, d2, dp, name, x, e, mid);
    LinkNames(d1, d2, dp, name, x, e, mid);
    RelinkedFinds(d1, d2, dp, name, x, e, mid);
    StillFound(d2, dp, name, e);
    var u;
    ghost var ip, e1, m;
    u, ip, e1, m := IUnlink(img, dp, name);
    NameUnlinked(d2, img.Disk(), dp, name, e, x, m);
    UnlinkNames(d2, img.Disk(), dp, e, x, m);
    NamesKeptTrans(d1, d2, img.Disk(), {(dp, name)}, {});
    ParentMeansNone(d2, x, dp);
    LinksRemain(d2, img.Disk(), dp, e, x, m);
    FrameTransitive(d, d1, d2, {dp, x}, {dp, x});
    FrameTransitive(d, d2, img.Disk(), {dp, x} + {dp, x}, {dp, x});
    assert {dp, x} + {dp, x} + {dp, x} == {dp, x};
  }

  lemma RelinkedFinds(d: Disk, d': Disk, dp: nat, name: seq<Byte>, x: nat, e: nat, mid: Disk)
    requires Linked(d, d', dp, name, x, e, mid) && IsName(name) && name != DOT && !HasName(d, dp, name) && Dir(d, dp)
    requires x < |d.inodes| && d.inodes[x].nlink + 1 < USHORT
    ensures Finds(d', dp, name, e) && Target(d', dp, e) == x && Dir(d', dp) && |d'.inodes| == |d.inodes|
    ensures d'.inodes[x].nlink == d.inodes[x].nlink + 1 && d'.inodes[x].typ == d.inodes[x].typ
  {
    hide Linked, Frame, Cell, Encode, DecodeInum, DecodeName, IsName;
    LinkedEffect(d, d', dp, name, x, e, mid);
    LinkedRange(d, d', dp, name, x, e, mid);
    EncodeName(x, name);
    FreeLabel(d, dp, name);
    forall y: nat | y < e ensures Label(d', dp, y) != name {
      assert Label(d, dp, y) != name;
    }
  }

  lemma ParentMeansNone(d: Disk, x: nat, rp: nat)
    requires !Dir(d, x)
    ensures !Orphans(d, x, rp)
  {
    if x < |d.inodes| {
      NoDirBytes(d, x);
    }
  }

  // ----- a source named "." or ".."

  /** Redirecting ".." when nothing is owed makes a count wrong, whatever it named before. */
  lemma UnowedParent(d: Disk, d': Disk, pip: nat, cip: nat, e: nat, mid: Disk, q: nat)
    requires Tree(d, 0) && ParentSet(d, d', pip, cip, e, mid) && Orphans(d, cip, q) && 0 < q < |d.inodes|
    requires Dir(d, cip) && d.inodes[q].typ != 0 && d.inodes[pip].typ != 0
    ensures !Tree(d', 0)
  {
    hide Sound, DirsOk, Links, Content, EntryBytes, CName, DecodeInum, Encode, EntryWritten, EntryOk, Orphans,
         FirstNamed;
    TreeIsSound(d, 0);
    var bytes := Encode(pip, DOTDOT);
    EncodeDecode(pip, DOTDOT);
    ParentLinks(d, cip, e, q);
    EntryWrittenIsSound(d, mid, cip, e, bytes);
    LinkedPlace(d, mid, cip, e, bytes);
    ParentEntryOk(d, cip, pip);
    DirsOkAfterWrite(d, mid, cip, e, bytes);
    CountsAfterWrite(d, mid, cip, e, bytes, q);
    CountsAfterNlink(mid, pip, (d.inodes[pip].nlink + 1) % USHORT, q);
    assert LinkCountOk(d, q, 0);
    FirstNamedInside(d, cip, e);
    assert OldWeight(d, cip, e, q) == 1;
    assert !LinkCountOk(d', q, 0);
  }

  lemma FirstNamedInside(d: Disk, i: nat, e: nat)
    requires i < |d.inodes| && DirOk(d, i) && FirstNamed(Content(d, i), DOTDOT, e)
    ensures ENTRY * e + ENTRY <= d.inodes[i].size
  {
    hide Content, EntryBytes, CName, EntryOk;
  }

  lemma ParentEntryOk(d: Disk, cip: nat, pip: nat)
    requires 0 < pip < |d.inodes| <= USHORT && d.inodes[pip].typ != 0
    ensures EntryOk(d, cip, Encode(pip, DOTDOT))
  {
    hide CName, DecodeInum, Encode;
    EncodeDecode(pip, DOTDOT);
  }

  /**
   The mv command when the source's last name is "." or "..": unlink refuses it, but its result is ignored, and
   ".." is redirected all the same. Whether or not there was room for the new name, the counts are wrong.
   */
  method MoveDots(img: Image, oldp: nat, sname: seq<Byte>, newp: nat, dname: seq<Byte>, sip: nat)
    returns (r: Outcome<int>)
    requires Good(img.Disk()) && Dir(img.Disk(), oldp) && Dir(img.Disk(), newp) && IsName(dname)
    requires (sname == DOT || sname == DOTDOT) && sip == Target(img.Disk(), oldp, if sname == DOT then 0 else 1)
    requires sip != ROOT && !HasName(img.Disk(), newp, dname)
    modifies img
    ensures newp < |old(img.inodes)| && old(img.inodes[newp]).size <= MAXFILE * BSIZE
    ensures r.Fatal? <==>
      !Full(old(img.Disk()), newp) && FreeBlocks(old(img.Disk())) < EntryCost(old(img.Disk()), newp)
    ensures r.Ok? ==> r == Ok(0) && !Tree(img.Disk(), 0)
  {
    hide Tree, Rooted, Connected, Unique, Content, Frame, Sound, DirsOk, DirOk, Label, HasName, Full, EntryCost, Owned,
         NotNamed, Taken, Linked, Orphans, FreeBlocks, UnlinkDone, ParentSet;
    ghost var d := img.Disk();
    TreeIsSound(d, 0);
    DirSize(d, newp);
    DirFacts(d, oldp);
    FreeName(d, newp, dname);
    DotsSource(d, oldp, sip, newp, dname);
    var w;
    ghost var e, mid;
    w, e, mid := DAddEnt(img, newp, dname, sip, 0);
    if w.Fatal? {
      return Fatal;
    }
    ghost var d1 := img.Disk();
    ghost var q := DotsLinked(d, d1, newp, dname, sip, e, mid, w == Ok(0));
    var u;
    ghost var ip, e1, m;
    u, ip, e1, m := IUnlink(img, oldp, sname);
    ghost var up, mid2;
    u, up, mid2 := DMkParLink(img, newp, sip);
    UnowedParent(d1, img.Disk(), newp, sip, up, mid2, q);
    r := Ok(0);
  }

  lemma DotsSource(d: Disk, oldp: nat, sip: nat, newp: nat, dname: seq<Byte>)
    requires Good(d) && Dir(d, oldp) && Dir(d, newp) && IsName(dname) && !HasName(d, newp, dname)
    requires sip == Target(d, oldp, 0) || sip == Target(d, oldp, 1)
    ensures Dir(d, sip) && dname != DOT && dname != DOTDOT && d.inodes[sip].nlink + 1 < USHORT
  {
    hide Tree, Rooted, Connected, Unique, IsName, Label, HasName;
    DirFacts(d, oldp);
    DirFacts(d, newp);
    FreeLabel(d, newp, dname);
    DotsNamed(d, newp, dname);
    DirLinksBound(d, sip);
  }

  /** With or without the new name, the directory still has a parent. */
  lemma DotsLinked(d: Disk, d1: Disk, newp: nat, dname: seq<Byte>, sip: nat, e: nat, mid: Disk, added: bool)
    returns (q: nat)
    requires Good(d) && Tree(d1, 0) && Dir(d, sip) && Dir(d, newp) && IsName(dname) && dname != DOT && dname != DOTDOT
    requires if added then Linked(d, d1, newp, dname, sip, e, mid) else d1 == d
    ensures SameTypes(d, d1) && Sound(d1) && DirsOk(d1)
    ensures Orphans(d1, sip, q) && 0 < q < |d1.inodes| && d1.inodes[q].typ != 0
  {
    hide Tree, Rooted, Connected, Unique, IsName, Linked, Frame, Cell, Encode, DecodeInum, DecodeName, Sound, DirsOk,
         Orphans, Content, DirOk, FirstNamed, Owned;
    TreeIsSound(d1, 0);
    DirFacts(d, sip);
    RootFacts(d);
    q := Parent(d, sip);
    if added {
      LinkedEffect(d, d1, newp, dname, sip, e, mid);
      LinkedWhere(d, d1, newp, dname, sip, e, mid);
      LinkedRange(d, d1, newp, dname, sip, e, mid);
      EncodeName(sip, dname);
      SecondPlace(d, newp, e);
      DottedKept(d, d1, sip);
      assert Cell(d1, sip, 1) == Cell(d, sip, 1);
    }
    ParentMeans(d1, sip, q);
  }
}
